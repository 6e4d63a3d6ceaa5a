/**
 Whole runs of one receiver (firmware/nrf54l15/src/rf_receiver.c:94-395): which trackers it
 serves, and what its report queue holds. What the radio brings is the history of enqueues
 that module ReportRuns is about, so its bounds are bounds on the receiver.
 */
module ReceiverRuns {
  import opened Bytes
  import opened Reports
  import opened ReportBuilders
  import Runs = ReportRuns
  import opened RfReceivers

  datatype Node = Node(receiver: Receiver, builder: Builder)

  datatype Step =
    | Radio(packet: RfPacket)
    | Pairing(request: PairRequest)
    | SetPairing(on: bool)
    | Persist
    | Build(now: int)
    | Clear
    | Join(secondary: bool, works: bool)

  // Entries from the count on are free, and no address is in a primary's table twice.
  ghost predicate Orderly(r: Receiver) {
    && r.count <= 32
    && (forall i :: r.count <= i < 32 ==> r.table[i] == 0)
    && (r.primary ==> forall i, j :: 0 <= i < j < 32 && r.table[i] != 0 ==> r.table[i] != r.table[j])
  }

  function Take(n: Node, e: Step): (t: Node)
    requires n.receiver.count <= 32
    ensures t.receiver.count <= 32
  {
    var Node(r, b) := n;
    match e
    case Radio(p) => var (v, c) := HandleRf(r, b, p); Node(v, c)
    case Pairing(q) => var (v, c) := HandlePair(r, b, q); Node(v, c)
    case SetPairing(on) => Node(r.(pairing := if on then r.pairing || r.primary else false), b)
    case Persist => Node(r.(persist := if r.persist == [] then [] else r.persist[1..]), b)
    case Build(now) => Node(r, Next(b, now))
    case Clear => Node(AfterClear(r), ClearTrackers(b))
    case Join(secondary, works) => Node(AfterGroup(r, secondary, works), if works then ClearTrackers(b) else b)
  }

  function Run(n: Node, steps: seq<Step>): (t: Node)
    requires n.receiver.count <= 32
    ensures t.receiver.count <= 32
  {
    if steps == [] then n else Take(Run(n, steps[..|steps| - 1]), steps[|steps| - 1])
  }

  // A receiver as it boots, with the trackers its storage loaded.
  function Boot(primary: bool, stored: Table, count: nat): Node {
    Node(Receiver(primary, primary && count == 0, stored, count, 0, 0, 0, []), Builder([], stored, 0, -100, 0))
  }

  ghost predicate Loadable(primary: bool, stored: Table, count: nat) {
    Orderly(Boot(primary, stored, count).receiver)
  }

  // ---- The trackers it serves ----

  // An intact packet of a tracker in the table; a secondary also takes one for a free id.
  predicate Welcome(r: Receiver, p: RfPacket) {
    && p.version == 2 && p.crcOk && p.data[0] <= 223 && p.data[1] < 32 && p.address != 0
    && (r.table[p.data[1]] == p.address || (!r.primary && r.table[p.data[1]] == 0))
  }

  lemma WelcomeIsAdmitted(r: Receiver, p: RfPacket)
    requires Orderly(r)
    ensures Welcome(r, p) <==> p.version == 2 && p.crcOk && Admits(r, p)
  {
  }

  // A request that a primary in pairing mode accepts.
  predicate Asks(r: Receiver, q: PairRequest) {
    r.primary && r.pairing && q.wellFormed && q.address != 0
  }

  // A record to store of the entry with this address, and of the count as it is now.
  predicate Records(r: Receiver, record: PersistRecord, address: u48) {
    && r.table[record.id] == record.address == address && record.id < r.count == record.count
    && record.generation == r.generation
  }

  /**
   A tracker that asks again keeps its id, and a new one gets the next id, if one is left.
   Either way it is answered if one of the eight places for records to store is free, and
   the record says which id the table now gives to its address.
   */
  lemma PairingStep(r: Receiver, b: Builder, q: PairRequest)
    requires Orderly(r) && b.table == r.table
    ensures
      var (v, c) := HandlePair(r, b, q);
      var known := q.address in r.table[..r.count];
      && (if Asks(r, q) && r.count < 32 && !known
          then v.table == r.table[r.count := q.address] && v.count == r.count + 1 && c == b.(table := v.table)
          else v.table == r.table && v.count == r.count && c == b)
      && (Acknowledges(r, q) <==> Asks(r, q) && (known || r.count < 32) && |r.persist| < 8)
      && (if Acknowledges(r, q)
          then |v.persist| == |r.persist| + 1 && v.persist[..|r.persist|] == r.persist
               && Records(v, v.persist[|r.persist|], q.address)
          else v.persist == r.persist)
  {
    if Asks(r, q) {
      var id := FindAddress(r.table, q.address, r.count);
      if id < r.count {
        assert r.table[..r.count][id] == q.address;
        assert r.table[id := q.address] == r.table;
      } else {
        assert q.address !in r.table[..r.count];
      }
    }
  }

  ghost predicate NodeOrderly(n: Node) {
    Orderly(n.receiver) && n.builder.table == n.receiver.table
  }

  lemma RadioOrderly(r: Receiver, b: Builder, p: RfPacket)
    requires Orderly(r) && b.table == r.table
    ensures Orderly(HandleRf(r, b, p).0) && HandleRf(r, b, p).1.table == HandleRf(r, b, p).0.table
  {
    hide FindSensor, MakeRecord;
  }

  lemma PairingOrderly(r: Receiver, b: Builder, q: PairRequest)
    requires Orderly(r) && b.table == r.table
    ensures Orderly(HandlePair(r, b, q).0) && HandlePair(r, b, q).1.table == HandlePair(r, b, q).0.table
  {
    PairingStep(r, b, q);
    if Asks(r, q) && r.count < 32 && q.address !in r.table[..r.count] {
      forall i | 0 <= i < r.count ensures r.table[i] != q.address {
        assert r.table[..r.count][i] == r.table[i];
      }
    }
  }

  lemma StepOrderly(n: Node, e: Step)
    requires NodeOrderly(n)
    ensures NodeOrderly(Take(n, e))
  {
    match e {
      case Radio(p) => RadioOrderly(n.receiver, n.builder, p);
      case Pairing(q) => PairingOrderly(n.receiver, n.builder, q);
      case Build(now) => hide Registrations, HasRegistration;
      case _ =>
    }
  }

  lemma {:induction false} RunOrderly(n: Node, steps: seq<Step>)
    requires NodeOrderly(n)
    ensures NodeOrderly(Run(n, steps))
  {
    hide Take;
    if steps != [] {
      RunOrderly(n, steps[..|steps| - 1]);
      StepOrderly(Run(n, steps[..|steps| - 1]), steps[|steps| - 1]);
    }
  }

  lemma OrderlyInRun(primary: bool, stored: Table, count: nat, steps: seq<Step>)
    requires Loadable(primary, stored, count)
    ensures count <= 32 && NodeOrderly(Run(Boot(primary, stored, count), steps))
  {
    RunOrderly(Boot(primary, stored, count), steps);
  }

  // Nothing empties the table.
  ghost predicate Lasting(steps: seq<Step>) {
    forall i :: 0 <= i < |steps| ==> !steps[i].Clear? && !(steps[i].Join? && steps[i].works)
  }

  lemma StepKeepsEntries(n: Node, e: Step, id: TrackerId)
    requires NodeOrderly(n) && !e.Clear? && !(e.Join? && e.works) && n.receiver.table[id] != 0
    ensures Take(n, e).receiver.table[id] == n.receiver.table[id]
  {
    hide Enqueue, MakeRecord, Next;
    match e {
      case Pairing(q) => PairingStep(n.receiver, n.builder, q);
      case _ =>
    }
  }

  lemma StepKeepsRole(n: Node, e: Step)
    requires n.receiver.count <= 32 && !(e.Join? && e.works)
    ensures Take(n, e).receiver.primary == n.receiver.primary
  {
    hide Enqueue, MakeRecord, Next;
  }

  /** Once a tracker has an id, its intact sensor packets are welcome until the table is emptied. */
  lemma {:induction false} StaysWelcome(n: Node, steps: seq<Step>, p: RfPacket)
    requires NodeOrderly(n) && Lasting(steps)
    requires p.version == 2 && p.crcOk && p.data[0] <= 223 && p.data[1] < 32 && p.address != 0
    requires n.receiver.table[p.data[1]] == p.address
    ensures Welcome(Run(n, steps).receiver, p)
  {
    assert n.receiver.count <= 32;
    hide Take, NodeOrderly;
    if steps != [] {
      var k := |steps| - 1;
      StaysWelcome(n, steps[..k], p);
      KeptEntry(n, steps[..k], p.data[1]);
      RunOrderly(n, steps[..k]);
      StepKeepsEntries(Run(n, steps[..k]), steps[k], p.data[1]);
    }
  }

  lemma {:induction false} KeptEntry(n: Node, steps: seq<Step>, id: TrackerId)
    requires NodeOrderly(n) && Lasting(steps) && n.receiver.table[id] != 0
    ensures Run(n, steps).receiver.table[id] == n.receiver.table[id]
  {
    assert n.receiver.count <= 32;
    hide Take, NodeOrderly;
    if steps != [] {
      var k := |steps| - 1;
      KeptEntry(n, steps[..k], id);
      RunOrderly(n, steps[..k]);
      StepKeepsEntries(Run(n, steps[..k]), steps[k], id);
    }
  }

  /**
   After a clear or a group change nothing is known, and what was to be stored belongs to
   an older generation. After a clear a primary takes a tracker that asks at once, under id
   0; after a group change a primary takes none, and a secondary any tracker under any id.
   */
  lemma StartsAfresh(n: Node, e: Step, q: PairRequest, p: RfPacket)
    requires n.receiver.count <= 32 && (e.Clear? || (e.Join? && e.works))
    requires q.wellFormed && q.address != 0
    requires p.version == 2 && p.crcOk && p.data[0] <= 223 && p.data[1] < 32 && p.address != 0
    ensures
      var r, v := n.receiver, Take(n, e).receiver;
      var w := Take(Take(n, e), Pairing(q)).receiver;
      && v.count == 0 && v.table == Zeros48() && v.persist == []
      && v.generation == (r.generation + 1) % 0x1_0000_0000 && Take(n, e).builder.queue == []
      && v.primary == (if e.Clear? then r.primary else !e.secondary)
      && (if e.Clear? && r.primary then w.count == 1 && w.table[0] == q.address else w.count == 0)
      && (Welcome(v, p) <==> !v.primary)
  {
  }

  // ---- What it enqueues ----

  // The record of a sensor packet: its data, with the signal strength in the last byte except in types 1 and 4.
  function SampleOf(p: RfPacket): Record {
    Record(p.data[..15] + [if p.data[0] == 1 || p.data[0] == 4 then p.data[15] else p.rssi],
           RecordMetadata(sequence := p.sequence, rssi := p.rssi, flags := 7))
  }

  // The record of a packet with a wrong CRC, of which only the signal strength and the sequence number are kept.
  function DiagnosticOf(p: RfPacket): Record {
    Record([251, 255, 0, 0, 0, 0, 0, 0, 0, 0, 0, 0, 0, 0, 0, p.rssi],
           RecordMetadata(sequence := p.sequence, rssi := p.rssi, flags := 2))
  }

  function EventsOf(r: Receiver, e: Step): seq<Runs.Event>
    requires r.count <= 32
  {
    match e
    case Radio(p) =>
      if p.version != 2 then []
      else if !p.crcOk then [Runs.Diagnostic(DiagnosticOf(p))]
      else if !Welcome(r, p) then []
      else if r.primary then [Runs.Sample(SampleOf(p))]
      else [Runs.SetAddress(p.data[1], p.address), Runs.Sample(SampleOf(p))]
    case Pairing(q) => if Pairs(r, q) then [Runs.SetAddress(PairedId(r, q), q.address)] else []
    case Build(now) => [Runs.NextCall(now)]
    case Clear => [Runs.Clear]
    case Join(_, works) => if works then [Runs.Clear] else []
    case _ => []
  }

  // The addresses a boot sets, and then everything the run enqueues or asks for.
  function Loads(stored: Table, n: nat): seq<Runs.Event>
    requires n <= 32
  {
    if n == 0 then [] else Loads(stored, n - 1) + [Runs.SetAddress(n - 1, stored[n - 1])]
  }

  function EventsIn(n: Node, steps: seq<Step>): seq<Runs.Event>
    requires n.receiver.count <= 32
  {
    if steps == [] then [] else
    var k := |steps| - 1;
    EventsIn(n, steps[..k]) + EventsOf(Run(n, steps[..k]).receiver, steps[k])
  }

  function History(primary: bool, stored: Table, count: nat, steps: seq<Step>): seq<Runs.Event>
    requires count <= 32
  {
    Loads(stored, 32) + EventsIn(Boot(primary, stored, count), steps)
  }

  lemma MadeOf(p: RfPacket)
    ensures MakeRecord(p.data, p.rssi, p.sequence, SENSOR_FLAGS) == SampleOf(p)
    ensures MakeRecord(DiagnosticData(), p.rssi, p.sequence, DIAGNOSTIC_FLAGS) == DiagnosticOf(p)
  {
  }

  lemma NoEvent(b: Builder)
    ensures Runs.Run(b, []) == b
  {
  }

  lemma OneEvent(b: Builder, x: Runs.Event)
    ensures Runs.Run(b, [x]) == Runs.Apply(b, x)
  {
    hide Runs.Apply;
    assert [x][..0] == [];
  }

  lemma TwoEvents(b: Builder, x: Runs.Event, y: Runs.Event)
    ensures Runs.Run(b, [x, y]) == Runs.Apply(Runs.Apply(b, x), y)
  {
    hide Runs.Apply;
    assert [x, y][..1] == [x];
    OneEvent(b, x);
  }

  lemma {:induction false} RunConcat(b: Builder, h: seq<Runs.Event>, more: seq<Runs.Event>)
    ensures Runs.Run(b, h + more) == Runs.Run(Runs.Run(b, h), more)
  {
    hide Runs.Apply;
    if more == [] {
      assert h + [] == h;
    } else {
      var k := |more| - 1;
      assert (h + more)[..|h| + k] == h + more[..k];
      RunConcat(b, h, more[..k]);
    }
  }

  lemma RadioIsEvents(n: Node, p: RfPacket)
    requires NodeOrderly(n)
    ensures Take(n, Radio(p)).builder == Runs.Run(n.builder, EventsOf(n.receiver, Radio(p)))
    ensures Runs.AllUsual(EventsOf(n.receiver, Radio(p)))
  {
    var r, b := n.receiver, n.builder;
    WelcomeIsAdmitted(r, p);
    MadeOf(p);
    NoEvent(b);
    OneEvent(b, Runs.Diagnostic(DiagnosticOf(p)));
    OneEvent(b, Runs.Sample(SampleOf(p)));
    TwoEvents(b, Runs.SetAddress(p.data[1], p.address), Runs.Sample(SampleOf(p)));
    hide Runs.Run, Enqueue, MakeRecord, Orderly;
  }

  lemma StepIsEvents(n: Node, e: Step)
    requires NodeOrderly(n)
    ensures Take(n, e).builder == Runs.Run(n.builder, EventsOf(n.receiver, e))
    ensures Runs.AllUsual(EventsOf(n.receiver, e))
  {
    var b := n.builder;
    assert n.receiver.count <= 32;
    NoEvent(b);
    OneEvent(b, Runs.Clear);
    hide Runs.Run, Next, ClearTrackers, Pairs, Orderly;
    match e {
      case Radio(p) => RadioIsEvents(n, p);
      case Pairing(q) => OneEvent(b, Runs.SetAddress(PairedId(n.receiver, q), q.address));
      case Build(now) => OneEvent(b, Runs.NextCall(now));
      case _ =>
    }
  }

  lemma {:induction false} RunIsEvents(n: Node, steps: seq<Step>)
    requires NodeOrderly(n)
    ensures Run(n, steps).builder == Runs.Run(n.builder, EventsIn(n, steps))
    ensures Runs.AllUsual(EventsIn(n, steps))
  {
    assert n.receiver.count <= 32;
    hide Take, EventsOf, Runs.Run, Runs.Usual, NodeOrderly;
    if steps == [] {
      NoEvent(n.builder);
    } else {
      var k := |steps| - 1;
      RunIsEvents(n, steps[..k]);
      RunOrderly(n, steps[..k]);
      var m := Run(n, steps[..k]);
      StepIsEvents(m, steps[k]);
      RunConcat(n.builder, EventsIn(n, steps[..k]), EventsOf(m.receiver, steps[k]));
    }
  }

  function Loaded(stored: Table, n: nat): Builder
    requires n <= 32
  {
    Runs.Booted().(table := stored[..n] + Zeros48()[n..])
  }

  lemma LoadOne(stored: Table, n: nat)
    requires n < 32
    ensures SetTracker(Loaded(stored, n), n, stored[n]) == Loaded(stored, n + 1)
  {
    assert (stored[..n] + Zeros48()[n..])[n := stored[n]] == stored[..n + 1] + Zeros48()[n + 1..];
  }

  lemma LoadEnds(stored: Table)
    ensures Loaded(stored, 0) == Runs.Booted() && Loaded(stored, 32) == Runs.Booted().(table := stored)
  {
    assert stored[..0] + Zeros48()[0..] == Zeros48() && stored[..32] + Zeros48()[32..] == stored;
  }

  lemma {:induction false} LoadsFill(stored: Table, n: nat)
    requires n <= 32
    ensures Runs.AllUsual(Loads(stored, n))
    ensures Runs.Run(Runs.Booted(), Loads(stored, n)) == Loaded(stored, n)
  {
    hide Loaded, Runs.Run, SetTracker, Runs.Booted;
    if n == 0 {
      NoEvent(Runs.Booted());
      LoadEnds(stored);
    } else {
      LoadsFill(stored, n - 1);
      var e := Runs.SetAddress(n - 1, stored[n - 1]);
      RunConcat(Runs.Booted(), Loads(stored, n - 1), [e]);
      OneEvent(Loaded(stored, n - 1), e);
      LoadOne(stored, n - 1);
    }
  }

  /**
   In every run from boot the receiver's report queue is what the packets it welcomes and
   the garbled ones make of an empty queue: samples that replace, diagnostics that do not.
   */
  lemma QueueIsHistory(primary: bool, stored: Table, count: nat, steps: seq<Step>)
    requires Loadable(primary, stored, count)
    ensures
      var h := History(primary, stored, count, steps);
      Runs.AllUsual(h) && Run(Boot(primary, stored, count), steps).builder == Runs.Run(Runs.Booted(), h)
  {
    var n := Boot(primary, stored, count);
    LoadsFill(stored, 32);
    LoadEnds(stored);
    RunConcat(Runs.Booted(), Loads(stored, 32), EventsIn(n, steps));
    hide Runs.Run, Runs.Usual, Run, EventsIn, Loads;
    RunIsEvents(n, steps);
  }

  // ---- What its queue holds ----

  ghost predicate Holds(q: seq<Record>, i: nat, id: u8) {
    i < |q| && q[i].data[0] <= 223 && q[i].data[1] == id
  }

  /** The queue never holds two sensor records of one tracker. */
  lemma OneSampleEach(primary: bool, stored: Table, count: nat, steps: seq<Step>, i: nat, j: nat, id: u8)
    requires Loadable(primary, stored, count)
    requires var q := Run(Boot(primary, stored, count), steps).builder.queue; Holds(q, i, id) && Holds(q, j, id)
    ensures i == j
  {
    assert count <= 32;
    QueueIsHistory(primary, stored, count, steps);
    Runs.RunKeepsOnePerTracker(Runs.Booted(), History(primary, stored, count, steps));
    hide Run, Runs.Run, History, Loadable;
  }

  lemma SampleStep(n: Node, p: RfPacket)
    requires NodeOrderly(n) && Welcome(n.receiver, p)
    ensures
      var c, d := Take(n, Radio(p)).builder, Enqueue(n.builder, SampleOf(p), true);
      c.queue == d.queue && c.drops == d.drops
  {
    WelcomeIsAdmitted(n.receiver, p);
    MadeOf(p);
    hide Orderly, MakeRecord, FindSensor;
  }

  lemma DiagnosticStep(n: Node, p: RfPacket)
    requires n.receiver.count <= 32 && p.version == 2 && !p.crcOk
    ensures Take(n, Radio(p)).builder == Enqueue(n.builder, DiagnosticOf(p), false)
  {
    MadeOf(p);
    hide MakeRecord, Enqueue;
  }

  // The record goes to the end of the ring, or is dropped and counted if 127 wait there.
  predicate Appended(b: Builder, c: Builder, r: Record) {
    if |b.queue| < 127 then c.queue == b.queue + [r] && c.drops == b.drops
    else c.queue == b.queue && c.drops == (b.drops + 1) % 0x1_0000_0000
  }

  // Where a sample goes, in a queue with at most one record of its tracker.
  ghost predicate Lands(b: Builder, c: Builder, r: Record) {
    && (forall i: nat :: Holds(b.queue, i, r.data[1]) ==> c.queue == b.queue[i := r] && c.drops == b.drops)
    && ((forall i: nat :: !Holds(b.queue, i, r.data[1])) ==> Appended(b, c, r))
  }

  lemma SampleLands(b: Builder, c: Builder, r: Record)
    requires forall j: nat, k: nat :: Holds(b.queue, j, r.data[1]) && Holds(b.queue, k, r.data[1]) ==> j == k
    requires var d := Enqueue(b, r, true); c.queue == d.queue && c.drops == d.drops
    ensures Lands(b, c, r)
    ensures Drops(b, r, true) <==> |b.queue| >= 127 && forall i: nat :: !Holds(b.queue, i, r.data[1])
  {
    var f := FindSensor(b.queue, r.data[1]);
    hide FindSensor;
    if f < |b.queue| {
      assert Holds(b.queue, f, r.data[1]);
    }
  }

  /**
   After a welcome packet the one sensor record of its tracker is this packet's: in the
   place of the record it had, else at the end. If the ring has no room for that, at least
   96 diagnostics wait in it, and the drop is counted.
   */
  lemma NewestWaits(primary: bool, stored: Table, count: nat, steps: seq<Step>, p: RfPacket)
    requires Loadable(primary, stored, count) && Welcome(Run(Boot(primary, stored, count), steps).receiver, p)
    ensures
      var n := Run(Boot(primary, stored, count), steps);
      var q := n.builder.queue;
      && Lands(n.builder, Take(n, Radio(p)).builder, SampleOf(p))
      && (|q| >= 127 && (forall i: nat :: !Holds(q, i, p.data[1])) ==> Runs.Diagnostics(q) >= 96)
  {
    assert count <= 32;
    var n := Run(Boot(primary, stored, count), steps);
    var q, r := n.builder.queue, SampleOf(p);
    assert r.data[1] == p.data[1] && Runs.Usual(Runs.Sample(r));
    hide Run, Runs.Run, History, Loadable, NodeOrderly, Take, Welcome, Holds, Lands, Enqueue, Drops, SampleOf,
         Runs.AllUsual, Runs.Diagnostics, Runs.Usual;
    OrderlyInRun(primary, stored, count, steps);
    SampleStep(n, p);
    forall j: nat, k: nat | Holds(q, j, p.data[1]) && Holds(q, k, p.data[1]) ensures j == k {
      OneSampleEach(primary, stored, count, steps, j, k, p.data[1]);
    }
    SampleLands(n.builder, Take(n, Radio(p)).builder, r);
    if Drops(n.builder, r, true) {
      QueueIsHistory(primary, stored, count, steps);
      Runs.DropNeedsDiagnostics(History(primary, stored, count, steps), Runs.Sample(r));
    }
  }

  /** A garbled packet is recorded at the end of the queue, or is dropped behind at least 95 of its kind. */
  lemma GarbledWaits(primary: bool, stored: Table, count: nat, steps: seq<Step>, p: RfPacket)
    requires Loadable(primary, stored, count) && p.version == 2 && !p.crcOk
    ensures
      var n := Run(Boot(primary, stored, count), steps);
      && Appended(n.builder, Take(n, Radio(p)).builder, DiagnosticOf(p))
      && (|n.builder.queue| >= 127 ==> Runs.Diagnostics(n.builder.queue) >= 95)
  {
    assert Runs.Usual(Runs.Diagnostic(DiagnosticOf(p)));
    hide Run, Runs.Run, History, Loadable, NodeOrderly, Take, Enqueue, Drops, DiagnosticOf, Appended, Runs.AllUsual,
         Runs.Diagnostics, Runs.Usual;
    OrderlyInRun(primary, stored, count, steps);
    var n := Run(Boot(primary, stored, count), steps);
    DiagnosticStep(n, p);
    DiagnosticLands(n.builder, DiagnosticOf(p));
    if Drops(n.builder, DiagnosticOf(p), false) {
      QueueIsHistory(primary, stored, count, steps);
      Runs.DropNeedsDiagnostics(History(primary, stored, count, steps), Runs.Diagnostic(DiagnosticOf(p)));
    }
  }

  lemma DiagnosticLands(b: Builder, r: Record)
    ensures Appended(b, Enqueue(b, r, false), r)
    ensures Drops(b, r, false) <==> |b.queue| >= 127
  {
  }

  // ---- Its counters ----

  predicate IsWelcome(n: Node, e: Step) { e.Radio? && Welcome(n.receiver, e.packet) }

  predicate IsGarbled(e: Step) { e.Radio? && e.packet.version == 2 && !e.packet.crcOk }

  function Welcomed(n: Node, steps: seq<Step>): nat
    requires n.receiver.count <= 32
  {
    if steps == [] then 0 else
    var k := |steps| - 1;
    Welcomed(n, steps[..k])
    + if IsWelcome(Run(n, steps[..k]), steps[k]) then 1 else 0
  }

  function Garbled(steps: seq<Step>): nat {
    if steps == [] then 0 else
    Garbled(steps[..|steps| - 1]) + if IsGarbled(steps[|steps| - 1]) then 1 else 0
  }

  // The counters are `uint32_t`.
  function Counted(x: u32, one: bool): u32 {
    if one then (x + 1) % 0x1_0000_0000 else x
  }

  lemma CountOne(x: nat, one: bool)
    ensures Counted(Runs.Wrapped(x), one) == Runs.Wrapped(x + if one then 1 else 0)
  {
  }

  lemma StepCounts(n: Node, e: Step)
    requires NodeOrderly(n)
    ensures
      var r, v := n.receiver, Take(n, e).receiver;
      && v.received == Counted(r.received, IsWelcome(n, e))
      && v.crcErrors == Counted(r.crcErrors, IsGarbled(e))
  {
    if e.Radio? {
      WelcomeIsAdmitted(n.receiver, e.packet);
    }
    hide Enqueue, MakeRecord, Next, Orderly;
  }

  lemma {:induction false} RunCounts(n: Node, steps: seq<Step>)
    requires NodeOrderly(n) && n.receiver.received == n.receiver.crcErrors == 0
    ensures Run(n, steps).receiver.received == Runs.Wrapped(Welcomed(n, steps))
    ensures Run(n, steps).receiver.crcErrors == Runs.Wrapped(Garbled(steps))
  {
    assert n.receiver.count <= 32 && Runs.Wrapped(0) == 0;
    hide Take, Welcome, NodeOrderly, Counted, Runs.Wrapped, IsWelcome, IsGarbled;
    if steps != [] {
      var k := |steps| - 1;
      RunCounts(n, steps[..k]);
      RunOrderly(n, steps[..k]);
      StepCounts(Run(n, steps[..k]), steps[k]);
      CountOne(Welcomed(n, steps[..k]), IsWelcome(Run(n, steps[..k]), steps[k]));
      CountOne(Garbled(steps[..k]), IsGarbled(steps[k]));
    }
  }

  /** The status counters count the welcome packets and the garbled ones, clears or not. */
  lemma PacketsCounted(primary: bool, stored: Table, count: nat, steps: seq<Step>)
    requires Loadable(primary, stored, count)
    ensures
      var n := Boot(primary, stored, count);
      && Run(n, steps).receiver.received == Welcomed(n, steps) % 0x1_0000_0000
      && Run(n, steps).receiver.crcErrors == Garbled(steps) % 0x1_0000_0000
  {
    hide Run, Welcomed, Garbled;
    RunCounts(Boot(primary, stored, count), steps);
  }
}
