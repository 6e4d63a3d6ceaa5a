/**
 Whole runs of the report queue under the calls the firmware makes: sensor records
 replace, RF diagnostics never do (firmware/nrf54l15/src/rf_receiver.c:134-162).
 */
module ReportRuns {
  import opened Bytes
  import opened Reports
  import opened ReportBuilders
  import RoundRobin

  datatype Event =
    | Sample(record: Record)
    | Diagnostic(record: Record)
    | NextCall(now: int)
    | SetAddress(id: nat, address: u64)
    | Clear

  predicate Enqueues(e: Event) { e.Sample? || e.Diagnostic? }

  // What the receiver checks before it enqueues, and the diagnostic it writes.
  predicate Usual(e: Event) {
    match e
    case Sample(r) => r.Sensor() && r.data[1] < 32
    case Diagnostic(r) => r.data[0] == 251 && r.data[1] == 255
    case _ => true
  }

  function Apply(b: Builder, e: Event): Builder {
    match e
    case Sample(r) => Enqueue(b, r, true)
    case Diagnostic(r) => Enqueue(b, r, false)
    case NextCall(now) => Next(b, now)
    case SetAddress(id, address) => SetTracker(b, id, address)
    case Clear => ClearTrackers(b)
  }

  function Run(b: Builder, h: seq<Event>): Builder {
    if h == [] then b else Apply(Run(b, h[..|h| - 1]), h[|h| - 1])
  }

  function Booted(): Builder {
    Builder([], Zeros48(), 0, -100, 0)
  }

  ghost predicate AllUsual(h: seq<Event>) {
    forall i :: 0 <= i < |h| ==> Usual(h[i])
  }

  // ---- How full the ring can get ----

  // Sensor records have ids below 32, no two the same; everything else is a diagnostic.
  ghost predicate OnePerTracker(q: seq<Record>) {
    && (forall i :: 0 <= i < |q| ==> if q[i].Sensor() then q[i].data[1] < 32 else q[i].data[0] == 251)
    && (forall i, j :: 0 <= i < j < |q| && q[i].Sensor() && q[j].Sensor() ==> q[i].data[1] != q[j].data[1])
  }

  lemma KeepsOnePerTracker(b: Builder, e: Event)
    requires OnePerTracker(b.queue) && Usual(e)
    ensures OnePerTracker(Apply(b, e).queue)
  {
    match e {
      case Sample(r) => SampleKeepsOne(b, r);
      case Diagnostic(r) =>
      case NextCall(now) =>
      case _ =>
    }
  }

  lemma SampleKeepsOne(b: Builder, r: Record)
    requires OnePerTracker(b.queue) && r.Sensor() && r.data[1] < 32
    ensures OnePerTracker(Enqueue(b, r, true).queue)
  {
    var i := FindSensor(b.queue, r.data[1]);
    hide FindSensor;
    assert i < |b.queue| ==> b.queue[i].data[1] == r.data[1];
  }

  lemma {:induction false} RunKeepsOnePerTracker(b: Builder, h: seq<Event>)
    requires OnePerTracker(b.queue) && AllUsual(h)
    ensures OnePerTracker(Run(b, h).queue)
  {
    if h != [] {
      RunKeepsOnePerTracker(b, h[..|h| - 1]);
      KeepsOnePerTracker(Run(b, h[..|h| - 1]), h[|h| - 1]);
    }
  }

  function Diagnostics(q: seq<Record>): nat {
    if q == [] then 0 else Diagnostics(q[1..]) + if q[0].Sensor() then 0 else 1
  }

  // Queued sensor records of one tracker, and of all trackers with ids below `n`.
  function SensorsOf(q: seq<Record>, id: int): nat {
    if q == [] then 0 else SensorsOf(q[1..], id) + if q[0].Sensor() && q[0].data[1] as int == id then 1 else 0
  }

  function SensorsBelow(q: seq<Record>, n: nat): nat {
    if q == [] then 0 else SensorsBelow(q[1..], n) + if q[0].Sensor() && q[0].data[1] < n then 1 else 0
  }

  lemma {:induction false} SensorsNext(q: seq<Record>, n: nat)
    ensures SensorsBelow(q, n + 1) == SensorsBelow(q, n) + SensorsOf(q, n)
  {
    if q != [] {
      SensorsNext(q[1..], n);
    }
  }

  lemma {:induction false} NotQueued(q: seq<Record>, id: int)
    requires forall i :: 0 <= i < |q| && q[i].Sensor() ==> q[i].data[1] as int != id
    ensures SensorsOf(q, id) == 0
  {
    if q != [] {
      NotQueued(q[1..], id);
    }
  }

  lemma {:induction false} AtMostOne(q: seq<Record>, id: int)
    requires OnePerTracker(q)
    ensures SensorsOf(q, id) <= 1
  {
    if q != [] {
      AtMostOne(q[1..], id);
      if q[0].Sensor() && q[0].data[1] as int == id {
        NotQueued(q[1..], id);
      }
    }
  }

  // One pigeonhole a tracker; a tracker with nothing queued leaves its own empty.
  lemma {:induction false} Pigeonholes(q: seq<Record>, n: nat, absent: int)
    requires OnePerTracker(q) && SensorsOf(q, absent) == 0
    ensures SensorsBelow(q, n) <= if 0 <= absent < n then n - 1 else n
  {
    if n > 0 {
      Pigeonholes(q, n - 1, absent);
      SensorsNext(q, n - 1);
      AtMostOne(q, n - 1);
    } else {
      NoneBelowZero(q);
    }
  }

  lemma {:induction false} NoneBelowZero(q: seq<Record>)
    ensures SensorsBelow(q, 0) == 0
  {
    if q != [] {
      NoneBelowZero(q[1..]);
    }
  }

  lemma {:induction false} SensorsAndDiagnostics(q: seq<Record>)
    requires OnePerTracker(q)
    ensures |q| == SensorsBelow(q, 32) + Diagnostics(q)
  {
    if q != [] {
      SensorsAndDiagnostics(q[1..]);
    }
  }

  /**
   A record is only ever dropped behind at least 95 waiting diagnostics, and a sensor
   record only behind 96: the trackers alone can never fill the ring.
   */
  lemma DropNeedsDiagnostics(h: seq<Event>, e: Event)
    requires AllUsual(h) && Usual(e) && Enqueues(e)
    requires Drops(Run(Booted(), h), e.record, e.Sample?)
    ensures Diagnostics(Run(Booted(), h).queue) >= if e.Sample? then 96 else 95
  {
    RunKeepsOnePerTracker(Booted(), h);
    var q := Run(Booted(), h).queue;
    SensorsAndDiagnostics(q);
    var id: int := if e.Sample? then e.record.data[1] else -1;
    NotQueued(q, id);
    Pigeonholes(q, 32, id);
  }

  // ---- Every enqueued record is accounted for, and none overtakes ----

  // Records are known by the position of their event in the history.
  datatype Track = Track(
    waiting: seq<nat>, delivered: seq<nat>, replaced: nat, dropped: nat, cleared: nat)

  function Trace(h: seq<Event>): Track {
    if h == [] then Track([], [], 0, 0, 0) else
    var n := |h| - 1;
    var b, t := Run(Booted(), h[..n]), Trace(h[..n]);
    match h[n]
    case Sample(r) => TraceEnqueue(b, t, n, r, true)
    case Diagnostic(r) => TraceEnqueue(b, t, n, r, false)
    case NextCall(now) =>
      if Pending(b, now) && Taken(b) <= |t.waiting| then
        t.(delivered := t.delivered + t.waiting[..Taken(b)], waiting := t.waiting[Taken(b)..])
      else t
    case SetAddress(_, _) => t
    case Clear => t.(waiting := [], cleared := t.cleared + |t.waiting|)
  }

  function TraceEnqueue(b: Builder, t: Track, n: nat, r: Record, replace: bool): Track {
    var i := FindSensor(b.queue, r.data[1]);
    if Replaces(b, r, replace) && i < |t.waiting| then t.(waiting := t.waiting[i := n], replaced := t.replaced + 1)
    else if Drops(b, r, replace) then t.(dropped := t.dropped + 1)
    else t.(waiting := t.waiting + [n])
  }

  function EnqueueCount(h: seq<Event>): nat {
    if h == [] then 0 else EnqueueCount(h[..|h| - 1]) + if Enqueues(h[|h| - 1]) then 1 else 0
  }

  // Everything the reports of a run delivered, in order.
  function Delivered(h: seq<Event>): seq<Record> {
    if h == [] then [] else
    var n := |h| - 1;
    Delivered(h[..n]) +
    match h[n]
    case NextCall(now) => if Pending(Run(Booted(), h[..n]), now) then Emitted(Run(Booted(), h[..n])) else []
    case _ => []
  }

  // The positions name enqueues, and these are the records at them.
  ghost predicate Names(h: seq<Event>, positions: seq<nat>, records: seq<Record>) {
    && |positions| == |records|
    && forall i :: 0 <= i < |positions| ==>
         positions[i] < |h| && Enqueues(h[positions[i]]) && h[positions[i]].record == records[i]
  }

  lemma NamesCarry(h: seq<Event>, n: nat, positions: seq<nat>, records: seq<Record>)
    requires n <= |h| && Names(h[..n], positions, records)
    ensures Names(h, positions, records)
  {
    forall i | 0 <= i < |positions| ensures h[positions[i]] == h[..n][positions[i]] {}
  }

  lemma EnqueueNames(h: seq<Event>, n: nat, b: Builder, t: Track)
    requires n == |h| - 1 && Enqueues(h[n]) && Names(h, t.waiting, b.queue) && b.drops == Wrapped(t.dropped)
    ensures
      var s, after := TraceEnqueue(b, t, n, h[n].record, h[n].Sample?), Enqueue(b, h[n].record, h[n].Sample?);
      && Names(h, s.waiting, after.queue)
      && |s.waiting| + s.replaced + s.dropped == |t.waiting| + t.replaced + t.dropped + 1
      && s.delivered == t.delivered && s.cleared == t.cleared
      && after.drops == Wrapped(s.dropped)
  {
    var r := h[n].record;
    DropsWrap(t.dropped);
    QueueNames(h, t.waiting, b.queue, n, FindSensor(b.queue, r.data[1]));
    hide Names, FindSensor, Wrapped;
  }

  lemma DropsWrap(count: nat)
    ensures (Wrapped(count) + 1) % 0x1_0000_0000 == Wrapped(count + 1)
  {
  }

  lemma QueueNames(h: seq<Event>, waiting: seq<nat>, q: seq<Record>, n: nat, i: nat)
    requires n < |h| && Enqueues(h[n]) && Names(h, waiting, q)
    ensures |waiting| == |q| && Names(h, waiting + [n], q + [h[n].record])
    ensures i < |q| ==> Names(h, waiting[i := n], q[i := h[n].record])
  {
    hide Enqueues;
  }

  // The drop counter is a `uint32_t`.
  function Wrapped(count: nat): u32 { count % 0x1_0000_0000 }

  lemma TakeNames(h: seq<Event>, b: Builder, t: Track, delivered: seq<Record>)
    requires Names(h, t.waiting, b.queue) && Names(h, t.delivered, delivered)
    ensures Names(h, t.waiting[Taken(b)..], b.queue[Taken(b)..])
    ensures Names(h, t.delivered + t.waiting[..Taken(b)], delivered + Emitted(b))
  {
  }

  /** What waits and what was delivered are the records of the events named. */
  lemma {:induction false} Named(h: seq<Event>)
    ensures Names(h, Trace(h).waiting, Run(Booted(), h).queue)
    ensures Names(h, Trace(h).delivered, Delivered(h))
    ensures Run(Booted(), h).drops == Wrapped(Trace(h).dropped)
  {
    if h != [] {
      var n := |h| - 1;
      Named(h[..n]);
      var b, t := Run(Booted(), h[..n]), Trace(h[..n]);
      NamesCarry(h, n, t.waiting, b.queue);
      NamesCarry(h, n, t.delivered, Delivered(h[..n]));
      hide Names, TraceEnqueue, Enqueue, FindSensor, Zeros48, Wrapped, Pending;
      match h[n] {
        case NextCall(now) => TakeNames(h, b, t, Delivered(h[..n]));
        case SetAddress(_, _) =>
        case Clear => NothingNamed(h);
        case _ => EnqueueNames(h, n, b, t);
      }
    }
  }

  /** And nothing is lost count of: enqueued is delivered, waiting, replaced, dropped or cleared. */
  lemma {:induction false} Accounted(h: seq<Event>)
    ensures
      var t := Trace(h);
      EnqueueCount(h) == |t.delivered| + |t.waiting| + t.replaced + t.dropped + t.cleared
  {
    if h != [] {
      var n := |h| - 1;
      Accounted(h[..n]);
      Named(h[..n]);
      var b, t := Run(Booted(), h[..n]), Trace(h[..n]);
      hide Names, TraceEnqueue, FindSensor, Wrapped, Run;
      if Enqueues(h[n]) {
        NamesCarry(h, n, t.waiting, b.queue);
        EnqueueNames(h, n, b, t);
      }
    }
  }

  lemma NothingNamed(h: seq<Event>)
    ensures Names(h, [], [])
  {
  }

  // Records of one tracker form a stream, and so do the diagnostics.
  predicate SameStream(a: Record, b: Record) {
    (a.Sensor() && b.Sensor() && a.data[1] == b.data[1]) || (!a.Sensor() && !b.Sensor())
  }

  ghost predicate InOrder(h: seq<Event>, positions: seq<nat>) {
    && (forall i :: 0 <= i < |positions| ==> positions[i] < |h| && Enqueues(h[positions[i]]))
    && (forall i, j :: 0 <= i < j < |positions| && SameStream(h[positions[i]].record, h[positions[j]].record)
          ==> positions[i] < positions[j])
  }

  /** In each stream the delivered records, then the waiting ones, are in the order they were enqueued. */
  lemma {:induction false} NoneOvertakes(h: seq<Event>)
    requires AllUsual(h)
    ensures InOrder(h, Trace(h).delivered + Trace(h).waiting)
  {
    if h != [] {
      var n := |h| - 1;
      NoneOvertakes(h[..n]);
      Named(h[..n]);
      RunKeepsOnePerTracker(Booted(), h[..n]);
      var b, t := Run(Booted(), h[..n]), Trace(h[..n]);
      OrderCarries(h, n, t.delivered + t.waiting);
      hide InOrder, Names, TraceEnqueue, OnePerTracker;
      match h[n] {
        case NextCall(now) =>
          assert t.delivered + t.waiting[..Taken(b)] + t.waiting[Taken(b)..] == t.delivered + t.waiting;
        case SetAddress(_, _) =>
        case Clear => OrderOfPrefix(h, t.delivered, t.waiting);
        case _ =>
          NamesCarry(h[..n], n, t.waiting, b.queue);
          EnqueueKeepsOrder(h, n, b, t);
      }
    }
  }

  lemma OrderCarries(h: seq<Event>, n: nat, positions: seq<nat>)
    requires n <= |h| && InOrder(h[..n], positions)
    ensures InOrder(h, positions) && forall i :: 0 <= i < |positions| ==> positions[i] < n
  {
    forall i | 0 <= i < |positions| ensures h[positions[i]] == h[..n][positions[i]] {}
  }

  lemma OrderOfPrefix(h: seq<Event>, a: seq<nat>, b: seq<nat>)
    requires InOrder(h, a + b)
    ensures InOrder(h, a + [])
  {
    assert forall i :: 0 <= i < |a| ==> (a + b)[i] == a[i] == (a + [])[i];
  }

  lemma EnqueueKeepsOrder(h: seq<Event>, n: nat, b: Builder, t: Track)
    requires n == |h| - 1 && Enqueues(h[n]) && Usual(h[n]) && OnePerTracker(b.queue)
    requires Names(h[..n], t.waiting, b.queue) && InOrder(h, t.delivered + t.waiting)
    requires forall i :: 0 <= i < |t.delivered + t.waiting| ==> (t.delivered + t.waiting)[i] < n
    ensures
      var s := TraceEnqueue(b, t, n, h[n].record, h[n].Sample?);
      InOrder(h, s.delivered + s.waiting)
  {
    var r := h[n].record;
    var s := TraceEnqueue(b, t, n, r, h[n].Sample?);
    var before, after := t.delivered + t.waiting, s.delivered + s.waiting;
    var d := |t.delivered|;
    if Replaces(b, r, h[n].Sample?) {
      var i := FindSensor(b.queue, r.data[1]);
      assert after == before[d + i := n];
      forall j | d + i < j < |after| ensures !SameStream(r, h[after[j]].record) {
        assert h[..n][t.waiting[j - d]].record == b.queue[j - d];
      }
    } else if !Drops(b, r, h[n].Sample?) {
      assert after == before + [n];
    }
  }

  // ---- Bounded delivery ----

  function NextCalls(h: seq<Event>): nat {
    if h == [] then 0 else NextCalls(h[..|h| - 1]) + if h[|h| - 1].NextCall? then 1 else 0
  }

  // The newest sample of tracker `id` in `h`, or `initial` if there is none.
  function Newest(h: seq<Event>, id: u8, initial: Record): Record {
    if h == [] then initial else
    var e := h[|h| - 1];
    if e.Sample? && e.record.data[1] == id then e.record else Newest(h[..|h| - 1], id, initial)
  }

  lemma FirstIs(q: seq<Record>, id: u8, i: nat)
    requires i < |q| && q[i].Sensor() && q[i].data[1] == id
    requires forall j :: 0 <= j < i ==> !(q[j].Sensor() && q[j].data[1] == id)
    ensures FindSensor(q, id) == i
  {
    assert FindSensor(q, id) <= i;
  }

  lemma NextWaits(b: Builder, now: int, id: u8, k: nat)
    requires 3 <= k < |b.queue| && FindSensor(b.queue, id) == k
    ensures
      var after := Next(b, now).queue;
      k - 3 < |after| && FindSensor(after, id) == k - 3 && after[k - 3] == b.queue[k]
  {
    var after := Next(b, now).queue;
    forall j | 0 <= j < k - 3 ensures after[j] == b.queue[j + 3] {}
    FirstIs(after, id, k - 3);
  }

  lemma EnqueueWaits(b: Builder, r: Record, replace: bool, id: u8, k: nat)
    requires k < |b.queue| && FindSensor(b.queue, id) == k && (replace ==> r.Sensor())
    ensures
      var after := Enqueue(b, r, replace).queue;
      && k < |after| && FindSensor(after, id) == k
      && after[k] == if replace && r.data[1] == id then r else b.queue[k]
  {
    var after := Enqueue(b, r, replace).queue;
    forall j | 0 <= j < k ensures !(after[j].Sensor() && after[j].data[1] == id) {
      assert !(b.queue[j].Sensor() && b.queue[j].data[1] == id);
    }
    FirstIs(after, id, k);
  }

  lemma StepWaits(b: Builder, e: Event, id: u8, k: nat)
    requires Usual(e) && !e.Clear? && k < |b.queue| && FindSensor(b.queue, id) == k
    requires e.NextCall? ==> k >= 3
    ensures
      var after, place := Apply(b, e), if e.NextCall? then k - 3 else k;
      && place < |after.queue| && FindSensor(after.queue, id) == place
      && after.queue[place] == if e.Sample? && e.record.data[1] == id then e.record else b.queue[k]
  {
    hide Next, Enqueue, FindSensor;
    match e {
      case NextCall(now) => NextWaits(b, now, id, k);
      case Sample(r) => EnqueueWaits(b, r, true, id, k);
      case Diagnostic(r) => EnqueueWaits(b, r, false, id, k);
      case _ =>
    }
  }

  // Until it leaves, a queued sample moves up three places a report and stays the newest.
  lemma {:induction false} Waits(b: Builder, h: seq<Event>, id: u8, p: nat)
    requires AllUsual(h) && Clear !in h
    requires p < |b.queue| && FindSensor(b.queue, id) == p && 3 * NextCalls(h) <= p
    ensures
      var q, k := Run(b, h).queue, p - 3 * NextCalls(h);
      k < |q| && FindSensor(q, id) == k && q[k] == Newest(h, id, b.queue[p])
  {
    hide Apply, FindSensor;
    if h != [] {
      var n := |h| - 1;
      Waits(b, h[..n], id, p);
      StepWaits(Run(b, h[..n]), h[n], id, p - 3 * NextCalls(h[..n]));
    }
  }

  /**
   Whatever is enqueued meanwhile, the sample queued at place `p` leaves in the report
   after `p / 3` others, as the newest one its tracker has sent by then.
   */
  lemma DeliveredInTime(b: Builder, h: seq<Event>, id: u8, p: nat, now: int)
    requires AllUsual(h) && Clear !in h
    requires p < |b.queue| && FindSensor(b.queue, id) == p && NextCalls(h) == p / 3
    ensures Pending(Run(b, h), now) && p % 3 < |Emitted(Run(b, h))|
    ensures Emitted(Run(b, h))[p % 3] == Newest(h, id, b.queue[p])
  {
    hide Run, Newest, FindSensor, AllUsual, NextCalls, HasRegistration;
    Waits(b, h, id, p);
    LeavesNext(Run(b, h), p % 3, now);
  }

  lemma LeavesNext(b: Builder, k: nat, now: int)
    requires k < 3 && k < |b.queue|
    ensures Pending(b, now) && k < |Emitted(b)| && Emitted(b)[k] == b.queue[k]
  {
    hide HasRegistration;
  }

  /**
   In particular in any run from boot: the one sample of a tracker that waits at place `p`
   leaves in report `p / 3 + 1` from there on, as the newest its tracker has sent by then.
   */
  lemma SampleInTime(h: seq<Event>, more: seq<Event>, p: nat, now: int)
    requires AllUsual(h) && AllUsual(more) && Clear !in more
    requires p < |Run(Booted(), h).queue| && Run(Booted(), h).queue[p].Sensor() && NextCalls(more) == p / 3
    ensures
      var b := Run(Booted(), h);
      var v := Run(b, more);
      && Pending(v, now) && p % 3 < |Emitted(v)|
      && Emitted(v)[p % 3] == Newest(more, b.queue[p].data[1], b.queue[p])
  {
    hide Run, Emitted, Newest, AllUsual;
    var b := Run(Booted(), h);
    RunKeepsOnePerTracker(Booted(), h);
    OnlyOne(b.queue, p);
    hide OnePerTracker, FindSensor;
    DeliveredInTime(b, more, b.queue[p].data[1], p, now);
  }

  lemma OnlyOne(q: seq<Record>, p: nat)
    requires OnePerTracker(q) && p < |q| && q[p].Sensor()
    ensures FindSensor(q, q[p].data[1]) == p
  {
    hide FindSensor;
    FirstIs(q, q[p].data[1], p);
  }

  lemma DiagnosticStays(b: Builder, e: Event, k: nat)
    requires !e.Clear? && k < |b.queue| && !b.queue[k].Sensor() && (e.NextCall? ==> k >= 3)
    ensures
      var q, place := Apply(b, e).queue, if e.NextCall? then k - 3 else k;
      place < |q| && q[place] == b.queue[k]
  {
  }

  lemma {:induction false} DiagnosticWaits(b: Builder, h: seq<Event>, p: nat)
    requires Clear !in h && p < |b.queue| && !b.queue[p].Sensor() && 3 * NextCalls(h) <= p
    ensures
      var q, k := Run(b, h).queue, p - 3 * NextCalls(h);
      k < |q| && q[k] == b.queue[p]
  {
    hide Apply;
    if h != [] {
      var n := |h| - 1;
      DiagnosticWaits(b, h[..n], p);
      DiagnosticStays(Run(b, h[..n]), h[n], p - 3 * NextCalls(h[..n]));
    }
  }

  /** A queued diagnostic leaves after as many reports, unchanged. */
  lemma DiagnosticInTime(b: Builder, h: seq<Event>, p: nat)
    requires Clear !in h && p < |b.queue| && !b.queue[p].Sensor() && NextCalls(h) == p / 3
    ensures p % 3 < |Emitted(Run(b, h))| && Emitted(Run(b, h))[p % 3] == b.queue[p]
  {
    hide Run, NextCalls;
    DiagnosticWaits(b, h, p);
    LeavesNext(Run(b, h), p % 3, 0);
  }

  /** Since the ring never holds more than 127 records, that is within 43 reports. */
  lemma {:induction false} QueueBound(h: seq<Event>)
    ensures |Run(Booted(), h).queue| <= 127
    ensures forall p :: 0 <= p < |Run(Booted(), h).queue| ==> p / 3 + 1 <= 43
  {
    if h != [] {
      QueueBound(h[..|h| - 1]);
    }
  }

  // ---- Every report reads back on the bridge ----

  // What the three slots of a report hold.
  function SlotRecord(records: seq<Record>, ids: seq<TrackerId>, table: Table, slot: nat): ReportRecord {
    if slot < |records| then ReportRecord(records[slot].data, Some(records[slot].metadata))
    else
      var spare := slot - |records|;
      ReportRecord(if spare < |ids| then RegistrationRecord(ids[spare], table[ids[spare]]) else Zeros(16),
                   Some(RecordMetadata(0, 0, 0)))
  }

  lemma {:induction false} DataAt(records: seq<Record>, slot: nat)
    requires slot < |records|
    ensures DataBytes(records)[16 * slot..16 * slot + 16] == records[slot].data
  {
    var n := |records| - 1;
    if slot < n {
      DataAt(records[..n], slot);
      assert DataBytes(records)[16 * slot..16 * slot + 16] == DataBytes(records[..n])[16 * slot..16 * slot + 16];
    }
  }

  lemma {:induction false} RegistrationAt(ids: seq<TrackerId>, table: Table, i: nat)
    requires i < |ids|
    ensures RegistrationBytes(ids, table)[16 * i..16 * i + 16] == RegistrationRecord(ids[i], table[ids[i]])
  {
    var n := |ids| - 1;
    if i < n {
      RegistrationAt(ids[..n], table, i);
      assert RegistrationBytes(ids, table)[16 * i..16 * i + 16]
          == RegistrationBytes(ids[..n], table)[16 * i..16 * i + 16];
    }
  }

  lemma SlotAt(records: seq<Record>, ids: seq<TrackerId>, table: Table, slot: nat)
    requires |records| + |ids| <= 3 && slot < 3
    ensures ReportOf(records, ids, table)[16 * slot..16 * slot + 16] == SlotRecord(records, ids, table, slot).data
  {
    hide Trailer, RegistrationRecord, Zeros, DataBytes, RegistrationBytes;
    var a, b := DataBytes(records), RegistrationBytes(ids, table);
    var z, t := Zeros(48 - 16 * (|records| + |ids|)), Trailer(records);
    Pieces(a, b, z, t, |records|, |ids|, slot);
    if slot < |records| {
      DataAt(records, slot);
    } else if slot - |records| < |ids| {
      RegistrationAt(ids, table, slot - |records|);
    } else {
      ZeroSlice(48 - 16 * (|records| + |ids|), 16 * (slot - |records| - |ids|));
    }
  }

  lemma ZeroSlice(n: nat, at: nat)
    requires at + 16 <= n
    ensures Zeros(n)[at..at + 16] == Zeros(16)
  {
  }

  lemma Regroup(a: seq<u8>, b: seq<u8>, c: seq<u8>, d: seq<u8>)
    ensures a + b + c + d == a + (b + c + d) && a + b + c + d == a + b + (c + d)
  {
  }

  lemma Pieces(a: seq<u8>, b: seq<u8>, c: seq<u8>, d: seq<u8>, m: nat, n: nat, slot: nat)
    requires |a| == 16 * m && |b| == 16 * n && |a| + |b| + |c| == 48 && slot < 3
    ensures
      var x, at := a + b + c + d, 16 * slot;
      x[at..at + 16] ==
        if slot < m then a[at..at + 16]
        else if slot < m + n then b[at - |a|..at - |a| + 16]
        else c[at - |a| - |b|..at - |a| - |b| + 16]
  {
    var x := a + b + c + d;
    Regroup(a, b, c, d);
    if slot < m {
      FirstPiece(a, b + c + d, x, 16 * slot);
    } else if slot < m + n {
      MiddlePiece(a, b, c + d, x, 16 * (slot - m));
    } else {
      MiddlePiece(a + b, c, d, x, 16 * (slot - m - n));
    }
  }

  lemma FirstPiece(a: seq<u8>, back: seq<u8>, x: seq<u8>, at: nat)
    requires at + 16 <= |a| && x == a + back
    ensures x[at..at + 16] == a[at..at + 16]
  {
  }

  lemma MiddlePiece(front: seq<u8>, s: seq<u8>, back: seq<u8>, x: seq<u8>, at: nat)
    requires at + 16 <= |s| && x == front + s + back
    ensures x[|front| + at..|front| + at + 16] == s[at..at + 16]
  {
  }

  lemma MetadataParts(records: seq<Record>)
    ensures Metadata(records, 3) == MetadataBytes(records, 0) + MetadataBytes(records, 1) + MetadataBytes(records, 2)
  {
    assert Metadata(records, 1) == MetadataBytes(records, 0);
    assert Metadata(records, 2) == Metadata(records, 1) + MetadataBytes(records, 1);
  }

  lemma MetadataAt(records: seq<Record>, slot: nat)
    requires slot < 3 && |records| <= 3
    ensures Trailer(records)[5 + 3 * slot..8 + 3 * slot] == MetadataBytes(records, slot)
  {
    hide MetadataBytes, Metadata, SensorCount;
    MetadataParts(records);
  }

  lemma SlotDecodes(records: seq<Record>, ids: seq<TrackerId>, table: Table, slot: nat)
    requires |records| + |ids| <= 3 && slot < 3
    ensures WithMetadata(ReportOf(records, ids, table), slot) == SlotRecord(records, ids, table, slot)
  {
    var x := ReportOf(records, ids, table);
    SlotAt(records, ids, table, slot);
    MetadataAt(records, slot);
    TrailerEnds(records, ids, table);
    var m := MetadataBytes(records, slot);
    assert x[53 + 3 * slot..56 + 3 * slot] == x[48..][5 + 3 * slot..8 + 3 * slot] == m;
    assert x[53 + 3 * slot] == m[0] && x[54 + 3 * slot] == m[1] && x[55 + 3 * slot] == m[2];
  }

  lemma TrailerEnds(records: seq<Record>, ids: seq<TrackerId>, table: Table)
    requires |records| + |ids| <= 3
    ensures ReportOf(records, ids, table)[48..] == Trailer(records)
  {
  }

  lemma ReportDecodes(records: seq<Record>, ids: seq<TrackerId>, table: Table)
    requires |records| + |ids| <= 3
    ensures DecodeReports(ReportOf(records, ids, table)) == Success([
      SlotRecord(records, ids, table, 0), SlotRecord(records, ids, table, 1), SlotRecord(records, ids, table, 2)])
  {
    var x := ReportOf(records, ids, table);
    TrailerEnds(records, ids, table);
    SignatureHolds(records);
    SlotDecodes(records, ids, table, 0);
    SlotDecodes(records, ids, table, 1);
    SlotDecodes(records, ids, table, 2);
    hide ReportOf, Trailer, SlotRecord, WithMetadata;
    assert x[52] == x[48..][4];
    assert x[..64] == x && x[64..] == [];
    NothingLeft(DecodeReport(x).value);
  }

  lemma SignatureHolds(records: seq<Record>)
    requires |records| <= 3
    ensures HasMetadataSignature(Trailer(records)) && Trailer(records)[4] <= 3
  {
    SensorCountBound(records);
  }

  lemma RegistrationReads(id: TrackerId, address: u48)
    ensures RegistrationRecord(id, address)[0] == 255 && RegistrationRecord(id, address)[1] == id
    ensures address != 0 ==> RegistrationAddress(RegistrationRecord(id, address)) == Some(address)
  {
    var d := RegistrationRecord(id, address);
    assert d[2..8] == Le48(address);
    ReadOfWritten(d, 2);
  }

  // A table with a registration never runs out of them.
  lemma {:induction false} FillsAllSlots(table: Table, cursor: nat, slots: nat)
    requires HasRegistration(table)
    ensures |Registrations(table, cursor, slots).0| == slots
    ensures forall i :: 0 <= i < slots ==> table[Registrations(table, cursor, slots).0[i]] != 0
    decreases slots
  {
    if slots > 0 {
      var id :| 0 <= id < 32 && table[id] != 0;
      var k := RoundRobin.Reaches(cursor, id);
      FindsSome(table, cursor, 0, k);
      FillsAllSlots(table, NextCursor(NextFrom(table, cursor, 0).value), slots - 1);
    }
  }

  lemma {:induction false} FindsSome(table: Table, cursor: nat, offset: nat, k: nat)
    requires offset <= k < 32 && table[Place(cursor, k)] != 0
    ensures NextFrom(table, cursor, offset).Some?
    decreases 32 - offset
  {
    hide Place;
    if table[Place(cursor, offset)] == 0 {
      FindsSome(table, cursor, offset + 1, k);
    }
  }

  /**
   Whatever the builder's state, a report it emits reads back without error as exactly
   three records: the dequeued ones with their metadata, in order; then registrations
   whose address is the table's; blanks only where no tracker is registered.
   */
  lemma EmittedReportDecodes(b: Builder, now: int)
    requires Pending(b, now)
    ensures
      var r := DecodeReports(NextReport(b, now).value);
      && r.Success? && |r.value| == 3
      && (forall s :: 0 <= s < Taken(b) ==>
            r.value[s] == ReportRecord(b.queue[s].data, Some(b.queue[s].metadata)))
      && (forall s :: Taken(b) <= s < 3 ==> SpareSlotReads(b.table, r.value[s]))
  {
    hide DecodeReports, ReportOf, RegistrationRecord, RegistrationAddress, HasRegistration, Registrations,
         SpareSlotReads;
    var records, ids := Emitted(b), EmittedIds(b);
    ReportDecodes(records, ids, b.table);
    forall s | Taken(b) <= s < 3
      ensures SpareSlotReads(b.table, SlotRecord(records, ids, b.table, s))
    {
      SpareSlot(b, s);
    }
  }

  // What stands at a slot and behind the three slots for it.
  ghost predicate LaidOut(x: ReportBytes, q: seq<Record>, n: nat, s: nat)
    requires n <= |q| && s < 3
  {
    if s < n then
      && x[16 * s..16 * s + 16] == q[s].data
      && x[53 + 3 * s] == q[s].metadata.sequence
      && x[54 + 3 * s] == q[s].metadata.rssi
      && x[55 + 3 * s] == q[s].metadata.flags
    else x[53 + 3 * s] == x[54 + 3 * s] == x[55 + 3 * s] == 0
  }

  lemma SlotLaidOut(records: seq<Record>, ids: seq<TrackerId>, table: Table, s: nat)
    requires |records| + |ids| <= 3 && s < 3
    ensures LaidOut(ReportOf(records, ids, table), records, |records|, s)
  {
    SlotAt(records, ids, table, s);
    MetadataAt(records, s);
    TrailerEnds(records, ids, table);
    hide ReportOf, Trailer;
    var x, m := ReportOf(records, ids, table), MetadataBytes(records, s);
    assert x[53 + 3 * s..56 + 3 * s] == x[48..][5 + 3 * s..8 + 3 * s] == m;
    assert x[53 + 3 * s] == m[0] && x[54 + 3 * s] == m[1] && x[55 + 3 * s] == m[2];
  }

  // Whether slot `s` holds a record of an RF packet.
  function Sensed(q: seq<Record>, n: nat, s: nat): nat
    requires n <= |q|
  {
    if s < n && q[s].data[0] <= 223 then 1 else 0
  }

  lemma CountSensed(records: seq<Record>)
    requires |records| <= 3
    ensures SensorCount(records)
         == Sensed(records, |records|, 0) + Sensed(records, |records|, 1) + Sensed(records, |records|, 2)
  {
    if |records| > 1 {
      assert records[..|records| - 1][..|records| - 2] == records[..|records| - 2];
    }
    if |records| > 2 {
      assert records[..1][..0] == [];
    }
  }

  lemma FrameLaidOut(records: seq<Record>, ids: seq<TrackerId>, table: Table)
    requires |records| + |ids| <= 3
    ensures
      var x := ReportOf(records, ids, table);
      && x[48] == 0xfa && x[49] == 0xff && x[50] == 0xd6 && x[51] == 1 && x[52] == SensorCount(records)
      && x[62] == 0 && x[63] == 0x6d
  {
    TrailerEnds(records, ids, table);
    hide ReportOf, SensorCount, Metadata;
    var x, t := ReportOf(records, ids, table), Trailer(records);
    assert x[48] == t[0] && x[49] == t[1] && x[50] == t[2] && x[51] == t[3] && x[52] == t[4] && x[62] == t[14]
      && x[63] == t[15];
  }

  /**
   The bytes of a report: the dequeued records in order in the first slots, and behind the
   three slots the marker, the version, how many of the records are sensor records and, for
   each record, its sequence number, signal strength and flags.
   */
  lemma ReportLayout(b: Builder, now: int)
    requires Pending(b, now)
    ensures
      var x := NextReport(b, now).value;
      var q, n := b.queue, Taken(b);
      && x[48] == 0xfa && x[49] == 0xff && x[50] == 0xd6 && x[51] == 1 && x[62] == 0 && x[63] == 0x6d
      && x[52] == Sensed(q, n, 0) + Sensed(q, n, 1) + Sensed(q, n, 2)
      && forall s :: 0 <= s < 3 ==> LaidOut(x, q, n, s)
  {
    var records, ids := Emitted(b), EmittedIds(b);
    hide Registrations, ReportOf, HasRegistration;
    FrameLaidOut(records, ids, b.table);
    CountSensed(records);
    forall s | 0 <= s < 3 ensures LaidOut(ReportOf(records, ids, b.table), b.queue, Taken(b), s) {
      SlotLaidOut(records, ids, b.table, s);
    }
  }

  ghost predicate SpareSlotReads(table: Table, r: ReportRecord) {
    r.metadata == Some(RecordMetadata(0, 0, 0)) &&
    if HasRegistration(table) then
      r.data[1] < 32 && table[r.data[1]] != 0 && RegistrationAddress(r.data) == Some(table[r.data[1]])
    else r.data == Zeros(16)
  }

  lemma SpareSlot(b: Builder, s: nat)
    requires Taken(b) <= s < 3
    ensures SpareSlotReads(b.table, SlotRecord(Emitted(b), EmittedIds(b), b.table, s))
  {
    hide RegistrationRecord, RegistrationAddress, HasRegistration;
    if HasRegistration(b.table) {
      hide Registrations;
      FillsAllSlots(b.table, b.cursor, 3 - Taken(b));
      var id := EmittedIds(b)[s - Taken(b)];
      RegistrationReads(id, b.table[id]);
    } else {
      FindsNone(b.table, b.cursor, 0);
    }
  }

  lemma {:induction false} FindsNone(table: Table, cursor: nat, offset: nat)
    requires !HasRegistration(table)
    ensures NextFrom(table, cursor, offset).None?
    decreases 32 - offset
  {
    if offset < 32 {
      FindsNone(table, cursor, offset + 1);
    }
  }
}
