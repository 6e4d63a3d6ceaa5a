/**
 How pairings reach flash: the radio's interrupt accepts them and queues a record, a
 worker pops first and takes the lock later, and clearing or changing the group bumps a
 generation (firmware/nrf54l15/src/rf_receiver.c:111-125, 184-212, 320-395). Every flash
 write is a step of its own, may fail, and may be the last before a crash.
 */
module PairingPersistence {
  import opened Bytes
  import opened ReportBuilders
  import opened RfReceivers
  import opened ReceiverStores

  // The worker has popped a record, or has also written its entry and still holds the lock.
  datatype Worker = Idle | Holding(record: PersistRecord, stamp: nat) | Halfway(record: PersistRecord, stamp: nat)

  // A clear or a group change holds the lock, with the radio off, from its first step to its last.
  datatype Config = Quiet | Erasing(next: nat, goal: Goal)

  datatype Goal = ClearAll | Join(wasPrimary: bool, wasPairing: bool, wasGroup: u48, written: bool)

  datatype Ack = Ack(id: TrackerId, address: u48, epoch: nat)

  // The last three lines are history: `epoch` counts generations without wrapping, `stamps`
  // gives the epoch of each queued record, `acks` the pairings answered since boot,
  // `accepted` those answered or loaded since the table was last emptied, `dropped` whether
  // a write of the worker failed in this generation, `failed` whether any write ever did,
  // `torn` whether a crash left a clear half done that no later one completed.
  datatype World = World(
    me: u48, group: u48, receiver: Receiver, store: Storage, worker: Worker, config: Config,
    epoch: nat, stamps: seq<nat>, acks: seq<Ack>, accepted: set<(TrackerId, u48)>,
    dropped: bool, failed: bool, overflowed: bool, torn: bool, wrapped: bool)

  datatype Step =
    | Pair(request: PairRequest)
    | Rf(packet: RfPacket)
    | SetPairing(on: bool)
    | Fetch
    | PersistTracker(works: bool)
    | PersistCount(works: bool)
    | BeginClear
    | BeginJoin(secondary: bool, requested: u48, works: bool)
    | Erase(works: bool, restores: bool)
    | EraseCount(works: bool, restores: bool)
    | Crash

  const GENERATIONS: nat := 0x1_0000_0000

  // `rf_receiver_init` on what flash holds.
  function BootedReceiver(me: u48, s: Storage): Receiver {
    var primary := s.group == 0 || s.group == me;
    Receiver(primary, primary && s.count == 0, s.trackers, s.count, 0, 0, 0, [])
  }

  function Booted(w: World): World {
    var s := Loaded(w.store.flash);
    w.(group := if s.group == 0 then w.me else s.group, receiver := BootedReceiver(w.me, s), store := s,
       worker := Idle, config := Quiet, epoch := 0, stamps := [], acks := [], dropped := false,
       torn := w.torn || (w.config.Erasing? && w.config.next > 0))
  }

  function Unlocked(w: World): bool {
    w.config.Quiet? && !w.worker.Halfway?
  }

  function AfterPairing(w: World, q: PairRequest): World
    requires w.receiver.count <= 32
  {
    var r := w.receiver;
    var known := w.(receiver := AfterPair(r, q));
    if !Pairs(r, q) then known
    else if !Acknowledges(r, q) then known.(overflowed := true)
    else known.(stamps := w.stamps + [w.epoch], acks := w.acks + [Ack(PairedId(r, q), q.address, w.epoch)],
                accepted := w.accepted + {(PairedId(r, q), q.address)})
  }

  function Bumped(w: World): World {
    w.(receiver := w.receiver.(generation := (w.receiver.generation + 1) % GENERATIONS),
       epoch := w.epoch + 1, dropped := false, wrapped := w.wrapped || w.epoch + 1 >= GENERATIONS)
  }

  // The end of a clear or a group change. A failed group change puts the old settings back.
  function Finished(w: World, ok: bool, restores: bool): World
    requires w.config.Erasing?
  {
    var empty := w.(receiver := w.receiver.(table := Zeros48(), count := 0, persist := []), stamps := [],
                    config := Quiet);
    match w.config.goal
    case ClearAll => empty.(receiver := empty.receiver.(pairing := w.receiver.primary))
    case Join(wasPrimary, wasPairing, wasGroup, _) =>
      if ok then empty
      else w.(receiver := w.receiver.(primary := wasPrimary, pairing := wasPairing), group := wasGroup,
              store := WithGroup(w.store, if wasPrimary then 0 else wasGroup, restores), config := Quiet)
  }

  // The write of a zero count, after which nothing accepted before can be loaded.
  function CountErased(w: World, works: bool): World {
    w.(store := Emptied(w.store, works), failed := w.failed || !works,
       accepted := if works then {} else w.accepted, torn := w.torn && !works)
  }

  function Take(w: World, e: Step): World {
    match e
    case Pair(q) => if w.config.Erasing? || w.receiver.count > 32 then w else AfterPairing(w, q)
    case Rf(p) => if w.config.Erasing? then w else w.(receiver := AfterRf(w.receiver, p))
    case SetPairing(on) =>
      if !Unlocked(w) || (on && !w.receiver.primary) then w
      else w.(receiver := w.receiver.(pairing := on))
    case Fetch =>
      if !w.worker.Idle? || w.receiver.persist == [] || w.stamps == [] then w
      else w.(worker := Holding(w.receiver.persist[0], w.stamps[0]), stamps := w.stamps[1..],
              receiver := w.receiver.(persist := w.receiver.persist[1..]))
    case PersistTracker(works) =>
      if !w.worker.Holding? || w.config.Erasing? then w
      else if w.worker.record.generation != w.receiver.generation then w.(worker := Idle)
      else w.(store := WithTracker(w.store, w.worker.record.id, w.worker.record.address, works),
              worker := if works then Halfway(w.worker.record, w.worker.stamp) else Idle,
              dropped := w.dropped || !works, failed := w.failed || !works)
    case PersistCount(works) =>
      if !w.worker.Halfway? || w.worker.record.count > 32 then w
      else w.(store := WithCount(w.store, w.worker.record.count, works), worker := Idle,
              dropped := w.dropped || !works, failed := w.failed || !works)
    case BeginClear =>
      if !Unlocked(w) then w else Bumped(w).(config := Erasing(0, ClearAll))
    case BeginJoin(secondary, requested, works) =>
      if !Unlocked(w) || (secondary && requested == 0) then w
      else
        var b := Bumped(w);
        b.(receiver := b.receiver.(primary := !secondary, pairing := false),
           group := if secondary then requested else w.me,
           store := WithGroup(w.store, if secondary then requested else 0, works),
           config := Erasing(0, Join(w.receiver.primary, w.receiver.pairing, w.group, works)),
           failed := w.failed || !works)
    case Erase(works, restores) =>
      if w.config.Quiet? || w.config.next >= w.store.count || w.config.next >= 32 then w
      else if !works then Finished(w, false, restores).(failed := true)
      else w.(store := WithoutEntry(w.store, w.config.next), config := w.config.(next := w.config.next + 1))
    case EraseCount(works, restores) =>
      if w.config.Quiet? || w.config.next != w.store.count then w
      else
        Finished(CountErased(w, works), works && (w.config.goal.Join? ==> w.config.goal.written), restores)
    case Crash => Booted(w)
  }

  function Run(w: World, steps: seq<Step>): World {
    if steps == [] then w else Take(Run(w, steps[..|steps| - 1]), steps[|steps| - 1])
  }

  // ---- What always holds ----

  predicate RecordShape(w: World, record: PersistRecord, stamp: nat) {
    record.id < record.count <= 32 && stamp <= w.epoch && record.generation == stamp % GENERATIONS
  }

  ghost predicate Shape(w: World) {
    && |w.stamps| == |w.receiver.persist| && w.receiver.count <= 32 && w.store.count <= 32
    && w.receiver.generation == w.epoch % GENERATIONS
    && (forall i :: 0 <= i < |w.stamps| ==> RecordShape(w, w.receiver.persist[i], w.stamps[i]))
    && (!w.worker.Idle? ==> RecordShape(w, w.worker.record, w.worker.stamp))
    && (w.worker.Halfway? ==> w.config.Quiet? && w.worker.record.generation == w.receiver.generation)
    && (w.config.Erasing? ==> w.config.next <= w.store.count)
    && (w.epoch >= GENERATIONS ==> w.wrapped)
    && (forall i :: 0 <= i < |w.acks| ==> w.acks[i].epoch <= w.epoch)
    && (w.config.Erasing? ==> NothingCurrent(w))
  }

  // No record about and no pairing answered belongs to the current generation.
  ghost predicate NothingCurrent(w: World) {
    && !w.worker.Halfway? && (w.worker.Holding? ==> w.worker.stamp < w.epoch)
    && (forall i :: 0 <= i < |w.stamps| ==> w.stamps[i] < w.epoch)
    && (forall i :: 0 <= i < |w.acks| ==> w.acks[i].epoch < w.epoch)
  }

  lemma StepKeepsShape(w: World, e: Step)
    requires Shape(w)
    ensures Shape(Take(w, e))
  {
    match e {
      case Pair(q) =>
        if w.config.Quiet? {
          PairShape(w, q);
        }
      case Rf(p) => RfShape(w.receiver, p);
      case SetPairing(_) =>
      case Fetch => WorkerShape(w, e);
      case PersistTracker(_) => WorkerShape(w, e);
      case PersistCount(_) => WorkerShape(w, e);
      case BeginClear => BeginShape(w, e);
      case BeginJoin(_, _, _) => BeginShape(w, e);
      case Erase(_, _) => EraseShape(w, e);
      case EraseCount(_, _) => EraseShape(w, e);
      case Crash =>
    }
  }

  lemma WorkerShape(w: World, e: Step)
    requires Shape(w) && (e.Fetch? || e.PersistTracker? || e.PersistCount?)
    ensures Shape(Take(w, e))
  {
    hide Shape, Take;
    match e {
      case Fetch => FetchShape(w);
      case PersistTracker(works) => TrackerShape(w, works);
      case PersistCount(works) => CountShape(w, works);
    }
  }

  lemma FetchShape(w: World)
    requires Shape(w)
    ensures Shape(Take(w, Fetch))
  {
  }

  lemma TrackerShape(w: World, works: bool)
    requires Shape(w)
    ensures Shape(Take(w, PersistTracker(works)))
  {
  }

  lemma CountShape(w: World, works: bool)
    requires Shape(w)
    ensures Shape(Take(w, PersistCount(works)))
  {
  }

  lemma BeginShape(w: World, e: Step)
    requires Shape(w) && (e.BeginClear? || e.BeginJoin?)
    ensures Shape(Take(w, e))
  {
    NextGeneration(w.epoch);
  }

  lemma EraseShape(w: World, e: Step)
    requires Shape(w) && (e.Erase? || e.EraseCount?)
    ensures Shape(Take(w, e))
  {
    hide Finished, Shape;
    match e {
      case Erase(works, restores) =>
        if w.config.Erasing? && w.config.next < w.store.count {
          EntryErased(w);
          ConfigShape(w);
          FinishedShape(w, false, restores);
          FlagsShape(Finished(w, false, restores), true);
        }
      case EraseCount(works, restores) =>
        if w.config.Erasing? && w.config.next == w.store.count {
          var s := CountErased(w, works);
          CountErasedShape(w, works);
          FinishedShape(s, works && (w.config.goal.Join? ==> w.config.goal.written), restores);
        }
    }
  }

  lemma EntryErased(w: World)
    requires Shape(w) && w.config.Erasing? && w.config.next < w.store.count
    ensures w.config.next < 32
    ensures Shape(w.(store := WithoutEntry(w.store, w.config.next), config := w.config.(next := w.config.next + 1)))
  {
  }

  lemma CountErasedShape(w: World, works: bool)
    requires Shape(w) && w.config.Erasing? && w.config.next == w.store.count
    ensures Shape(CountErased(w, works).(config := Erasing(0, w.config.goal)))
  {
  }

  lemma ConfigShape(w: World)
    requires Shape(w) && w.config.Erasing?
    ensures Shape(w.(config := Erasing(0, w.config.goal)))
  {
  }

  lemma FlagsShape(w: World, failed: bool)
    requires Shape(w)
    ensures Shape(w.(failed := failed))
  {
  }

  lemma FinishedShape(w: World, ok: bool, restores: bool)
    requires w.config.Erasing? && Shape(w.(config := Erasing(0, w.config.goal)))
    ensures Shape(Finished(w, ok, restores))
  {
    var b := w.(config := Erasing(0, w.config.goal));
    var a := Finished(w, ok, restores);
    CountsOf(b);
    FinishedFrame(w, ok, restores);
    hide Shape, Finished;
    if w.config.goal.Join? && !ok {
      QuietShape(b, a);
    } else {
      ForgottenShape(b, a);
    }
  }

  // What the end of a clear or a group change leaves alone.
  lemma FinishedFrame(w: World, ok: bool, restores: bool)
    requires w.config.Erasing?
    ensures
      var a := Finished(w, ok, restores);
      && a.config.Quiet? && a.worker == w.worker && a.epoch == w.epoch && a.acks == w.acks && a.wrapped == w.wrapped
      && a.receiver.generation == w.receiver.generation && a.store.count == w.store.count
      && if w.config.goal.Join? && !ok
         then a.stamps == w.stamps && a.receiver.persist == w.receiver.persist && a.receiver.count == w.receiver.count
         else a.stamps == [] && a.receiver.persist == [] && a.receiver.count == 0
  {
  }

  lemma QuietShape(w: World, a: World)
    requires Shape(w) && a.config.Quiet? && a.receiver.count <= 32 && a.store.count <= 32
    requires a.stamps == w.stamps && a.receiver.persist == w.receiver.persist && a.worker == w.worker
    requires a.receiver.generation == w.receiver.generation && a.epoch == w.epoch && a.acks == w.acks
    requires a.wrapped == w.wrapped
    ensures Shape(a)
  {
    hide NothingCurrent;
  }

  lemma ForgottenShape(w: World, a: World)
    requires Shape(w) && a.config.Quiet? && a.receiver.count <= 32 && a.store.count <= 32
    requires a.stamps == [] && a.receiver.persist == [] && a.worker == w.worker
    requires a.receiver.generation == w.receiver.generation && a.epoch == w.epoch && a.acks == w.acks
    requires a.wrapped == w.wrapped
    ensures Shape(a)
  {
    hide NothingCurrent;
  }

  lemma CountsOf(w: World)
    requires Shape(w)
    ensures w.receiver.count <= 32 && w.store.count <= 32
  {
  }

  lemma RfShape(r: Receiver, p: RfPacket)
    ensures
      var a := AfterRf(r, p);
      && a.generation == r.generation && a.persist == r.persist && a.primary == r.primary
      && (r.primary ==> a.table == r.table && a.count == r.count)
      && (forall id :: 0 <= id < 32 && r.table[id] != 0 ==> a.table[id] == r.table[id])
      && r.count <= a.count && (r.count <= 32 ==> a.count <= 32)
  {
  }

  // What a pairing changes: one free or matching slot, and perhaps one record at the queue's end.
  lemma PairChanges(r: Receiver, q: PairRequest)
    requires r.count <= 32 && Pairs(r, q)
    ensures
      var a, id := AfterPair(r, q), PairedId(r, q);
      && id < 32 && (r.table[id] == 0 || r.table[id] == q.address) && q.address != 0 && r.primary
      && id <= r.count && a.count == (if id == r.count then id + 1 else r.count)
      && (id < r.count ==> r.table[id] == q.address)
      && a.table == r.table[id := q.address]
      && a.generation == r.generation && a.primary == r.primary
      && a.persist == r.persist + if Acknowledges(r, q) then [PersistRecord(id, a.count, q.address, r.generation)] else []
  {
    assert r.persist + [] == r.persist;
  }

  lemma PairShape(w: World, q: PairRequest)
    requires Shape(w) && w.config.Quiet?
    ensures Shape(AfterPairing(w, q))
  {
    hide AfterPair, Pairs, PairedId, Acknowledges;
    if Pairs(w.receiver, q) {
      CountsOf(w);
      PairChanges(w.receiver, q);
      PairTakes(w, q);
      hide AfterPairing, NothingCurrent;
    } else {
      NoPair(w.receiver, q);
      hide Shape;
    }
  }

  lemma PairTakes(w: World, q: PairRequest)
    requires w.receiver.count <= 32 && Pairs(w.receiver, q) && PairedId(w.receiver, q) < 32
    ensures
      var a, r := AfterPairing(w, q), w.receiver;
      var ack := if Acknowledges(r, q) then [Ack(PairedId(r, q), q.address, w.epoch)] else [];
      && a.receiver == AfterPair(r, q) && a.worker == w.worker && a.store == w.store && a.config == w.config
      && a.epoch == w.epoch && a.dropped == w.dropped && a.torn == w.torn && a.wrapped == w.wrapped
      && a.stamps == w.stamps + (if Acknowledges(r, q) then [w.epoch] else []) && a.acks == w.acks + ack
      && a.accepted == w.accepted + (if Acknowledges(r, q) then {(PairedId(r, q), q.address)} else {})
      && a.failed == w.failed && a.overflowed == (w.overflowed || !Acknowledges(r, q))
  {
    hide AfterPair, Pairs, PairedId, Acknowledges;
    assert w.stamps + [] == w.stamps && w.acks + [] == w.acks && w.accepted + {} == w.accepted;
  }

  lemma NoPair(r: Receiver, q: PairRequest)
    requires r.count <= 32 && !Pairs(r, q)
    ensures AfterPair(r, q) == r
  {
  }

  lemma NextGeneration(epoch: nat)
    ensures (epoch % GENERATIONS + 1) % GENERATIONS == (epoch + 1) % GENERATIONS
  {
  }

  // ---- What is still to be written ----

  // The queued records of the current generation, and before them the worker's, if it is one.
  function Current(records: seq<PersistRecord>, stamps: seq<nat>, epoch: nat): seq<PersistRecord>
    requires |records| == |stamps|
  {
    if records == [] then [] else
    (if stamps[0] == epoch then [records[0]] else []) + Current(records[1..], stamps[1..], epoch)
  }

  function InHand(w: World): seq<PersistRecord> {
    if !w.worker.Idle? && w.worker.stamp == w.epoch then [w.worker.record] else []
  }

  function Unwritten(w: World): seq<PersistRecord>
    requires |w.stamps| == |w.receiver.persist|
  {
    InHand(w) + Current(w.receiver.persist, w.stamps, w.epoch)
  }

  lemma {:induction false} CurrentSnoc(records: seq<PersistRecord>, stamps: seq<nat>, epoch: nat, r: PersistRecord)
    requires |records| == |stamps|
    ensures Current(records + [r], stamps + [epoch], epoch) == Current(records, stamps, epoch) + [r]
  {
    if records == [] {
      assert (records + [r])[1..] == [] && (stamps + [epoch])[1..] == [];
    } else {
      assert (records + [r])[1..] == records[1..] + [r] && (stamps + [epoch])[1..] == stamps[1..] + [epoch];
      CurrentSnoc(records[1..], stamps[1..], epoch, r);
    }
  }

  lemma {:induction false} NoneCurrent(records: seq<PersistRecord>, stamps: seq<nat>, epoch: nat)
    requires |records| == |stamps| && forall i :: 0 <= i < |stamps| ==> stamps[i] < epoch
    ensures Current(records, stamps, epoch) == []
  {
    if records != [] {
      NoneCurrent(records[1..], stamps[1..], epoch);
    }
  }

  // With fewer than 2^32 generations, equal generations mean the same epoch.
  lemma SameEpoch(w: World)
    requires Shape(w) && w.epoch < GENERATIONS && !w.worker.Idle?
    ensures w.worker.record.generation == w.receiver.generation <==> w.worker.stamp == w.epoch
  {
  }

  // ---- The part of a world that the invariants are about ----

  datatype Facts = Facts(
    unwritten: seq<PersistRecord>, halfway: bool, stored: nat, mirror: nat, entries: map<TrackerId, u48>,
    table: Table, count: nat, primary: bool, quiet: bool, next: nat, written: bool,
    epoch: nat, acks: seq<Ack>, accepted: set<(TrackerId, u48)>, torn: bool)

  function FactsOf(w: World): Facts
    requires |w.stamps| == |w.receiver.persist|
  {
    Facts(Unwritten(w), w.worker.Halfway?, StoredCount(w.store.flash), w.store.count, w.store.flash.entries,
          w.receiver.table, w.receiver.count, w.receiver.primary, w.config.Quiet?,
          if w.config.Quiet? then 0 else w.config.next,
          w.config.Erasing? && w.config.goal.Join? ==> w.config.goal.written,
          w.epoch, w.acks, w.accepted, w.torn)
  }

  // The answered pairing is in flash, below the count.
  predicate Lodged(f: Facts, a: Ack) {
    a.id < f.stored && a.id in f.entries && f.entries[a.id] == a.address
  }

  // A record of it is still to be written.
  ghost predicate Waits(f: Facts, a: Ack) {
    exists k :: 0 <= k < |f.unwritten| && f.unwritten[k].id == a.id && f.unwritten[k].address == a.address
  }

  // No count still to be written falls short of it.
  predicate Passed(f: Facts, a: Ack) {
    forall k :: 0 <= k < |f.unwritten| ==> a.id < f.unwritten[k].count
  }

  ghost predicate AckFits(f: Facts, a: Ack) {
    a.id < f.count && f.table[a.id] == a.address != 0 && (Waits(f, a) || Passed(f, a))
  }

  // What holds of the current generation whatever writes fail.
  ghost predicate Fits(f: Facts) {
    var u := f.unwritten;
    && (forall k :: 0 <= k < |u| ==> u[k].id < u[k].count <= f.count && f.table[u[k].id] == u[k].address != 0)
    && (forall j, k :: 0 <= j < k < |u| ==> u[j].count <= u[k].count)
    && (f.halfway ==> u != [] && u[0].id in f.entries && f.entries[u[0].id] == u[0].address)
    && (forall i :: 0 <= i < |f.acks| && f.acks[i].epoch == f.epoch ==> AckFits(f, f.acks[i]))
  }

  ghost predicate Safe(f: Facts, a: Ack) { Waits(f, a) || Lodged(f, a) }

  // No pairing answered in the current generation is lost.
  ghost predicate Saved(f: Facts) {
    forall i :: 0 <= i < |f.acks| && f.acks[i].epoch == f.epoch ==> Safe(f, f.acks[i])
  }

  // Flash and RAM agree on `id`, on an accepted pair; only a torn clear leaves nothing there.
  ghost predicate Good(f: Facts, id: TrackerId) {
    && (id in f.entries ==> f.entries[id] == f.table[id] != 0 && (id, f.entries[id]) in f.accepted)
    && (!f.torn ==> id in f.entries)
  }

  // One of the first `n` unwritten records is for `id`.
  ghost predicate Queued(f: Facts, n: nat, id: TrackerId) {
    exists j :: 0 <= j < n && j < |f.unwritten| && f.unwritten[j].id == id
  }

  // The counts in flash, in its copy, in the records and in RAM follow one another.
  ghost predicate Steady(f: Facts) {
    && f.mirror == f.stored && f.written
    && (if f.quiet then f.stored <= f.count else f.unwritten == [] && !f.halfway)
    && (forall k :: 0 <= k < |f.unwritten| ==> f.stored <= f.unwritten[k].count)
  }

  // After a torn clear id 0 stays empty: no pairing can take it.
  ghost predicate Holed(f: Facts) {
    && 0 < f.stored && 0 !in f.entries && (f.quiet && f.primary ==> f.table[0] == 0)
    && (forall k :: 0 <= k < |f.unwritten| ==> f.unwritten[k].id != 0)
  }

  // What holds while no write fails.
  ghost predicate Covered(f: Facts) {
    var u := f.unwritten;
    && Steady(f) && (f.torn ==> Holed(f))
    && (if f.quiet then forall id: TrackerId :: id < f.stored ==> Good(f, id)
        else (forall id: TrackerId :: f.next <= id < f.stored ==> Good(f, id))
             && (forall id: TrackerId :: id < f.next ==> id !in f.entries))
    && (f.quiet && f.primary ==>
          && (forall k, id: TrackerId :: 0 <= k < |u| && id < u[k].count ==> Good(f, id) || Queued(f, k + 1, id))
          && (forall id: TrackerId :: id < f.count ==> Good(f, id) || Queued(f, |u|, id)))
    && (f.quiet && !f.primary ==> u == [])
    && (forall k :: 0 <= k < |u| ==> (u[k].id, u[k].address) in f.accepted)
  }

  ghost predicate NoFailure(w: World) { !w.failed && !w.wrapped && !w.overflowed }

  ghost predicate Inv(w: World) {
    && Shape(w)
    && (w.epoch < GENERATIONS ==> Fits(FactsOf(w)))
    && (w.epoch < GENERATIONS && !w.dropped ==> Saved(FactsOf(w)))
  }

  ghost predicate Whole(w: World) {
    |w.stamps| == |w.receiver.persist| && (NoFailure(w) ==> Covered(FactsOf(w)))
  }

  // ---- The steps, on those facts ----

  function Paired(f: Facts, r: PersistRecord, acknowledged: bool): Facts {
    var added := f.(table := f.table[r.id := r.address], count := r.count);
    if !acknowledged then added
    else added.(unwritten := f.unwritten + [r], acks := f.acks + [Ack(r.id, r.address, f.epoch)],
                accepted := f.accepted + {(r.id, r.address)})
  }

  predicate MayPair(f: Facts, r: PersistRecord) {
    && f.quiet && f.primary && (f.table[r.id] == 0 || f.table[r.id] == r.address) && r.address != 0
    && r.id <= f.count && r.count == (if r.id == f.count then f.count + 1 else f.count)
    && (r.id < f.count ==> f.table[r.id] == r.address)
  }

  lemma WaitsMore(f: Facts, g: Facts, a: Ack)
    requires f.unwritten <= g.unwritten
    ensures Waits(f, a) ==> Waits(g, a)
  {
    if Waits(f, a) {
      var k :| 0 <= k < |f.unwritten| && f.unwritten[k].id == a.id && f.unwritten[k].address == a.address;
      assert g.unwritten[k] == f.unwritten[k];
    }
  }

  lemma PairedFits(f: Facts, r: PersistRecord, acknowledged: bool)
    requires Fits(f) && MayPair(f, r)
    ensures Fits(Paired(f, r, acknowledged))
    ensures Saved(f) ==> Saved(Paired(f, r, acknowledged))
  {
    var g := Paired(f, r, acknowledged);
    forall i | 0 <= i < |g.acks| && g.acks[i].epoch == g.epoch
      ensures AckFits(g, g.acks[i]) && (Saved(f) ==> Safe(g, g.acks[i]))
    {
      if i < |f.acks| {
        assert g.acks[i] == f.acks[i];
        PairedAck(f, r, acknowledged, f.acks[i]);
      } else {
        assert g.unwritten[|f.unwritten|] == r;
      }
    }
  }

  lemma PairedAck(f: Facts, r: PersistRecord, acknowledged: bool, a: Ack)
    requires AckFits(f, a) && MayPair(f, r)
    ensures AckFits(Paired(f, r, acknowledged), a) && (Safe(f, a) ==> Safe(Paired(f, r, acknowledged), a))
  {
    var g := Paired(f, r, acknowledged);
    WaitsMore(f, g, a);
    hide Waits;
  }

  lemma PairedCovered(f: Facts, r: PersistRecord)
    requires Fits(f) && Covered(f) && MayPair(f, r)
    ensures Covered(Paired(f, r, true))
  {
    var g := Paired(f, r, true);
    var n := |f.unwritten|;
    forall id: TrackerId | Good(f, id) ensures Good(g, id) {}
    forall m: nat, id: TrackerId | Queued(f, m, id) ensures Queued(g, m, id) {
      QueuedMore(f, g, m, id);
    }
    assert g.unwritten[n] == r;
    assert Queued(g, n + 1, r.id);
    hide Good;
    forall k, id: TrackerId | 0 <= k < |g.unwritten| && id < g.unwritten[k].count
      ensures Good(g, id) || Queued(g, k + 1, id)
    {
      if k < n {
        assert g.unwritten[k] == f.unwritten[k];
        assert Good(f, id) || Queued(f, k + 1, id);
      } else if id != r.id {
        assert Good(f, id) || Queued(f, n, id);
        QueuedLater(g, n, n + 1, id);
      }
    }
  }

  lemma QueuedMore(f: Facts, g: Facts, m: nat, id: TrackerId)
    requires Queued(f, m, id) && f.unwritten <= g.unwritten
    ensures Queued(g, m, id)
  {
    var j :| 0 <= j < m && j < |f.unwritten| && f.unwritten[j].id == id;
    assert g.unwritten[j].id == id;
  }

  lemma QueuedLater(f: Facts, m: nat, n: nat, id: TrackerId)
    requires m <= n
    ensures Queued(f, m, id) ==> Queued(f, n, id)
  {
  }

  // The worker writes the first record's entry.
  function EntryPut(f: Facts): Facts
    requires f.unwritten != []
  {
    f.(entries := f.entries[f.unwritten[0].id := f.unwritten[0].address], halfway := true)
  }

  lemma EntryPutFits(f: Facts)
    requires Fits(f) && f.unwritten != []
    ensures Fits(EntryPut(f))
    ensures forall a :: AckFits(f, a) && Safe(f, a) ==> Safe(EntryPut(f), a)
  {
    var g := EntryPut(f);
    forall a ensures Waits(f, a) <==> Waits(g, a) {}
    forall i | 0 <= i < |g.acks| && g.acks[i].epoch == g.epoch ensures AckFits(g, g.acks[i]) {
      assert AckFits(f, f.acks[i]);
    }
  }

  lemma EntryPutCovered(f: Facts)
    requires Fits(f) && Covered(f) && f.unwritten != []
    ensures Covered(EntryPut(f))
  {
    var g := EntryPut(f);
    forall id: TrackerId | Good(f, id) ensures Good(g, id) {}
    forall n: nat, id: TrackerId | Queued(f, n, id) ensures Queued(g, n, id) {
      QueuedMore(f, g, n, id);
    }
  }

  // A record leaves the worker's hands, written or not.
  function LetGo(f: Facts, stored: nat, mirror: nat): Facts
    requires f.unwritten != []
  {
    f.(stored := stored, mirror := mirror, unwritten := f.unwritten[1..], halfway := false)
  }

  lemma WaitsAfter(f: Facts, g: Facts, a: Ack)
    requires f.unwritten != [] && g.unwritten == f.unwritten[1..]
    ensures Waits(f, a) <==> (f.unwritten[0].id == a.id && f.unwritten[0].address == a.address) || Waits(g, a)
  {
    if Waits(f, a) {
      var k :| 0 <= k < |f.unwritten| && f.unwritten[k].id == a.id && f.unwritten[k].address == a.address;
      if k > 0 {
        assert g.unwritten[k - 1] == f.unwritten[k];
      }
    }
    if Waits(g, a) {
      var k :| 0 <= k < |g.unwritten| && g.unwritten[k].id == a.id && g.unwritten[k].address == a.address;
      assert f.unwritten[k + 1] == g.unwritten[k];
    }
  }

  lemma LetGoFits(f: Facts, stored: nat, mirror: nat)
    requires Fits(f) && f.unwritten != []
    ensures Fits(LetGo(f, stored, mirror))
  {
    var g := LetGo(f, stored, mirror);
    forall i | 0 <= i < |g.acks| && g.acks[i].epoch == g.epoch ensures AckFits(g, g.acks[i]) {
      assert AckFits(f, f.acks[i]);
      WaitsAfter(f, g, f.acks[i]);
    }
  }

  // Once its count is written as well, what it stood for is in flash.
  function CountPut(f: Facts): Facts
    requires f.unwritten != []
  {
    LetGo(f, f.unwritten[0].count, f.unwritten[0].count)
  }

  lemma CountPutSafe(f: Facts, a: Ack)
    requires Fits(f) && f.halfway && AckFits(f, a) && Safe(f, a)
    ensures Safe(CountPut(f), a)
  {
    WaitsAfter(f, CountPut(f), a);
  }

  lemma CountPutCovered(f: Facts)
    requires Fits(f) && Covered(f) && f.halfway
    ensures Covered(CountPut(f))
  {
    var g, u := CountPut(f), f.unwritten;
    forall id: TrackerId | Good(f, id) ensures Good(g, id) {}
    assert Good(g, u[0].id) by {
      assert (u[0].id, u[0].address) in f.accepted;
    }
    hide Good;
    forall id: TrackerId | id < g.stored ensures Good(g, id) {
      assert Good(f, id) || Queued(f, 0 + 1, id);
      if Queued(f, 1, id) {
        QueuedAfter(f, g, 1, id);
      }
    }
    forall id: TrackerId | g.primary && id < g.count ensures Good(g, id) || Queued(g, |g.unwritten|, id) {
      assert Good(f, id) || Queued(f, |u|, id);
      if Queued(f, |u|, id) {
        QueuedAfter(f, g, |u|, id);
      }
    }
    CountPutQueue(f);
  }

  lemma QueuedAfter(f: Facts, g: Facts, n: nat, id: TrackerId)
    requires n > 0 && Queued(f, n, id) && f.unwritten != [] && g.unwritten == f.unwritten[1..]
    ensures id == f.unwritten[0].id || Queued(g, n - 1, id)
  {
    var j :| 0 <= j < n && j < |f.unwritten| && f.unwritten[j].id == id;
    if j > 0 {
      assert g.unwritten[j - 1].id == id;
    }
  }

  lemma CountPutQueue(f: Facts)
    requires Fits(f) && Covered(f) && f.halfway
    requires forall id: TrackerId | Good(f, id) :: Good(CountPut(f), id)
    requires Good(CountPut(f), f.unwritten[0].id)
    ensures
      var g := CountPut(f);
      f.quiet && f.primary ==> (forall k, id: TrackerId :: 0 <= k < |g.unwritten| && id < g.unwritten[k].count ==>
        Good(g, id) || Queued(g, k + 1, id))
  {
    var g, u := CountPut(f), f.unwritten;
    hide Good;
    forall k, id: TrackerId | f.quiet && f.primary && 0 <= k < |g.unwritten| && id < g.unwritten[k].count
      ensures Good(g, id) || Queued(g, k + 1, id)
    {
      assert g.unwritten[k] == u[k + 1];
      assert Good(f, id) || Queued(f, k + 1 + 1, id);
      if Queued(f, k + 2, id) {
        QueuedAfter(f, g, k + 2, id);
      }
    }
  }

  // A clear or group change begins: everything unwritten belongs to an old generation now.
  function Begun(f: Facts, primary: bool): Facts {
    f.(unwritten := [], halfway := false, quiet := false, next := 0, epoch := f.epoch + 1, primary := primary)
  }

  lemma BegunCovered(f: Facts, primary: bool)
    requires Covered(f) && f.quiet && !f.halfway
    ensures Covered(Begun(f, primary))
  {
    var g := Begun(f, primary);
    forall id: TrackerId | Good(f, id) ensures Good(g, id) {}
  }

  function Erased(f: Facts): Facts
    requires f.next < 32
  {
    f.(entries := f.entries - {f.next}, next := f.next + 1)
  }

  lemma ErasedCovered(f: Facts)
    requires Covered(f) && !f.quiet && f.next < f.stored && f.next < 32
    ensures Covered(Erased(f))
  {
    var g := Erased(f);
    forall id: TrackerId | id != f.next && Good(f, id) ensures Good(g, id) {}
  }

  function EmptiedFacts(f: Facts): Facts {
    f.(unwritten := [], halfway := false, stored := 0, mirror := 0, table := Zeros48(), count := 0, quiet := true,
       next := 0, accepted := {}, torn := false)
  }

  lemma EmptiedCovered(f: Facts)
    requires Covered(f) && !f.quiet
    ensures Covered(EmptiedFacts(f))
  {
  }

  // A secondary learns from the radio, in RAM only.
  lemma LearnedFits(f: Facts, table: Table, count: nat)
    requires Fits(f) && f.count <= count
    requires forall id :: 0 <= id < 32 && f.table[id] != 0 ==> table[id] == f.table[id]
    ensures Fits(f.(table := table, count := count))
    ensures Saved(f) ==> Saved(f.(table := table, count := count))
  {
    var g := f.(table := table, count := count);
    forall a ensures Waits(f, a) <==> Waits(g, a) {}
    forall i | 0 <= i < |g.acks| && g.acks[i].epoch == g.epoch
      ensures AckFits(g, g.acks[i]) && (Saved(f) ==> Safe(g, g.acks[i]))
    {
      assert AckFits(f, f.acks[i]);
    }
  }

  lemma LearnedCovered(f: Facts, table: Table, count: nat)
    requires Covered(f) && f.quiet && f.count <= count && (f.primary ==> table == f.table && count == f.count)
    requires forall id :: 0 <= id < 32 && f.table[id] != 0 ==> table[id] == f.table[id]
    ensures Covered(f.(table := table, count := count))
  {
    var g := f.(table := table, count := count);
    forall id: TrackerId | Good(f, id) ensures Good(g, id) {}
    forall n: nat, id: TrackerId | Queued(f, n, id) ensures Queued(g, n, id) {}
  }

  // A crash leaves what flash holds.
  function Rebooted(f: Facts, primary: bool): Facts
    requires f.stored <= 32
  {
    var table := seq(32, id requires 0 <= id < 32 => if id < f.stored && id in f.entries then f.entries[id] else 0);
    f.(unwritten := [], halfway := false, mirror := f.stored, table := table, count := f.stored, primary := primary,
       quiet := true, next := 0, written := true, epoch := 0, acks := [], torn := f.torn || (!f.quiet && f.next > 0))
  }

  lemma RebootedCovered(f: Facts, primary: bool)
    requires f.stored <= 32 && Covered(f) && f.next <= f.mirror
    ensures Covered(Rebooted(f, primary))
  {
    var g := Rebooted(f, primary);
    if !f.quiet && f.next > 0 {
      var first: TrackerId := 0;
      assert first < f.next && first !in f.entries;
    }
    forall id: TrackerId | id < g.stored ensures Good(g, id) {
      if f.quiet || f.next <= id {
        assert Good(f, id);
      }
    }
  }

  // ---- And every step keeps the invariants ----

  lemma NothingFits(w: World)
    requires Shape(w) && NothingCurrent(w)
    ensures FactsOf(w).unwritten == [] && Inv(w)
  {
    NoneCurrent(w.receiver.persist, w.stamps, w.epoch);
  }

  lemma SameFacts(w: World, a: World)
    requires Inv(w) && Shape(a) && FactsOf(a) == FactsOf(w)
    requires a.epoch == w.epoch && a.dropped == w.dropped && (NoFailure(a) ==> NoFailure(w))
    ensures Inv(a) && (Whole(w) ==> Whole(a))
  {
    LengthsOf(w);
    LengthsOf(a);
    hide Fits, Saved, Covered, Shape;
  }

  lemma PairKeeps(w: World, q: PairRequest)
    requires Inv(w) && w.config.Quiet?
    ensures Inv(AfterPairing(w, q)) && (Whole(w) ==> Whole(AfterPairing(w, q)))
  {
    PairShape(w, q);
    LengthsOf(w);
    CountsOf(w);
    hide Fits, Saved, Covered, FactsOf, Inv, Whole, Shape;
    if !Pairs(w.receiver, q) {
      NoPair(w.receiver, q);
    } else {
      var rec, acknowledged := NewRecord(w, q), Acknowledges(w.receiver, q);
      PairFrame(w, q);
      hide AfterPairing, Pairs, Acknowledges, NewRecord, MayPair;
      PairKept(w, AfterPairing(w, q), rec, acknowledged);
    }
  }

  function NewRecord(w: World, q: PairRequest): PersistRecord
    requires w.receiver.count <= 32 && Pairs(w.receiver, q)
  {
    PersistRecord(PairedId(w.receiver, q), AfterPair(w.receiver, q).count, q.address, w.receiver.generation)
  }

  lemma PairFrame(w: World, q: PairRequest)
    requires w.receiver.count <= 32 && Pairs(w.receiver, q) && |w.stamps| == |w.receiver.persist| && w.config.Quiet?
    ensures
      var a, rec, acknowledged := AfterPairing(w, q), NewRecord(w, q), Acknowledges(w.receiver, q);
      && |a.stamps| == |a.receiver.persist| && a.epoch == w.epoch && a.dropped == w.dropped
      && (NoFailure(a) ==> NoFailure(w) && acknowledged)
      && MayPair(FactsOf(w), rec) && FactsOf(a) == Paired(FactsOf(w), rec, acknowledged)
  {
    var r, acknowledged := w.receiver, Acknowledges(w.receiver, q);
    PairChanges(r, q);
    PairTakes(w, q);
    hide AfterPair, AfterPairing, Pairs, PairedId, Acknowledges, StoredCount, Unwritten;
    PairFacts(w, AfterPairing(w, q), NewRecord(w, q), acknowledged);
  }

  lemma PairKept(w: World, a: World, rec: PersistRecord, acknowledged: bool)
    requires Inv(w) && Shape(a) && MayPair(FactsOf(w), rec)
    requires FactsOf(a) == Paired(FactsOf(w), rec, acknowledged) && a.epoch == w.epoch && a.dropped == w.dropped
    requires NoFailure(a) ==> NoFailure(w) && acknowledged
    ensures Inv(a) && (Whole(w) ==> Whole(a))
  {
    hide Fits, Saved, Covered, FactsOf, Shape, Paired, MayPair;
    LengthsOf(w);
    LengthsOf(a);
    if w.epoch < GENERATIONS {
      PairedFits(FactsOf(w), rec, acknowledged);
    }
    if NoFailure(a) && Whole(w) {
      FewGenerations(w);
      PairedCovered(FactsOf(w), rec);
    }
  }

  lemma LengthsOf(w: World)
    requires Shape(w)
    ensures |w.stamps| == |w.receiver.persist|
  {
  }

  lemma FewGenerations(w: World)
    requires Shape(w) && !w.wrapped
    ensures w.epoch < GENERATIONS
  {
  }

  lemma PairFacts(w: World, a: World, rec: PersistRecord, acknowledged: bool)
    requires |w.stamps| == |w.receiver.persist| && |a.stamps| == |a.receiver.persist|
    requires a.receiver.table == w.receiver.table[rec.id := rec.address] && a.receiver.count == rec.count
    requires a.receiver.primary == w.receiver.primary && a.worker == w.worker && a.store == w.store
    requires a.config == w.config && a.epoch == w.epoch && a.torn == w.torn
    requires a.receiver.persist == w.receiver.persist + if acknowledged then [rec] else []
    requires a.stamps == w.stamps + if acknowledged then [w.epoch] else []
    requires a.acks == w.acks + if acknowledged then [Ack(rec.id, rec.address, w.epoch)] else []
    requires a.accepted == w.accepted + if acknowledged then {(rec.id, rec.address)} else {}
    ensures FactsOf(a) == Paired(FactsOf(w), rec, acknowledged)
  {
    if acknowledged {
      CurrentSnoc(w.receiver.persist, w.stamps, w.epoch, rec);
      assert Unwritten(a) == Unwritten(w) + [rec];
    } else {
      assert a.receiver.persist == w.receiver.persist && a.stamps == w.stamps && a.acks == w.acks;
    }
  }

  lemma RfKeeps(w: World, p: RfPacket)
    requires Inv(w)
    ensures Inv(Take(w, Rf(p))) && (Whole(w) ==> Whole(Take(w, Rf(p))))
  {
    if w.config.Quiet? {
      var a := Take(w, Rf(p));
      StepKeepsShape(w, Rf(p));
      RfShape(w.receiver, p);
      hide AfterRf, Fits, Saved, Covered, StoredCount, Take;
      assert a == w.(receiver := AfterRf(w.receiver, p));
      assert FactsOf(a) == FactsOf(w).(table := a.receiver.table, count := a.receiver.count);
      if w.epoch < GENERATIONS {
        LearnedFits(FactsOf(w), a.receiver.table, a.receiver.count);
      }
      if NoFailure(w) && Whole(w) {
        LearnedCovered(FactsOf(w), a.receiver.table, a.receiver.count);
      }
    }
  }

  lemma FetchKeeps(w: World)
    requires Inv(w)
    ensures Inv(Take(w, Fetch)) && (Whole(w) ==> Whole(Take(w, Fetch)))
  {
    var a := Take(w, Fetch);
    StepKeepsShape(w, Fetch);
    if w.worker.Idle? && w.receiver.persist != [] {
      assert Unwritten(a) == Unwritten(w);
      hide Fits, Saved, Covered, StoredCount, Unwritten;
      SameFacts(w, a);
    }
  }

  // What the worker's write of an entry does to the facts.
  lemma TrackerFacts(w: World, works: bool)
    requires Shape(w) && w.worker.Holding? && w.config.Quiet? && w.epoch < GENERATIONS
    ensures
      var a, f := Take(w, PersistTracker(works)), FactsOf(w);
      && |a.stamps| == |a.receiver.persist|
      && if w.worker.stamp != w.epoch then FactsOf(a) == f
         else f.unwritten != []
              && FactsOf(a) == if works then EntryPut(f) else LetGo(f, f.stored, f.mirror)
  {
    SameEpoch(w);
    LengthsOf(w);
    hide Shape, Current, StoredCount;
    TrackerTakes(w, works);
    hide Take;
    if w.worker.stamp == w.epoch {
      assert Unwritten(w)[0] == w.worker.record;
      assert Unwritten(w)[1..] == Current(w.receiver.persist, w.stamps, w.epoch);
    }
  }

  lemma TrackerTakes(w: World, works: bool)
    requires w.worker.Holding? && w.config.Quiet?
    ensures
      var a, record := Take(w, PersistTracker(works)), w.worker.record;
      && a.receiver == w.receiver && a.config == w.config && a.epoch == w.epoch && a.stamps == w.stamps
      && a.acks == w.acks && a.accepted == w.accepted && a.torn == w.torn
      && a.dropped == (w.dropped || (record.generation == w.receiver.generation && !works))
      && if record.generation != w.receiver.generation then a.worker.Idle? && a.store == w.store
         else a.store == WithTracker(w.store, record.id, record.address, works)
              && a.worker == if works then Halfway(record, w.worker.stamp) else Idle
  {
  }

  lemma PersistTrackerKeeps(w: World, works: bool)
    requires Inv(w)
    ensures Inv(Take(w, PersistTracker(works))) && (Whole(w) ==> Whole(Take(w, PersistTracker(works))))
  {
    hide Fits, Saved, Covered, FactsOf;
    var a := Take(w, PersistTracker(works));
    StepKeepsShape(w, PersistTracker(works));
    if w.worker.Holding? && w.config.Quiet? && w.epoch < GENERATIONS {
      TrackerFacts(w, works);
      SameEpoch(w);
      hide Shape, Take;
      if w.worker.stamp == w.epoch {
        EntryKept(w, works);
      }
    }
  }

  lemma EntryKept(w: World, works: bool)
    requires Inv(w) && w.epoch < GENERATIONS && FactsOf(w).unwritten != []
    ensures Fits(if works then EntryPut(FactsOf(w)) else LetGo(FactsOf(w), FactsOf(w).stored, FactsOf(w).mirror))
    ensures works && !w.dropped ==> Saved(EntryPut(FactsOf(w)))
    ensures works && Whole(w) && NoFailure(w) ==> Covered(EntryPut(FactsOf(w)))
  {
    LengthsOf(w);
    hide Shape, Fits, Saved, Covered, EntryPut, LetGo, FactsOf;
    var f := FactsOf(w);
    if !works {
      LetGoFits(f, f.stored, f.mirror);
    } else {
      EntryPutFits(f);
      EntryPutSaved(f);
      if Whole(w) && NoFailure(w) {
        EntryPutCovered(f);
      }
    }
  }

  lemma EntryPutSaved(f: Facts)
    requires Fits(f) && f.unwritten != []
    ensures Saved(f) ==> Saved(EntryPut(f))
  {
    EntryPutFits(f);
    hide AckFits, Safe;
  }

  // What the worker's write of a count does to the facts.
  lemma CountFacts(w: World, works: bool)
    requires Shape(w) && w.worker.Halfway? && w.epoch < GENERATIONS
    ensures
      var a, f := Take(w, PersistCount(works)), FactsOf(w);
      && |a.stamps| == |a.receiver.persist| && f.unwritten != [] && f.halfway
      && FactsOf(a) == if works then CountPut(f) else LetGo(f, f.stored, w.worker.record.count)
  {
    SameEpoch(w);
    assert Unwritten(w)[0] == w.worker.record;
    assert Unwritten(w)[1..] == Current(w.receiver.persist, w.stamps, w.epoch);
    hide Current;
  }

  lemma PersistCountKeeps(w: World, works: bool)
    requires Inv(w)
    ensures Inv(Take(w, PersistCount(works))) && (Whole(w) ==> Whole(Take(w, PersistCount(works))))
  {
    hide Fits, Saved, Covered, FactsOf;
    StepKeepsShape(w, PersistCount(works));
    if w.worker.Halfway? && w.epoch < GENERATIONS {
      CountFacts(w, works);
      hide Shape, LetGo, CountPut;
      var f := FactsOf(w);
      if !works {
        LetGoFits(f, f.stored, w.worker.record.count);
      } else {
        CountPutKept(f);
        if Whole(w) && NoFailure(w) {
          CountPutCovered(f);
        }
      }
    }
  }

  lemma CountPutKept(f: Facts)
    requires Fits(f) && f.halfway
    ensures Fits(CountPut(f)) && (Saved(f) ==> Saved(CountPut(f)))
  {
    LetGoFits(f, f.unwritten[0].count, f.unwritten[0].count);
    if Saved(f) {
      forall i | 0 <= i < |f.acks| && f.acks[i].epoch == f.epoch ensures Safe(CountPut(f), f.acks[i]) {
        CountPutSafe(f, f.acks[i]);
      }
    }
  }

  lemma BeginKeeps(w: World, e: Step)
    requires Inv(w) && (e.BeginClear? || e.BeginJoin?)
    ensures Inv(Take(w, e)) && (Whole(w) ==> Whole(Take(w, e)))
  {
    var a := Take(w, e);
    StepKeepsShape(w, e);
    if a != w {
      BeganErasing(w, e);
      hide Take, Fits, Saved, Covered, FactsOf;
      NothingFits(a);
      if NoFailure(a) && Whole(w) {
        BeganFacts(w, e);
        BegunCovered(FactsOf(w), a.receiver.primary);
      }
    }
  }

  lemma BeganErasing(w: World, e: Step)
    requires (e.BeginClear? || e.BeginJoin?) && Take(w, e) != w
    ensures Take(w, e).config.Erasing? && (NoFailure(Take(w, e)) ==> NoFailure(w)) && Unlocked(w)
  {
  }

  lemma BeganFacts(w: World, e: Step)
    requires Shape(w) && Unlocked(w) && (e.BeginClear? || e.BeginJoin?) && Take(w, e) != w
    requires Shape(Take(w, e)) && FactsOf(Take(w, e)).unwritten == [] && !Take(w, e).failed
    ensures
      var a := Take(w, e);
      FactsOf(a) == Begun(FactsOf(w), a.receiver.primary) && FactsOf(w).quiet && !FactsOf(w).halfway
  {
    hide Current, InHand;
  }

  lemma FinishedNothing(w: World, ok: bool, restores: bool)
    requires w.config.Erasing? && NothingCurrent(w)
    ensures NothingCurrent(Finished(w, ok, restores))
  {
    FinishedFrame(w, ok, restores);
    hide Finished;
  }

  lemma EraseKeeps(w: World, works: bool, restores: bool)
    requires Inv(w)
    ensures Inv(Take(w, Erase(works, restores))) && (Whole(w) ==> Whole(Take(w, Erase(works, restores))))
  {
    var a := Take(w, Erase(works, restores));
    StepKeepsShape(w, Erase(works, restores));
    if w.config.Erasing? {
      ErasedNothing(w, works, restores);
      hide Fits, Saved, Covered, FactsOf, Shape, Take;
      NothingFits(a);
      if a != w && NoFailure(a) && Whole(w) {
        EraseFacts(w, works, restores);
        MirrorIsStored(FactsOf(w));
        ErasedCovered(FactsOf(w));
      }
    }
  }

  lemma ErasedNothing(w: World, works: bool, restores: bool)
    requires Shape(w) && w.config.Erasing?
    ensures NothingCurrent(Take(w, Erase(works, restores)))
  {
    FinishedNothing(w, false, restores);
    hide Finished;
  }

  lemma EraseFacts(w: World, works: bool, restores: bool)
    requires Shape(w) && w.config.Erasing? && Whole(w) && Shape(Take(w, Erase(works, restores)))
    requires Take(w, Erase(works, restores)) != w && NoFailure(Take(w, Erase(works, restores)))
    ensures
      var a, f := Take(w, Erase(works, restores)), FactsOf(w);
      NoFailure(w) && f.next < 32 && !f.quiet && f.next < f.mirror && FactsOf(a) == Erased(f)
  {
    hide Finished, Unwritten, Covered, Shape;
    NothingOf(w);
    ErasedNothing(w, works, restores);
    NothingFits(w);
    NothingFits(Take(w, Erase(works, restores)));
  }

  lemma NothingOf(w: World)
    requires Shape(w) && w.config.Erasing?
    ensures NothingCurrent(w)
  {
  }

  lemma MirrorIsStored(f: Facts)
    requires Covered(f)
    ensures f.mirror == f.stored && f.written
  {
  }

  lemma EraseCountKeeps(w: World, works: bool, restores: bool)
    requires Inv(w)
    ensures Inv(Take(w, EraseCount(works, restores))) && (Whole(w) ==> Whole(Take(w, EraseCount(works, restores))))
  {
    var a := Take(w, EraseCount(works, restores));
    StepKeepsShape(w, EraseCount(works, restores));
    if w.config.Erasing? && w.config.next == w.store.count {
      NothingOf(w);
      EndedNothing(w, works, restores);
      hide Fits, Saved, Covered, FactsOf, Take, Shape, Inv, Whole;
      NothingFits(a);
      if Whole(w) {
        EraseCountWhole(w, works, restores);
      }
    }
  }

  lemma EndedNothing(w: World, works: bool, restores: bool)
    requires w.config.Erasing? && w.config.next == w.store.count && NothingCurrent(w)
    ensures NothingCurrent(Take(w, EraseCount(works, restores)))
  {
    FinishedNothing(CountErased(w, works), works && (w.config.goal.Join? ==> w.config.goal.written), restores);
    hide Finished;
  }

  lemma EraseCountWhole(w: World, works: bool, restores: bool)
    requires Shape(w) && w.config.Erasing? && w.config.next == w.store.count && Whole(w)
    requires Shape(Take(w, EraseCount(works, restores)))
    ensures Whole(Take(w, EraseCount(works, restores)))
  {
    var a := Take(w, EraseCount(works, restores));
    LengthsOf(a);
    FailedAtEnd(w, works, restores);
    if NoFailure(a) {
      MirrorIsStored(FactsOf(w));
      NothingFits(w);
      hide Take, Covered, Shape;
      EmptiedCovered(FactsOf(w));
      EmptiedWorld(w, restores);
    }
  }

  lemma FailedAtEnd(w: World, works: bool, restores: bool)
    requires w.config.Erasing? && w.config.next == w.store.count
    ensures NoFailure(Take(w, EraseCount(works, restores))) ==> works && NoFailure(w)
  {
  }

  lemma EmptiedWorld(w: World, restores: bool)
    requires |w.stamps| == |w.receiver.persist| && w.config.Erasing? && w.config.next == w.store.count
    requires InHand(w) == [] && !w.worker.Halfway? && (w.config.goal.Join? ==> w.config.goal.written)
    ensures
      var a := Take(w, EraseCount(true, restores));
      |a.stamps| == |a.receiver.persist| && FactsOf(a) == EmptiedFacts(FactsOf(w))
  {
    hide Take, Finished, CountErased;
    EraseCountTakes(w, restores);
    FinishedEmpty(w, restores);
  }

  lemma FinishedEmpty(w: World, restores: bool)
    requires w.config.Erasing?
    ensures
      var a := Finished(CountErased(w, true), true, restores);
      && a.store == Emptied(w.store, true) && a.receiver.table == Zeros48() && a.receiver.count == 0
      && a.receiver.primary == w.receiver.primary && a.receiver.persist == [] && a.stamps == []
      && a.config == Quiet && a.worker == w.worker && a.epoch == w.epoch && a.acks == w.acks
      && a.accepted == {} && !a.torn
  {
    hide Emptied;
  }

  lemma EraseCountTakes(w: World, restores: bool)
    requires w.config.Erasing? && w.config.next == w.store.count && (w.config.goal.Join? ==> w.config.goal.written)
    ensures Take(w, EraseCount(true, restores)) == Finished(CountErased(w, true), true, restores)
  {
    hide Finished, CountErased;
  }

  lemma CrashKeeps(w: World)
    requires Inv(w)
    ensures Inv(Take(w, Crash)) && (Whole(w) ==> Whole(Take(w, Crash)))
  {
    var a := Take(w, Crash);
    StepKeepsShape(w, Crash);
    CrashedNothing(w);
    CrashFacts(w);
    LengthsOf(w);
    NextBelowCount(w);
    hide Fits, Saved, Covered, FactsOf, Shape, Take, Rebooted;
    NothingFits(a);
    if NoFailure(w) && Whole(w) {
      RebootedCovered(FactsOf(w), a.receiver.primary);
    }
  }

  lemma CrashedNothing(w: World)
    ensures var a := Take(w, Crash); NothingCurrent(a) && (NoFailure(a) ==> NoFailure(w))
  {
  }

  lemma CrashFacts(w: World)
    requires Shape(w)
    ensures
      var a := Take(w, Crash);
      |a.stamps| == |a.receiver.persist| && FactsOf(w).stored <= 32
      && FactsOf(a) == Rebooted(FactsOf(w), a.receiver.primary)
  {
    hide StoredCount;
    var a := Take(w, Crash);
    assert a.store.trackers == Rebooted(FactsOf(w), a.receiver.primary).table;
  }

  lemma NextBelowCount(w: World)
    requires Shape(w)
    ensures FactsOf(w).next <= FactsOf(w).mirror
  {
    hide Unwritten;
  }

  lemma PairStepKeeps(w: World, q: PairRequest)
    requires Inv(w)
    ensures Inv(Take(w, Pair(q))) && (Whole(w) ==> Whole(Take(w, Pair(q))))
  {
    if w.config.Quiet? {
      PairKeeps(w, q);
    }
  }

  lemma SetPairingKeeps(w: World, on: bool)
    requires Inv(w)
    ensures Inv(Take(w, SetPairing(on))) && (Whole(w) ==> Whole(Take(w, SetPairing(on))))
  {
    var a := Take(w, SetPairing(on));
    StepKeepsShape(w, SetPairing(on));
    LengthsOf(w);
    SetPairingTakes(w, on);
    hide Take, Shape, FactsOf, Inv, Whole;
    PairingFacts(w, a.receiver.pairing);
    SameFacts(w, a);
  }

  lemma PairingFacts(w: World, on: bool)
    requires |w.stamps| == |w.receiver.persist|
    ensures FactsOf(w.(receiver := w.receiver.(pairing := on))) == FactsOf(w)
  {
    hide StoredCount, Current;
  }

  lemma SetPairingTakes(w: World, on: bool)
    ensures Take(w, SetPairing(on)) ==
      if !Unlocked(w) || (on && !w.receiver.primary) then w else w.(receiver := w.receiver.(pairing := on))
  {
  }

  lemma RfTakes(w: World, p: RfPacket)
    ensures Take(w, Rf(p)) == if w.config.Erasing? then w else w.(receiver := AfterRf(w.receiver, p))
  {
    hide AfterRf;
  }

  lemma PopTakes(w: World)
    ensures Take(w, Fetch) ==
      if !w.worker.Idle? || w.receiver.persist == [] || w.stamps == [] then w
      else w.(worker := Holding(w.receiver.persist[0], w.stamps[0]), stamps := w.stamps[1..],
              receiver := w.receiver.(persist := w.receiver.persist[1..]))
  {
  }

  lemma StepKeeps(w: World, e: Step)
    requires Inv(w)
    ensures Inv(Take(w, e)) && (Whole(w) ==> Whole(Take(w, e)))
  {
    hide Inv, Whole;
    match e {
      case Pair(q) => PairStepKeeps(w, q);
      case Rf(p) => RfKeeps(w, p);
      case SetPairing(on) => SetPairingKeeps(w, on);
      case Fetch => FetchKeeps(w);
      case PersistTracker(works) => PersistTrackerKeeps(w, works);
      case PersistCount(works) => PersistCountKeeps(w, works);
      case BeginClear => BeginKeeps(w, e);
      case BeginJoin(_, _, _) => BeginKeeps(w, e);
      case Erase(works, restores) => EraseKeeps(w, works, restores);
      case EraseCount(works, restores) => EraseCountKeeps(w, works, restores);
      case Crash => CrashKeeps(w);
    }
  }

  // ---- Whole runs ----

  function LoadedPairs(f: Flash): set<(TrackerId, u48)> {
    set id: TrackerId | 0 <= id < StoredCount(f) :: (id, StoredAddress(f, id))
  }

  // A receiver booting for the first time on this flash.
  function FirstBoot(me: u48, f: Flash): World {
    var s := Loaded(f);
    World(me, if s.group == 0 then me else s.group, BootedReceiver(me, s), s, Idle, Quiet, 0, [], [],
          LoadedPairs(f), false, false, false, false, false)
  }

  // Every id below the stored count has an address.
  ghost predicate Filled(f: Flash) {
    forall id: TrackerId :: id < StoredCount(f) ==> StoredAddress(f, id) != 0
  }

  lemma FirstBootInv(me: u48, f: Flash)
    ensures Inv(FirstBoot(me, f))
    ensures Filled(f) ==> Whole(FirstBoot(me, f))
  {
    var w := FirstBoot(me, f);
    NothingFits(w);
    if Filled(f) {
      var facts := FactsOf(w);
      forall id: TrackerId | id < facts.stored ensures Good(facts, id) {
        assert StoredAddress(f, id) != 0;
        assert (id, StoredAddress(f, id)) in LoadedPairs(f);
      }
    }
  }

  lemma {:induction false} RunKeeps(w: World, steps: seq<Step>)
    requires Inv(w)
    ensures Inv(Run(w, steps)) && (Whole(w) ==> Whole(Run(w, steps)))
  {
    hide Inv, Whole, Take;
    if steps != [] {
      RunKeeps(w, steps[..|steps| - 1]);
      StepKeeps(Run(w, steps[..|steps| - 1]), steps[|steps| - 1]);
    }
  }

  lemma {:induction false} RunAppend(w: World, a: seq<Step>, b: seq<Step>)
    ensures Run(w, a + b) == Run(Run(w, a), b)
    decreases |b|
  {
    hide Take;
    if b == [] {
      assert a + b == a;
    } else {
      assert (a + b)[..|a + b| - 1] == a + b[..|b| - 1];
      RunAppend(w, a, b[..|b| - 1]);
    }
  }

  // ---- Where an answered pairing is ----

  predicate InFlash(w: World, a: Ack) {
    a.id < StoredCount(w.store.flash) && StoredAddress(w.store.flash, a.id) == a.address
  }

  // A record that stands for the pairing and would still be written.
  predicate Stands(w: World, record: PersistRecord, a: Ack) {
    record.id == a.id && record.address == a.address && record.generation == w.receiver.generation
  }

  ghost predicate InQueue(w: World, a: Ack) {
    exists k :: 0 <= k < |w.receiver.persist| && Stands(w, w.receiver.persist[k], a)
  }

  predicate WithWorker(w: World, a: Ack) {
    !w.worker.Idle? && Stands(w, w.worker.record, a)
  }

  ghost predicate InPlace(w: World, a: Ack) {
    InFlash(w, a) || InQueue(w, a) || WithWorker(w, a)
  }

  lemma {:induction false} CurrentMember(records: seq<PersistRecord>, stamps: seq<nat>, epoch: nat, k: nat)
    returns (i: nat)
    requires |records| == |stamps| && k < |Current(records, stamps, epoch)|
    ensures i < |records| && stamps[i] == epoch && Current(records, stamps, epoch)[k] == records[i]
  {
    var here := if stamps[0] == epoch then 1 else 0;
    if k >= here {
      i := CurrentMember(records[1..], stamps[1..], epoch, k - here);
      i := i + 1;
    } else {
      i := 0;
    }
  }

  lemma {:induction false} MemberCurrent(records: seq<PersistRecord>, stamps: seq<nat>, epoch: nat, i: nat)
    returns (k: nat)
    requires |records| == |stamps| && i < |records| && stamps[i] == epoch
    ensures k < |Current(records, stamps, epoch)| && Current(records, stamps, epoch)[k] == records[i]
  {
    var here := if stamps[0] == epoch then 1 else 0;
    if i == 0 {
      k := 0;
    } else {
      k := MemberCurrent(records[1..], stamps[1..], epoch, i - 1);
      k := k + here;
    }
  }

  lemma SameGeneration(w: World, i: nat)
    requires Shape(w) && w.epoch < GENERATIONS && i < |w.stamps|
    ensures w.receiver.persist[i].generation == w.receiver.generation <==> w.stamps[i] == w.epoch
  {
    assert RecordShape(w, w.receiver.persist[i], w.stamps[i]);
  }

  // The facts about a pairing are what one can see of it.
  lemma PlaceMeans(w: World, a: Ack)
    requires Shape(w) && w.epoch < GENERATIONS && a.address != 0
    ensures InPlace(w, a) <==> Safe(FactsOf(w), a)
  {
    WaitsMeans(w, a);
    hide Unwritten, Shape;
  }

  lemma WaitsMeans(w: World, a: Ack)
    requires Shape(w) && w.epoch < GENERATIONS
    ensures Waits(FactsOf(w), a) <==> InQueue(w, a) || WithWorker(w, a)
  {
    if Waits(FactsOf(w), a) {
      WaitsSeen(w, a);
    }
    if InQueue(w, a) || WithWorker(w, a) {
      SeenWaits(w, a);
    }
  }

  lemma WaitsSeen(w: World, a: Ack)
    requires Shape(w) && w.epoch < GENERATIONS && Waits(FactsOf(w), a)
    ensures InQueue(w, a) || WithWorker(w, a)
  {
    var u, q, n := Unwritten(w), w.receiver.persist, |InHand(w)|;
    var k :| 0 <= k < |u| && u[k].id == a.id && u[k].address == a.address;
    if k >= n {
      var i := CurrentMember(q, w.stamps, w.epoch, k - n);
      SameGeneration(w, i);
      assert Stands(w, q[i], a);
    } else {
      SameEpoch(w);
    }
  }

  lemma SeenWaits(w: World, a: Ack)
    requires Shape(w) && w.epoch < GENERATIONS && (InQueue(w, a) || WithWorker(w, a))
    ensures Waits(FactsOf(w), a)
  {
    var u, q, n := Unwritten(w), w.receiver.persist, |InHand(w)|;
    if WithWorker(w, a) {
      SameEpoch(w);
      assert u[0] == w.worker.record;
    } else {
      var i :| 0 <= i < |q| && Stands(w, q[i], a);
      SameGeneration(w, i);
      var k := MemberCurrent(q, w.stamps, w.epoch, i);
      assert u[n + k] == q[i];
    }
  }

  /**
   A pairing answered in the current generation is never forgotten, on whatever flash the
   receiver booted and whatever else fails: as long as no write of the worker has failed in
   this generation, it is in flash below the count, in the queue, or in the worker's hands.
   */
  lemma AcknowledgedIsKept(me: u48, f: Flash, steps: seq<Step>, i: nat)
    requires
      var w := Run(FirstBoot(me, f), steps);
      w.epoch < GENERATIONS && !w.dropped && i < |w.acks| && w.acks[i].epoch == w.epoch
    ensures
      var w := Run(FirstBoot(me, f), steps);
      InPlace(w, w.acks[i])
  {
    hide Run, FirstBoot, InPlace, Shape;
    FirstBootInv(me, f);
    RunKeeps(FirstBoot(me, f), steps);
    var w := Run(FirstBoot(me, f), steps);
    CurrentAck(w, i);
    PlaceMeans(w, w.acks[i]);
  }

  lemma CurrentAck(w: World, i: nat)
    requires Inv(w) && w.epoch < GENERATIONS && i < |w.acks| && w.acks[i].epoch == w.epoch
    ensures w.acks[i].address != 0 && Fits(FactsOf(w)) && AckFits(FactsOf(w), w.acks[i])
    ensures !w.dropped ==> Safe(FactsOf(w), w.acks[i])
  {
  }

  /**
   The worker writes a record exactly when the clears and group changes begun since it was
   accepted number a multiple of 2^32; so below that number it writes none from before the last.
   */
  lemma WritesOnlyCurrent(me: u48, f: Flash, steps: seq<Step>)
    requires var w := Run(FirstBoot(me, f), steps); w.worker.Holding? && w.config.Quiet?
    ensures
      var w := Run(FirstBoot(me, f), steps);
      && w.worker.stamp <= w.epoch
      && (Take(w, PersistTracker(true)).worker.Halfway? <==> (w.epoch - w.worker.stamp) % GENERATIONS == 0)
      && (Take(w, PersistTracker(true)).worker.Halfway? && w.epoch < GENERATIONS ==> w.worker.stamp == w.epoch)
      && (!Take(w, PersistTracker(true)).worker.Halfway? ==> Take(w, PersistTracker(true)).store == w.store)
  {
    hide Shape, Fits, Saved, FactsOf, Take, Run, FirstBoot;
    FirstBootInv(me, f);
    RunKeeps(FirstBoot(me, f), steps);
    WriteRule(Run(FirstBoot(me, f), steps));
  }

  lemma WriteRule(w: World)
    requires Shape(w) && w.worker.Holding? && w.config.Quiet?
    ensures
      var a := Take(w, PersistTracker(true));
      && w.worker.stamp <= w.epoch
      && (a.worker.Halfway? <==> (w.epoch - w.worker.stamp) % GENERATIONS == 0)
      && (a.worker.Halfway? && w.epoch < GENERATIONS ==> w.worker.stamp == w.epoch)
      && (!a.worker.Halfway? ==> a.store == w.store)
  {
    EqualRemainders(w.epoch, w.worker.stamp);
    if w.epoch < GENERATIONS {
      SameEpoch(w);
    }
  }

  lemma EqualRemainders(a: nat, b: nat)
    requires b <= a
    ensures a % GENERATIONS == b % GENERATIONS <==> (a - b) % GENERATIONS == 0
  {
    var x, y := a / GENERATIONS, b / GENERATIONS;
    assert a - b == GENERATIONS * (x - y) + (a % GENERATIONS - b % GENERATIONS);
    if a % GENERATIONS == b % GENERATIONS {
      assert a - b == GENERATIONS * (x - y);
    }
  }

  /**
   Whenever the receiver stops, what flash holds can be loaded, and every pair loaded was
   accepted since the table was last emptied. Every id below the stored count is filled
   exactly when no clear is past its first delete and none was torn there by a crash
   without a later one completing.
   */
  lemma CrashLeavesLoadable(me: u48, f: Flash, steps: seq<Step>)
    requires Filled(f) && NoFailure(Run(FirstBoot(me, f), steps))
    ensures
      var w := Run(FirstBoot(me, f), steps);
      var g := w.store.flash;
      && (forall id: TrackerId :: StoredAddress(g, id) != 0 ==> (id, StoredAddress(g, id)) in w.accepted)
      && (Filled(g) <==> !w.torn && !(w.config.Erasing? && w.config.next > 0))
  {
    hide Run, FirstBoot, Filled, Fits, Saved;
    FirstBootInv(me, f);
    RunKeeps(FirstBoot(me, f), steps);
    CoveredMeans(Run(FirstBoot(me, f), steps));
  }

  lemma CoveredMeans(w: World)
    requires Shape(w) && Covered(FactsOf(w))
    ensures
      var g := w.store.flash;
      && (forall id: TrackerId :: StoredAddress(g, id) != 0 ==> (id, StoredAddress(g, id)) in w.accepted)
      && (Filled(g) <==> !w.torn && !(w.config.Erasing? && w.config.next > 0))
  {
    var g, facts := w.store.flash, FactsOf(w);
    forall id: TrackerId | StoredAddress(g, id) != 0 ensures (id, StoredAddress(g, id)) in w.accepted {
      assert Good(facts, id);
    }
    if w.torn || (w.config.Erasing? && w.config.next > 0) {
      assert StoredAddress(g, 0) == 0 && 0 < StoredCount(g);
    } else {
      forall id: TrackerId | id < StoredCount(g) ensures StoredAddress(g, id) != 0 {
        assert Good(facts, id);
      }
    }
  }

  /** The exception is real: a clear deletes from id 0 up before it lowers the count. */
  lemma ClearCanTear(me: u48, a: u48, b: u48)
    requires a != 0 && b != 0
    ensures
      var f := Flash(None, Some(2), map[0 := a, 1 := b]);
      var w := Run(FirstBoot(me, f), [BeginClear, Erase(true, true), Crash]);
      && Filled(f) && NoFailure(w) && w.torn
      && w.receiver.count == 2 && w.receiver.table[0] == 0 && w.receiver.table[1] == b
  {
    var f := Flash(None, Some(2), map[0 := a, 1 := b]);
    var w0 := FirstBoot(me, f);
    assert Filled(f);
    hide Filled, Take, Run;
    ThreeSteps(w0, BeginClear, Erase(true, true), Crash);
    TornClear(w0, a, b);
  }

  lemma TornClear(w: World, a: u48, b: u48)
    requires w.config.Quiet? && w.worker.Idle? && w.store.count == 2
    requires w.store.flash == Flash(None, Some(2), map[0 := a, 1 := b])
    requires NoFailure(w) && w.epoch == 0
    ensures
      var t := Take(Take(Take(w, BeginClear), Erase(true, true)), Crash);
      && NoFailure(t) && t.torn
      && t.receiver.count == 2 && t.receiver.table[0] == 0 && t.receiver.table[1] == b
  {
    var w1 := Take(w, BeginClear);
    assert w1.config == Erasing(0, ClearAll) && w1.store == w.store;
    var w2 := Take(w1, Erase(true, true));
    assert w2.store.flash.entries == map[1 := b];
  }

  lemma ThreeSteps(w: World, a: Step, b: Step, c: Step)
    ensures Run(w, [a, b, c]) == Take(Take(Take(w, a), b), c)
  {
    hide Take;
    assert [a, b, c][..2] == [a, b] && [a, b][..1] == [a] && [a][..0] == [];
    assert Run(w, [a]) == Take(w, a);
    assert Run(w, [a, b]) == Take(Take(w, a), b);
  }
}
