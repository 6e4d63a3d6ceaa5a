/**
 How an answered pairing can be lost, and an old one written. The worker pops a record,
 and if a write then fails it logs that and goes on (firmware/nrf54l15/src/rf_receiver.c:115-123):
 this loses the pairing exactly when the record was its only copy.
 */
module PairingLosses {
  import opened Bytes
  import opened RfReceivers
  import opened ReceiverStores
  import opened PairingPersistence

  // A write of the worker that fails.
  predicate FailsWrite(w: World, e: Step) {
    || (e == PersistTracker(false) && w.worker.Holding? && w.config.Quiet?)
    || (e == PersistCount(false) && w.worker.Halfway?)
  }

  ghost predicate LosesOnlyCopy(w: World, e: Step, a: Ack) {
    FailsWrite(w, e) && WithWorker(w, a) && !InFlash(w, a) && !InQueue(w, a)
  }

  // ---- One step ----

  // The record is gone from the worker's hands; flash and queue are as they were.
  lemma FailedWrite(w: World, e: Step, a: Ack)
    requires Shape(w) && FailsWrite(w, e) && InPlace(w, a)
    ensures InPlace(Take(w, e), a) <==> !LosesOnlyCopy(w, e, a)
  {
    FailedTakes(w, e);
    hide Take, Shape, StoredAddress, StoredCount;
  }

  lemma FailedTakes(w: World, e: Step)
    requires Shape(w) && FailsWrite(w, e)
    ensures
      var v := Take(w, e);
      v.receiver == w.receiver && v.store.flash == w.store.flash && v.worker.Idle?
  {
    hide NothingCurrent;
    if w.worker.Holding? {
      TrackerTakes(w, false);
    }
  }

  // The same world, with this one answer to look after.
  function Watching(w: World, a: Ack): World {
    w.(acks := [a], dropped := false)
  }

  lemma WatchingInv(w: World, i: nat)
    requires Inv(w) && w.epoch < GENERATIONS && i < |w.acks| && w.acks[i].epoch == w.epoch && InPlace(w, w.acks[i])
    ensures Inv(Watching(w, w.acks[i]))
  {
    var a := w.acks[i];
    CurrentAck(w, i);
    PlaceMeans(w, a);
    WatchingShape(w, i);
    WatchingFacts(w, a);
    hide FactsOf, Shape;
    var f, g := FactsOf(w), FactsOf(Watching(w, a));
    forall x ensures (Waits(f, x) <==> Waits(g, x)) && (Passed(f, x) <==> Passed(g, x)) {}
    assert AckFits(g, a) && Safe(g, a);
  }

  lemma WatchingShape(w: World, i: nat)
    requires Shape(w) && i < |w.acks| && w.acks[i].epoch == w.epoch
    ensures Shape(Watching(w, w.acks[i])) && w.config.Quiet?
  {
  }

  lemma WatchingFacts(w: World, a: Ack)
    requires Shape(w)
    ensures FactsOf(Watching(w, a)) == FactsOf(w).(acks := [a])
  {
    hide Current, StoredCount;
  }

  // The two worlds take the same step.
  predicate Alike(u: World, v: World, a: Ack) {
    && u.receiver == v.receiver && u.store == v.store && u.worker == v.worker && u.epoch == v.epoch
    && !u.dropped && u.acks != [] && u.acks[0] == a
  }

  lemma WatchingTakes(w: World, e: Step, a: Ack)
    requires w.config.Quiet? && !e.Crash? && Take(w, e).epoch == w.epoch && !FailsWrite(w, e)
    ensures Alike(Take(Watching(w, a), e), Take(w, e), a)
  {
    hide Take, Alike, FailsWrite;
    match e {
      case Pair(q) => WatchingPair(w, q, a);
      case PersistTracker(works) => WatchingTracker(w, works, a);
      case PersistCount(works) => WatchingCount(w, works, a);
      case BeginClear => WatchingBegin(w, e, a);
      case BeginJoin(_, _, _) => WatchingBegin(w, e, a);
      case Erase(_, _) => WatchingErase(w, e, a);
      case EraseCount(_, _) => WatchingErase(w, e, a);
      case Rf(p) => WatchingRf(w, p, a);
      case Fetch => WatchingFetch(w, a);
      case SetPairing(on) => WatchingMode(w, on, a);
    }
  }

  // A clear or a group change that begins ends the generation.
  lemma WatchingBegin(w: World, e: Step, a: Ack)
    requires (e.BeginClear? || e.BeginJoin?) && Take(w, e).epoch == w.epoch
    ensures Alike(Take(Watching(w, a), e), Take(w, e), a)
  {
    BeginStands(w, e);
    BeginStands(Watching(w, a), e);
    hide Take;
  }

  lemma BeginStands(w: World, e: Step)
    requires e.BeginClear? || e.BeginJoin?
    ensures Take(w, e).epoch == w.epoch ==> Take(w, e) == w
    ensures Take(w, e).epoch == w.epoch <==>
            !Unlocked(w) || (e.BeginJoin? && e.secondary && e.requested == 0)
  {
    hide WithGroup;
  }

  lemma WatchingErase(w: World, e: Step, a: Ack)
    requires w.config.Quiet? && (e.Erase? || e.EraseCount?)
    ensures Alike(Take(Watching(w, a), e), Take(w, e), a)
  {
    EraseStands(w, e);
    EraseStands(Watching(w, a), e);
    hide Take;
  }

  lemma EraseStands(w: World, e: Step)
    requires w.config.Quiet? && (e.Erase? || e.EraseCount?)
    ensures Take(w, e) == w
  {
  }

  lemma WatchingPair(w: World, q: PairRequest, a: Ack)
    requires w.config.Quiet?
    ensures Alike(Take(Watching(w, a), Pair(q)), Take(w, Pair(q)), a)
  {
    if w.receiver.count <= 32 {
      if Pairs(w.receiver, q) {
        PairChanges(w.receiver, q);
        PairTakes(w, q);
        PairTakes(Watching(w, a), q);
        hide AfterPairing, AfterPair, Pairs, Acknowledges, PairedId;
      } else {
        NoPair(w.receiver, q);
        hide AfterPair, Pairs, Acknowledges, PairedId;
      }
    }
  }

  lemma WatchingTracker(w: World, works: bool, a: Ack)
    requires w.config.Quiet? && !FailsWrite(w, PersistTracker(works))
    ensures Alike(Take(Watching(w, a), PersistTracker(works)), Take(w, PersistTracker(works)), a)
  {
    hide WithTracker;
    if w.worker.Holding? {
      TrackerTakes(w, works);
      TrackerTakes(Watching(w, a), works);
      hide Take;
    }
  }

  lemma WatchingCount(w: World, works: bool, a: Ack)
    requires !FailsWrite(w, PersistCount(works))
    ensures Alike(Take(Watching(w, a), PersistCount(works)), Take(w, PersistCount(works)), a)
  {
    hide WithCount;
  }

  lemma WatchingRf(w: World, p: RfPacket, a: Ack)
    ensures Alike(Take(Watching(w, a), Rf(p)), Take(w, Rf(p)), a)
  {
    RfTakes(w, p);
    RfTakes(Watching(w, a), p);
    hide AfterRf, Take;
  }

  lemma WatchingFetch(w: World, a: Ack)
    ensures Alike(Take(Watching(w, a), Fetch), Take(w, Fetch), a)
  {
    PopTakes(w);
    PopTakes(Watching(w, a));
    hide Take;
  }

  lemma WatchingMode(w: World, on: bool, a: Ack)
    ensures Alike(Take(Watching(w, a), SetPairing(on)), Take(w, SetPairing(on)), a)
  {
    SetPairingTakes(w, on);
    SetPairingTakes(Watching(w, a), on);
    hide Take;
  }

  // Any other step leaves it in place.
  lemma OtherStep(w: World, e: Step, i: nat)
    requires Inv(w) && w.epoch < GENERATIONS && i < |w.acks| && w.acks[i].epoch == w.epoch && InPlace(w, w.acks[i])
    requires !e.Crash? && Take(w, e).epoch == w.epoch && !FailsWrite(w, e)
    ensures InPlace(Take(w, e), w.acks[i])
  {
    hide Take, Inv, InPlace, Watching;
    var a := w.acks[i];
    WatchingInv(w, i);
    InvShape(w);
    WatchingShape(w, i);
    WatchingTakes(w, e, a);
    StepKeeps(Watching(w, a), e);
    WatchedInPlace(Take(Watching(w, a), e));
    SamePlace(Take(Watching(w, a), e), Take(w, e), a);
    WatchingEpoch(w, a);
  }

  lemma WatchingEpoch(w: World, a: Ack)
    ensures Watching(w, a).epoch == w.epoch
  {
  }

  lemma WatchedInPlace(u: World)
    requires Inv(u) && u.epoch < GENERATIONS && !u.dropped && u.acks != []
    ensures u.acks[0].epoch == u.epoch ==> InPlace(u, u.acks[0])
  {
    if u.acks[0].epoch == u.epoch {
      CurrentAck(u, 0);
      PlaceMeans(u, u.acks[0]);
    }
  }

  lemma SamePlace(u: World, v: World, a: Ack)
    requires u.receiver == v.receiver && u.store == v.store && u.worker == v.worker
    ensures InPlace(u, a) <==> InPlace(v, a)
  {
  }

  /**
   Exactly what loses an answered pairing: in any state a run can reach, whatever failed
   before, a step inside the generation leaves it in place unless it is a failing write of
   its only copy.
   */
  lemma LostIff(w: World, e: Step, i: nat)
    requires Inv(w) && w.epoch < GENERATIONS && i < |w.acks| && w.acks[i].epoch == w.epoch && InPlace(w, w.acks[i])
    requires !e.Crash? && Take(w, e).epoch == w.epoch
    ensures InPlace(Take(w, e), w.acks[i]) <==> !LosesOnlyCopy(w, e, w.acks[i])
    ensures w.acks <= Take(w, e).acks
  {
    AcksGrow(w, e);
    hide Take, InPlace;
    if FailsWrite(w, e) {
      InvShape(w);
      FailedWrite(w, e, w.acks[i]);
    } else {
      OtherStep(w, e, i);
    }
  }

  lemma AcksGrow(w: World, e: Step)
    requires !e.Crash?
    ensures w.acks <= Take(w, e).acks && w.epoch <= Take(w, e).epoch
  {
    match e {
      case Pair(q) => PairGrows(w, q);
      case Erase(works, restores) => EraseGrows(w, e);
      case EraseCount(works, restores) => EraseGrows(w, e);
      case BeginClear => BeginGrows(w, e);
      case BeginJoin(_, _, _) => BeginGrows(w, e);
      case PersistTracker(_) => WorkerGrows(w, e);
      case PersistCount(_) => WorkerGrows(w, e);
      case _ =>
    }
  }

  lemma PairGrows(w: World, q: PairRequest)
    ensures w.acks <= Take(w, Pair(q)).acks && w.epoch <= Take(w, Pair(q)).epoch
  {
    if w.receiver.count <= 32 && Pairs(w.receiver, q) {
      PairChanges(w.receiver, q);
      PairTakes(w, q);
      hide AfterPairing;
    }
    hide AfterPair, Pairs, Acknowledges, PairedId;
  }

  lemma EraseGrows(w: World, e: Step)
    requires e.Erase? || e.EraseCount?
    ensures Take(w, e).acks == w.acks && Take(w, e).epoch == w.epoch
  {
    if w.config.Erasing? {
      match e {
        case Erase(works, restores) =>
          FinishedFrame(w, false, restores);
        case EraseCount(works, restores) =>
          FinishedFrame(CountErased(w, works), works && (w.config.goal.Join? ==> w.config.goal.written), restores);
      }
    }
    hide Finished, Emptied, WithoutEntry;
  }

  lemma BeginGrows(w: World, e: Step)
    requires e.BeginClear? || e.BeginJoin?
    ensures w.acks == Take(w, e).acks && w.epoch <= Take(w, e).epoch
  {
    hide WithGroup;
  }

  lemma WorkerGrows(w: World, e: Step)
    requires e.PersistTracker? || e.PersistCount?
    ensures Take(w, e).acks == w.acks && Take(w, e).epoch == w.epoch
  {
    hide WithTracker, WithCount;
  }

  lemma InvShape(w: World)
    requires Inv(w)
    ensures Shape(w)
  {
  }

  // ---- Whole generations ----

  ghost predicate AlwaysInPlace(w: World, steps: seq<Step>, a: Ack) {
    forall j :: 0 <= j <= |steps| ==> InPlace(Run(w, steps[..j]), a)
  }

  ghost predicate NeverLost(w: World, steps: seq<Step>, a: Ack) {
    forall j :: 0 <= j < |steps| ==> !LosesOnlyCopy(Run(w, steps[..j]), steps[j], a)
  }

  lemma AlwaysSnoc(w: World, before: seq<Step>, e: Step, a: Ack)
    ensures AlwaysInPlace(w, before + [e], a) <==>
            AlwaysInPlace(w, before, a) && InPlace(Run(w, before + [e]), a)
  {
    hide Run, InPlace;
    var all, n := before + [e], |before|;
    assert forall j :: 0 <= j <= n ==> all[..j] == before[..j];
    assert all[..n + 1] == all;
    if AlwaysInPlace(w, all, a) {
      forall j | 0 <= j <= n ensures InPlace(Run(w, before[..j]), a) {
        assert InPlace(Run(w, all[..j]), a);
      }
      assert InPlace(Run(w, all[..n + 1]), a);
    }
  }

  lemma NeverSnoc(w: World, before: seq<Step>, e: Step, a: Ack)
    ensures NeverLost(w, before + [e], a) <==> NeverLost(w, before, a) && !LosesOnlyCopy(Run(w, before), e, a)
  {
    hide Run, LosesOnlyCopy;
    var all, n := before + [e], |before|;
    assert forall j :: 0 <= j <= n ==> all[..j] == before[..j];
    assert before[..n] == before;
    if NeverLost(w, all, a) {
      forall j | 0 <= j < n ensures !LosesOnlyCopy(Run(w, before[..j]), before[j], a) {
        assert !LosesOnlyCopy(Run(w, all[..j]), all[j], a);
      }
      assert !LosesOnlyCopy(Run(w, all[..n]), all[n], a);
    }
  }

  lemma {:induction false} EpochGrows(w: World, steps: seq<Step>)
    requires Crash !in steps
    ensures w.epoch <= Run(w, steps).epoch && w.acks <= Run(w, steps).acks
  {
    hide Take;
    if steps != [] {
      EpochGrows(w, steps[..|steps| - 1]);
      AcksGrow(Run(w, steps[..|steps| - 1]), steps[|steps| - 1]);
    }
  }

  lemma {:induction false} InPlaceThroughout(w: World, more: seq<Step>, i: nat)
    requires Inv(w) && w.epoch < GENERATIONS && i < |w.acks| && w.acks[i].epoch == w.epoch && InPlace(w, w.acks[i])
    requires Crash !in more && Run(w, more).epoch == w.epoch
    ensures AlwaysInPlace(w, more, w.acks[i]) <==> NeverLost(w, more, w.acks[i])
    decreases |more|
  {
    hide Take, Inv, InPlace, LosesOnlyCopy, AlwaysInPlace, NeverLost;
    var a := w.acks[i];
    if more == [] {
      NothingYet(w, a);
    } else {
      var before, e := more[..|more| - 1], more[|more| - 1];
      assert before + [e] == more;
      var u := Run(w, before);
      EpochGrows(w, before);
      AcksGrow(u, e);
      InPlaceThroughout(w, before, i);
      AlwaysSnoc(w, before, e, a);
      NeverSnoc(w, before, e, a);
      if AlwaysInPlace(w, before, a) {
        AlwaysNow(w, before, a);
        RunKeeps(w, before);
        LostIff(u, e, i);
      }
    }
  }

  lemma NothingYet(w: World, a: Ack)
    requires InPlace(w, a)
    ensures AlwaysInPlace(w, [], a) && NeverLost(w, [], a)
  {
    hide InPlace;
    var none: seq<Step> := [];
    assert none[..0] == none;
  }

  lemma AlwaysNow(w: World, steps: seq<Step>, a: Ack)
    requires AlwaysInPlace(w, steps, a)
    ensures InPlace(Run(w, steps), a)
  {
    hide Run, InPlace;
    assert steps[..|steps|] == steps;
  }

  /** The answer to a pairing request puts the pairing in place, whatever went wrong before. */
  lemma AnsweredInPlace(w: World, q: PairRequest)
    requires Shape(w) && w.config.Quiet? && w.receiver.count <= 32 && Acknowledges(w.receiver, q)
    ensures
      var v := Take(w, Pair(q));
      v.acks == w.acks + [Ack(PairedId(w.receiver, q), q.address, w.epoch)]
      && InPlace(v, v.acks[|w.acks|]) && v.epoch == w.epoch
  {
    PairTakes(w, q);
    PairChanges(w.receiver, q);
    var v, n := Take(w, Pair(q)), |w.receiver.persist|;
    assert Stands(v, v.receiver.persist[n], v.acks[|w.acks|]);
  }

  /**
   In every run, on whatever flash the receiver booted and whatever failed before: from the
   answer on, and as long as the generation lasts, a pairing is always in flash below the
   count, in the queue or with the worker, if and only if no write of its only copy fails.
   */
  lemma KeptIffNeverLost(me: u48, f: Flash, steps: seq<Step>, more: seq<Step>, i: nat)
    requires
      var w := Run(FirstBoot(me, f), steps);
      w.epoch < GENERATIONS && i < |w.acks| && w.acks[i].epoch == w.epoch && InPlace(w, w.acks[i])
    requires
      var w := Run(FirstBoot(me, f), steps);
      Crash !in more && Run(w, more).epoch == w.epoch
    ensures
      var w := Run(FirstBoot(me, f), steps);
      AlwaysInPlace(w, more, w.acks[i]) <==> NeverLost(w, more, w.acks[i])
  {
    hide Run, FirstBoot, Inv, InPlace, AlwaysInPlace, NeverLost;
    FirstBootInv(me, f);
    RunKeeps(FirstBoot(me, f), steps);
    InPlaceThroughout(Run(FirstBoot(me, f), steps), more, i);
  }

  // ---- What the worker gets done ----

  // The worker finishes what it holds and takes `n` records more; no write fails.
  function Turns(n: nat): seq<Step> {
    if n == 0 then [PersistTracker(true), PersistCount(true)]
    else Turns(n - 1) + [Fetch, PersistTracker(true), PersistCount(true)]
  }

  // Nothing that a pairing depends on has changed but for the worker and the queue.
  predicate Settled(v: World, w: World) {
    v.worker.Idle? && v.config == w.config && v.acks == w.acks && v.epoch == w.epoch && v.dropped == w.dropped
  }

  // What a turn needs to know of a world.
  predicate Workable(w: World) {
    |w.stamps| == |w.receiver.persist| && (!w.worker.Idle? ==> w.worker.record.count <= 32)
  }

  lemma WorkableShape(w: World)
    requires Inv(w)
    ensures Workable(w)
  {
    hide NothingCurrent, Fits, Saved, FactsOf;
  }

  lemma CountTaken(w: World)
    requires Workable(w) && w.worker.Halfway?
    ensures var v := Take(w, PersistCount(true)); Settled(v, w) && v.receiver == w.receiver
  {
    hide WithCount;
  }

  lemma TurnEnds(w: World)
    requires Workable(w) && w.config.Quiet?
    ensures
      var v := Take(Take(w, PersistTracker(true)), PersistCount(true));
      Settled(v, w) && v.receiver == w.receiver
  {
    if w.worker.Holding? {
      TrackerTakes(w, true);
    }
    var u := Take(w, PersistTracker(true));
    assert !w.worker.Holding? ==> u == w;
    hide WithTracker, WithCount;
    if u.worker.Halfway? {
      hide Take;
      CountTaken(u);
    }
  }

  lemma FetchTakes(w: World)
    requires Workable(w) && w.worker.Idle?
    ensures
      var v := Take(w, Fetch);
      && v.config == w.config && v.acks == w.acks && v.epoch == w.epoch && v.dropped == w.dropped
      && |v.receiver.persist| == if |w.receiver.persist| == 0 then 0 else |w.receiver.persist| - 1
  {
  }

  lemma TurnSteps(w: World, before: seq<Step>)
    ensures Run(w, [PersistTracker(true), PersistCount(true)])
         == Take(Take(w, PersistTracker(true)), PersistCount(true))
    ensures Run(w, before + [Fetch, PersistTracker(true), PersistCount(true)])
         == Take(Take(Take(Run(w, before), Fetch), PersistTracker(true)), PersistCount(true))
  {
    RunTwo(w, [], PersistTracker(true), PersistCount(true));
    RunNone(w);
    RunTwo(w, before + [Fetch], PersistTracker(true), PersistCount(true));
    hide Take;
    assert [] + [PersistTracker(true), PersistCount(true)] == [PersistTracker(true), PersistCount(true)];
    assert before + [Fetch] + [PersistTracker(true), PersistCount(true)]
        == before + [Fetch, PersistTracker(true), PersistCount(true)];
    assert (before + [Fetch])[..|before|] == before;
  }

  lemma {:induction false} TurnsEnd(w: World, n: nat)
    requires Inv(w) && w.config.Quiet?
    ensures
      var v := Run(w, Turns(n));
      Settled(v, w) && |v.receiver.persist| == if |w.receiver.persist| <= n then 0 else |w.receiver.persist| - n
  {
    hide Take, Inv, Run, Workable;
    if n == 0 {
      TurnSteps(w, []);
      WorkableShape(w);
      TurnEnds(w);
    } else {
      TurnsEnd(w, n - 1);
      TurnSteps(w, Turns(n - 1));
      RunKeeps(w, Turns(n - 1));
      OneTurn(Run(w, Turns(n - 1)));
    }
  }

  lemma OneTurn(u: World)
    requires Inv(u) && u.config.Quiet? && u.worker.Idle?
    ensures
      var v := Take(Take(Take(u, Fetch), PersistTracker(true)), PersistCount(true));
      Settled(v, u) && |v.receiver.persist| == if |u.receiver.persist| == 0 then 0 else |u.receiver.persist| - 1
  {
    hide Take, Inv, Workable;
    WorkableShape(u);
    FetchTakes(u);
    StepKeeps(u, Fetch);
    WorkableShape(Take(u, Fetch));
    TurnEnds(Take(u, Fetch));
  }

  /**
   If nothing was lost before, an answered pairing is in flash below the count once the
   worker has had as many turns as there are records waiting, and no write of these fails.
   */
  lemma ReachesFlash(me: u48, f: Flash, steps: seq<Step>, i: nat)
    requires
      var w := Run(FirstBoot(me, f), steps);
      w.epoch < GENERATIONS && !w.dropped && i < |w.acks| && w.acks[i].epoch == w.epoch
    ensures
      var w := Run(FirstBoot(me, f), steps);
      InFlash(Run(w, Turns(|w.receiver.persist|)), w.acks[i])
  {
    hide Run, FirstBoot, Inv, InFlash, WithWorker;
    FirstBootInv(me, f);
    RunKeeps(FirstBoot(me, f), steps);
    var w := Run(FirstBoot(me, f), steps);
    QuietWhenCurrent(w, i);
    var turns := Turns(|w.receiver.persist|);
    TurnsEnd(w, |w.receiver.persist|);
    RunAppend(FirstBoot(me, f), steps, turns);
    AcknowledgedIsKept(me, f, steps + turns, i);
    NotWithIdle(Run(w, turns), w.acks[i]);
  }

  lemma QuietWhenCurrent(w: World, i: nat)
    requires Inv(w) && i < |w.acks| && w.acks[i].epoch == w.epoch
    ensures w.config.Quiet?
  {
  }

  lemma NotWithIdle(w: World, a: Ack)
    requires w.worker.Idle?
    ensures !WithWorker(w, a)
  {
  }

  // ---- Runs in which it happens ----

  // A receiver with nothing stored, pairing from the start, after one request and the worker's pop.
  lemma Popped(me: u48, address: u48) returns (w: World)
    requires address != 0
    ensures w == Take(Take(FirstBoot(me, Flash(None, None, map[])), Pair(PairRequest(true, address))), Fetch)
    ensures w.acks == [Ack(0, address, 0)] && w.receiver.persist == [] && w.stamps == [] && w.epoch == 0
    ensures w.worker == Holding(PersistRecord(0, 1, address, 0), 0) && w.config == Quiet
    ensures w.store.flash == Flash(None, None, map[]) && w.store.count == 0
    ensures w.receiver.primary && w.receiver.generation == 0
  {
    var b := FirstBoot(me, Flash(None, None, map[]));
    assert b.receiver == Receiver(true, true, b.store.trackers, 0, 0, 0, 0, []);
    var q := PairRequest(true, address);
    assert PairedId(b.receiver, q) == 0 && b.receiver.table[0] == 0;
    var p := Take(b, Pair(q));
    assert p.receiver.persist == [PersistRecord(0, 1, address, 0)] && p.stamps == [0];
    w := Take(p, Fetch);
  }

  /** The worker's write fails and the answered pairing is nowhere. */
  lemma FailedWriteLoses(me: u48, address: u48)
    requires address != 0
    ensures
      var b := FirstBoot(me, Flash(None, None, map[]));
      var w := Run(b, [Pair(PairRequest(true, address)), Fetch, PersistTracker(false)]);
      w.acks == [Ack(0, address, 0)] && w.epoch == 0 && !InPlace(w, w.acks[0])
  {
    var b := FirstBoot(me, Flash(None, None, map[]));
    ThreeSteps(b, Pair(PairRequest(true, address)), Fetch, PersistTracker(false));
    var w := Popped(me, address);
    hide Run, FirstBoot;
    assert WithWorker(w, w.acks[0]);
    FailedOnly(w);
  }

  lemma FailedOnly(w: World)
    requires w.worker.Holding? && w.config.Quiet? && w.receiver.persist == [] && w.store.flash.count.None?
    requires w.worker.record.generation == w.receiver.generation
    ensures
      var v := Take(w, PersistTracker(false));
      v.acks == w.acks && v.epoch == w.epoch && forall a :: !InPlace(v, a)
  {
  }

  function Clears(n: nat): seq<Step> {
    if n == 0 then [] else Clears(n - 1) + [BeginClear, EraseCount(true, true)]
  }

  // A popped record waits for the lock while the empty table is cleared over and over.
  lemma {:induction false} ClearsRun(w: World, n: nat)
    requires w.worker.Holding? && w.config.Quiet? && w.store.count == 0 && w.epoch == 0 && w.receiver.generation == 0
    ensures
      var v := Run(w, Clears(n));
      && v.worker == w.worker && v.config.Quiet? && v.store.count == 0 && v.epoch == n
      && v.receiver.generation == n % GENERATIONS && v.store.flash.entries == w.store.flash.entries
    decreases n
  {
    hide Take;
    if n > 0 {
      ClearsRun(w, n - 1);
      var before := Clears(n - 1);
      RunTwo(w, before, BeginClear, EraseCount(true, true));
      OneClear(Run(w, before));
    }
  }

  lemma RunTwo(w: World, before: seq<Step>, a: Step, b: Step)
    ensures Run(w, before + [a, b]) == Take(Take(Run(w, before), a), b)
  {
    hide Take;
    var all, n := before + [a, b], |before|;
    assert all[..n + 1] == before + [a] && (before + [a])[..n] == before;
  }

  lemma OneClear(w: World)
    requires w.worker.Holding? && w.config.Quiet? && w.store.count == 0
    requires w.receiver.generation == w.epoch % GENERATIONS
    ensures
      var v := Take(Take(w, BeginClear), EraseCount(true, true));
      && v.worker == w.worker && v.config.Quiet? && v.store.count == 0 && v.epoch == w.epoch + 1
      && v.receiver.generation == v.epoch % GENERATIONS && v.store.flash.entries == w.store.flash.entries
  {
    NextGeneration(w.epoch);
    var u := Take(w, BeginClear);
    assert u.config == Erasing(0, ClearAll) && u.store == w.store && u.worker == w.worker;
  }

  /** After exactly 2^32 clears a record popped before the first of them is written. */
  lemma StaleWriteHappens(me: u48, address: u48)
    requires address != 0
    ensures
      var b := FirstBoot(me, Flash(None, None, map[]));
      var w := Run(b, [Pair(PairRequest(true, address)), Fetch] + Clears(GENERATIONS));
      && w.epoch == GENERATIONS && w.worker.Holding? && w.worker.stamp == 0 && w.store.flash.entries == map[]
      && Take(w, PersistTracker(true)).store.flash.entries == map[0 := address]
  {
    var b := FirstBoot(me, Flash(None, None, map[]));
    var w := Popped(me, address);
    var first := [Pair(PairRequest(true, address)), Fetch];
    RunTwo(b, [], Pair(PairRequest(true, address)), Fetch);
    assert [] + first == first;
    RunNone(b);
    hide FirstBoot, Take, Run, Clears;
    RunAppend(b, first, Clears(GENERATIONS));
    ClearsRun(w, GENERATIONS);
    StaleWrite(Run(w, Clears(GENERATIONS)));
  }

  lemma RunNone(w: World)
    ensures Run(w, []) == w
  {
  }

  lemma StaleWrite(w: World)
    requires w.worker.Holding? && w.config.Quiet? && w.worker.record.generation == w.receiver.generation
    ensures Take(w, PersistTracker(true)).store.flash.entries
         == w.store.flash.entries[w.worker.record.id := w.worker.record.address]
  {
  }
}
