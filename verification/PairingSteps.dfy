/**
 The methods of module RfReceivers, taken apart: run undisturbed, the steps of module
 PairingPersistence do what the worker, the clear and the group change do in one go,
 whichever of their flash writes fails.
 */
module PairingSteps {
  import opened Bytes
  import opened RfReceivers
  import opened ReceiverStores
  import opened PairingPersistence

  lemma RunOne(w: World, e: Step)
    ensures Run(w, [e]) == Take(w, e)
  {
    hide Take;
    assert [e][..0] == [];
  }

  /** Fetching a record and the two writes are one turn of the worker. */
  lemma PersistInSteps(w: World, entryWorks: bool, countWorks: bool)
    requires Shape(w) && w.worker.Idle? && w.config.Quiet? && w.receiver.persist != []
    ensures
      var v := Take(Take(Take(w, Fetch), PersistTracker(entryWorks)), PersistCount(countWorks));
      && v.receiver == w.receiver.(persist := w.receiver.persist[1..]) && v.worker.Idle?
      && w.receiver.persist[0].count <= 32
      && v.store == Persisted(w.receiver.persist[0], w.receiver.generation, w.store, entryWorks, countWorks)
  {
    assert RecordShape(w, w.receiver.persist[0], w.stamps[0]);
    PopTakes(w);
    hide Shape;
    var fetched := Take(w, Fetch);
    var put := Take(fetched, PersistTracker(entryWorks));
    TrackerTakes(fetched, entryWorks);
  }

  function Erases(n: nat, restores: bool): seq<Step> {
    if n == 0 then [] else Erases(n - 1, restores) + [Erase(true, restores)]
  }

  lemma EraseTakes(w: World, restores: bool)
    requires w.config.Erasing? && w.config.next < w.store.count <= 32
    ensures Take(w, Erase(true, restores)) ==
            w.(store := WithoutEntry(w.store, w.config.next), config := w.config.(next := w.config.next + 1))
  {
    hide Finished;
  }

  lemma {:induction false} ErasesRun(w: World, n: nat, restores: bool)
    requires w.config.Erasing? && w.config.next == 0 && n <= w.store.count <= 32
    ensures Run(w, Erases(n, restores)) ==
            w.(store := WithoutEntries(w.store, n), config := w.config.(next := n))
    ensures WithoutEntries(w.store, n).count == w.store.count
  {
    hide Take;
    if n > 0 {
      ErasesRun(w, n - 1, restores);
      var before := Erases(n - 1, restores);
      assert (before + [Erase(true, restores)])[..|before|] == before;
      EraseTakes(Run(w, before), restores);
    }
  }

  // The deletes up to the failing write, and the step in which it fails or which ends the clear.
  function EraseSteps(count: nat, failing: nat, restores: bool): seq<Step> {
    if failing < count then Erases(failing, restores) + [Erase(false, restores)]
    else Erases(count, restores) + [EraseCount(failing != count, restores)]
  }

  // What is left after them, from the state in which a clear or a group change holds the lock.
  function Erased(w: World, failing: nat, restores: bool): World
    requires w.config.Erasing? && w.store.count <= 32
  {
    var n := if failing < w.store.count then failing else w.store.count;
    var b := w.(store := WithoutEntries(w.store, n), config := w.config.(next := n));
    if failing < w.store.count then Finished(b, false, restores).(failed := true)
    else
      var works := failing != w.store.count;
      Finished(CountErased(b, works), works && (w.config.goal.Join? ==> w.config.goal.written), restores)
  }

  lemma EraseStepsRun(w: World, failing: nat, restores: bool)
    requires w.config.Erasing? && w.config.next == 0 && w.store.count <= 32
    ensures Run(w, EraseSteps(w.store.count, failing, restores)) == Erased(w, failing, restores)
  {
    hide Finished, CountErased, Take;
    var n := if failing < w.store.count then failing else w.store.count;
    var last := if failing < w.store.count then Erase(false, restores) else EraseCount(failing != n, restores);
    ErasesRun(w, n, restores);
    RunAppend(w, Erases(n, restores), [last]);
    RunOne(Run(w, Erases(n, restores)), last);
    LastTakes(Run(w, Erases(n, restores)), n != failing, restores);
  }

  lemma LastTakes(b: World, works: bool, restores: bool)
    requires b.config.Erasing? && b.config.next <= b.store.count <= 32
    ensures b.config.next < b.store.count ==>
      Take(b, Erase(false, restores)) == Finished(b, false, restores).(failed := true)
    ensures b.config.next == b.store.count ==>
      (Take(b, EraseCount(works, restores)) ==
       Finished(CountErased(b, works), works && (b.config.goal.Join? ==> b.config.goal.written), restores))
  {
    hide Finished, CountErased;
  }

  /** A clear, step by step, is the clear in one go: in RAM always complete, in flash up to the write that fails. */
  lemma ClearInSteps(w: World, failing: nat, restores: bool)
    requires Shape(w) && Unlocked(w)
    ensures
      var v := Run(w, [BeginClear] + EraseSteps(w.store.count, failing, restores));
      && v.receiver == AfterClear(w.receiver) && v.store == Cleared(w.store, failing)
      && v.config.Quiet? && v.group == w.group
  {
    hide EraseSteps, Take, Erased, Cleared, Forgotten;
    var begun := Take(w, BeginClear);
    BeginClearTakes(w);
    RunAppend(w, [BeginClear], EraseSteps(w.store.count, failing, restores));
    RunOne(w, BeginClear);
    EraseStepsRun(begun, failing, restores);
    ErasedClear(begun, failing, restores);
  }

  lemma ErasedClear(w: World, failing: nat, restores: bool)
    requires w.config == Erasing(0, ClearAll) && w.store.count <= 32
    ensures
      var v := Erased(w, failing, restores);
      && v.receiver == Forgotten(w.receiver).(pairing := w.receiver.primary)
      && v.store == Cleared(w.store, failing) && v.config.Quiet? && v.group == w.group
  {
    ErasesKeepCount(w.store, if failing < w.store.count then failing else w.store.count);
    hide WithoutEntries, Emptied;
  }

  lemma {:induction false} ErasesKeepCount(s: Storage, n: nat)
    requires n <= 32
    ensures WithoutEntries(s, n).count == s.count
  {
    if n > 0 {
      ErasesKeepCount(s, n - 1);
    }
  }

  // The same for a group change; `s` is what storage held before its new group was written.
  lemma ErasedJoin(w: World, s: Storage, requested: u48, writes: Writes)
    requires w.config.Erasing? && w.config.next == 0 && w.config.goal.Join? && w.config.goal.written == writes.group
    requires w.store == WithGroup(s, requested, writes.group) && s.count <= 32
    ensures
      var v, goal, ok := Erased(w, writes.failing, writes.restore), w.config.goal, writes.Work(s);
      && v.receiver == (if ok then Forgotten(w.receiver)
                        else w.receiver.(primary := goal.wasPrimary, pairing := goal.wasPairing))
      && v.store == GroupStored(s, GroupField(goal.wasPrimary, goal.wasGroup), requested, writes)
      && v.config.Quiet? && v.group == if ok then w.group else goal.wasGroup
  {
    var failing := writes.failing;
    ErasesKeepCount(w.store, if failing < w.store.count then failing else w.store.count);
    hide WithoutEntries, Emptied;
  }

  lemma BeginClearTakes(w: World)
    requires Unlocked(w)
    ensures Take(w, BeginClear) == PairingPersistence.Bumped(w).(config := Erasing(0, ClearAll))
  {
  }

  /** So is a group change, which puts the old group back if any of its writes fails. */
  lemma JoinInSteps(w: World, secondary: bool, requested: u48, writes: Writes)
    requires Shape(w) && Unlocked(w) && !(secondary && requested == 0)
    ensures
      var v := Run(w, [BeginJoin(secondary, requested, writes.group)]
                      + EraseSteps(w.store.count, writes.failing, writes.restore));
      var ok := writes.Work(w.store);
      && v.receiver == AfterGroup(w.receiver, secondary, ok) && v.config.Quiet?
      && v.store == GroupStored(w.store, GroupField(w.receiver.primary, w.group), GroupField(!secondary, requested),
                                writes)
      && v.group == if !ok then w.group else if secondary then requested else w.me
  {
    hide EraseSteps, Take, Erased, Cleared, GroupStored;
    var begin := BeginJoin(secondary, requested, writes.group);
    var begun := Take(w, begin);
    BeginJoinTakes(w, secondary, requested, writes.group);
    RunAppend(w, [begin], EraseSteps(w.store.count, writes.failing, writes.restore));
    RunOne(w, begin);
    EraseStepsRun(begun, writes.failing, writes.restore);
    ErasedJoin(begun, w.store, GroupField(!secondary, requested), writes);
  }

  lemma BeginJoinTakes(w: World, secondary: bool, requested: u48, works: bool)
    requires Unlocked(w) && !(secondary && requested == 0)
    ensures
      var v := Take(w, BeginJoin(secondary, requested, works));
      && v.receiver == RfReceivers.Bumped(w.receiver).(primary := !secondary, pairing := false)
      && v.store == WithGroup(w.store, GroupField(!secondary, requested), works)
      && v.group == (if secondary then requested else w.me) && v.me == w.me
      && v.config == Erasing(0, Join(w.receiver.primary, w.receiver.pairing, w.group, works))
  {
  }
}
