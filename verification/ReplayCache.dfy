/**
 The receiver's memory of its last eight answers (protocol/command_replay_cache.c).
 What an answer is does not matter to it, so the module is generic in that.
 */
module ReplayCaches {
  import opened Bytes

  const CACHE_SIZE: nat := 8

  datatype Entry<R> = Vacant | Entry(requestId: u16, response: R)

  type Slots<R> = s: seq<Entry<R>> | |s| == 8 witness seq(8, _ => Vacant)

  type Slot = i: int | 0 <= i < 8

  datatype Cache<R> = Cache(entries: Slots<R>, cursor: Slot)

  function Empty<R>(): Cache<R> {
    Cache(seq(8, _ => Vacant), 0)
  }

  predicate Matches<R>(e: Entry<R>, id: u16) {
    e.Entry? && e.requestId == id
  }

  // The slot of the first entry for `id` from `i` on, or 8.
  function Scan<R>(s: Slots<R>, id: u16, i: nat): (k: nat)
    requires i <= 8
    ensures i <= k <= 8 && (k < 8 ==> Matches(s[k], id))
    ensures forall j :: i <= j < k ==> !Matches(s[j], id)
    decreases 8 - i
  {
    if i == 8 || Matches(s[i], id) then i else Scan(s, id, i + 1)
  }

  // `sv_command_replay_find`
  function Lookup<R>(c: Cache<R>, id: u16): (r: Option<R>)
    ensures r.None? <==> forall i :: 0 <= i < 8 ==> !Matches(c.entries[i], id)
    ensures r.Some? ==> exists i :: 0 <= i < 8 && c.entries[i] == Entry(id, r.value)
  {
    var k := Scan(c.entries, id, 0);
    if k < 8 then Some(c.entries[k].response) else None
  }

  // `sv_command_replay_store`
  function Stored<R>(c: Cache<R>, id: u16, response: R): Cache<R> {
    Cache(c.entries[c.cursor := Entry(id, response)], (c.cursor + 1) % 8)
  }

  // ---- What storing keeps ----

  // Which of the first `n` stores slot `i` still holds: the last one whose turn it was.
  function Turn(n: nat, i: Slot): (k: nat)
    requires i < n
    ensures k < n <= k + 8 && k % 8 == i
  {
    if i == (n - 1) % 8 then n - 1 else Turn(n - 1, i)
  }

  // The cache after storing a whole history.
  function Replayed<R>(log: seq<(u16, R)>): Cache<R> {
    if log == [] then Empty()
    else Stored(Replayed(log[..|log| - 1]), log[|log| - 1].0, log[|log| - 1].1)
  }

  lemma NextTurn(n: nat)
    ensures (n % 8 + 1) % 8 == (n + 1) % 8
  {
  }

  /** After any history of stores, the slots hold the last eight of them and nothing else. */
  lemma {:induction false} HoldsLastEight<R>(log: seq<(u16, R)>, i: Slot)
    ensures Replayed(log).cursor == |log| % 8
    ensures Replayed(log).entries[i] ==
            if i < |log| then Entry(log[Turn(|log|, i)].0, log[Turn(|log|, i)].1) else Vacant
  {
    if log != [] {
      var n := |log| - 1;
      HoldsLastEight(log[..n], i);
      NextTurn(n);
    }
  }

  lemma TurnOf(n: nat, k: nat)
    requires k < n <= k + 8
    ensures k % 8 < n && Turn(n, k % 8) == k
  {
    var t := Turn(n, k % 8);
    assert (t - k) % 8 == 0;
  }

  // What a successful search returns is one of the last eight answers stored.
  lemma FoundIsRecent<R>(log: seq<(u16, R)>, id: u16) returns (k: nat)
    requires Lookup(Replayed(log), id).Some?
    ensures k < |log| <= k + 8 && log[k] == (id, Lookup(Replayed(log), id).value)
  {
    hide Turn, Replayed;
    var c := Replayed(log);
    var i :| 0 <= i < 8 && c.entries[i] == Entry(id, Lookup(c, id).value);
    HoldsLastEight(log, i);
    k := Turn(|log|, i);
  }

  /** An answer is found exactly when one of the last eight stored was for this request id. */
  lemma FoundIffRecent<R>(log: seq<(u16, R)>, id: u16)
    ensures Lookup(Replayed(log), id).Some? <==>
            exists k :: 0 <= k < |log| <= k + 8 && log[k].0 == id
  {
    hide Turn, Replayed;
    var c := Replayed(log);
    if Lookup(c, id).Some? {
      var k := FoundIsRecent(log, id);
    }
    if k :| 0 <= k < |log| <= k + 8 && log[k].0 == id {
      var i: Slot := k % 8;
      TurnOf(|log|, k);
      HoldsLastEight(log, i);
      assert Matches(c.entries[i], id);
    }
  }

  class CommandReplayCache<R(0)> {
    const entries: array<Entry<R>>
    var cursor: nat

    ghost predicate Valid()
      reads this
    {
      entries.Length == 8 && cursor < 8
    }

    ghost function View(): Cache<R>
      reads this, entries
      requires Valid()
    {
      Cache(entries[..], cursor)
    }

    constructor ()
      ensures Valid() && fresh(entries) && View() == Empty()
    {
      entries := new Entry<R>[8](_ => Vacant);
      cursor := 0;
      new;
      assert entries[..] == Empty<R>().entries;
    }

    method Find(id: u16) returns (response: Option<R>)
      requires Valid()
      ensures response == Lookup(View(), id)
    {
      for index := 0 to 8
        invariant Scan(entries[..], id, 0) == Scan(entries[..], id, index)
      {
        if entries[index].Entry? && entries[index].requestId == id {
          return Some(entries[index].response);
        }
      }
      response := None;
    }

    method Store(id: u16, response: R)
      requires Valid()
      modifies this`cursor, entries
      ensures Valid() && View() == Stored(old(View()), id, response)
    {
      entries[cursor] := Entry(id, response);
      cursor := (cursor + 1) % 8;
    }
  }
}
