/**
 Registrations are handed out in exact rotation
 (`next_registration`, firmware/nrf54l15/src/report_builder.c).
 */
module RoundRobin {
  import opened Bytes
  import opened ReportBuilders

  // The ids met going around the table from `cursor`, `n` places.
  function Around(cursor: nat, n: nat): (ids: seq<TrackerId>)
    ensures |ids| == n
  {
    if n == 0 then [] else Around(cursor, n - 1) + [Place(cursor, n - 1)]
  }

  function Registered(table: Table, ids: seq<TrackerId>): seq<TrackerId> {
    if ids == [] then [] else
    Registered(table, ids[..|ids| - 1]) + if table[ids[|ids| - 1]] != 0 then [ids[|ids| - 1]] else []
  }

  // The registered ids in cyclic ascending order from `cursor`, each once.
  function Rotation(table: Table, cursor: nat): seq<TrackerId> {
    Registered(table, Around(cursor, 32))
  }

  lemma {:induction false} RegisteredConcat(table: Table, a: seq<TrackerId>, b: seq<TrackerId>)
    ensures Registered(table, a + b) == Registered(table, a) + Registered(table, b)
  {
    if b == [] {
      assert a + b == a;
    } else {
      assert (a + b)[..|a + b| - 1] == a + b[..|b| - 1];
      RegisteredConcat(table, a, b[..|b| - 1]);
    }
  }

  lemma PlaceOfPlace(cursor: nat, m: nat, n: nat)
    ensures Place(Place(cursor, m), n) == Place(cursor, m + n)
  {
    var q := (cursor + m) / 32;
    assert cursor + m == 32 * q + Place(cursor, m);
    assert cursor + m + n == 32 * q + (Place(cursor, m) + n);
  }

  lemma {:induction false} AroundConcat(cursor: nat, m: nat, n: nat)
    ensures Around(cursor, m + n) == Around(cursor, m) + Around(Place(cursor, m), n)
  {
    if n > 0 {
      AroundConcat(cursor, m, n - 1);
      PlaceOfPlace(cursor, m, n - 1);
    }
  }

  lemma TurnFull(cursor: TrackerId)
    ensures Place(cursor, 32) == cursor && Place(cursor, 0) == cursor
  {
  }

  // Nothing registered up to `offset`: the search goes on to the first place `o` that is.
  lemma {:induction false} SearchFinds(table: Table, cursor: nat, offset: nat) returns (o: nat)
    requires offset <= 32 && Registered(table, Around(cursor, offset)) == []
    ensures o <= 32 && Registered(table, Around(cursor, o)) == []
    ensures o == 32 <==> NextFrom(table, cursor, offset).None?
    ensures o < 32 ==> NextFrom(table, cursor, offset) == Some(Place(cursor, o))
    decreases 32 - offset
  {
    hide Place;
    o := offset;
    if offset < 32 && table[Place(cursor, offset)] == 0 {
      assert Around(cursor, offset + 1)[..offset] == Around(cursor, offset);
      o := SearchFinds(table, cursor, offset + 1);
    }
  }

  /** One search takes the head of the rotation, and rotates it. */
  lemma OneStep(table: Table, cursor: TrackerId)
    ensures
      match NextFrom(table, cursor, 0)
      case None => Rotation(table, cursor) == []
      case Some(id) =>
        var r := Rotation(table, cursor);
        r != [] && r[0] == id && Rotation(table, NextCursor(id)) == r[1..] + [id]
  {
    var o := SearchFinds(table, cursor, 0);
    if o < 32 {
      Rotates(table, cursor, o);
    }
  }

  lemma Rotates(table: Table, cursor: TrackerId, o: nat)
    requires o < 32 && table[Place(cursor, o)] != 0 && Registered(table, Around(cursor, o)) == []
    ensures
      var r, id := Rotation(table, cursor), Place(cursor, o);
      r != [] && r[0] == id && Rotation(table, NextCursor(id)) == r[1..] + [id]
  {
    var id := Place(cursor, o);
    var next := NextCursor(id);
    assert next == Place(cursor, o + 1) by {
      PlaceOfPlace(cursor, o, 1);
    }
    hide Place, NextCursor, Rotation;
    var ahead := Registered(table, Around(next, 31 - o));
    RotationBefore(table, cursor, o);
    RotationAfter(table, cursor, o);
    assert ([id] + ahead)[1..] == ahead;
  }

  // The way around from the cursor: what is skipped, `id`, what lies ahead.
  lemma RotationBefore(table: Table, cursor: TrackerId, o: nat)
    requires o < 32 && table[Place(cursor, o)] != 0 && Registered(table, Around(cursor, o)) == []
    requires NextCursor(Place(cursor, o)) == Place(cursor, o + 1)
    ensures
      var id := Place(cursor, o);
      Rotation(table, cursor) == [id] + Registered(table, Around(NextCursor(id), 31 - o))
  {
    hide Place, NextCursor;
    var id := Place(cursor, o);
    var skipped, ahead := Around(cursor, o), Around(NextCursor(id), 31 - o);
    One(table, id);
    AroundConcat(cursor, o + 1, 31 - o);
    RegisteredConcat(table, skipped, [id]);
    RegisteredConcat(table, skipped + [id], ahead);
    assert Around(cursor, 32) == skipped + [id] + ahead;
  }

  // From the cursor left behind: what lay ahead, then what was skipped, then `id`.
  lemma RotationAfter(table: Table, cursor: TrackerId, o: nat)
    requires o < 32 && table[Place(cursor, o)] != 0 && Registered(table, Around(cursor, o)) == []
    requires NextCursor(Place(cursor, o)) == Place(cursor, o + 1)
    ensures
      var id := Place(cursor, o);
      Rotation(table, NextCursor(id)) == Registered(table, Around(NextCursor(id), 31 - o)) + [id]
  {
    hide Place, NextCursor;
    var id := Place(cursor, o);
    var next := NextCursor(id);
    var skipped, ahead := Around(cursor, o), Around(next, 31 - o);
    One(table, id);
    TurnFull(cursor);
    RegisteredConcat(table, skipped, [id]);
    PlaceOfPlace(cursor, o + 1, 31 - o);
    AroundConcat(next, 31 - o, o + 1);
    RegisteredConcat(table, ahead, skipped + [id]);
    assert Around(next, 32) == ahead + (skipped + [id]);
  }

  lemma One(table: Table, id: TrackerId)
    requires table[id] != 0
    ensures Registered(table, [id]) == [id]
  {
    assert [id][..0] == [];
  }

  // The ids of `n` consecutive calls.
  function Calls(table: Table, cursor: nat, n: nat): seq<TrackerId>
    decreases n
  {
    if n == 0 then [] else
    match NextFrom(table, cursor, 0)
    case None => []
    case Some(id) => [id] + Calls(table, NextCursor(id), n - 1)
  }

  /** Up to a full turn, consecutive calls walk along the rotation. */
  lemma {:induction false} CallsFollowRotation(table: Table, cursor: TrackerId, n: nat)
    requires n <= |Rotation(table, cursor)|
    ensures Calls(table, cursor, n) == Rotation(table, cursor)[..n]
    decreases n
  {
    if n > 0 {
      OneStep(table, cursor);
      var r := Rotation(table, cursor);
      var id := r[0];
      CallsFollowRotation(table, NextCursor(id), n - 1);
      assert (r[1..] + [id])[..n - 1] == r[1..][..n - 1] == r[1..n];
    }
  }

  /** The rotation lists exactly the registered ids, each once. */
  lemma RotationIsExact(table: Table, cursor: nat)
    ensures forall i, j :: 0 <= i < j < |Rotation(table, cursor)| ==>
      Rotation(table, cursor)[i] != Rotation(table, cursor)[j]
    ensures forall id: TrackerId :: id in Rotation(table, cursor) <==> table[id] != 0
  {
    AroundDistinct(cursor, 32);
    RegisteredKeeps(table, Around(cursor, 32));
    forall id: TrackerId ensures id in Around(cursor, 32) {
      var k := Reaches(cursor, id);
      AroundAt(cursor, 32, k);
    }
  }

  lemma {:induction false} AroundAt(cursor: nat, n: nat, k: nat)
    requires k < n
    ensures Around(cursor, n)[k] == Place(cursor, k)
  {
    if k < n - 1 {
      AroundAt(cursor, n - 1, k);
    }
  }

  /** Every id is met within a turn. */
  lemma Reaches(cursor: nat, id: TrackerId) returns (k: nat)
    ensures k < 32 && Place(cursor, k) == id
  {
    var start := cursor % 32;
    k := if id >= start then id - start else 32 + id - start;
    PlaceOfPlace(cursor, 0, k);
  }

  lemma AroundDistinct(cursor: nat, n: nat)
    requires n <= 32
    ensures forall i, j :: 0 <= i < j < n ==> Around(cursor, n)[i] != Around(cursor, n)[j]
  {
    hide Around, Place;
    forall i, j | 0 <= i < j < n ensures Around(cursor, n)[i] != Around(cursor, n)[j] {
      AroundAt(cursor, n, i);
      AroundAt(cursor, n, j);
      PlacesDiffer(cursor, i, j);
    }
  }

  lemma PlacesDiffer(cursor: nat, i: nat, j: nat)
    requires i < j < 32
    ensures Place(cursor, i) != Place(cursor, j)
  {
    var q, r := cursor / 32, cursor % 32;
    assert cursor + i == 32 * q + (r + i) && cursor + j == 32 * q + (r + j);
  }

  lemma {:induction false} RegisteredKeeps(table: Table, ids: seq<TrackerId>)
    requires forall i, j :: 0 <= i < j < |ids| ==> ids[i] != ids[j]
    ensures forall i, j :: 0 <= i < j < |Registered(table, ids)| ==>
      Registered(table, ids)[i] != Registered(table, ids)[j]
    ensures forall id: TrackerId :: id in Registered(table, ids) <==> id in ids && table[id] != 0
  {
    if ids != [] {
      RegisteredKeeps(table, ids[..|ids| - 1]);
      assert ids == ids[..|ids| - 1] + [ids[|ids| - 1]];
    }
  }

  /**
   Exact round robin: with k trackers registered, k consecutive calls from any cursor
   emit each registered id exactly once, in cyclic ascending order.
   */
  lemma EachIdOnce(table: Table, cursor: TrackerId)
    ensures
      var r := Rotation(table, cursor);
      && Calls(table, cursor, |r|) == r
      && (forall i, j :: 0 <= i < j < |r| ==> r[i] != r[j])
      && (forall id: TrackerId :: id in r <==> table[id] != 0)
  {
    var r := Rotation(table, cursor);
    CallsFollowRotation(table, cursor, |r|);
    assert r[..|r|] == r;
    RotationIsExact(table, cursor);
  }
}
