/**
 Registrations from report to report (firmware/nrf54l15/src/report_builder.c:85-146): what
 the spare slots of successive reports name, read off their bytes.
 */
module RegistrationRuns {
  import opened Bytes
  import opened Reports
  import opened ReportBuilders
  import opened ReportRuns
  import opened RoundRobin

  // The id a slot registers, if it holds a registration.
  function InSlot(x: ReportBytes, s: nat): seq<u8>
    requires s < 3
  {
    if x[16 * s] == 255 then [x[16 * s + 1]] else []
  }

  function Announced(x: ReportBytes): seq<u8> {
    InSlot(x, 0) + InSlot(x, 1) + InSlot(x, 2)
  }

  // The ids registered in all reports of a run, one after another.
  function AllAnnounced(b: Builder, h: seq<Event>): seq<u8> {
    if h == [] then [] else
    var e, before := h[|h| - 1], Run(b, h[..|h| - 1]);
    AllAnnounced(b, h[..|h| - 1])
    + if e.NextCall? && NextReport(before, e.now).Some? then Announced(NextReport(before, e.now).value) else []
  }

  // Nothing queued looks like a registration; the receiver queues types up to 223 and 251.
  ghost predicate NoneQueued(q: seq<Record>) {
    forall i :: 0 <= i < |q| ==> q[i].data[0] != 255
  }

  lemma KeepsNoneQueued(b: Builder, e: Event)
    requires NoneQueued(b.queue) && Usual(e)
    ensures NoneQueued(Apply(b, e).queue)
  {
    hide FindSensor;
  }

  // ---- One report ----

  lemma AnnouncedOf(records: seq<Record>, ids: seq<TrackerId>, table: Table)
    requires |records| + |ids| <= 3 && NoneQueued(records)
    ensures Announced(ReportOf(records, ids, table)) == ids
  {
    var x, n := ReportOf(records, ids, table), |records|;
    forall s | 0 <= s < 3
      ensures InSlot(x, s) == if n <= s < n + |ids| then [ids[s - n] as u8] else []
    {
      SlotStarts(records, ids, table, s);
    }
    hide InSlot;
    assert |ids| >= 1 ==> ids[..1] == [ids[0]];
    assert ids == if |ids| == 0 then [] else if |ids| == 1 then [ids[0]]
      else if |ids| == 2 then [ids[0]] + [ids[1]] else [ids[0]] + [ids[1]] + [ids[2]];
  }

  lemma SlotStarts(records: seq<Record>, ids: seq<TrackerId>, table: Table, s: nat)
    requires |records| + |ids| <= 3 && s < 3 && NoneQueued(records)
    ensures
      var x, n := ReportOf(records, ids, table), |records|;
      InSlot(x, s) == if n <= s < n + |ids| then [ids[s - n] as u8] else []
  {
    var x := ReportOf(records, ids, table);
    SlotAt(records, ids, table, s);
    assert x[16 * s] == x[16 * s..16 * s + 16][0] && x[16 * s + 1] == x[16 * s..16 * s + 16][1];
    if |records| <= s < |records| + |ids| {
      RegistrationReads(ids[s - |records|], table[ids[s - |records|]]);
    }
    hide ReportOf, RegistrationRecord;
  }

  // ---- The cursor ----

  function CursorAfter(table: Table, cursor: nat, n: nat): nat
    decreases n
  {
    if n == 0 then cursor else
    match NextFrom(table, cursor, 0)
    case None => cursor
    case Some(id) => CursorAfter(table, NextCursor(id), n - 1)
  }

  lemma {:induction false} RegistrationsAreCalls(table: Table, cursor: nat, n: nat)
    ensures Registrations(table, cursor, n) == (Calls(table, cursor, n), CursorAfter(table, cursor, n))
    decreases n
  {
    if n > 0 && NextFrom(table, cursor, 0).Some? {
      RegistrationsAreCalls(table, NextCursor(NextFrom(table, cursor, 0).value), n - 1);
    }
  }

  lemma OneCall(table: Table, cursor: nat, n: nat)
    requires n > 0 && NextFrom(table, cursor, 0).Some?
    ensures
      var id := NextFrom(table, cursor, 0).value;
      Calls(table, cursor, n) == [id as u8] + Calls(table, NextCursor(id), n - 1)
      && CursorAfter(table, cursor, n) == CursorAfter(table, NextCursor(id), n - 1)
  {
    hide NextFrom;
  }

  lemma {:induction false} CallsConcat(table: Table, cursor: nat, m: nat, n: nat)
    ensures Calls(table, cursor, m + n) == Calls(table, cursor, m) + Calls(table, CursorAfter(table, cursor, m), n)
    ensures CursorAfter(table, cursor, m + n) == CursorAfter(table, CursorAfter(table, cursor, m), n)
    decreases m
  {
    hide NextFrom, Calls, CursorAfter;
    if m == 0 {
      CallsNone(table, cursor);
    } else {
      match NextFrom(table, cursor, 0)
      case None =>
        NoCalls(table, cursor, m);
        NoCalls(table, cursor, n);
        NoCalls(table, cursor, m + n);
      case Some(id) =>
        OneCall(table, cursor, m);
        OneCall(table, cursor, m + n);
        CallsConcat(table, NextCursor(id), m - 1, n);
    }
  }

  lemma NoCalls(table: Table, cursor: nat, n: nat)
    requires NextFrom(table, cursor, 0).None?
    ensures Calls(table, cursor, n) == [] && CursorAfter(table, cursor, n) == cursor
  {
  }

  lemma {:induction false} CallsLength(table: Table, cursor: TrackerId, n: nat)
    requires Rotation(table, cursor) != []
    ensures |Calls(table, cursor, n)| == n && CursorAfter(table, cursor, n) < 32
    ensures |Rotation(table, CursorAfter(table, cursor, n))| == |Rotation(table, cursor)|
    decreases n
  {
    hide Rotation;
    if n > 0 {
      OneStep(table, cursor);
      CallsLength(table, NextCursor(NextFrom(table, cursor, 0).value), n - 1);
    }
  }

  // ---- Over a run ----

  // Samples, diagnostics and reports, and no change to the table.
  ghost predicate Steady(h: seq<Event>) {
    forall i :: 0 <= i < |h| ==> Usual(h[i]) && !h[i].SetAddress? && !h[i].Clear?
  }

  lemma StepAnnounces(b: Builder, e: Event)
    requires NoneQueued(b.queue) && Usual(e) && !e.SetAddress? && !e.Clear?
    ensures
      var v := Apply(b, e);
      var ids := if e.NextCall? && NextReport(b, e.now).Some? then Announced(NextReport(b, e.now).value) else [];
      && v.table == b.table && ids == Calls(b.table, b.cursor, |ids|)
      && v.cursor == CursorAfter(b.table, b.cursor, |ids|)
  {
    hide Registrations, ReportOf, FindSensor, Announced;
    if e.NextCall? && Pending(b, e.now) {
      var n := 3 - Taken(b);
      AnnouncedOf(Emitted(b), EmittedIds(b), b.table);
      RegistrationsAreCalls(b.table, b.cursor, n);
      SameCalls(b.table, b.cursor, n);
    }
  }

  // Calls that find fewer than asked for are as many as they found.
  lemma {:induction false} SameCalls(table: Table, cursor: nat, n: nat)
    ensures
      var m := |Calls(table, cursor, n)|;
      && Calls(table, cursor, m) == Calls(table, cursor, n)
      && CursorAfter(table, cursor, m) == CursorAfter(table, cursor, n)
    decreases n
  {
    if n > 0 && NextFrom(table, cursor, 0).Some? {
      SameCalls(table, NextCursor(NextFrom(table, cursor, 0).value), n - 1);
    }
  }

  lemma {:induction false} RunAnnounces(b: Builder, h: seq<Event>)
    requires NoneQueued(b.queue) && Steady(h)
    ensures
      var v, a := Run(b, h), AllAnnounced(b, h);
      && NoneQueued(v.queue) && v.table == b.table
      && a == Calls(b.table, b.cursor, |a|) && v.cursor == CursorAfter(b.table, b.cursor, |a|)
  {
    hide Apply, NextReport, Announced, Calls, CursorAfter, NoneQueued;
    if h == [] {
      CallsNone(b.table, b.cursor);
    } else {
      var n := |h| - 1;
      assert Usual(h[n]) && !h[n].SetAddress? && !h[n].Clear?;
      RunAnnounces(b, h[..n]);
      var u, a := Run(b, h[..n]), AllAnnounced(b, h[..n]);
      KeepsNoneQueued(u, h[n]);
      StepAnnounces(u, h[n]);
      var more := AllAnnounced(b, h)[|a|..];
      assert AllAnnounced(b, h) == a + more;
      CallsConcat(b.table, b.cursor, |a|, |more|);
    }
  }

  lemma CallsNone(table: Table, cursor: nat)
    ensures Calls(table, cursor, 0) == [] && CursorAfter(table, cursor, 0) == cursor
  {
  }

  /**
   Across reports, and whatever is enqueued between them, the spare slots walk around the
   table: any k of them in a row, with k trackers registered, name each tracker once, and
   the slot after a turn names the tracker the turn began with.
   */
  lemma SpareSlotsRotate(b: Builder, h: seq<Event>, i: nat)
    requires NoneQueued(b.queue) && Steady(h) && b.cursor < 32
    requires i + |Rotation(b.table, b.cursor)| <= |AllAnnounced(b, h)|
    ensures
      var a, k := AllAnnounced(b, h), |Rotation(b.table, b.cursor)|;
      && (i == 0 ==> a[..k] == Rotation(b.table, b.cursor))
      && (forall p, q :: i <= p < q < i + k ==> a[p] != a[q])
      && (forall id: TrackerId :: id in a[i..i + k] <==> b.table[id] != 0)
      && (k > 0 && i + k < |a| ==> a[i + k] == a[i])
  {
    hide Rotation, AllAnnounced, Calls, CursorAfter, Run;
    var a, k := AllAnnounced(b, h), |Rotation(b.table, b.cursor)|;
    RunAnnounces(b, h);
    if k == 0 {
      RotationIsExact(b.table, b.cursor);
    } else {
      TurnFrom(b.table, b.cursor, |a|, i);
      FirstTurn(b.table, b.cursor, |a|);
      if i + k < |a| {
        TurnsOn(b.table, b.cursor, |a|, i);
      }
    }
  }

  lemma Slice<T>(p: seq<T>, q: seq<T>, r: seq<T>)
    ensures (p + (q + r))[|p|..|p| + |q|] == q
  {
  }

  // The turn that starts with the i-th of `n` calls is a rotation.
  lemma TurnIsRotation(table: Table, cursor: TrackerId, n: nat, i: nat)
    requires Rotation(table, cursor) != [] && i + |Rotation(table, cursor)| <= n
    ensures
      var a, k, c := Calls(table, cursor, n), |Rotation(table, cursor)|, CursorAfter(table, cursor, i);
      |a| == n && c < 32 && |Rotation(table, c)| == k && a[i..i + k] == Rotation(table, c)
  {
    hide Rotation, Calls, CursorAfter;
    var k, c := |Rotation(table, cursor)|, CursorAfter(table, cursor, i);
    CallsLength(table, cursor, n);
    CallsLength(table, cursor, i);
    CallsConcat(table, cursor, i, n - i);
    CallsConcat(table, c, k, n - i - k);
    EachIdOnce(table, c);
    Slice(Calls(table, cursor, i), Calls(table, c, k), Calls(table, CursorAfter(table, c, k), n - i - k));
  }

  lemma CursorStep(table: Table, cursor: TrackerId, i: nat)
    requires Rotation(table, cursor) != []
    ensures
      var c := CursorAfter(table, cursor, i);
      c < 32 && Rotation(table, c) != []
      && Rotation(table, CursorAfter(table, cursor, i + 1)) == Rotation(table, c)[1..] + [Rotation(table, c)[0]]
  {
    hide Rotation;
    CallsLength(table, cursor, i);
    CallsConcat(table, cursor, i, 1);
    OneStep(table, CursorAfter(table, cursor, i));
  }

  lemma TurnFrom(table: Table, cursor: TrackerId, n: nat, i: nat)
    requires Rotation(table, cursor) != [] && i + |Rotation(table, cursor)| <= n
    ensures
      var a, k := Calls(table, cursor, n), |Rotation(table, cursor)|;
      && |a| == n
      && (forall p, q :: i <= p < q < i + k ==> a[p] != a[q])
      && (forall id: TrackerId :: id in a[i..i + k] <==> table[id] != 0)
  {
    hide Rotation, Calls, CursorAfter;
    var a, c := Calls(table, cursor, n), CursorAfter(table, cursor, i);
    TurnIsRotation(table, cursor, n, i);
    EachIdOnce(table, c);
    Distinct(a, i, Rotation(table, c));
  }

  lemma FirstTurn(table: Table, cursor: TrackerId, n: nat)
    requires Rotation(table, cursor) != [] && |Rotation(table, cursor)| <= n
    ensures |Calls(table, cursor, n)| == n
    ensures Calls(table, cursor, n)[..|Rotation(table, cursor)|] == Rotation(table, cursor)
  {
    CallsNone(table, cursor);
    hide Rotation, Calls, CursorAfter;
    TurnIsRotation(table, cursor, n, 0);
  }

  lemma TurnsOn(table: Table, cursor: TrackerId, n: nat, i: nat)
    requires Rotation(table, cursor) != [] && i + |Rotation(table, cursor)| < n
    ensures
      var a, k := Calls(table, cursor, n), |Rotation(table, cursor)|;
      |a| == n && a[i + k] == a[i]
  {
    hide Rotation, Calls, CursorAfter;
    TurnIsRotation(table, cursor, n, i);
    TurnIsRotation(table, cursor, n, i + 1);
    CursorStep(table, cursor, i);
    TurnedBy(Calls(table, cursor, n), i, Rotation(table, CursorAfter(table, cursor, i)));
  }

  lemma Distinct<T>(a: seq<T>, i: nat, r: seq<T>)
    requires i + |r| <= |a| && a[i..i + |r|] == r && forall p, q :: 0 <= p < q < |r| ==> r[p] != r[q]
    ensures forall p, q :: i <= p < q < i + |r| ==> a[p] != a[q]
  {
    forall p, q | i <= p < q < i + |r| ensures a[p] != a[q] {
      assert a[p] == a[i..i + |r|][p - i] && a[q] == a[i..i + |r|][q - i];
    }
  }

  lemma TurnedBy<T>(a: seq<T>, i: nat, r: seq<T>)
    requires r != [] && i + |r| < |a| && a[i..i + |r|] == r && a[i + 1..i + 1 + |r|] == r[1..] + [r[0]]
    ensures a[i + |r|] == a[i]
  {
    assert a[i + |r|] == a[i + 1..i + 1 + |r|][|r| - 1] == r[0];
    assert a[i] == a[i..i + |r|][0];
  }

  /**
   With a tracker registered, a report that leaves the queue empty and a slot to spare is
   followed by the next one, if nothing is enqueued, once 100 ms have passed, and not before.
   */
  lemma IdlePace(b: Builder, now: int, t: int)
    requires HasRegistration(b.table) && Pending(b, now) && |b.queue| <= 2
    ensures Next(b, now).queue == [] && (Pending(Next(b, now), t) <==> t >= now + 100)
  {
    FillsAllSlots(b.table, b.cursor, 3 - Taken(b));
    hide Registrations, HasRegistration;
  }

  /** After a clear no report registers anything until an address is set. */
  lemma ClearedAnnouncesNothing(b: Builder, h: seq<Event>)
    requires Steady(h)
    ensures AllAnnounced(ClearTrackers(b), h) == []
  {
    hide AllAnnounced, Calls;
    var c := ClearTrackers(b);
    RunAnnounces(c, h);
    FindsNone(c.table, c.cursor, 0);
    NoCalls(c.table, c.cursor, |AllAnnounced(c, h)|);
  }
}
