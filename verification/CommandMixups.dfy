/**
 The converse: wherever an alias stands at the moment of issue, some run hands the new
 command's caller the answer of the old one. Hence the exact condition, the two ways in
 which callers can be sure of it, and a run in which it fails.
 */
module CommandMixups {
  import opened Bytes
  import opened CommandClients
  import opened CommandServers
  import opened ReplayCaches
  import opened CommandRuns
  import opened CommandAliases

  // The caller of command `n` got an answer that another command's execution made.
  ghost predicate Misled(w: World, n: nat) {
    exists i :: 0 <= i < |w.returned| && !OwnReturn(w.returned[i], n)
  }

  // Some continuation gets it there.
  ghost predicate CanMislead(w: World, n: nat) {
    exists steps :: Misled(Run(w, steps), n)
  }

  lemma Then(w: World, e: Step, n: nat)
    requires CanMislead(Take(w, e), n)
    ensures CanMislead(w, n)
  {
    hide Take, Misled;
    var steps :| Misled(Run(Take(w, e), steps), n);
    var all := [e] + steps;
    assert all[1..] == steps;
    assert Misled(Run(w, all), n);
  }

  // Command `n` waits for its answer and nothing was executed for it.
  ghost predicate Open(w: World, n: nat) {
    && Shape(w) && w.caller.Waiting? && w.caller.serial == n && w.client.active
    && (forall i :: 0 <= i < |w.executed| ==> w.executed[i].1.command.serial < n)
  }

  // Nor did the receiver get it.
  predicate Before(w: World, n: nat) {
    w.spi.Received? && w.spi.request.Some? ==> w.spi.request.value.command.serial < n
  }

  // The steps that get the other tasks out of the way.
  predicate Harmless(w: World, e: Step, n: nat) {
    match e
    case Prepare(_) => true
    case Arm(_) => true
    case Exchange(_, _) => true
    case Accept => w.link.Incoming? && !Carries(w.link.incoming, WireId(n))
    case Process(_) =>
      Before(w, n) || (w.spi.Received? && w.spi.request.Some? && !Executes(w.server, w.spi.request.value.id))
    case _ => false
  }

  lemma StaysOpen(w: World, e: Step, n: nat)
    requires Open(w, n) && Harmless(w, e, n)
    ensures Open(Take(w, e), n)
  {
    hide Shape, ProcessedBy, Executes;
    ShapeStep(w, e);
    assert CallerShape(w) by { CallerOf(w); }
  }

  lemma CallerOf(w: World)
    requires Shape(w)
    ensures CallerShape(w)
  {
  }

  // An answer about before `n` was executed is another command's.
  lemma KnownIsOlder(w: World, a: Answer, n: nat)
    requires Open(w, n) && Known(w, a)
    ensures a.command.serial < n
  {
    hide Shape;
    var i :| 0 <= i < |w.executed| && w.executed[i] == (a.id, a);
  }

  lemma DeliverIncoming(w: World, n: nat)
    requires Open(w, n) && w.link.Incoming? && Carries(w.link.incoming, WireId(n))
    ensures CanMislead(w, n)
  {
    hide CanMislead, LogShape, RequestsGenuine, InOrder, ReturnsKnown;
    KnownIsOlder(w, w.link.incoming.value, n);
    var accepted := Take(w, Accept);
    var woken := Take(accepted, Wake);
    var back := Take(woken, Collect);
    assert back.returned[|w.returned|] == Return(n, w.caller.room, w.link.incoming);
    NowMisled(back, |w.returned|, n);
    Then(woken, Collect, n);
    Then(accepted, Wake, n);
    Then(w, Accept, n);
  }

  lemma NowMisled(w: World, i: nat, n: nat)
    requires i < |w.returned| && !OwnReturn(w.returned[i], n)
    ensures CanMislead(w, n)
  {
    assert Misled(Run(w, []), n);
  }

  lemma DeliverArmed(w: World, n: nat)
    requires Open(w, n) && w.spi.Armed? && Carries(w.spi.answer, WireId(n))
    ensures CanMislead(w, n)
    decreases if w.link.Incoming? then 2 else if w.link.Polling? then 1 else 0
  {
    hide CanMislead, Open;
    match w.link {
      case Incoming(a) =>
        if Carries(a, WireId(n)) {
          DeliverIncoming(w, n);
        } else {
          StaysOpen(w, Accept, n);
          DeliverArmed(Take(w, Accept), n);
          Then(w, Accept, n);
        }
      case Polling =>
        StaysOpen(w, Prepare(0), n);
        DeliverArmed(Take(w, Prepare(0)), n);
        Then(w, Prepare(0), n);
      case Prepared(_) =>
        StaysOpen(w, Exchange(false, true), n);
        DeliverIncoming(Take(w, Exchange(false, true)), n);
        Then(w, Exchange(false, true), n);
    }
  }

  lemma DeliverPending(w: World, n: nat)
    requires Open(w, n) && w.spi.Preparing? && Carries(w.server.pending, WireId(n))
    ensures CanMislead(w, n)
  {
    hide CanMislead, Open;
    StaysOpen(w, Arm(true), n);
    DeliverArmed(Take(w, Arm(true)), n);
    Then(w, Arm(true), n);
  }

  lemma DeliverReceived(w: World, q: Request, n: nat)
    requires Open(w, n) && w.spi == Received(Some(q)) && q.id == WireId(n)
    requires q.command.serial < n || !Executes(w.server, q.id)
    ensures CanMislead(w, n)
  {
    hide CanMislead, LogShape, Executes, ProcessedBy;
    var e := Process(Reply(false, []));
    StaysOpen(w, e, n);
    ProcessLog(w, q, e.reply);
    DeliverPending(Take(w, e), n);
    Then(w, e, n);
  }

  function Busy(spi: SpiThread): nat {
    if spi.Received? then 2 else if spi.Preparing? then 1 else 0
  }

  // The receiver works off what it has, and arms.
  lemma SettlesTowardsArmed(w: World, n: nat) returns (e: Step)
    requires Open(w, n) && Before(w, n) && !w.spi.Armed?
    ensures Open(Take(w, e), n) && Before(Take(w, e), n)
    ensures Take(w, e).link == w.link && Take(w, e).client == w.client
    ensures SettledServer(Take(w, e)).cache == SettledServer(w).cache && Busy(Take(w, e).spi) < Busy(w.spi)
  {
    hide Open, ProcessedBy;
    e := if w.spi.Received? then Process(Reply(false, [])) else Arm(true);
    StaysOpen(w, e, n);
  }

  lemma DeliverRequest(w: World, q: Request, n: nat)
    requires Open(w, n) && Before(w, n) && w.link == Prepared(Some(q)) && q.id == WireId(n)
    requires q.command.serial < n || Lookup(SettledServer(w).cache, q.id).Some?
    ensures CanMislead(w, n)
    decreases Busy(w.spi)
  {
    hide CanMislead, Open, Lookup;
    if w.spi.Armed? {
      var e := Exchange(true, false);
      StaysOpen(w, e, n);
      DeliverReceived(Take(w, e), q, n);
      Then(w, e, n);
    } else {
      var e := SettlesTowardsArmed(w, n);
      DeliverRequest(Take(w, e), q, n);
      Then(w, e, n);
    }
  }

  // The old answer is in the cache: the new command's own request fetches it.
  lemma DeliverRemembered(w: World, n: nat)
    requires Open(w, n) && Before(w, n) && w.client.attempts == 0
    requires Lookup(SettledServer(w).cache, WireId(n)).Some?
    ensures CanMislead(w, n)
    decreases if w.link.Prepared? then 2 else if w.link.Incoming? then 1 else 0, Busy(w.spi)
  {
    hide CanMislead, Lookup, Open;
    if w.link.Prepared? && w.link.outgoing.Some? && w.link.outgoing.value.id == WireId(n) {
      DeliverRequest(w, w.link.outgoing.value, n);
    } else if w.link.Incoming? && Carries(w.link.incoming, WireId(n)) {
      DeliverIncoming(w, n);
    } else if w.link.Incoming? {
      StaysOpen(w, Accept, n);
      DeliverRemembered(Take(w, Accept), n);
      Then(w, Accept, n);
    } else if w.link.Prepared? {
      StaysOpen(w, Exchange(false, false), n);
      DeliverRemembered(Take(w, Exchange(false, false)), n);
      Then(w, Exchange(false, false), n);
    } else {
      FirstAttempt(w, n);
      DeliverRequest(Take(w, Prepare(0)), OwnRequestOf(w), n);
      Then(w, Prepare(0), n);
    }
  }

  function OwnRequestOf(w: World): Request {
    Request(w.client.requestId, w.client.command)
  }

  lemma FirstAttempt(w: World, n: nat)
    requires Open(w, n) && Before(w, n) && w.client.attempts == 0 && w.link.Polling?
    ensures var v := Take(w, Prepare(0));
            Open(v, n) && Before(v, n) && v.link == Prepared(Some(OwnRequestOf(w)))
            && OwnRequestOf(w).id == WireId(n) && SettledServer(v) == SettledServer(w)
  {
    StaysOpen(w, Prepare(0), n);
  }

  lemma AliasDelivers(w: World)
    requires Shape(w) && w.caller.Drained? && Aliased(w, w.client.nextRequestId)
    ensures CanMislead(Take(w, Issue), |w.issued|)
  {
    hide CanMislead, Lookup, InOrder, ReturnsKnown;
    var n := |w.issued|;
    var v := Take(w, Issue);
    IssueOpens(w);
    if w.link.Prepared? && w.link.outgoing.Some? && w.link.outgoing.value.id == WireId(n) {
      DeliverRequest(v, v.link.outgoing.value, n);
    } else if w.link.Incoming? && Carries(w.link.incoming, WireId(n)) {
      DeliverIncoming(v, n);
    } else if w.spi.Armed? && Carries(w.spi.answer, WireId(n)) {
      DeliverArmed(v, n);
    } else if Lookup(SettledServer(w).cache, WireId(n)).Some? {
      DeliverRemembered(v, n);
    } else if w.spi.Received? && w.spi.request.Some? {
      ProcessLog(w, w.spi.request.value, Reply(false, []));
      DeliverReceived(v, v.spi.request.value, n);
    } else {
      DeliverPending(v, n);
    }
  }

  lemma IssueOpens(w: World)
    requires Shape(w) && w.caller.Drained?
    ensures
      var v := Take(w, Issue);
      && Open(v, |w.issued|) && Before(v, |w.issued|) && v.client.attempts == 0
      && w.client.nextRequestId == WireId(|w.issued|)
      && v.link == w.link && v.spi == w.spi && v.server == w.server && SettledServer(v) == SettledServer(w)
      && RequestsGenuine(w)
      && (w.link.Prepared? && w.link.outgoing.Some? ==> w.link.outgoing.value.command.serial < |w.issued|)
  {
    hide Increasing, Replayed, ReturnsKnown, AnswersKnown, ProcessedBy;
    ShapeStep(w, Issue);
    forall i | 0 <= i < |w.executed| ensures w.executed[i].1.command.serial < |w.issued| {
      assert Real(w, w.executed[i].1.command);
    }
  }

  /**
   The exact condition. Where a command is about to be issued, some continuation hands its
   caller another command's answer if and only if its request id has an alias.
   */
  lemma MisledIffAliased(steps: seq<Step>)
    requires Run(Booted(), steps).caller.Drained?
    ensures
      var w := Run(Booted(), steps);
      Aliased(w, WireId(|w.issued|)) <==> CanMislead(Take(w, Issue), |w.issued|)
  {
    hide Take, Aliased, Misled, LogShape, Own;
    var w := Run(Booted(), steps);
    BootedShape();
    ShapeRuns(Booted(), steps);
    if Aliased(w, WireId(|w.issued|)) {
      AliasDelivers(w);
    } else {
      forall more ensures !Misled(Run(Take(w, Issue), more), |w.issued|) {
        NeverMisled(w, more);
      }
    }
  }

  lemma NeverMisled(w: World, more: seq<Step>)
    requires Shape(w) && w.caller.Drained? && !Aliased(w, WireId(|w.issued|))
    ensures !Misled(Run(Take(w, Issue), more), |w.issued|)
  {
    hide Run, Take, Aliased, LogShape, Clean;
    IssueIsClean(w);
    ShapeStep(w, Issue);
    OwnRuns(Take(w, Issue), more, |w.issued|);
  }

  // ---- When callers can be sure ----

  // How many of the executions were of commands numbered `from` or later.
  function ExecutedSince(log: seq<(u16, Answer)>, from: int): (n: nat)
    ensures n <= |log|
  {
    if log == [] then 0
    else ExecutedSince(log[..|log| - 1], from) + if log[|log| - 1].1.command.serial >= from then 1 else 0
  }

  lemma {:induction false} SinceIsSuffix(log: seq<(u16, Answer)>, from: int, k: nat)
    requires Increasing(log) && 1 <= k <= ExecutedSince(log, from)
    ensures log[|log| - k].1.command.serial >= from
  {
    var prior := log[..|log| - 1];
    if log[|log| - 1].1.command.serial >= from {
      if k > 1 {
        SinceIsSuffix(prior, from, k - 1);
      }
    } else {
      SinceIsSuffix(prior, from, k);
    }
  }

  // An alias stands for a command no older than the eighth last execution.
  lemma AliasHasSource(w: World) returns (m: nat)
    requires Shape(w) && w.caller.Drained? && Aliased(w, WireId(|w.issued|))
    ensures m < |w.issued| && WireId(m) == WireId(|w.issued|)
    ensures |w.executed| >= 8 ==> Newest(w, 8) <= m
  {
    hide Lookup, Replayed, ReturnsKnown, CallerShape;
    var id := WireId(|w.issued|);
    if w.link.Prepared? && w.link.outgoing.Some? && w.link.outgoing.value.id == id {
      m := w.link.outgoing.value.command.serial;
    } else if w.link.Incoming? && Carries(w.link.incoming, id) {
      var a := w.link.incoming.value;
      m := if Answers(w, a, 1) then w.handled[|w.handled| - 1] else w.handled[|w.handled| - 2];
    } else if w.spi.Armed? && Carries(w.spi.answer, id) {
      m := Last(w.handled);
    } else {
      m := SettledSource(w, id);
    }
  }

  lemma SettledSource(w: World, id: u16) returns (m: nat)
    requires Shape(w) && (Lookup(SettledServer(w).cache, id).Some? || Carries(SettledServer(w).pending, id))
    ensures m < |w.issued| && WireId(m) == id
    ensures |w.executed| >= 8 ==> Newest(w, 8) <= m
  {
    hide Lookup, Replayed, ReturnsKnown, CallerShape, Executes;
    var v := w;
    if w.spi.Received? && w.spi.request.Some? {
      var q := w.spi.request.value;
      v := AfterProcess(w, q, Reply(false, []));
      ProcessLog(w, q, Reply(false, []));
    }
    if Carries(v.server.pending, id) {
      m := Last(v.handled);
    } else {
      var k := FoundIsRecent(v.executed, id);
      m := v.executed[k].1.command.serial;
      assert Real(v, v.executed[k].1.command);
    }
  }

  /**
   No alias stands if fewer than 65,536 commands were issued, or if at least 8 of the
   65,535 before this one were executed.
   */
  lemma NoAliasWhen(steps: seq<Step>)
    requires Run(Booted(), steps).caller.Drained?
    requires
      var w := Run(Booted(), steps);
      |w.issued| < 0x1_0000 || ExecutedSince(w.executed, |w.issued| - 0xffff) >= 8
    ensures
      var w := Run(Booted(), steps);
      !Aliased(w, WireId(|w.issued|))
  {
    hide Run, Aliased, ExecutedSince;
    var w := Run(Booted(), steps);
    BootedShape();
    ShapeRuns(Booted(), steps);
    if Aliased(w, WireId(|w.issued|)) {
      var m := AliasHasSource(w);
      SameWireId(m, |w.issued|);
      if ExecutedSince(w.executed, |w.issued| - 0xffff) >= 8 {
        SinceIsSuffix(w.executed, |w.issued| - 0xffff, 8);
      }
      assert false;
    }
  }

  /** Then whatever follows, what the caller gets is the answer of its own command's execution. */
  lemma AnswersAreOwn(steps: seq<Step>, more: seq<Step>, i: nat)
    requires Run(Booted(), steps).caller.Drained?
    requires
      var w := Run(Booted(), steps);
      |w.issued| < 0x1_0000 || ExecutedSince(w.executed, |w.issued| - 0xffff) >= 8
    requires
      var w := Run(Booted(), steps);
      var v := Run(Take(w, Issue), more);
      i < |v.returned| && v.returned[i].serial == |w.issued| && v.returned[i].answer.Some?
    ensures
      var w := Run(Booted(), steps);
      Run(Take(w, Issue), more).returned[i].answer.value.command.serial == |w.issued|
  {
    hide Run, Take, Aliased, ExecutedSince;
    var w := Run(Booted(), steps);
    NoAliasWhen(steps);
    BootedShape();
    ShapeRuns(Booted(), steps);
    NeverMisled(w, more);
    assert OwnReturn(Run(Take(w, Issue), more).returned[i], |w.issued|);
  }

  // ---- A run in which it fails ----

  lemma {:induction false} RunAppend(w: World, a: seq<Step>, b: seq<Step>)
    ensures Run(w, a + b) == Run(Run(w, a), b)
    decreases |a|
  {
    if a == [] {
      assert a + b == b;
    } else {
      assert (a + b)[1..] == a[1..] + b;
      RunAppend(Take(w, a[0]), a[1..], b);
    }
  }

  // One command that times out before the link task sees it.
  lemma SkipOne(w: World) returns (v: World, steps: seq<Step>)
    requires Shape(w) && w.caller.Idle?
    ensures v == Run(w, steps) && Shape(v) && v.caller.Idle? && |v.issued| == |w.issued| + 1
    ensures v.link == w.link && v.spi == w.spi && v.server == w.server
  {
    hide Shape;
    steps := [Enter([2], 64), Drain, Issue, Expire, Deactivate];
    var a := Take(w, Enter([2], 64));
    var b := Take(a, Drain);
    var c := Take(b, Issue);
    assert !c.client.done;
    var d := Take(c, Expire);
    v := Take(d, Deactivate);
    assert Run(a, steps[1..]) == Run(b, steps[2..]) by { assert steps[1..][1..] == steps[2..]; }
    assert Run(b, steps[2..]) == Run(c, steps[3..]) by { assert steps[2..][1..] == steps[3..]; }
    assert Run(c, steps[3..]) == Run(d, steps[4..]) by { assert steps[3..][1..] == steps[4..]; }
    assert Run(d, steps[4..]) == Run(v, []) by { assert steps[4..][1..] == []; }
    ShapeRuns(w, steps);
  }

  lemma {:induction false} SkipMany(w: World, k: nat) returns (v: World, steps: seq<Step>)
    requires Shape(w) && w.caller.Idle?
    ensures v == Run(w, steps) && Shape(v) && v.caller.Idle? && |v.issued| == |w.issued| + k
    ensures v.link == w.link && v.spi == w.spi && v.server == w.server
    decreases k
  {
    hide Shape, Run;
    if k == 0 {
      v, steps := w, [];
      RunNothing(w);
    } else {
      var u, first := SkipOne(w);
      var rest: seq<Step>;
      v, rest := SkipMany(u, k - 1);
      steps := first + rest;
      RunAppend(w, first, rest);
    }
  }

  lemma RunNothing(w: World)
    ensures Run(w, []) == w
  {
  }

  lemma OneMore(w: World, steps: seq<Step>, e: Step) returns (v: World, more: seq<Step>)
    ensures v == Take(Run(w, steps), e) == Run(w, more)
  {
    hide Take;
    v, more := Take(Run(w, steps), e), steps + [e];
    RunAppend(w, steps, [e]);
    assert [e][1..] == [];
  }

  // The first command: executed, its answer left waiting, its caller timed out.
  lemma FirstSent() returns (v: World, steps: seq<Step>)
    ensures v == Run(Booted(), steps) && v.caller == Waiting(0, 64) && |v.issued| == 1 && !v.client.done
    ensures v.link == Prepared(Some(Request(1, Command([1], 0)))) && v.spi == Armed(None)
    ensures v.server == Server(Empty(), None)
  {
    hide Run;
    RunNothing(Booted());
    v, steps := OneMore(Booted(), [], Arm(true));
    v, steps := OneMore(Booted(), steps, Enter([1], 64));
    v, steps := OneMore(Booted(), steps, Drain);
    v, steps := OneMore(Booted(), steps, Issue);
    v, steps := OneMore(Booted(), steps, Prepare(0));
  }

  lemma FirstTimedOut() returns (v: World, steps: seq<Step>)
    ensures v == Run(Booted(), steps) && v.caller.Idle? && |v.issued| == 1
    ensures v.spi.Preparing? && Carries(v.server.pending, 1)
  {
    hide Run;
    v, steps := FirstSent();
    v, steps := OneMore(Booted(), steps, Exchange(true, false));
    v, steps := OneMore(Booted(), steps, Process(Reply(false, [1])));
    v, steps := OneMore(Booted(), steps, Expire);
    v, steps := OneMore(Booted(), steps, Deactivate);
  }

  /**
   A run in which it fails: the first command times out after the receiver executed it,
   65,535 more time out unsent, and the next one's caller is handed the first one's answer.
   */
  lemma MixupHappens() returns (steps: seq<Step>, more: seq<Step>)
    ensures
      var w := Run(Booted(), steps);
      && w.caller.Drained? && |w.issued| == 0x1_0000
      && Misled(Run(Take(w, Issue), more), |w.issued|)
  {
    hide Run, Misled, Shape;
    BootedShape();
    var v, first := FirstTimedOut();
    ShapeRuns(Booted(), first);
    var u, skips := SkipMany(v, 0xffff);
    RunAppend(Booted(), first, skips);
    var w;
    w, steps := OneMore(Booted(), first + skips, Enter([3], 64));
    w, steps := OneMore(Booted(), steps, Drain);
    ShapeRuns(Booted(), steps);
    CallerOf(w);
    AliasDelivers(w);
    more :| Misled(Run(Take(w, Issue), more), |w.issued|);
  }
}
