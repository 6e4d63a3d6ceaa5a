/**
 What retries are for: while a command's caller waits, one exchange that brings the request
 over and one that brings the answer back hand it an answer, and an attempt that lost
 either half in between costs no second execution
 (firmware/esp32c5/main/bridge_spi.c:59-135 and 216-250,
 firmware/nrf54l15/src/receiver_control.c:151-156).
 */
module CommandDelivery {
  import opened Bytes
  import opened CommandClients
  import opened CommandServers
  import opened ReplayCaches
  import opened CommandRuns
  import opened CommandMixups

  // A frame goes each way, if it is not lost, and the receiver arms with what it then has to say.
  function Turn(now: u32, up: bool, down: bool, reply: Reply): seq<Step> {
    [Prepare(now), Exchange(up, down), Accept, Process(reply), Arm(true)]
  }

  // One more frame brings what the receiver armed with, and the caller wakes.
  function LastTurn(now: u32): seq<Step> {
    [Prepare(now), Exchange(true, true), Accept, Wake, Collect]
  }

  // The caller waits for an answer, and both ends are between two frames.
  predicate Ready(w: World) {
    && w.caller.Waiting? && w.client.active && !w.client.done && w.link.Polling? && w.spi.Armed?
    && w.server.pending.None?
  }

  lemma FiveSteps(w: World, a: Step, b: Step, c: Step, d: Step, e: Step)
    ensures Run(w, [a, b, c, d, e]) == Take(Take(Take(Take(Take(w, a), b), c), d), e)
  {
    hide Take;
    var s := [a, b, c, d, e];
    assert s[1..] == [b, c, d, e] && s[1..][1..] == [c, d, e] && s[1..][1..][1..] == [d, e];
    assert s[1..][1..][1..][1..] == [e] && s[1..][1..][1..][1..][1..] == [];
    var v := Take(Take(Take(w, a), b), c);
    assert Run(v, [d, e]) == Run(Take(v, d), [e]) == Run(Take(Take(v, d), e), []);
    assert Run(w, s) == Run(Take(w, a), s[1..]);
    assert Run(Take(w, a), s[1..]) == Run(Take(Take(w, a), b), [c, d, e]) == Run(v, [d, e]);
  }

  // The answer the receiver has for the waiting command once its request is there.
  function AnswerFor(w: World, reply: Reply): Answer {
    var id := w.client.requestId;
    if Lookup(w.server.cache, id).Some? then Lookup(w.server.cache, id).value
    else Answer(id, reply, w.client.command)
  }

  function ExecutionsFor(w: World, reply: Reply): seq<(u16, Answer)> {
    if Lookup(w.server.cache, w.client.requestId).Some? then [] else [(w.client.requestId, AnswerFor(w, reply))]
  }

  // The half of a turn that both ends see; what is kept aside is not touched by it.
  lemma Exchanged(w: World, now: u32, up: bool, down: bool)
    requires Ready(w) && (down ==> w.spi.answer.None?)
    ensures
      var v := Take(Take(Take(w, Prepare(now)), Exchange(up, down)), Accept);
      && v.caller == w.caller && v.client == Attempted(w.client, now) && v.link.Polling? && v.server == w.server
      && v.spi == Received(if up then OutgoingRequest(w.client, now) else None)
      && v.executed == w.executed && v.returned == w.returned
  {
    hide Attempted, OutgoingRequest;
    var a := Take(w, Prepare(now));
    assert a.link == Prepared(OutgoingRequest(w.client, now)) && a.spi == w.spi;
    var b := Take(a, Exchange(up, down));
    assert b.link == Incoming(None);
  }

  lemma StoredFound(c: Cache<Answer>, id: u16, a: Answer)
    requires Lookup(c, id).None?
    ensures Lookup(Stored(c, id, a), id) == Some(a)
  {
    hide Scan;
    var s := Stored(c, id, a);
    assert Matches(s.entries[c.cursor], id);
  }

  // The receiver's half.
  lemma Answered(w: World, q: Request, reply: Reply)
    requires w.spi == Received(Some(q))
    ensures
      var v := Take(Take(w, Process(reply)), Arm(true));
      var found := Lookup(w.server.cache, q.id);
      var a := if found.Some? then found.value else Answer(q.id, reply, q.command);
      && v.caller == w.caller && v.client == w.client && v.link == w.link && v.returned == w.returned
      && v.spi == Armed(Some(a)) && v.server.pending.None? && Lookup(v.server.cache, q.id) == Some(a)
      && v.executed == w.executed + if found.Some? then [] else [(q.id, a)]
  {
    if Lookup(w.server.cache, q.id).None? {
      StoredFound(w.server.cache, q.id, Answer(q.id, reply, q.command));
    }
    hide Stored, Lookup;
  }

  // An attempt whose request arrives: the command is executed unless it was before, and the answer is armed.
  lemma RequestGoes(w: World, now: u32, down: bool, reply: Reply)
    requires Ready(w) && w.spi.answer.None? && Due(w.client, now)
    ensures
      var v := Run(w, Turn(now, true, down, reply));
      && Ready(v) && v.caller == w.caller && v.client == Attempted(w.client, now)
      && v.spi.answer == Some(AnswerFor(w, reply)) && v.returned == w.returned
      && v.executed == w.executed + ExecutionsFor(w, reply)
      && Lookup(v.server.cache, w.client.requestId) == Some(AnswerFor(w, reply))
  {
    var q := Request(w.client.requestId, w.client.command);
    FiveSteps(w, Prepare(now), Exchange(true, down), Accept, Process(reply), Arm(true));
    hide Run, Take, Lookup;
    Exchanged(w, now, true, down);
    Answered(Take(Take(Take(w, Prepare(now)), Exchange(true, down)), Accept), q, reply);
  }

  // A frame that does not reach the receiver leaves it as it was, with nothing armed.
  lemma NothingGoes(w: World, now: u32, down: bool, reply: Reply)
    requires Ready(w) && (down ==> w.spi.answer.None?)
    ensures
      var v := Run(w, Turn(now, false, down, reply));
      && Ready(v) && v.caller == w.caller && v.client == Attempted(w.client, now)
      && v.spi.answer.None? && v.server == w.server && v.returned == w.returned && v.executed == w.executed
  {
    FiveSteps(w, Prepare(now), Exchange(false, down), Accept, Process(reply), Arm(true));
    hide Run;
    Exchanged(w, now, false, down);
    NothingSaid(Take(Take(Take(w, Prepare(now)), Exchange(false, down)), Accept), reply);
    hide Take;
  }

  lemma NothingSaid(w: World, reply: Reply)
    requires w.spi == Received(None)
    ensures Take(Take(w, Process(reply)), Arm(true)) == w.(spi := Armed(w.server.pending), server := Sent(w.server))
  {
  }

  // The armed answer comes over and wakes the caller, which takes it.
  lemma AnswerComes(w: World, now: u32)
    requires Ready(w) && w.spi.answer.Some? && w.spi.answer.value.id == w.client.requestId
    ensures
      var v := Run(w, LastTurn(now));
      && v.caller.Idle? && v.executed == w.executed
      && v.returned == w.returned + [Return(w.caller.serial, w.caller.room, w.spi.answer)]
  {
    FiveSteps(w, Prepare(now), Exchange(true, true), Accept, Wake, Collect);
    hide Run;
    var a := Take(w, Prepare(now));
    AttemptedSame(w.client, now);
    hide Attempted;
    assert a.link.Prepared? && a.spi == w.spi;
    var b := Take(a, Exchange(true, true));
    assert b.link == Incoming(w.spi.answer);
    var c := Take(b, Accept);
    assert c.client.done && c.client.response == w.spi.answer;
  }

  lemma AttemptedSame(c: Client<Command, Answer>, now: u32)
    ensures
      var a := Attempted(c, now);
      a.active == c.active && a.requestId == c.requestId && a.command == c.command && a.done == c.done
      && a.response == c.response
  {
  }

  lemma AnswerHasId(w: World, reply: Reply)
    requires LogShape(w)
    ensures AnswerFor(w, reply).id == w.client.requestId
  {
    hide LogShape, Lookup;
    if Lookup(w.server.cache, w.client.requestId).Some? {
      FoundKnown(w, w.client.requestId);
    }
  }

  /**
   An attempt that is due and goes through, and one frame more, give the caller an answer;
   the command is executed unless the receiver has its answer from an earlier attempt.
   */
  lemma AttemptDelivers(w: World, now: u32, later: u32, reply: Reply)
    requires Shape(w) && Ready(w) && w.spi.answer.None? && Due(w.client, now)
    ensures
      var v := Run(w, Turn(now, true, true, reply) + LastTurn(later));
      && v.caller.Idle? && v.executed == w.executed + ExecutionsFor(w, reply)
      && v.returned == w.returned + [Return(w.caller.serial, w.caller.room, Some(AnswerFor(w, reply)))]
  {
    AnswerHasId(w, reply);
    hide Run, Lookup, Shape, AnswerFor, ExecutionsFor;
    AttemptedSame(w.client, now);
    hide Attempted;
    RunAppend(w, Turn(now, true, true, reply), LastTurn(later));
    RequestGoes(w, now, true, reply);
    AnswerComes(Run(w, Turn(now, true, true, reply)), later);
  }

  /** If the first frame is lost on its way there, the retry has the command executed, once. */
  lemma LostRequestIsRetried(w: World, one: u32, two: u32, later: u32, idle: Reply, reply: Reply)
    requires Shape(w) && Ready(w) && w.spi.answer.None? && Due(w.client, one)
    requires Due(Attempted(w.client, one), two) && Lookup(w.server.cache, w.client.requestId).None?
    ensures
      var a := Answer(w.client.requestId, reply, w.client.command);
      var v := Run(w, Turn(one, false, true, idle) + (Turn(two, true, true, reply) + LastTurn(later)));
      && v.caller.Idle? && v.executed == w.executed + [(a.id, a)]
      && v.returned == w.returned + [Return(w.caller.serial, w.caller.room, Some(a))]
  {
    var u := Run(w, Turn(one, false, true, idle));
    hide Run, Lookup, Shape, Attempted;
    AttemptedSame(w.client, one);
    NothingGoes(w, one, true, idle);
    ShapeRuns(w, Turn(one, false, true, idle));
    RunAppend(w, Turn(one, false, true, idle), Turn(two, true, true, reply) + LastTurn(later));
    AttemptDelivers(u, two, later, reply);
  }

  /** If the first answer is lost on its way back, the retry brings it again, and nothing is executed twice. */
  lemma LostAnswerIsRetried(w: World, one: u32, next: u32, two: u32, later: u32, reply: Reply, idle: Reply, other: Reply)
    requires Shape(w) && Ready(w) && w.spi.answer.None? && Due(w.client, one)
    requires !Due(Attempted(w.client, one), next) && Due(Attempted(w.client, one), two)
    requires Lookup(w.server.cache, w.client.requestId).None?
    ensures
      var a := Answer(w.client.requestId, reply, w.client.command);
      var v := Run(w, Turn(one, true, true, reply)
                      + (Turn(next, false, false, idle) + (Turn(two, true, true, other) + LastTurn(later))));
      && v.caller.Idle? && v.executed == w.executed + [(a.id, a)]
      && v.returned == w.returned + [Return(w.caller.serial, w.caller.room, Some(a))]
  {
    var first, lost := Turn(one, true, true, reply), Turn(next, false, false, idle);
    var u := Run(w, first);
    var v := Run(u, lost);
    assert !Due(u.client, next) ==> Attempted(u.client, next) == u.client;
    hide Run, Lookup, Shape, Attempted;
    AttemptedSame(w.client, one);
    RequestGoes(w, one, true, reply);
    NothingGoes(u, next, false, idle);
    ShapeRuns(w, first);
    ShapeRuns(u, lost);
    RunAppend(w, first, lost + (Turn(two, true, true, other) + LastTurn(later)));
    RunAppend(u, lost, Turn(two, true, true, other) + LastTurn(later));
    AttemptDelivers(v, two, later, other);
  }

  /** A command issued with both ends idle stands where the attempts above start, under the next request id. */
  lemma IssueIsReady(w: World, request: seq<u8>, room: nat, now: u32)
    requires Shape(w) && w.caller.Idle? && w.link.Polling? && w.spi == Armed(None) && 1 <= |request| <= 64
    ensures
      var v := Run(w, [Enter(request, room), Drain, Issue]);
      && Shape(v) && Ready(v) && v.spi.answer.None? && Due(v.client, now) && v.server == w.server
      && v.caller == Waiting(|w.issued|, room) && v.client.command == Command(request, |w.issued|)
      && v.client.requestId == WireId(|w.issued|) && v.executed == w.executed && v.returned == w.returned
  {
    var steps := [Enter(request, room), Drain, Issue];
    ShapeRuns(w, steps);
    assert steps[1..] == [Drain, Issue] && steps[1..][1..] == [Issue] && steps[1..][1..][1..] == [];
    var a := Take(w, steps[0]);
    var b := Take(a, Drain);
    var v := Take(b, Issue);
    assert Run(b, [Issue]) == Run(v, []) == v;
    assert Run(w, steps) == Run(a, [Drain, Issue]) == Run(b, [Issue]);
    PendingGone(w);
    hide Take, Run;
  }

  lemma PendingGone(w: World)
    requires Shape(w) && w.spi.Armed?
    ensures w.server.pending.None? && w.client.nextRequestId == WireId(|w.issued|)
  {
    hide LogShape, RequestsGenuine, InOrder, ReturnsKnown;
  }
}
