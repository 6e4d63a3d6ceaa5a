/**
 The command channel from end to end: a calling task and the link task of one controller,
 sharing `command` and `command_done`, and the receiver's SPI thread
 (firmware/esp32c5/main/bridge_spi.c:59-135 and 216-250,
 firmware/nrf54l15/src/spi_bridge.c:49-104, firmware/nrf54l15/src/receiver_control.c:151-156).
 Every critical section is a step of its own, steps interleave in any order, and each
 direction of a transaction may be lost. One boot of both controllers.
 */
module CommandRuns {
  import opened Bytes
  import opened CommandClients
  import opened CommandServers
  import opened ReplayCaches

  // The serial numbers count the commands issued since boot. They are not on the wire and
  // nothing branches on them: they say which command a copy belongs to.
  datatype Command = Command(bytes: seq<u8>, serial: nat)

  datatype Request = Request(id: u16, command: Command)

  // An answer carries the command whose execution made it.
  datatype Answer = Answer(id: u16, reply: Reply, command: Command)

  // The caller that holds `command_mutex`, if any.
  datatype Caller =
    | Idle
    | Entered(request: seq<u8>, room: nat)
    | Drained(request: seq<u8>, room: nat)
    | Waiting(serial: nat, room: nat)
    | Woken(serial: nat, room: nat)
    | Expired(serial: nat, room: nat)

  // `transact`: the frame to send is ready, or the transfer is over and its frame is not looked at yet.
  datatype LinkTask = Polling | Prepared(outgoing: Option<Request>) | Incoming(incoming: Option<Answer>)

  // `spi_thread`: about to prepare a frame, armed with one, or holding what the transfer brought.
  datatype SpiThread = Preparing | Armed(answer: Option<Answer>) | Received(request: Option<Request>)

  datatype Return = Return(serial: nat, room: nat, answer: Option<Answer>)

  // The last line is history; `sent` has the command of each frame prepared with one.
  datatype World = World(
    client: Client<Command, Answer>, caller: Caller, link: LinkTask, server: Server<Answer>, spi: SpiThread,
    issued: seq<seq<u8>>, sent: seq<nat>, executed: seq<(u16, Answer)>, handled: seq<nat>, returned: seq<Return>)

  datatype Step =
    | Enter(request: seq<u8>, room: nat)
    | Drain
    | Issue
    | Wake
    | Expire
    | Collect
    | Deactivate
    | Prepare(now: u32)
    | Exchange(up: bool, down: bool)
    | Accept
    | Arm(works: bool)
    | Process(reply: Reply)

  function WireId(serial: nat): u16 {
    (1 + serial) % 0x1_0000
  }

  function Booted(): World {
    World(Client(false, 0, Command([], 0), Some(Answer(0, Reply(false, []), Command([], 0))), 0, 0, 1, false),
          Idle, Polling, Server(Empty(), None), Preparing, [], [], [], [], [])
  }

  function OutgoingRequest(c: Client<Command, Answer>, now: u32): Option<Request> {
    if Due(c, now) then Some(Request(c.requestId, c.command)) else None
  }

  // `process_rx`: what the receiver remembers, and what it executed.
  function ProcessedBy(s: Server<Answer>, q: Request, reply: Reply): Server<Answer> {
    Handled(s, q.id, Answer(q.id, reply, q.command))
  }

  function AfterProcess(w: World, q: Request, reply: Reply): World {
    w.(server := ProcessedBy(w.server, q, reply), spi := Preparing, handled := w.handled + [q.command.serial],
       executed := w.executed +
         if Executes(w.server, q.id) then [(q.id, Answer(q.id, reply, q.command))] else [])
  }

  // A step whose turn it is not leaves the world as it is.
  function Take(w: World, e: Step): World {
    match e
    case Enter(request, room) =>
      if w.caller.Idle? && 1 <= |request| <= 64 then w.(caller := Entered(request, room)) else w
    case Drain =>
      if w.caller.Entered?
      then w.(caller := Drained(w.caller.request, w.caller.room), client := w.client.(done := false)) else w
    case Issue =>
      if w.caller.Drained?
      then w.(caller := Waiting(|w.issued|, w.caller.room), issued := w.issued + [w.caller.request],
              client := Issued(w.client, Command(w.caller.request, |w.issued|))) else w
    case Wake =>
      if w.caller.Waiting? && w.client.done
      then w.(caller := Woken(w.caller.serial, w.caller.room), client := w.client.(done := false)) else w
    case Expire =>
      if w.caller.Waiting? && !w.client.done then w.(caller := Expired(w.caller.serial, w.caller.room)) else w
    case Collect =>
      if w.caller.Woken?
      then w.(caller := Idle, returned := w.returned + [Return(w.caller.serial, w.caller.room, w.client.response)])
      else w
    case Deactivate =>
      if w.caller.Expired?
      then w.(caller := Idle, client := w.client.(active := false),
              returned := w.returned + [Return(w.caller.serial, w.caller.room, None)]) else w
    case Prepare(now) =>
      if w.link.Polling?
      then w.(link := Prepared(OutgoingRequest(w.client, now)), client := Attempted(w.client, now),
              sent := w.sent + if Due(w.client, now) then [w.client.command.serial] else []) else w
    case Exchange(up, down) =>
      if !w.link.Prepared? then w
      else if !w.spi.Armed? then w.(link := Incoming(None))
      else w.(link := Incoming(if down then w.spi.answer else None),
              spi := Received(if up then w.link.outgoing else None))
    case Accept =>
      if !w.link.Incoming? then w
      else if w.link.incoming.None? then w.(link := Polling)
      else w.(link := Polling, client := Accepted(w.client, w.link.incoming.value.id, w.link.incoming.value))
    case Arm(works) =>
      if w.spi.Preparing?
      then w.(server := Sent(w.server), spi := if works then Armed(w.server.pending) else Preparing) else w
    case Process(reply) =>
      if !w.spi.Received? then w
      else if w.spi.request.None? then w.(spi := Preparing)
      else AfterProcess(w, w.spi.request.value, reply)
  }

  function Run(w: World, steps: seq<Step>): World
    decreases |steps|
  {
    if steps == [] then w else Run(Take(w, steps[0]), steps[1..])
  }

  // ---- What always holds of the caller and the link task ----

  function Latest(w: World): nat
    requires w.issued != []
  {
    |w.issued| - 1
  }

  predicate CallerShape(w: World) {
    && w.client.nextRequestId == WireId(|w.issued|)
    && (w.client.done ==> !w.client.active)
    && (w.issued == [] ==> w.caller.Idle? || w.caller.Entered? || w.caller.Drained?)
    && (w.caller.Idle? || w.caller.Entered? || w.caller.Drained? ==> !w.client.active)
    && (w.caller.Drained? ==> !w.client.done)
    && (w.caller.Waiting? || w.caller.Woken? || w.caller.Expired? ==> w.caller.serial == Latest(w))
    && (w.issued == [] ==> !w.client.done)
    && (w.issued != [] ==> w.client.command == Command(w.issued[Latest(w)], Latest(w)))
    && (w.issued != [] ==> w.client.requestId == WireId(Latest(w)))
    && (w.issued != [] && w.client.response.Some? ==> w.client.response.value.id == w.client.requestId)
    && (w.caller.Woken? ==> !w.client.active && w.client.response.Some?)
    && (w.issued != [] && w.client.done ==> w.client.response.Some?)
  }

  lemma CallerStep(w: World, e: Step)
    requires CallerShape(w)
    ensures CallerShape(Take(w, e))
  {
    hide ProcessedBy, Executes;
  }

  /**
   Completion: when the caller takes `command_done`, the stored response answers the
   request id of its own command, and until it is copied no step of any task changes it.
   */
  lemma StoredUntilCopied(w: World, e: Step)
    requires CallerShape(w) && w.caller.Woken?
    ensures w.client.response.Some? && w.client.response.value.id == w.client.requestId == WireId(w.caller.serial)
    ensures Take(w, e).client.response == w.client.response && Take(w, e).client.requestId == w.client.requestId
    ensures Take(w, e).caller == w.caller || e.Collect?
    ensures e.Collect? ==>
      Take(w, e).returned == w.returned + [Return(w.caller.serial, w.caller.room, w.client.response)]
  {
    hide ProcessedBy, Executes;
  }

  // ---- What always holds of the frames between them ----

  predicate Real(w: World, c: Command) {
    c.serial < |w.issued| && c.bytes == w.issued[c.serial]
  }

  predicate Genuine(w: World, q: Request) {
    Real(w, q.command) && q.id == WireId(q.command.serial)
  }

  predicate Known(w: World, a: Answer) {
    (a.id, a) in w.executed
  }

  function Last(s: seq<nat>): nat
    requires s != []
  {
    s[|s| - 1]
  }

  predicate RequestsGenuine(w: World) {
    && (w.spi.Received? && w.spi.request.Some? ==> Genuine(w, w.spi.request.value))
    && (w.link.Prepared? && w.link.outgoing.Some? ==> Genuine(w, w.link.outgoing.value))
  }

  // Requests reach the receiver in the order of issue.
  predicate InOrder(w: World) {
    && (w.handled != [] ==> Last(w.handled) < |w.issued|)
    && (|w.handled| >= 2 ==> w.handled[|w.handled| - 2] <= Last(w.handled))
    && (w.handled != [] && w.spi.Received? && w.spi.request.Some? ==>
          Last(w.handled) <= w.spi.request.value.command.serial)
    && (w.handled != [] && w.link.Prepared? && w.link.outgoing.Some? ==>
          Last(w.handled) <= w.link.outgoing.value.command.serial)
    && (w.spi.Received? && w.spi.request.Some? && w.link.Prepared? && w.link.outgoing.Some? ==>
          w.spi.request.value.command.serial <= w.link.outgoing.value.command.serial)
  }

  ghost predicate Increasing(log: seq<(u16, Answer)>) {
    forall i, j :: 0 <= i < j < |log| ==> log[i].1.command.serial < log[j].1.command.serial
  }

  ghost predicate LogShape(w: World) {
    && Increasing(w.executed)
    && (forall i :: 0 <= i < |w.executed| ==>
          (w.executed[i].0 == w.executed[i].1.id == WireId(w.executed[i].1.command.serial)
           && Real(w, w.executed[i].1.command)))
    && w.server.cache == Replayed(w.executed)
    && (w.executed != [] ==> w.handled != [] && Newest(w, 1) <= Last(w.handled))
    && (|w.executed| >= 2 ==> |w.handled| >= 2 && Newest(w, 2) <= w.handled[|w.handled| - 2])
  }

  // The serial number of the `n`-th last execution.
  function Newest(w: World, n: nat): nat
    requires 1 <= n <= |w.executed|
  {
    w.executed[|w.executed| - n].1.command.serial
  }

  // An answer from a past execution, for the `n`-th last request handled.
  predicate Answers(w: World, a: Answer, n: nat) {
    Known(w, a) && 1 <= n <= |w.handled| && a.id == WireId(w.handled[|w.handled| - n])
  }

  predicate PendingKnown(w: World) {
    w.server.pending.Some? ==> w.spi.Preparing? && Answers(w, w.server.pending.value, 1)
  }

  predicate ArmedKnown(w: World) {
    w.spi.Armed? && w.spi.answer.Some? ==> Answers(w, w.spi.answer.value, 1)
  }

  predicate IncomingKnown(w: World) {
    w.link.Incoming? && w.link.incoming.Some? ==>
      Answers(w, w.link.incoming.value, 1) || (!w.spi.Received? && Answers(w, w.link.incoming.value, 2))
  }

  predicate ResponseKnown(w: World) {
    w.issued != [] && w.client.response.Some? ==> Known(w, w.client.response.value)
  }

  ghost predicate AnswersKnown(w: World) {
    PendingKnown(w) && ArmedKnown(w) && IncomingKnown(w) && ResponseKnown(w)
  }

  // What a caller got back answers its request id, and is the answer of an execution no later than its own.
  predicate ReturnsKnown(w: World) {
    forall i :: 0 <= i < |w.returned| ==> ReturnKnown(w, w.returned[i])
  }

  predicate ReturnKnown(w: World, r: Return) {
    && r.serial < |w.issued|
    && (r.answer.Some? ==>
          (Known(w, r.answer.value) && r.answer.value.id == WireId(r.serial)
           && r.answer.value.command.serial <= r.serial))
  }

  ghost predicate Shape(w: World) {
    && CallerShape(w) && RequestsGenuine(w) && InOrder(w) && LogShape(w) && AnswersKnown(w)
    && ReturnsKnown(w)
  }

  // A request for a command executed last finds its answer: it is still in the cache.
  lemma ExecutedIsRemembered(w: World, q: Request)
    requires LogShape(w) && Genuine(w, q) && w.executed != [] && Newest(w, 1) == q.command.serial
    ensures !Executes(w.server, q.id)
  {
    hide Replayed, Lookup, Increasing;
    FoundIffRecent(w.executed, q.id);
    assert w.executed[|w.executed| - 1].0 == q.id;
  }

  lemma IncreasingGrows(log: seq<(u16, Answer)>, x: (u16, Answer))
    requires Increasing(log)
    requires log != [] ==> log[|log| - 1].1.command.serial < x.1.command.serial
    ensures Increasing(log + [x])
  {
  }

  lemma LogGrows(w: World, v: World, q: Request, a: Answer)
    requires LogShape(w) && Genuine(w, q) && a.id == q.id && a.command == q.command
    requires w.handled != [] ==> Last(w.handled) <= q.command.serial
    requires w.executed != [] ==> Newest(w, 1) < q.command.serial
    requires v.issued == w.issued && v.handled == w.handled + [q.command.serial]
    requires v.executed == w.executed + [(q.id, a)] && v.server.cache == Stored(w.server.cache, q.id, a)
    ensures LogShape(v) && Known(v, a)
  {
    hide Stored, Increasing;
    var n := |w.executed|;
    IncreasingGrows(w.executed, (q.id, a));
    assert v.executed[..n] == w.executed && v.executed[n] == (q.id, a);
    assert v.executed != [] ==> Newest(v, 1) == q.command.serial;
    assert |v.executed| >= 2 ==> Newest(v, 2) == Newest(w, 1);
  }

  lemma LogStays(w: World, v: World, serial: nat)
    requires LogShape(w) && v.issued == w.issued && v.handled == w.handled + [serial]
    requires w.handled != [] ==> Last(w.handled) <= serial
    requires v.executed == w.executed && v.server.cache == w.server.cache
    ensures LogShape(v)
  {
    hide Replayed;
    if |w.executed| >= 2 {
      assert Newest(w, 2) <= Newest(w, 1);
    }
  }

  lemma ProcessLog(w: World, q: Request, reply: Reply)
    requires LogShape(w) && InOrder(w) && w.spi == Received(Some(q)) && Genuine(w, q)
    ensures
      var v := AfterProcess(w, q, reply);
      LogShape(v) && v.server.pending.Some? && Answers(v, v.server.pending.value, 1)
  {
    hide Lookup, Replayed, Stored, LogShape;
    var v := AfterProcess(w, q, reply);
    assert v.handled[|v.handled| - 1] == q.command.serial;
    if Executes(w.server, q.id) {
      if w.executed != [] {
        LatestBelow(w, q);
      }
      LogGrows(w, v, q, Answer(q.id, reply, q.command));
    } else {
      LogStays(w, v, q.command.serial);
      FoundKnown(w, q.id);
    }
  }

  lemma LatestBelow(w: World, q: Request)
    requires LogShape(w) && Genuine(w, q) && Executes(w.server, q.id) && w.executed != []
    requires w.handled != [] ==> Last(w.handled) <= q.command.serial
    ensures Newest(w, 1) < q.command.serial
  {
    hide Replayed, Lookup, Increasing;
    if Newest(w, 1) == q.command.serial {
      ExecutedIsRemembered(w, q);
    }
  }

  lemma FoundKnown(w: World, id: u16)
    requires LogShape(w) && Lookup(w.server.cache, id).Some?
    ensures var a := Lookup(w.server.cache, id).value; a.id == id && Known(w, a)
  {
    hide Replayed, Lookup, Increasing;
    var k := FoundIsRecent(w.executed, id);
  }

  lemma LogUntouched(w: World, v: World)
    requires LogShape(w) && w.issued <= v.issued
    requires v.executed == w.executed && v.handled == w.handled && v.server.cache == w.server.cache
    ensures LogShape(v)
  {
    hide Increasing, Replayed;
  }

  lemma LogStep(w: World, e: Step)
    requires Shape(w)
    ensures LogShape(Take(w, e))
  {
    hide LogShape, CallerShape, AnswersKnown, AfterProcess;
    if e.Process? && w.spi.Received? && w.spi.request.Some? {
      ProcessLog(w, w.spi.request.value, e.reply);
    } else {
      LogUntouched(w, Take(w, e));
    }
  }

  lemma RequestsStep(w: World, e: Step)
    requires Shape(w)
    ensures RequestsGenuine(Take(w, e)) && InOrder(Take(w, e))
  {
    hide LogShape, AnswersKnown, Handled, Executes;
  }

  lemma AnswersStep(w: World, e: Step)
    requires Shape(w)
    ensures AnswersKnown(Take(w, e))
  {
    hide LogShape, Handled, Executes, RequestsGenuine, InOrder;
    if e.Process? && w.spi.Received? && w.spi.request.Some? {
      AnswersAfterProcess(w, w.spi.request.value, e.reply);
    } else {
      var v := Take(w, e);
      assert v.executed == w.executed && v.handled == w.handled;
    }
  }

  lemma AnswersAfterProcess(w: World, q: Request, reply: Reply)
    requires Shape(w) && w.spi == Received(Some(q))
    ensures AnswersKnown(AfterProcess(w, q, reply))
  {
    hide LogShape, Handled, Executes, CallerShape;
    ProcessLog(w, q, reply);
    var v := AfterProcess(w, q, reply);
    assert forall x :: x in w.executed ==> x in v.executed;
    if w.handled != [] {
      assert v.handled[|v.handled| - 2] == w.handled[|w.handled| - 1];
    }
  }

  lemma HistoryGrows(w: World, e: Step)
    ensures w.issued <= Take(w, e).issued && w.executed <= Take(w, e).executed
    ensures w.returned <= Take(w, e).returned
    ensures |Take(w, e).returned| <= |w.returned| + 1
    ensures |Take(w, e).returned| == |w.returned| + 1 ==>
      (Take(w, e).returned[|w.returned|] ==
       Return(w.caller.serial, w.caller.room, if w.caller.Woken? then w.client.response else None)
       && (w.caller.Woken? || w.caller.Expired?))
  {
    hide Executes, ProcessedBy;
  }

  lemma ReturnKept(w: World, v: World, r: Return)
    requires ReturnKnown(w, r) && w.issued <= v.issued && w.executed <= v.executed
    ensures ReturnKnown(v, r)
  {
  }

  lemma ReturnsStep(w: World, e: Step)
    requires Shape(w)
    ensures ReturnsKnown(Take(w, e))
  {
    hide Take, LogShape, ReturnKnown, RequestsGenuine, InOrder;
    var v := Take(w, e);
    HistoryGrows(w, e);
    forall i | 0 <= i < |w.returned| ensures ReturnKnown(v, v.returned[i]) {
      ReturnKept(w, v, w.returned[i]);
    }
    if |v.returned| > |w.returned| {
      NewReturn(w);
      ReturnKept(w, v, v.returned[|w.returned|]);
    }
  }

  lemma NewReturn(w: World)
    requires Shape(w) && (w.caller.Woken? || w.caller.Expired?)
    ensures
      ReturnKnown(w, Return(w.caller.serial, w.caller.room, if w.caller.Woken? then w.client.response else None))
  {
    hide Increasing, Replayed;
    if w.caller.Woken? {
      var a := w.client.response.value;
      assert Known(w, a);
      var i :| 0 <= i < |w.executed| && w.executed[i] == (a.id, a);
      assert Real(w, w.executed[i].1.command);
    }
  }

  lemma ShapeStep(w: World, e: Step)
    requires Shape(w)
    ensures Shape(Take(w, e))
  {
    hide CallerShape, RequestsGenuine, InOrder, LogShape, AnswersKnown, ReturnsKnown, Take;
    CallerStep(w, e);
    LogStep(w, e);
    RequestsStep(w, e);
    AnswersStep(w, e);
    ReturnsStep(w, e);
  }

  lemma {:induction false} ShapeRuns(w: World, steps: seq<Step>)
    requires Shape(w)
    ensures Shape(Run(w, steps))
    decreases |steps|
  {
    hide Shape, Take;
    if steps != [] {
      ShapeStep(w, steps[0]);
      ShapeRuns(Take(w, steps[0]), steps[1..]);
    }
  }

  lemma BootedShape()
    ensures Shape(Booted())
  {
  }

  // ---- What every run has ----

  /**
   Whatever is lost, repeated, delayed or given up, the receiver executes a command at
   most once, in the order of issue, and executes what was issued.
   */
  lemma AtMostOnce(steps: seq<Step>)
    ensures
      var w := Run(Booted(), steps);
      && (forall i, j :: 0 <= i < j < |w.executed| ==>
            w.executed[i].1.command.serial < w.executed[j].1.command.serial)
      && (forall i :: 0 <= i < |w.executed| ==>
            (w.executed[i].1.command.serial < |w.issued|
             && w.executed[i].1.command.bytes == w.issued[w.executed[i].1.command.serial]))
  {
    hide Run;
    BootedShape();
    ShapeRuns(Booted(), steps);
    var w := Run(Booted(), steps);
    assert forall i :: 0 <= i < |w.executed| ==> Real(w, w.executed[i].1.command);
  }

  /**
   What a caller gets for command `n` is the answer some execution gave: its own, or that
   of a command a multiple of 65,536 before it, whose request id was the same.
   */
  lemma ReturnsOfExecutions(steps: seq<Step>, i: nat)
    requires i < |Run(Booted(), steps).returned| && Run(Booted(), steps).returned[i].answer.Some?
    ensures
      var w := Run(Booted(), steps);
      var r := w.returned[i];
      var a := r.answer.value;
      && (exists k :: 0 <= k < |w.executed| && w.executed[k].1 == a)
      && a.command.serial <= r.serial < |w.issued| && (r.serial - a.command.serial) % 0x1_0000 == 0
      && a.command.bytes == w.issued[a.command.serial]
  {
    hide Run, Replayed, Increasing;
    BootedShape();
    ShapeRuns(Booted(), steps);
    var w := Run(Booted(), steps);
    var r := w.returned[i];
    assert ReturnKnown(w, r);
    var k :| 0 <= k < |w.executed| && w.executed[k] == (r.answer.value.id, r.answer.value);
    assert Real(w, w.executed[k].1.command);
    SameWireId(r.answer.value.command.serial, r.serial);
  }

  lemma SameWireId(m: nat, n: nat)
    ensures WireId(m) == WireId(n) <==> (n - m) % 0x1_0000 == 0
  {
  }

  /**
   Completion is sound in every run: a command starts with no completion signalled; once
   its caller takes the signal, the stored response answers its own request id, and no
   step of any task replaces it before it is copied.
   */
  lemma CompletionIsSound(steps: seq<Step>, e: Step)
    ensures
      var w := Run(Booted(), steps);
      && (w.caller.Drained? ==> !w.client.done && !w.client.active)
      && (w.caller.Woken? ==>
            (w.client.response.Some? && w.client.response.value.id == WireId(w.caller.serial)
             && w.caller.serial + 1 == |w.issued| && Take(w, e).client.response == w.client.response))
      && (w.caller.Woken? && e.Collect? ==>
            Take(w, e).returned == w.returned + [Return(w.caller.serial, w.caller.room, w.client.response)])
  {
    hide Run, Take, LogShape, RequestsGenuine, InOrder, AnswersKnown, ReturnsKnown;
    BootedShape();
    ShapeRuns(Booted(), steps);
    var w := Run(Booted(), steps);
    if w.caller.Woken? {
      StoredUntilCopied(w, e);
    }
  }

  ghost predicate SentShape(w: World) {
    && w.client.attempts <= MAX_ATTEMPTS
    && (forall n :: multiset(w.sent)[n] <= MAX_ATTEMPTS)
    && (forall n :: n in w.sent ==> n < |w.issued|)
    && (w.issued != [] ==> multiset(w.sent)[Latest(w)] == w.client.attempts)
  }

  lemma SentStep(w: World, e: Step)
    requires CallerShape(w) && SentShape(w)
    ensures SentShape(Take(w, e))
  {
    hide ProcessedBy, Executes, SentShape;
    var v := Take(w, e);
    if e.Prepare? && w.link.Polling? && Due(w.client, e.now) {
      SentOne(w, v);
    } else if e.Issue? && w.caller.Drained? {
      SentNone(w, v);
    } else {
      SentSame(w, v);
    }
  }

  lemma SentOne(w: World, v: World)
    requires SentShape(w) && w.issued != [] && w.client.attempts < MAX_ATTEMPTS
    requires v.issued == w.issued && v.sent == w.sent + [Latest(w)] && v.client.attempts == w.client.attempts + 1
    ensures SentShape(v)
  {
    assert multiset(v.sent) == multiset(w.sent) + multiset{Latest(w)};
  }

  lemma SentNone(w: World, v: World)
    requires SentShape(w) && |v.issued| == |w.issued| + 1 && v.sent == w.sent && v.client.attempts == 0
    ensures SentShape(v)
  {
    assert |w.issued| !in w.sent && |w.issued| !in multiset(w.sent);
  }

  lemma SentSame(w: World, v: World)
    requires SentShape(w) && v.issued == w.issued && v.sent == w.sent && v.client.attempts == w.client.attempts
    ensures SentShape(v)
  {
  }

  lemma {:induction false} SentRuns(w: World, steps: seq<Step>)
    requires CallerShape(w) && SentShape(w)
    ensures SentShape(Run(w, steps))
    decreases |steps|
  {
    hide Take, CallerShape, SentShape;
    if steps != [] {
      CallerStep(w, steps[0]);
      SentStep(w, steps[0]);
      SentRuns(Take(w, steps[0]), steps[1..]);
    }
  }

  /** And no command is put in more than three frames. */
  lemma AtMostThreeFrames(steps: seq<Step>, n: nat)
    ensures multiset(Run(Booted(), steps).sent)[n] <= 3
  {
    hide Run;
    BootedShape();
    SentRuns(Booted(), steps);
  }
}
