/**
 The caller's half of the command protocol (firmware/esp32c5/main/bridge_spi.c:47-135 and
 216-250): one outstanding command, shared under `state_mutex` between its
 caller and the loop that runs the link. Each function is one critical section.
 What a command asks and what an answer says do not matter here, so both are generic.
 */
module CommandClients {
  import opened Bytes
  import opened BridgeEnvelope

  const MAX_ATTEMPTS: nat := 3
  const RETRY_TICKS: u32 := 50
  const MORE_PENDING: u8 := 1
  const ERROR: u8 := 2

  // `command`, `next_request_id` and the semaphore `command_done`.
  datatype Client<P, R> = Client(
    active: bool, requestId: u16, command: P, response: Option<R>, attempts: nat, nextAttempt: u32,
    nextRequestId: u16, done: bool)

  datatype Outcome = Ok | Failed | TimedOut | InvalidSize

  function Issued<P, R>(c: Client<P, R>, command: P): Client<P, R> {
    c.(active := true, requestId := c.nextRequestId, nextRequestId := (c.nextRequestId + 1) % 0x1_0000,
       command := command, response := None, attempts := 0)
  }

  // The tick counter wraps, and the comparison is on its signed difference.
  predicate Due<P, R>(c: Client<P, R>, now: u32) {
    && c.active && c.attempts < MAX_ATTEMPTS
    && (c.attempts == 0 || (now - c.nextAttempt) % 0x1_0000_0000 < 0x8000_0000)
  }

  // `prepare_command`
  function Attempted<P, R>(c: Client<P, R>, now: u32): Client<P, R> {
    if !Due(c, now) then c
    else c.(attempts := c.attempts + 1, nextAttempt := (now + RETRY_TICKS) % 0x1_0000_0000)
  }

  // `accept_response`
  function Accepted<P, R>(c: Client<P, R>, id: u16, response: R): Client<P, R> {
    if c.active && id == c.requestId then c.(response := Some(response), active := false, done := true) else c
  }

  // What the link returns for a command: whether it failed, and its bytes.
  datatype Reply = Reply(error: bool, bytes: seq<u8>)

  // What `bridge_spi_command` makes of the stored reply, given the caller's room.
  function Delivery(reply: Option<Reply>, room: nat): (Outcome, Option<seq<u8>>) {
    match reply
    case None => (TimedOut, Some([]))
    case Some(r) =>
      if room < |r.bytes| then (InvalidSize, None) else (if r.error then Failed else Ok, Some(r.bytes))
  }

  // The frame that carries a command.
  function CommandFrame(sequence: u16, id: u16, bytes: seq<u8>): Message
    requires |bytes| <= 64
  {
    Message(COMMAND, 0, |bytes|, sequence, id, bytes + Zeros(64 - |bytes|))
  }

  // What the link task sends next: the command if an attempt is due, else an idle frame.
  function Outgoing(c: Client<seq<u8>, Reply>, sequence: u16, now: u32): Message
    requires |c.command| <= 64
  {
    if Due(c, now) then CommandFrame(sequence, c.requestId, c.command) else Blank().(sequence := sequence)
  }

  // What a response frame says.
  function ReplyIn(m: Message): Reply
    requires m.payloadLength <= 64
  {
    Reply(HasError(m.flags), m.payload[..m.payloadLength])
  }

  // What the link task makes of a frame that decoded.
  function Heard(c: Client<seq<u8>, Reply>, m: Message): Client<seq<u8>, Reply>
    requires m.payloadLength <= 64
  {
    if m.kind == COMMAND_RESPONSE then Accepted(c, m.requestId, ReplyIn(m)) else c
  }

  predicate IsReport(m: Message) {
    m.kind == RECEIVER_REPORT && m.payloadLength == 64
  }

  const REPORT_QUEUE_SIZE: nat := 128

  datatype TransferResult = Complete | MorePending

  class BridgeSpi {
    var active: bool
    var requestId: u16
    const payload: array<u8>
    var payloadLength: nat
    const response: array<u8>
    var responseLength: nat
    var attempts: nat
    var nextAttempt: u32
    var result: Outcome
    var nextRequestId: u16
    var commandDone: bool
    var commandTimeouts: u32
    var txSequence: u16
    var reports: seq<Payload>
    var decodeErrors: u32

    ghost predicate Valid()
      reads this
    {
      && payload.Length == 64 && response.Length == 64 && payload != response
      && payloadLength <= 64 && responseLength <= 64
      && result != InvalidSize && (result == TimedOut ==> responseLength == 0)
    }

    ghost function View(): Client<seq<u8>, Reply>
      reads this, payload, response
      requires Valid()
    {
      Client(active, requestId, payload[..payloadLength],
             if result == TimedOut then None else Some(Reply(result == Failed, response[..responseLength])),
             attempts, nextAttempt, nextRequestId, commandDone)
    }

    // The statics are zero, except that the first request id is 1.
    constructor ()
      ensures Valid() && fresh(payload) && fresh(response)
      ensures View() == Client(false, 0, [], Some(Reply(false, [])), 0, 0, 1, false)
      ensures txSequence == 0 && reports == []
    {
      active, requestId, payloadLength, responseLength, attempts, nextAttempt := false, 0, 0, 0, 0, 0;
      result, nextRequestId, commandDone, commandTimeouts := Ok, 1, false, 0;
      txSequence, reports, decodeErrors := 0, [], 0;
      payload := new u8[64](_ => 0);
      response := new u8[64](_ => 0);
      new;
      assert payload[..0] == response[..0] == [];
    }

    // `bridge_spi_command`, first critical section, after the drain of the semaphore.
    method Issue(request: seq<u8>)
      requires Valid() && 1 <= |request| <= 64
      modifies this, payload
      ensures Valid() && View() == Issued(old(View()), request)
    {
      active := true;
      requestId := nextRequestId;
      nextRequestId := (nextRequestId + 1) % 0x1_0000;
      payloadLength := |request|;
      Put(payload, 0, request);
      responseLength := 0;
      attempts := 0;
      result := TimedOut;
      assert payload[..payloadLength] == request;
    }

    // `xSemaphoreTake(command_done, ...)`
    method TakeDone() returns (taken: bool)
      requires Valid()
      modifies this`commandDone
      ensures Valid() && taken == old(commandDone) && View() == old(View()).(done := false)
    {
      taken := commandDone;
      commandDone := false;
    }

    method PrepareCommand(message: Message, now: u32) returns (send: bool, outgoing: Message)
      requires Valid()
      modifies this`attempts, this`nextAttempt
      ensures Valid() && View() == Attempted(old(View()), now)
      ensures send == Due(old(View()), now)
      ensures !send ==> outgoing == message
      ensures send ==> (outgoing.kind, outgoing.requestId, outgoing.sequence, outgoing.flags)
                       == (COMMAND, requestId, message.sequence, message.flags)
      ensures send ==> outgoing.payloadLength == payloadLength
                       && outgoing.payload == View().command + message.payload[payloadLength..]
    {
      outgoing := message;
      send := false;
      if active && attempts < MAX_ATTEMPTS
         && (attempts == 0 || (now - nextAttempt) % 0x1_0000_0000 < 0x8000_0000)
      {
        outgoing := message.(kind := COMMAND, requestId := requestId, payloadLength := payloadLength,
                             payload := payload[..payloadLength] + message.payload[payloadLength..]);
        attempts := attempts + 1;
        nextAttempt := (now + RETRY_TICKS) % 0x1_0000_0000;
        send := true;
      }
    }

    method AcceptResponse(message: Message)
      requires Valid() && message.payloadLength <= 64
      modifies this, response
      ensures Valid()
      ensures View() == Accepted(old(View()), message.requestId, ReplyIn(message))
      ensures reports == old(reports) && decodeErrors == old(decodeErrors)
    {
      if active && message.requestId == requestId {
        responseLength := message.payloadLength;
        Put(response, 0, message.payload[..message.payloadLength]);
        result := if HasError(message.flags) then Failed else Ok;
        active := false;
        commandDone := true;
        assert response[..responseLength] == message.payload[..message.payloadLength];
      }
    }

    // `transact` up to the transfer.
    method PrepareFrame(output: array<u8>, now: u32)
      requires Valid() && output.Length == 80 && output != payload && output != response
      modifies this`attempts, this`nextAttempt, this`txSequence, output
      ensures Valid() && View() == Attempted(old(View()), now) && txSequence == (old(txSequence) + 1) % 0x1_0000
      ensures output[..] == Encode(Outgoing(old(View()), old(txSequence), now))
    {
      hide Encode;
      var message := Blank().(sequence := txSequence);
      txSequence := (txSequence + 1) % 0x1_0000;
      var send, outgoing := PrepareCommand(message, now);
      assert send ==> message.payload[payloadLength..] == Zeros(64 - payloadLength);
      EncodeInto(output, outgoing);
    }

    // `transact` after a transfer that succeeded.
    method AcceptFrame(received: array<u8>) returns (r: TransferResult)
      requires Valid() && received.Length == 80 && received != response && |reports| <= REPORT_QUEUE_SIZE
      modifies this, response
      ensures Valid() && |reports| <= REPORT_QUEUE_SIZE
      ensures
        match Decode(old(received[..]))
        case None =>
          r == Complete && View() == old(View()) && reports == old(reports)
          && decodeErrors == (old(decodeErrors) + 1) % 0x1_0000_0000
        case Some(m) =>
          && m.payloadLength <= 64 && (r == MorePending <==> m.flags % 2 == 1)
          && View() == Heard(old(View()), m) && decodeErrors == old(decodeErrors)
          && reports ==
               if IsReport(m) && |old(reports)| < REPORT_QUEUE_SIZE then old(reports) + [m.payload] else old(reports)
    {
      var incoming := Decode(received[..]);
      DecodedLength(received[..]);
      hide Decode;
      if incoming.None? {
        decodeErrors := (decodeErrors + 1) % 0x1_0000_0000;
        return Complete;
      }
      var m := incoming.value;
      if m.kind == RECEIVER_REPORT && m.payloadLength == 64 {
        if |reports| < REPORT_QUEUE_SIZE {
          reports := reports + [m.payload];
        }
      } else if m.kind == COMMAND_RESPONSE {
        AcceptResponse(m);
      }
      r := if m.flags % 2 == 1 then MorePending else Complete;
    }

    // `bridge_spi_command`, after the semaphore was taken.
    method Collect(output: array<u8>, room: nat) returns (outcome: Outcome, length: nat)
      requires Valid() && output.Length >= room && output != response && output != payload
      modifies output
      ensures View() == old(View())
      ensures outcome == Delivery(View().response, room).0
      ensures
        match Delivery(View().response, room).1 {
          case Some(b) => length == |b| <= room && output[..] == b + old(output[..])[length..]
          case None => length == room && output[..] == old(output[..])
        }
    {
      if room < responseLength {
        return InvalidSize, room;
      }
      Put(output, 0, response[..responseLength]);
      return result, responseLength;
    }

    // `bridge_spi_command`, after the wait ran out.
    method Deactivate()
      requires Valid()
      modifies this`active, this`commandTimeouts
      ensures Valid() && View() == old(View()).(active := false)
      ensures commandTimeouts == (old(commandTimeouts) + 1) % 0x1_0000_0000
    {
      active := false;
      commandTimeouts := (commandTimeouts + 1) % 0x1_0000_0000;
    }
  }

  /**
   Retries are spaced: counting ticks without wrapping, an attempt made at `before` is
   followed by another at `t` only 50 ticks later or more, and from then on, for the next
   2^31 ticks, it is due.
   */
  lemma RetrySpacing<P, R>(c: Client<P, R>, before: nat, t: nat)
    requires Due(c, before % 0x1_0000_0000) && before <= t < before + RETRY_TICKS + 0x8000_0000
    ensures
      var after := Attempted(c, before % 0x1_0000_0000);
      Due(after, t % 0x1_0000_0000) <==> after.attempts < MAX_ATTEMPTS && t >= before + RETRY_TICKS
  {
    var s := before + RETRY_TICKS;
    WrappedSum(before, RETRY_TICKS);
    WrappedDifference(t, s);
    var first, now := before % 0x1_0000_0000, t % 0x1_0000_0000;
    var after := Attempted(c, first);
    assert after.nextAttempt == s % 0x1_0000_0000 && after.active && after.attempts > 0;
    hide Attempted;
    assert Due(after, now) <==>
      after.attempts < MAX_ATTEMPTS && (now - after.nextAttempt) % 0x1_0000_0000 < 0x8000_0000;
  }

  /**
   A command's first frame is due at once. If it and a second one went out at `one` and
   `two`, the second was due from `one + 50` on and not before, a third from `two + 50` on
   and not before, and after a third none is due any more.
   */
  lemma ThreeFrames<P, R>(c: Client<P, R>, command: P, one: nat, two: nat, three: nat, t: nat)
    requires one + 50 <= two < one + 50 + 0x8000_0000 && two + 50 <= three < two + 50 + 0x8000_0000
    ensures
      var c0 := Issued(c, command);
      var c1 := Attempted(c0, one % 0x1_0000_0000);
      var c2 := Attempted(c1, two % 0x1_0000_0000);
      var c3 := Attempted(c2, three % 0x1_0000_0000);
      && Due(c0, t % 0x1_0000_0000) && !Due(c3, t % 0x1_0000_0000)
      && (one <= t < one + 50 + 0x8000_0000 ==> (Due(c1, t % 0x1_0000_0000) <==> t >= one + 50))
      && (two <= t < two + 50 + 0x8000_0000 ==> (Due(c2, t % 0x1_0000_0000) <==> t >= two + 50))
  {
    var c0 := Issued(c, command);
    AttemptMade(c0, one);
    var c1 := Attempted(c0, one % 0x1_0000_0000);
    RetrySpacing(c0, one, two);
    AttemptMade(c1, two);
    var c2 := Attempted(c1, two % 0x1_0000_0000);
    RetrySpacing(c1, two, three);
    AttemptMade(c2, three);
    hide Attempted;
    if one <= t < one + 50 + 0x8000_0000 {
      RetrySpacing(c0, one, t);
    }
    if two <= t < two + 50 + 0x8000_0000 {
      RetrySpacing(c1, two, t);
    }
  }

  lemma AttemptMade<P, R>(c: Client<P, R>, now: nat)
    requires Due(c, now % 0x1_0000_0000)
    ensures Attempted(c, now % 0x1_0000_0000).attempts == c.attempts + 1
  {
  }

  lemma WrappedSum(a: nat, b: nat)
    ensures (a % 0x1_0000_0000 + b) % 0x1_0000_0000 == (a + b) % 0x1_0000_0000
  {
    var x := a / 0x1_0000_0000;
    assert a + b == 0x1_0000_0000 * x + (a % 0x1_0000_0000 + b);
    ModuloShift(a % 0x1_0000_0000 + b, x);
  }

  lemma ModuloShift(d: int, k: int)
    ensures (0x1_0000_0000 * k + d) % 0x1_0000_0000 == d % 0x1_0000_0000
  {
  }

  lemma WrappedDifference(t: nat, s: nat)
    requires -0x8000_0000 <= t - s < 0x8000_0000
    ensures (t % 0x1_0000_0000 - s % 0x1_0000_0000) % 0x1_0000_0000 < 0x8000_0000 <==> t >= s
  {
    var x, y := t / 0x1_0000_0000, s / 0x1_0000_0000;
    assert t - s == 0x1_0000_0000 * (x - y) + (t % 0x1_0000_0000 - s % 0x1_0000_0000);
    ModuloShift(t % 0x1_0000_0000 - s % 0x1_0000_0000, x - y);
  }

  // Bit 1 of the flags.
  predicate HasError(flags: u8) {
    flags / ERROR % 2 == 1
  }
}
