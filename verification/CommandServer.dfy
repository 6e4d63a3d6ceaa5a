/**
 The receiver's half of the command protocol: choosing the frame of the next transaction
 and answering commands at most once (firmware/nrf54l15/src/spi_bridge.c:49-78,
 firmware/nrf54l15/src/receiver_control.c:97-156).
 */
module CommandServers {
  import opened Bytes
  import opened BridgeEnvelope
  import opened CommandClients
  import opened ReplayCaches
  import opened ReportBuilders

  // The replay cache, and the response waiting for the next frame.
  datatype Server<R> = Server(cache: Cache<R>, pending: Option<R>)

  predicate Executes<R>(s: Server<R>, id: u16) {
    Lookup(s.cache, id).None?
  }

  // `receiver_control_handle`, given what executing the command would answer.
  function Handled<R>(s: Server<R>, id: u16, answer: R): Server<R> {
    match Lookup(s.cache, id)
    case Some(r) => s.(pending := Some(r))
    case None => Server(Stored(s.cache, id, answer), Some(answer))
  }

  // `prepare_tx` takes the waiting response, if any.
  function Sent<R>(s: Server<R>): Server<R> {
    s.(pending := None)
  }

  // What `execute` leaves in the zeroed response.
  function AnswerTo(id: u16, reply: Reply): Message
    requires |reply.bytes| <= 64
  {
    Message(COMMAND_RESPONSE, if reply.error then ERROR else 0, |reply.bytes|, 0, id,
            reply.bytes + Zeros(64 - |reply.bytes|))
  }

  // Bit 0 of the flags, set.
  function WithMorePending(flags: u8): u8 {
    if flags % 2 == 1 then flags else flags + MORE_PENDING
  }

  // The frame's content before its flag: the waiting response, else a report, else nothing.
  function Content(pending: Option<Message>, b: Builder, now: int): Message {
    match pending
    case Some(response) => response
    case None =>
      match NextReport(b, now)
      case Some(bytes) => Blank().(kind := RECEIVER_REPORT, payloadLength := 64, payload := bytes)
      case None => Blank()
  }

  function BuilderAfter(pending: Option<Message>, b: Builder, now: int): Builder {
    if pending.Some? then b else Next(b, now)
  }

  // `prepare_tx`: the clock is read once for the report and once more for the flag.
  function Frame(sequence: u16, pending: Option<Message>, b: Builder, now: int, later: int): Message {
    var m := Content(pending, b, now).(sequence := sequence);
    if Pending(BuilderAfter(pending, b, now), later) then m.(flags := WithMorePending(m.flags)) else m
  }

  class SpiBridge {
    const cache: CommandReplayCache<Message>
    const builder: ReportBuilder
    var pendingResponse: Message
    var responsePending: bool
    var txSequence: u16
    var crcErrors: u32
    const txBuffer: array<u8>

    ghost predicate Valid()
      reads this, cache, builder
    {
      cache.Valid() && builder.Valid() && txBuffer.Length == 80
    }

    ghost function View(): Server<Message>
      reads this, cache, cache.entries, builder
      requires Valid()
    {
      Server(cache.View(), if responsePending then Some(pendingResponse) else None)
    }

    constructor (reports: ReportBuilder)
      requires reports.Valid()
      ensures Valid() && builder == reports && fresh(cache) && fresh(cache.entries) && fresh(txBuffer)
      ensures View() == Server(Empty(), None) && txSequence == 0 && crcErrors == 0
    {
      builder := reports;
      pendingResponse, responsePending, txSequence, crcErrors := Blank(), false, 0, 0;
      cache := new CommandReplayCache<Message>();
      txBuffer := new u8[80](_ => 0);
    }

    method PrepareTx(now: int, later: int)
      requires Valid()
      modifies this, builder, builder.trackerAddresses, txBuffer
      ensures Valid() && View() == Sent(old(View())) && txSequence == (old(txSequence) + 1) % 0x1_0000
      ensures crcErrors == old(crcErrors)
      ensures builder.View() == BuilderAfter(old(View()).pending, old(builder.View()), now)
      ensures txBuffer[..] ==
              Encode(Frame(old(txSequence), old(View()).pending, old(builder.View()), now, later))
    {
      hide Next, ReportOf, Pending, Encode, RingContents, Registrations;
      var message := Blank().(sequence := txSequence);
      txSequence := (txSequence + 1) % 0x1_0000;
      if responsePending {
        message := pendingResponse.(sequence := (txSequence - 1) % 0x1_0000);
        responsePending := false;
      } else {
        var payload := new u8[64](_ => 0);
        var some := builder.NextBytes(payload, now);
        if some {
          message := message.(payload := payload[..], kind := RECEIVER_REPORT, payloadLength := PAYLOAD_SIZE);
        }
      }
      var more := builder.HasPending(later);
      if more || responsePending {
        message := message.(flags := WithMorePending(message.flags));
      }
      EncodeInto(txBuffer, message);
    }

    // `receiver_control_handle`; `reply` is what `execute` would answer.
    method Handle(request: Message, reply: Reply) returns (response: Message, executed: bool)
      requires Valid() && |reply.bytes| <= 64
      modifies cache, cache.entries
      ensures Valid() && responsePending == old(responsePending) && pendingResponse == old(pendingResponse)
      ensures executed == Executes(old(View()), request.requestId)
      ensures Server(cache.View(), Some(response))
           == Handled(old(View()), request.requestId, AnswerTo(request.requestId, reply))
    {
      var cached := cache.Find(request.requestId);
      if cached.Some? {
        return cached.value, false;
      }
      response := AnswerTo(request.requestId, reply);
      cache.Store(request.requestId, response);
      executed := true;
    }

    method ProcessRx(received: array<u8>, reply: Reply) returns (executed: bool)
      requires Valid() && received.Length == 80 && |reply.bytes| <= 64
      modifies this`pendingResponse, this`responsePending, this`crcErrors, cache, cache.entries
      ensures Valid()
      ensures
        var q := Decode(old(received[..]));
        if q.None? then View() == old(View()) && !executed && crcErrors == (old(crcErrors) + 1) % 0x1_0000_0000
        else
          crcErrors == old(crcErrors)
          && if q.value.kind != COMMAND then View() == old(View()) && !executed
             else
               executed == Executes(old(View()), q.value.requestId)
               && View() == Handled(old(View()), q.value.requestId, AnswerTo(q.value.requestId, reply))
    {
      hide Decode;
      executed := false;
      var request := Decode(received[..]);
      if request.None? {
        crcErrors := (crcErrors + 1) % 0x1_0000_0000;
        return;
      }
      if request.value.kind == COMMAND {
        var response, ran := Handle(request.value, reply);
        pendingResponse, executed := response, ran;
        responsePending := true;
      }
    }
  }
}
