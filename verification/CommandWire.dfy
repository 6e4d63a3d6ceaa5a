/**
 Commands and answers as bytes. The runs of module CommandRuns pass requests and answers
 between the two halves of the protocol as values; here the frames the classes encode are
 shown to carry exactly those values through `Encode` and `Decode`.
 */
module CommandWire {
  import opened Bytes
  import opened BridgeEnvelope
  import opened CommandClients
  import opened CommandServers
  import opened ReportBuilders

  lemma PrefixPadded(bytes: seq<u8>, n: nat)
    requires |bytes| <= n
    ensures (bytes + Zeros(n - |bytes|))[..|bytes|] == bytes
    ensures bytes + Zeros(n - |bytes|) == (bytes + Zeros(n - |bytes|))[..|bytes|] + Zeros(n - |bytes|)
  {
  }

  // What `process_rx` does with a decoded frame.
  function Processed(s: Server<Message>, m: Message, reply: Reply): Server<Message>
    requires |reply.bytes| <= 64
  {
    if m.kind == COMMAND then Handled(s, m.requestId, AnswerTo(m.requestId, reply)) else s
  }

  /**
   The frame of an attempt reaches the receiver as the command's own request, byte for
   byte, and is handled under its request id; any other frame of the controller is not.
   */
  lemma RequestArrives(c: Client<seq<u8>, Reply>, s: Server<Message>, sequence: u16, now: u32, reply: Reply)
    requires 1 <= |c.command| <= 64 && |reply.bytes| <= 64
    ensures
      var m := Decode(Encode(Outgoing(c, sequence, now)));
      && m.Some? && m.value.sequence == sequence && m.value.payloadLength <= 64
      && (Due(c, now) ==> m.value.payload[..m.value.payloadLength] == c.command)
      && Processed(s, m.value, reply) ==
           if Due(c, now) then Handled(s, c.requestId, AnswerTo(c.requestId, reply)) else s
  {
    hide Encode, Decode, Due, Handled;
    DecodeOfEncode(Outgoing(c, sequence, now));
    PrefixPadded(c.command, 64);
  }

  /**
   An answer the receiver sends, whatever the report queue adds to its flags, is heard by
   the controller as the reply that was executed, under the request id it answers.
   */
  lemma AnswerArrives(c: Client<seq<u8>, Reply>, id: u16, reply: Reply, sequence: u16, b: Builder, now: int, later: int)
    requires |reply.bytes| <= 64
    ensures
      var m := Decode(Encode(Frame(sequence, Some(AnswerTo(id, reply)), b, now, later)));
      && m.Some? && m.value.payloadLength <= 64 && m.value.requestId == id && ReplyIn(m.value) == reply
      && (m.value.flags % 2 == 1 <==> Pending(b, later))
      && Heard(c, m.value) == Accepted(c, id, reply)
  {
    hide Encode, Decode, Pending;
    var frame := Frame(sequence, Some(AnswerTo(id, reply)), b, now, later);
    DecodeOfEncode(frame);
    PrefixPadded(reply.bytes, 64);
    assert Padded(frame)[..|reply.bytes|] == reply.bytes;
  }

  /**
   The caller of the command gets what was executed: an answer that says it failed gives a
   failure and any other success, both with all its bytes, if the caller's room is at least
   that; a smaller room gives nothing. Without an answer the call has timed out.
   */
  lemma AnswerDelivered(c: Client<seq<u8>, Reply>, request: seq<u8>, reply: Reply, sequence: u16, b: Builder, now: int,
                        later: int, room: nat)
    requires c.active && |reply.bytes| <= 64
    ensures
      var m := Decode(Encode(Frame(sequence, Some(AnswerTo(c.requestId, reply)), b, now, later)));
      && m.Some? && m.value.payloadLength <= 64
      && Delivery(Issued(c, request).response, room) == (TimedOut, Some([]))
      && var answered := Heard(c, m.value);
         && answered.done && !answered.active
         && (reply.error && |reply.bytes| <= room ==> Delivery(answered.response, room) == (Failed, Some(reply.bytes)))
         && (!reply.error && |reply.bytes| <= room ==> Delivery(answered.response, room) == (Ok, Some(reply.bytes)))
         && (|reply.bytes| > room ==> Delivery(answered.response, room) == (InvalidSize, None))
  {
    hide Encode, Decode, Frame, Heard;
    AnswerArrives(c, c.requestId, reply, sequence, b, now, later);
  }

  /**
   Bytes 5 and 6 of every frame: a command is of kind 2, an answer of kind 3, a report of
   kind 1 and anything else of kind 0; bit 0 says that more is pending, bit 1 that a command failed.
   */
  lemma FrameBytes(c: Client<seq<u8>, Reply>, id: u16, reply: Reply, sequence: u16, b: Builder, now: int, later: int,
                   tick: u32)
    requires |c.command| <= 64 && |reply.bytes| <= 64
    ensures
      var x := Encode(Outgoing(c, sequence, tick));
      var y := Encode(Frame(sequence, Some(AnswerTo(id, reply)), b, now, later));
      var z := Encode(Frame(sequence, None, b, now, later));
      && x[5] == (if Due(c, tick) then 2 else 0) && x[6] == 0
      && y[5] == 3 && y[6] == (if reply.error then 2 else 0) + (if Pending(b, later) then 1 else 0)
      && z[5] == (if Pending(b, now) then 1 else 0) && z[6] == (if Pending(Next(b, now), later) then 1 else 0)
  {
    hide Encode, Due, Pending, Next, ReportOf, EmittedIds;
    WireForm(Outgoing(c, sequence, tick));
    WireForm(Frame(sequence, Some(AnswerTo(id, reply)), b, now, later));
    WireForm(Frame(sequence, None, b, now, later));
  }

  /** Without an answer waiting, a report that is ready arrives as it was built, and nothing is heard of commands. */
  lemma ReportArrives(c: Client<seq<u8>, Reply>, sequence: u16, b: Builder, now: int, later: int)
    ensures
      var m := Decode(Encode(Frame(sequence, None, b, now, later)));
      && m.Some? && m.value.payloadLength <= 64 && Heard(c, m.value) == c
      && (IsReport(m.value) <==> Pending(b, now))
      && (Pending(b, now) ==> Some(m.value.payload) == NextReport(b, now))
      && (m.value.flags % 2 == 1 <==> Pending(Next(b, now), later))
  {
    hide Encode, Decode, Pending, Next, ReportOf, EmittedIds;
    var frame := Frame(sequence, None, b, now, later);
    DecodeOfEncode(frame);
    if frame.payloadLength == 64 {
      WholePayload(frame);
    }
  }

  lemma WholePayload(m: Message)
    requires m.payloadLength == 64
    ensures Padded(m) == m.payload
  {
  }
}
