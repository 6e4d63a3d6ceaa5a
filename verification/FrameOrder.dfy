/**
 What the MORE_PENDING flag promises the controller (firmware/nrf54l15/src/spi_bridge.c:40-104,
 firmware/nrf54l15/src/report_builder.c:164-172). Radio interrupts come at any point, also
 between the two looks `prepare_tx` takes at the report queue, and a command may clear it.
 */
module FrameOrder {
  import opened Bytes
  import opened BridgeEnvelope
  import opened CommandClients
  import opened CommandServers
  import opened ReplayCaches
  import opened ReportBuilders
  import opened RfReceivers

  // `draft` is the frame of `prepare_tx` before its flag is set; `frames` the ones prepared so far.
  datatype Thread = Thread(
    receiver: Receiver, builder: Builder, server: Server<Message>, draft: Option<Message>, sequence: u16, clock: int,
    frames: seq<Message>)

  // A clear or a group change that goes through leaves the radio in some new state and the queue empty.
  datatype Effect = Nothing | Clears(receiver: Receiver)

  datatype Step =
    | Later(now: int)
    | Radio(packet: RfPacket)
    | Pairing(request: PairRequest)
    | Fill
    | Flag
    | Answer(id: u16, reply: Reply, effect: Effect)

  function Booted(r: Receiver, b: Builder): Thread {
    Thread(r, b, Server(Empty(), None), None, 0, 0, [])
  }

  // A command executes its effect unless the replay cache has its answer already.
  function Answered(t: Thread, id: u16, reply: Reply, effect: Effect): Thread
    requires |reply.bytes| <= 64
  {
    var after := t.(server := Handled(t.server, id, AnswerTo(id, reply)));
    if Executes(t.server, id) && effect.Clears?
    then after.(receiver := effect.receiver, builder := ClearTrackers(t.builder)) else after
  }

  // The frame of `CommandServers.Frame`, in its two halves.
  function Filled(t: Thread): Thread {
    t.(draft := Some(Content(t.server.pending, t.builder, t.clock).(sequence := t.sequence)),
       sequence := (t.sequence + 1) % 0x1_0000, server := Sent(t.server),
       builder := BuilderAfter(t.server.pending, t.builder, t.clock))
  }

  function Flagged(t: Thread): Thread
    requires t.draft.Some?
  {
    var m := t.draft.value;
    t.(draft := None,
       frames := t.frames + [if Pending(t.builder, t.clock) then m.(flags := WithMorePending(m.flags)) else m])
  }

  function Take(t: Thread, e: Step): Thread {
    match e
    case Later(now) => if now >= t.clock then t.(clock := now) else t
    case Radio(p) =>
      var (r, b) := HandleRf(t.receiver, t.builder, p);
      t.(receiver := r, builder := b)
    case Pairing(q) =>
      if t.receiver.count > 32 then t else
      var (r, b) := HandlePair(t.receiver, t.builder, q);
      t.(receiver := r, builder := b)
    case Fill => if t.draft.None? then Filled(t) else t
    case Flag => if t.draft.Some? then Flagged(t) else t
    case Answer(id, reply, effect) =>
      if t.draft.None? && |reply.bytes| <= 64 then Answered(t, id, reply, effect) else t
  }

  function Run(t: Thread, steps: seq<Step>): Thread {
    if steps == [] then t else Take(Run(t, steps[..|steps| - 1]), steps[|steps| - 1])
  }

  lemma FrameInHalves(t: Thread, later: int)
    requires t.draft.None? && later >= t.clock
    ensures Take(Take(Take(t, Fill), Later(later)), Flag).frames
         == t.frames + [Frame(t.sequence, t.server.pending, t.builder, t.clock, later)]
  {
  }

  // ---- The promise ----

  predicate MorePending(m: Message) {
    m.flags % 2 == 1
  }

  predicate Plain(m: Message) {
    m.kind == COMMAND_RESPONSE && !MorePending(m)
  }

  ghost predicate ServerPlain(s: Server<Message>) {
    && (forall i :: 0 <= i < 8 && s.cache.entries[i].Entry? ==> Plain(s.cache.entries[i].response))
    && (s.pending.Some? ==> Plain(s.pending.value))
  }

  lemma HandledPlain(s: Server<Message>, id: u16, reply: Reply)
    requires ServerPlain(s) && |reply.bytes| <= 64
    ensures ServerPlain(Handled(s, id, AnswerTo(id, reply)))
  {
    if !Executes(s, id) {
      var i :| 0 <= i < 8 && s.cache.entries[i] == Entry(id, Lookup(s.cache, id).value);
    }
  }

  // The next frame will carry something.
  predicate Loaded(t: Thread) {
    t.server.pending.Some? || Pending(t.builder, t.clock)
  }

  predicate Follows(one: Message, next: Message) {
    MorePending(one) ==> next.kind != IDLE
  }

  ghost predicate Kept(t: Thread) {
    && ServerPlain(t.server)
    && (t.draft.Some? ==> !MorePending(t.draft.value))
    && (forall i :: 0 <= i < |t.frames| - 1 ==> Follows(t.frames[i], t.frames[i + 1]))
    && (t.frames != [] && MorePending(t.frames[|t.frames| - 1]) ==>
          if t.draft.Some? then t.draft.value.kind != IDLE else Loaded(t))
  }

  // What is pending stays pending, whatever the radio brings.
  lemma EnqueueKeepsPending(b: Builder, record: Record, replace: bool, now: int)
    requires Pending(b, now)
    ensures Pending(Enqueue(b, record, replace), now)
  {
  }

  lemma RegisterKeepsPending(b: Builder, id: TrackerId, address: u48, now: int)
    requires Pending(b, now) && address != 0
    ensures Pending(SetTracker(b, id, address), now)
  {
    var v := SetTracker(b, id, address);
    assert v.table[id] == address;
  }

  lemma RadioKeepsPending(r: Receiver, b: Builder, p: RfPacket, now: int)
    requires Pending(b, now)
    ensures Pending(HandleRf(r, b, p).1, now)
  {
    hide Pending, Enqueue, SetTracker;
    var known := if r.primary || !Admits(r, p) then b else SetTracker(b, p.data[1], p.address);
    if Admits(r, p) {
      RegisterKeepsPending(b, p.data[1], p.address, now);
    }
    EnqueueKeepsPending(known, MakeRecord(p.data, p.rssi, p.sequence, SENSOR_FLAGS), true, now);
    EnqueueKeepsPending(b, MakeRecord(DiagnosticData(), p.rssi, p.sequence, DIAGNOSTIC_FLAGS), false, now);
  }

  lemma PairingKeepsPending(r: Receiver, b: Builder, q: PairRequest, now: int)
    requires Pending(b, now) && r.count <= 32
    ensures Pending(HandlePair(r, b, q).1, now)
  {
    hide Pending, SetTracker;
    if Pairs(r, q) {
      RegisterKeepsPending(b, PairedId(r, q), q.address, now);
    }
  }

  lemma ContentCarries(pending: Option<Message>, b: Builder, now: int)
    requires pending.Some? ==> Plain(pending.value)
    ensures !MorePending(Content(pending, b, now))
    ensures Content(pending, b, now).kind == IDLE <==> pending.None? && !Pending(b, now)
  {
    hide Pending, ReportOf;
  }

  lemma AnswerLoads(t: Thread, id: u16, reply: Reply, effect: Effect)
    requires ServerPlain(t.server) && |reply.bytes| <= 64
    ensures ServerPlain(Answered(t, id, reply, effect).server) && Loaded(Answered(t, id, reply, effect))
  {
    HandledPlain(t.server, id, reply);
  }

  lemma StepKeeps(t: Thread, e: Step)
    requires Kept(t)
    ensures Kept(Take(t, e))
  {
    hide Pending, ServerPlain, HandleRf, HandlePair, Answered, Content;
    match e {
      case Later(now) =>
        LaterKeepsPending(t.builder, t.clock, now);
      case Radio(p) =>
        if Pending(t.builder, t.clock) {
          RadioKeepsPending(t.receiver, t.builder, p, t.clock);
        }
      case Pairing(q) =>
        if Pending(t.builder, t.clock) && t.receiver.count <= 32 {
          PairingKeepsPending(t.receiver, t.builder, q, t.clock);
        }
      case Fill =>
        SentPlain(t.server);
        ContentCarries(t.server.pending, t.builder, t.clock);
      case Flag =>
        if t.draft.Some? {
          FlagKeeps(t);
        }
      case Answer(id, reply, effect) =>
        if t.draft.None? && |reply.bytes| <= 64 {
          AnswerLoads(t, id, reply, effect);
          AnswerFrames(t, id, reply, effect);
        }
    }
  }

  lemma LaterKeepsPending(b: Builder, now: int, later: int)
    ensures Pending(b, now) && now <= later ==> Pending(b, later)
  {
  }

  lemma SentPlain(s: Server<Message>)
    requires ServerPlain(s)
    ensures ServerPlain(Sent(s)) && (s.pending.Some? ==> Plain(s.pending.value))
  {
  }

  lemma AnswerFrames(t: Thread, id: u16, reply: Reply, effect: Effect)
    requires |reply.bytes| <= 64
    ensures Answered(t, id, reply, effect).frames == t.frames && Answered(t, id, reply, effect).draft == t.draft
  {
  }

  lemma FlagKeeps(t: Thread)
    requires Kept(t) && t.draft.Some?
    ensures Kept(Flagged(t))
  {
    hide Pending, ServerPlain;
  }

  /**
   A frame flagged MORE_PENDING is never followed by an idle one, whatever the radio, the
   clock and the commands do in between: if a clear empties the queue, its own response
   fills the next frame.
   */
  lemma {:induction false} NeverIdleAfterMore(r: Receiver, b: Builder, steps: seq<Step>)
    ensures Kept(Run(Booted(r, b), steps))
    ensures
      var f := Run(Booted(r, b), steps).frames;
      forall i :: 0 <= i < |f| - 1 && MorePending(f[i]) ==> f[i + 1].kind != IDLE
    decreases |steps|
  {
    hide Take;
    if steps != [] {
      NeverIdleAfterMore(r, b, steps[..|steps| - 1]);
      StepKeeps(Run(Booted(r, b), steps[..|steps| - 1]), steps[|steps| - 1]);
    }
    var t := Run(Booted(r, b), steps);
    assert forall i :: 0 <= i < |t.frames| - 1 ==> Follows(t.frames[i], t.frames[i + 1]);
  }

  // Frames are numbered in order, modulo 2^16, whatever they carry.
  ghost predicate Numbered(t: Thread) {
    && t.sequence == (|t.frames| + if t.draft.Some? then 1 else 0) % 0x1_0000
    && (t.draft.Some? ==> t.draft.value.sequence == |t.frames| % 0x1_0000)
    && (forall i :: 0 <= i < |t.frames| ==> t.frames[i].sequence == i % 0x1_0000)
  }

  lemma NumberedStep(t: Thread, e: Step)
    requires Numbered(t)
    ensures Numbered(Take(t, e))
  {
    hide Pending, HandleRf, HandlePair, Content, Handled, Executes, BuilderAfter;
    if e.Fill? && t.draft.None? {
      NextNumber(|t.frames|);
    }
  }

  lemma NextNumber(n: nat)
    ensures (n % 0x1_0000 + 1) % 0x1_0000 == (n + 1) % 0x1_0000
  {
  }

  /** The sequence field of the n-th frame is n modulo 2^16: no frame is skipped and none repeated. */
  lemma {:induction false} FramesNumbered(r: Receiver, b: Builder, steps: seq<Step>)
    ensures Numbered(Run(Booted(r, b), steps))
    decreases |steps|
  {
    hide Take, Numbered;
    if steps == [] {
      NumberedBooted(r, b);
    } else {
      FramesNumbered(r, b, steps[..|steps| - 1]);
      NumberedStep(Run(Booted(r, b), steps[..|steps| - 1]), steps[|steps| - 1]);
    }
  }

  lemma NumberedBooted(r: Receiver, b: Builder)
    ensures Numbered(Booted(r, b))
  {
  }
}
