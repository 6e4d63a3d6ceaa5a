/**
 When a caller can be handed another command's answer. Request ids wrap after 65,536
 commands, so the answer to an old command may still be about under the id of a new one.
 `Aliased` says so at the moment of issue; it is the exact condition.
 */
module CommandAliases {
  import opened Bytes
  import opened CommandClients
  import opened CommandServers
  import opened ReplayCaches
  import opened CommandRuns

  // The receiver once it has processed what it already received; the reply does not matter here.
  function SettledServer(w: World): Server<Answer> {
    if w.spi.Received? && w.spi.request.Some? then ProcessedBy(w.server, w.spi.request.value, Reply(false, []))
    else w.server
  }

  predicate Carries(a: Option<Answer>, id: u16) {
    a.Some? && a.value.id == id
  }

  // Under `id` the receiver remembers an answer, or an answer or a request is on its way.
  predicate Aliased(w: World, id: u16) {
    || Lookup(SettledServer(w).cache, id).Some?
    || Carries(SettledServer(w).pending, id)
    || (w.spi.Armed? && Carries(w.spi.answer, id))
    || (w.link.Incoming? && Carries(w.link.incoming, id))
    || (w.link.Prepared? && w.link.outgoing.Some? && w.link.outgoing.value.id == id)
  }

  // ---- Without an alias, the answer is the command's own ----

  predicate OwnAnswer(a: Option<Answer>, n: nat) {
    Carries(a, WireId(n)) ==> a.value.command.serial == n
  }

  predicate OwnEntry(e: Entry<Answer>, n: nat) {
    Matches(e, WireId(n)) ==> e.response.command.serial == n
  }

  predicate OwnServer(s: Server<Answer>, n: nat) {
    (forall i :: 0 <= i < 8 ==> OwnEntry(s.cache.entries[i], n)) && OwnAnswer(s.pending, n)
  }

  predicate OwnRequest(q: Option<Request>, n: nat) {
    q.Some? && q.value.id == WireId(n) ==> q.value.command.serial == n
  }

  // Everything about under the id of command `n` is its own.
  predicate Clean(w: World, n: nat) {
    && OwnServer(SettledServer(w), n)
    && (w.spi.Armed? ==> OwnAnswer(w.spi.answer, n))
    && (w.link.Incoming? ==> OwnAnswer(w.link.incoming, n))
    && (w.link.Prepared? ==> OwnRequest(w.link.outgoing, n))
    && OwnAnswer(w.client.response, n)
  }

  predicate OwnReturn(r: Return, n: nat) {
    r.serial == n && r.answer.Some? ==> r.answer.value.command.serial == n
  }

  // While `n` is the latest command everything is its own, and what its caller got was.
  ghost predicate Own(w: World, n: nat) {
    && n < |w.issued|
    && (n + 1 == |w.issued| ==> Clean(w, n))
    && (forall i :: 0 <= i < |w.returned| ==> OwnReturn(w.returned[i], n))
  }

  lemma IssueIsClean(w: World)
    requires Shape(w) && w.caller.Drained? && !Aliased(w, w.client.nextRequestId)
    ensures Own(Take(w, Issue), |w.issued|)
  {
    hide Lookup, Handled, LogShape, AnswersKnown, InOrder, RequestsGenuine;
    forall i | 0 <= i < |w.returned| ensures OwnReturn(w.returned[i], |w.issued|) {
      assert ReturnKnown(w, w.returned[i]);
    }
  }

  lemma OwnProcess(s: Server<Answer>, q: Request, reply: Reply, n: nat)
    requires OwnServer(s, n) && OwnRequest(Some(q), n)
    requires Lookup(s.cache, q.id).Some? ==> Lookup(s.cache, q.id).value.id == q.id
    ensures OwnServer(ProcessedBy(s, q, reply), n)
  {
    if !Executes(s, q.id) {
      var i :| 0 <= i < 8 && s.cache.entries[i] == Entry(q.id, Lookup(s.cache, q.id).value);
      assert OwnEntry(s.cache.entries[i], n);
    }
  }

  lemma ReplyDoesNotMatter(s: Server<Answer>, q: Request, one: Reply, other: Reply, n: nat)
    requires OwnServer(ProcessedBy(s, q, one), n)
    ensures OwnServer(ProcessedBy(s, q, other), n)
  {
    var a, b := ProcessedBy(s, q, one), ProcessedBy(s, q, other);
    forall i | 0 <= i < 8 ensures OwnEntry(b.cache.entries[i], n) {
      assert OwnEntry(a.cache.entries[i], n);
    }
  }

  lemma ServerStaysOwn(w: World, e: Step, n: nat)
    requires Shape(w) && Clean(w, n)
    ensures OwnServer(SettledServer(Take(w, e)), n)
  {
    hide OwnServer, ProcessedBy, LogShape, Executes, Lookup;
    if e.Process? && w.spi.Received? && w.spi.request.Some? {
      ReplyDoesNotMatter(w.server, w.spi.request.value, Reply(false, []), e.reply, n);
    } else if e.Exchange? && w.link.Prepared? && w.spi.Armed? && w.link.outgoing.Some? {
      var q := w.link.outgoing.value;
      if Lookup(w.server.cache, q.id).Some? {
        FoundKnown(w, q.id);
      }
      OwnProcess(w.server, q, Reply(false, []), n);
    } else if e.Arm? && w.spi.Preparing? {
      SentIsOwn(w.server, n);
    }
  }

  lemma SentIsOwn(s: Server<Answer>, n: nat)
    requires OwnServer(s, n)
    ensures OwnServer(Sent(s), n) && OwnAnswer(s.pending, n)
  {
  }

  lemma CleanStep(w: World, e: Step, n: nat)
    requires Shape(w) && Clean(w, n) && n + 1 == |w.issued| && Take(w, e).issued == w.issued
    ensures Clean(Take(w, e), n)
  {
    hide SettledServer, ProcessedBy, OwnServer, LogShape, AnswersKnown, InOrder, RequestsGenuine, Executes;
    ServerStaysOwn(w, e, n);
    ArmIsOwn(w, n);
  }

  lemma ArmIsOwn(w: World, n: nat)
    requires Clean(w, n)
    ensures w.spi.Preparing? ==> OwnAnswer(w.server.pending, n)
  {
  }

  lemma OwnStep(w: World, e: Step, n: nat)
    requires Shape(w) && Own(w, n)
    ensures Own(Take(w, e), n)
  {
    hide Take, Clean, LogShape, AnswersKnown, InOrder, RequestsGenuine;
    var v := Take(w, e);
    HistoryGrows(w, e);
    if n + 1 == |v.issued| {
      assert w.issued == v.issued;
      CleanStep(w, e, n);
    }
    forall i | 0 <= i < |v.returned| ensures OwnReturn(v.returned[i], n) {
      if i < |w.returned| {
        assert OwnReturn(w.returned[i], n);
      } else {
        CollectIsOwn(w, n);
      }
    }
  }

  lemma CollectIsOwn(w: World, n: nat)
    requires CallerShape(w) && Own(w, n) && (w.caller.Woken? || w.caller.Expired?)
    ensures
      OwnReturn(Return(w.caller.serial, w.caller.room, if w.caller.Woken? then w.client.response else None), n)
  {
    hide SettledServer, OwnServer;
  }

  lemma {:induction false} OwnRuns(w: World, steps: seq<Step>, n: nat)
    requires Shape(w) && Own(w, n)
    ensures Own(Run(w, steps), n) && Shape(Run(w, steps))
    decreases |steps|
  {
    hide Shape, Take, Own;
    if steps != [] {
      ShapeStep(w, steps[0]);
      OwnStep(w, steps[0], n);
      OwnRuns(Take(w, steps[0]), steps[1..], n);
    }
  }
}
