/**
 Whole runs of the hub: where every record goes, what the metrics count, and that one
 packet heard through several sources is passed on once.
 */
module HubRuns {
  import opened Bytes
  import opened Reports
  import opened SequenceGates
  import opened Hubs

  datatype Delivery = Delivery(source: string, input: seq<u8>, now: u64)

  function Started(): Hub {
    Hub(map[], map[], Gate(250, map[]))
  }

  function After(h: seq<Delivery>): Hub {
    if h == [] then Started() else
    var d := h[|h| - 1];
    Ingest(After(h[..|h| - 1]), d.source, d.input, d.now)
  }

  // What becomes of one record.
  datatype Outcome =
    | Skipped                   // all zero, a registration, or an id not yet registered
    | Unchecked                 // no RF-v2 metadata: passed on as it is
    | BadCrc
    | Unsequenced               // RF-v2, CRC valid, but without a valid sequence
    | Judged(address: u48, sequence: u8, verdict: Verdict)

  function OutcomeOf(s: Intake, r: ReportRecord, now: u64): Outcome {
    if Blank(r.data) || RegistrationAddress(r.data).Some? || r.data[1] !in s.ids then Skipped
    else if r.metadata.None? || !r.metadata.value.RfV2() then Unchecked
    else
      var m, address := r.metadata.value, s.ids[r.data[1]];
      if !m.CrcValid() then BadCrc
      else if !m.SequenceValid() then Unsequenced
      else Judged(address, m.sequence, Judge(s.gate, address, m.sequence, now))
  }

  function Outcomes(s: Intake, records: seq<ReportRecord>, now: u64): (os: seq<Outcome>)
    ensures |os| == |records|
  {
    if records == [] then [] else
    var n := |records| - 1;
    Outcomes(s, records[..n], now) + [OutcomeOf(TakeAll(s, records[..n], now), records[n], now)]
  }

  // Everything that became of the records of `source`, or of all records.
  function OutcomesOf(h: seq<Delivery>, source: string): seq<Outcome> {
    if h == [] then [] else
    var d := h[|h| - 1];
    OutcomesOf(h[..|h| - 1], source) + if d.source == source then DeliveryOutcomes(h) else []
  }

  function AllOutcomes(h: seq<Delivery>): seq<Outcome> {
    if h == [] then [] else AllOutcomes(h[..|h| - 1]) + DeliveryOutcomes(h)
  }

  // The outcomes of the last delivery of `h`.
  function DeliveryOutcomes(h: seq<Delivery>): seq<Outcome>
    requires h != []
  {
    OutcomesAt(After(h[..|h| - 1]), h[|h| - 1])
  }

  // A report that does not decode has none.
  function OutcomesAt(b: Hub, d: Delivery): seq<Outcome> {
    match DecodeReports(d.input)
    case Failure(_) => []
    case Success(records) => Outcomes(Opened(b, d.source), records, d.now)
  }

  // ---- Metrics ----

  function Count(os: seq<Outcome>, p: Outcome -> bool): nat {
    if os == [] then 0 else Count(os[..|os| - 1], p) + if p(os[|os| - 1]) then 1 else 0
  }

  function GapSum(os: seq<Outcome>): nat {
    if os == [] then 0 else
    GapSum(os[..|os| - 1]) + if os[|os| - 1].Judged? then os[|os| - 1].verdict.missing else 0
  }

  predicate Is(o: Outcome, d: Decision) { o.Judged? && o.verdict.decision == d }

  function Counted(o: Outcome): bool { o.BadCrc? || o.Unsequenced? || o.Judged? }
  function IsAccepted(o: Outcome): bool { Is(o, Accepted) }
  function IsDuplicate(o: Outcome): bool { Is(o, Duplicate) }
  function IsStale(o: Outcome): bool { Is(o, Stale) }
  function IsBadCrc(o: Outcome): bool { o.BadCrc? }
  function IsUnsequenced(o: Outcome): bool { o.Unsequenced? }

  function Tally(os: seq<Outcome>): Metrics {
    Metrics(Count(os, Counted), Count(os, IsAccepted), Count(os, IsDuplicate), Count(os, IsStale),
            Count(os, IsBadCrc), GapSum(os))
  }

  function Plus(a: Metrics, b: Metrics): Metrics {
    Metrics(a.received + b.received, a.accepted + b.accepted, a.duplicates + b.duplicates, a.stale + b.stale,
            a.crcErrors + b.crcErrors, a.sequenceMissing + b.sequenceMissing)
  }

  lemma {:induction false} CountConcat(a: seq<Outcome>, b: seq<Outcome>, p: Outcome -> bool)
    ensures Count(a + b, p) == Count(a, p) + Count(b, p)
  {
    if b == [] {
      assert a + b == a;
    } else {
      assert (a + b)[..|a + b| - 1] == a + b[..|b| - 1];
      CountConcat(a, b[..|b| - 1], p);
    }
  }

  lemma {:induction false} GapSumConcat(a: seq<Outcome>, b: seq<Outcome>)
    ensures GapSum(a + b) == GapSum(a) + GapSum(b)
  {
    if b == [] {
      assert a + b == a;
    } else {
      assert (a + b)[..|a + b| - 1] == a + b[..|b| - 1];
      GapSumConcat(a, b[..|b| - 1]);
    }
  }

  lemma TallyConcat(a: seq<Outcome>, b: seq<Outcome>)
    ensures Tally(a + b) == Plus(Tally(a), Tally(b))
  {
    hide Count, GapSum;
    CountConcat(a, b, Counted);
    CountConcat(a, b, IsAccepted);
    CountConcat(a, b, IsDuplicate);
    CountConcat(a, b, IsStale);
    CountConcat(a, b, IsBadCrc);
    GapSumConcat(a, b);
  }

  lemma TallyOne(o: Outcome)
    ensures Tally([o]) == Metrics(
      if Counted(o) then 1 else 0, if IsAccepted(o) then 1 else 0, if IsDuplicate(o) then 1 else 0,
      if IsStale(o) then 1 else 0, if IsBadCrc(o) then 1 else 0, if o.Judged? then o.verdict.missing as nat else 0)
  {
    CountOne(o, Counted);
    CountOne(o, IsAccepted);
    CountOne(o, IsDuplicate);
    CountOne(o, IsStale);
    CountOne(o, IsBadCrc);
    GapOne(o);
  }

  lemma GapOne(o: Outcome)
    ensures GapSum([o]) == if o.Judged? then o.verdict.missing as nat else 0
  {
    assert [o][..0] == [];
  }

  lemma CountOne(o: Outcome, p: Outcome -> bool)
    ensures Count([o], p) == if p(o) then 1 else 0
  {
    assert [o][..0] == [];
  }

  lemma RecordTallied(s: Intake, r: ReportRecord, now: u64)
    ensures TakeRecord(s, r, now).metrics == Plus(s.metrics, Tally([OutcomeOf(s, r, now)]))
  {
    hide Tally, Blank, RegistrationAddress;
    TallyOne(OutcomeOf(s, r, now));
  }

  lemma {:induction false} RecordsTallied(s: Intake, records: seq<ReportRecord>, now: u64)
    ensures TakeAll(s, records, now).metrics == Plus(s.metrics, Tally(Outcomes(s, records, now)))
  {
    if records != [] {
      var n := |records| - 1;
      RecordsTallied(s, records[..n], now);
      RecordTallied(TakeAll(s, records[..n], now), records[n], now);
      TallyConcat(Outcomes(s, records[..n], now), [OutcomeOf(TakeAll(s, records[..n], now), records[n], now)]);
    }
  }

  function MetricsOf(h: Hub, source: string): Metrics {
    if source in h.metrics then h.metrics[source] else Metrics(0, 0, 0, 0, 0, 0)
  }

  /** Over any run, a source's metrics count exactly what became of its records. */
  lemma {:induction false} MetricsCountOutcomes(h: seq<Delivery>, source: string)
    ensures MetricsOf(After(h), source) == Tally(OutcomesOf(h, source))
  {
    if h != [] {
      var before, d := h[..|h| - 1], h[|h| - 1];
      MetricsCountOutcomes(before, source);
      hide DecodeReports, Tally, Ingest, OutcomesAt;
      if d.source == source {
        TallyConcat(OutcomesOf(before, source), OutcomesAt(After(before), d));
        ThisSourceTallied(After(before), d);
      } else {
        OtherSourcesKept(After(before), d, source);
        assert OutcomesOf(before, source) + [] == OutcomesOf(before, source);
      }
    } else {
      TallyNone();
    }
  }

  lemma TallyNone()
    ensures Tally([]) == Metrics(0, 0, 0, 0, 0, 0)
  {
  }

  lemma OtherSourcesKept(b: Hub, d: Delivery, source: string)
    requires d.source != source
    ensures MetricsOf(Ingest(b, d.source, d.input, d.now), source) == MetricsOf(b, source)
  {
    hide DecodeReports, TakeAll;
  }

  lemma ThisSourceTallied(b: Hub, d: Delivery)
    ensures MetricsOf(Ingest(b, d.source, d.input, d.now), d.source)
         == Plus(MetricsOf(b, d.source), Tally(OutcomesAt(b, d)))
  {
    if DecodeReports(d.input).Failure? {
      TallyNone();
    } else {
      hide DecodeReports, Tally, TakeAll, Outcomes;
      RecordsTallied(Opened(b, d.source), DecodeReports(d.input).value, d.now);
    }
  }

  lemma {:induction false} Partition(os: seq<Outcome>)
    ensures
      var m := Tally(os);
      m.received == m.accepted + m.duplicates + m.stale + m.crcErrors + Count(os, IsUnsequenced)
  {
    if os != [] {
      Partition(os[..|os| - 1]);
    }
  }

  /** received = accepted + duplicates + stale + CRC errors + records without a valid sequence, per source. */
  lemma Accounted(h: seq<Delivery>, source: string)
    ensures
      var m := MetricsOf(After(h), source);
      m.received == m.accepted + m.duplicates + m.stale + m.crcErrors + Count(OutcomesOf(h, source), IsUnsequenced)
  {
    MetricsCountOutcomes(h, source);
    Partition(OutcomesOf(h, source));
  }

  // ---- What is passed on ----

  function Selected(records: seq<ReportRecord>, os: seq<Outcome>): seq<ReportRecord>
    requires |records| == |os|
  {
    if records == [] then [] else
    var n := |records| - 1;
    Selected(records[..n], os[..n]) + if os[n].Unchecked? || IsAccepted(os[n]) then [records[n]] else []
  }

  function RecordsOf(passed: seq<AcceptedRecord>): (rs: seq<ReportRecord>)
    ensures |rs| == |passed|
  {
    seq(|passed|, i requires 0 <= i < |passed| => passed[i].record)
  }

  /** The records passed on are, in order, those unchecked or accepted, and no others. */
  lemma {:induction false} PassedInOrder(s: Intake, records: seq<ReportRecord>, now: u64)
    ensures RecordsOf(TakeAll(s, records, now).passed)
         == RecordsOf(s.passed) + Selected(records, Outcomes(s, records, now))
  {
    if records == [] {
      assert RecordsOf(s.passed) + [] == RecordsOf(s.passed);
    } else {
      var n := |records| - 1;
      PassedInOrder(s, records[..n], now);
      var before, r := TakeAll(s, records[..n], now), records[n];
      assert Outcomes(s, records, now)[..n] == Outcomes(s, records[..n], now);
      OnePassed(before, r, now);
    }
  }

  lemma OnePassed(s: Intake, r: ReportRecord, now: u64)
    ensures
      var o := OutcomeOf(s, r, now);
      RecordsOf(TakeRecord(s, r, now).passed)
        == RecordsOf(s.passed) + if o.Unchecked? || IsAccepted(o) then [r] else []
  {
    hide Blank, RegistrationAddress;
  }

  // What the last delivery of `h` decodes to, and what the hub passes on of it.
  function DeliveryRecords(h: seq<Delivery>): seq<ReportRecord>
    requires h != []
  {
    match DecodeReports(h[|h| - 1].input)
    case Failure(_) => []
    case Success(records) => records
  }

  function DeliveryPassed(h: seq<Delivery>): seq<ReportRecord>
    requires h != []
  {
    var d := h[|h| - 1];
    match Passed(After(h[..|h| - 1]), d.source, d.input, d.now)
    case Failure(_) => []
    case Success(passed) => RecordsOf(passed)
  }

  // The same over a whole run, one delivery after the other.
  function AllRecords(h: seq<Delivery>): seq<ReportRecord> {
    if h == [] then [] else AllRecords(h[..|h| - 1]) + DeliveryRecords(h)
  }

  function AllPassed(h: seq<Delivery>): seq<ReportRecord> {
    if h == [] then [] else AllPassed(h[..|h| - 1]) + DeliveryPassed(h)
  }

  lemma DeliverySelected(h: seq<Delivery>)
    requires h != []
    ensures |DeliveryRecords(h)| == |DeliveryOutcomes(h)|
    ensures DeliveryPassed(h) == Selected(DeliveryRecords(h), DeliveryOutcomes(h))
  {
    hide DecodeReports, TakeAll, Outcomes;
    var before, d := After(h[..|h| - 1]), h[|h| - 1];
    if DecodeReports(d.input).Success? {
      var s := Opened(before, d.source);
      PassedInOrder(s, DecodeReports(d.input).value, d.now);
      assert RecordsOf(s.passed) == [];
      hide Selected;
      var os := Outcomes(s, DecodeReports(d.input).value, d.now);
      assert [] + Selected(DecodeReports(d.input).value, os) == Selected(DecodeReports(d.input).value, os);
    }
  }

  function One(r: ReportRecord, o: Outcome): seq<ReportRecord> {
    if o.Unchecked? || IsAccepted(o) then [r] else []
  }

  lemma SelectedSnoc(a: seq<ReportRecord>, oa: seq<Outcome>, r: ReportRecord, o: Outcome)
    requires |a| == |oa|
    ensures Selected(a + [r], oa + [o]) == Selected(a, oa) + One(r, o)
  {
    assert (a + [r])[..|a|] == a && (oa + [o])[..|a|] == oa;
  }

  lemma SplitLast<T>(a: seq<T>, b: seq<T>)
    requires b != []
    ensures b == b[..|b| - 1] + [b[|b| - 1]] && a + b == (a + b[..|b| - 1]) + [b[|b| - 1]]
  {
  }

  lemma {:induction false} SelectedConcat(a: seq<ReportRecord>, oa: seq<Outcome>,
                                          b: seq<ReportRecord>, ob: seq<Outcome>)
    requires |a| == |oa| && |b| == |ob|
    ensures Selected(a + b, oa + ob) == Selected(a, oa) + Selected(b, ob)
    decreases |b|
  {
    if b == [] {
      assert a + b == a && oa + ob == oa;
    } else {
      var n := |b| - 1;
      SelectedConcat(a, oa, b[..n], ob[..n]);
      SelectedSnoc(b[..n], ob[..n], b[n], ob[n]);
      SelectedSnoc(a + b[..n], oa + ob[..n], b[n], ob[n]);
      hide Selected, One;
      SplitLast(a, b);
      SplitLast(oa, ob);
    }
  }

  /**
   Over a whole run the hub passes on an in-order subsequence of all records decoded: those
   unchecked or accepted, and no others.
   */
  lemma {:induction false} RunPassedInOrder(h: seq<Delivery>)
    ensures |AllRecords(h)| == |AllOutcomes(h)|
    ensures AllPassed(h) == Selected(AllRecords(h), AllOutcomes(h))
  {
    hide DeliveryRecords, DeliveryOutcomes, DeliveryPassed;
    if h != [] {
      RunPassedInOrder(h[..|h| - 1]);
      DeliverySelected(h);
      SelectedConcat(AllRecords(h[..|h| - 1]), AllOutcomes(h[..|h| - 1]), DeliveryRecords(h), DeliveryOutcomes(h));
    }
  }

  // The deliveries that decode, in order.
  function Decodable(h: seq<Delivery>): seq<Delivery> {
    if h == [] then [] else
    Decodable(h[..|h| - 1]) + if DecodeReports(h[|h| - 1].input).Success? then [h[|h| - 1]] else []
  }

  /** A report that does not decode leaves no trace: without it the run ends in the same hub. */
  lemma {:induction false} ErrorsChangeNothing(h: seq<Delivery>)
    ensures After(h) == After(Decodable(h))
    ensures forall i :: 0 <= i < |Decodable(h)| ==> DecodeReports(Decodable(h)[i].input).Success?
  {
    hide DecodeReports, TakeAll, Opened, Closed;
    if h != [] {
      var d, kept := h[|h| - 1], Decodable(h[..|h| - 1]);
      ErrorsChangeNothing(h[..|h| - 1]);
      assert (kept + [d])[..|kept|] == kept && kept + [] == kept;
    }
  }

  // ---- One gate for all sources ----

  // The packets judged in a run, whatever source they came by, with their verdicts.
  datatype Call = Call(address: u48, sequence: u8, now: u64, verdict: Verdict)

  function CallsIn(os: seq<Outcome>, now: u64): seq<Call> {
    if os == [] then [] else
    var o := os[|os| - 1];
    CallsIn(os[..|os| - 1], now) + if o.Judged? then [Call(o.address, o.sequence, now, o.verdict)] else []
  }

  function AllCalls(h: seq<Delivery>): seq<Call> {
    if h == [] then [] else AllCalls(h[..|h| - 1]) + CallsIn(DeliveryOutcomes(h), h[|h| - 1].now)
  }

  function GateAfter(g: Gate, calls: seq<Call>): Gate {
    if calls == [] then g else
    var c := calls[|calls| - 1];
    Evaluate(GateAfter(g, calls[..|calls| - 1]), c.address, c.sequence, c.now)
  }

  ghost predicate VerdictsHold(g: Gate, calls: seq<Call>) {
    forall k :: 0 <= k < |calls| ==>
      calls[k].verdict == Judge(GateAfter(g, calls[..k]), calls[k].address, calls[k].sequence, calls[k].now)
  }

  lemma {:induction false} GateConcat(g: Gate, a: seq<Call>, b: seq<Call>)
    ensures GateAfter(g, a + b) == GateAfter(GateAfter(g, a), b)
  {
    if b == [] {
      assert a + b == a;
    } else {
      assert (a + b)[..|a + b| - 1] == a + b[..|b| - 1];
      GateConcat(g, a, b[..|b| - 1]);
    }
  }

  lemma VerdictsConcat(g: Gate, a: seq<Call>, b: seq<Call>)
    requires VerdictsHold(g, a) && VerdictsHold(GateAfter(g, a), b)
    ensures VerdictsHold(g, a + b)
  {
    forall k | 0 <= k < |a + b|
      ensures (a + b)[k].verdict
           == Judge(GateAfter(g, (a + b)[..k]), (a + b)[k].address, (a + b)[k].sequence, (a + b)[k].now)
    {
      if k < |a| {
        assert (a + b)[..k] == a[..k];
      } else {
        assert (a + b)[..k] == a + b[..k - |a|];
        GateConcat(g, a, b[..k - |a|]);
      }
    }
  }

  lemma RecordCalls(s: Intake, r: ReportRecord, now: u64)
    ensures
      var calls := CallsIn([OutcomeOf(s, r, now)], now);
      TakeRecord(s, r, now).gate == GateAfter(s.gate, calls) && VerdictsHold(s.gate, calls)
  {
    hide Blank, RegistrationAddress;
    var o := OutcomeOf(s, r, now);
    assert [o][..0] == [];
    if o.Judged? {
      var c := Call(o.address, o.sequence, now, o.verdict);
      assert CallsIn([o], now) == [c] && [c][..0] == [];
    }
  }

  lemma {:induction false} RecordsCalls(s: Intake, records: seq<ReportRecord>, now: u64)
    ensures
      var calls := CallsIn(Outcomes(s, records, now), now);
      TakeAll(s, records, now).gate == GateAfter(s.gate, calls) && VerdictsHold(s.gate, calls)
  {
    if records != [] {
      var n := |records| - 1;
      RecordsCalls(s, records[..n], now);
      var before := TakeAll(s, records[..n], now);
      var o := OutcomeOf(before, records[n], now);
      RecordCalls(before, records[n], now);
      var calls, last := CallsIn(Outcomes(s, records[..n], now), now), CallsIn([o], now);
      assert Outcomes(s, records, now)[..n] == Outcomes(s, records[..n], now);
      assert [o][..0] == [];
      assert CallsIn(Outcomes(s, records, now), now) == calls + last;
      GateConcat(s.gate, calls, last);
      VerdictsConcat(s.gate, calls, last);
    }
  }

  lemma {:induction false} RunCalls(h: seq<Delivery>)
    ensures After(h).gate == GateAfter(Started().gate, AllCalls(h))
    ensures VerdictsHold(Started().gate, AllCalls(h))
  {
    if h != [] {
      var before, d := h[..|h| - 1], h[|h| - 1];
      RunCalls(before);
      var more := CallsIn(DeliveryOutcomes(h), d.now);
      DeliveryCalls(h);
      GateConcat(Started().gate, AllCalls(before), more);
      VerdictsConcat(Started().gate, AllCalls(before), more);
    }
  }

  lemma DeliveryCalls(h: seq<Delivery>)
    requires h != []
    ensures
      var before, calls := After(h[..|h| - 1]).gate, CallsIn(DeliveryOutcomes(h), h[|h| - 1].now);
      After(h).gate == GateAfter(before, calls) && VerdictsHold(before, calls)
  {
    var before, d := After(h[..|h| - 1]), h[|h| - 1];
    hide DecodeReports, TakeAll, Outcomes;
    if DecodeReports(d.input).Success? {
      RecordsCalls(Opened(before, d.source), DecodeReports(d.input).value, d.now);
    }
  }

  // The trackers' own numbering of the packets judged.
  ghost predicate Numbering(calls: seq<Call>, arrivals: History) {
    && |arrivals| == |calls|
    && forall k :: 0 <= k < |calls| ==>
         && arrivals[k].tracker == calls[k].address && arrivals[k].now == calls[k].now
         && arrivals[k].number % 0x100 == calls[k].sequence
  }

  lemma {:induction false} GateFollowsNumbers(calls: seq<Call>, arrivals: History)
    requires Numbering(calls, arrivals)
    ensures GateAfter(Started().gate, calls) == SequenceGates.After(250, arrivals)
  {
    if calls != [] {
      GateFollowsNumbers(calls[..|calls| - 1], arrivals[..|arrivals| - 1]);
    }
  }

  /**
   The first copy wins: of packets of one tracker, over whatever sources they are heard and
   with no silence of 250 ms from one to the other, an accepted one is newer than every
   earlier one, so no packet is passed on twice.
   */
  lemma FirstCopyWins(h: seq<Delivery>, arrivals: History, i: nat, j: nat)
    requires Numbering(AllCalls(h), arrivals) && AllInWindow(250, arrivals)
    requires i < j < |arrivals| && arrivals[i].tracker == arrivals[j].tracker && SameStretch(250, arrivals, i, j)
    ensures AllCalls(h)[j].verdict.decision == Accepted ==> arrivals[i].number < arrivals[j].number
  {
    var calls := AllCalls(h);
    RunCalls(h);
    assert Numbering(calls[..j], arrivals[..j]);
    GateFollowsNumbers(calls[..j], arrivals[..j]);
    if calls[j].verdict.decision == Accepted {
      AcceptedIncrease(250, arrivals, i, j);
    }
  }
}
