/**
 What the hub knows, read off the decoded records alone (bridge/src/hub.rs:50-92): which
 ids a source has registered, and so which of its records are skipped, judged or passed on,
 and under which address.
 */
module HubLearning {
  import opened Bytes
  import opened Reports
  import opened Hubs
  import opened HubRuns

  predicate AllZero(d: RecordData) {
    forall i :: 0 <= i < 16 ==> d[i] == 0
  }

  // Bytes 2 to 7, little-endian.
  function AddressIn(d: RecordData): nat {
    (d[2] as int) + 0x100 * (d[3] as int) + 0x1_0000 * (d[4] as int) + 0x100_0000 * (d[5] as int)
    + 0x1_0000_0000 * (d[6] as int) + 0x100_0000_0000 * (d[7] as int)
  }

  predicate Registers(d: RecordData) {
    d[0] == 255 && AddressIn(d) != 0
  }

  // The address of the last registration of `id` among these records.
  function LastRegistered(records: seq<ReportRecord>, id: u8): Option<nat> {
    if records == [] then None else
    var d := records[|records| - 1].data;
    if Registers(d) && d[1] == id then Some(AddressIn(d)) else LastRegistered(records[..|records| - 1], id)
  }

  // Everything a source has delivered, record by record.
  function SourceRecords(h: seq<Delivery>, x: string): seq<ReportRecord> {
    if h == [] then [] else
    SourceRecords(h[..|h| - 1], x) + if h[|h| - 1].source == x then DeliveryRecords(h) else []
  }

  lemma AddressMeans(d: RecordData)
    ensures RegistrationAddress(d).Some? <==> Registers(d)
    ensures Registers(d) ==> RegistrationAddress(d).value == AddressIn(d)
  {
  }

  // `ids` holds exactly what `records` registered, each id with its last address.
  ghost predicate Learnt(ids: map<u8, u48>, records: seq<ReportRecord>) {
    forall id: u8 ::
      && (id in ids <==> LastRegistered(records, id).Some?)
      && (id in ids ==> LastRegistered(records, id) == Some(ids[id] as nat))
  }

  lemma RecordLearns(s: Intake, earlier: seq<ReportRecord>, r: ReportRecord, now: u64)
    requires Learnt(s.ids, earlier)
    ensures Learnt(TakeRecord(s, r, now).ids, earlier + [r])
  {
    AddressMeans(r.data);
    assert (earlier + [r])[..|earlier|] == earlier;
    hide RegistrationAddress, AddressIn;
  }

  lemma {:induction false} RecordsLearn(s: Intake, earlier: seq<ReportRecord>, records: seq<ReportRecord>, now: u64)
    requires Learnt(s.ids, earlier)
    ensures Learnt(TakeAll(s, records, now).ids, earlier + records)
  {
    hide Learnt, TakeRecord;
    if records == [] {
      assert earlier + records == earlier;
    } else {
      var n := |records| - 1;
      RecordsLearn(s, earlier, records[..n], now);
      RecordLearns(TakeAll(s, records[..n], now), earlier + records[..n], records[n], now);
      assert earlier + records[..n] + [records[n]] == earlier + records;
    }
  }

  lemma NothingLearnt()
    ensures Learnt(map[], [])
  {
  }

  lemma {:induction false} SourceLearnt(h: seq<Delivery>, x: string)
    ensures Learnt(Opened(After(h), x).ids, SourceRecords(h, x))
  {
    hide Learnt, DecodeReports, TakeAll;
    if h == [] {
      NothingLearnt();
    } else {
      var before, d := h[..|h| - 1], h[|h| - 1];
      SourceLearnt(before, x);
      if d.source == x && DecodeReports(d.input).Success? {
        RecordsLearn(Opened(After(before), x), SourceRecords(before, x), DecodeReports(d.input).value, d.now);
      } else {
        assert SourceRecords(before, x) + [] == SourceRecords(before, x);
      }
    }
  }

  /**
   After any run the hub knows of a source exactly the ids the source has registered, in a
   record of type 255 with an address that is not zero, each under the last such address.
   */
  lemma LearnsExactly(h: seq<Delivery>, x: string, id: u8)
    ensures
      var s := After(h).sources;
      && (x in s && id in s[x] <==> LastRegistered(SourceRecords(h, x), id).Some?)
      && (x in s && id in s[x] ==> LastRegistered(SourceRecords(h, x), id) == Some(s[x][id] as nat))
  {
    hide LastRegistered, SourceRecords, After;
    SourceLearnt(h, x);
    assert id in Opened(After(h), x).ids <==> LastRegistered(SourceRecords(h, x), id).Some?;
  }

  // ---- What becomes of each record ----

  // The registrations that count for the k-th record of the last delivery: all before it from its source.
  function Before(h: seq<Delivery>, k: nat): seq<ReportRecord>
    requires h != [] && k <= |DeliveryRecords(h)|
  {
    SourceRecords(h[..|h| - 1], h[|h| - 1].source) + DeliveryRecords(h)[..k]
  }

  // The outcome that the record's bytes, its flags and its id's registration call for.
  predicate Called(r: ReportRecord, known: Option<nat>, o: Outcome) {
    if AllZero(r.data) || Registers(r.data) || known.None? then o.Skipped?
    else if r.metadata.None? || r.metadata.value.flags / 2 % 2 == 0 then o.Unchecked?
    else if r.metadata.value.flags / 4 % 2 == 0 then o.BadCrc?
    else if r.metadata.value.flags % 2 == 0 then o.Unsequenced?
    else o.Judged? && Some(o.address as nat) == known && o.sequence == r.metadata.value.sequence
  }

  lemma OutcomeCalled(s: Intake, earlier: seq<ReportRecord>, r: ReportRecord, now: u64)
    requires Learnt(s.ids, earlier)
    ensures Called(r, LastRegistered(earlier, r.data[1]), OutcomeOf(s, r, now))
  {
    AddressMeans(r.data);
    hide RegistrationAddress, AddressIn, Registers, LastRegistered;
  }

  lemma {:induction false} OutcomeAt(s: Intake, records: seq<ReportRecord>, now: u64, k: nat)
    requires k < |records|
    ensures Outcomes(s, records, now)[k] == OutcomeOf(TakeAll(s, records[..k], now), records[k], now)
    decreases |records|
  {
    var n := |records| - 1;
    if k < n {
      assert records[..n][..k] == records[..k];
      OutcomeAt(s, records[..n], now, k);
    }
  }

  /**
   A record is skipped if and only if it is all zero, is a registration, or no earlier
   record of its source registered its id. Any other is treated as its flags say, and
   judged under the address registered last.
   */
  lemma OutcomesCalled(h: seq<Delivery>, k: nat)
    requires h != [] && k < |DeliveryRecords(h)|
    ensures |DeliveryOutcomes(h)| == |DeliveryRecords(h)|
    ensures Called(DeliveryRecords(h)[k], LastRegistered(Before(h, k), DeliveryRecords(h)[k].data[1]),
                   DeliveryOutcomes(h)[k])
  {
    hide Called, DecodeReports, Learnt, Outcomes, OutcomeOf, TakeAll, LastRegistered;
    var before, d := h[..|h| - 1], h[|h| - 1];
    var records := DecodeReports(d.input).value;
    var s := Opened(After(before), d.source);
    SourceLearnt(before, d.source);
    RecordsLearn(s, SourceRecords(before, d.source), records[..k], d.now);
    OutcomeAt(s, records, d.now, k);
    OutcomeCalled(TakeAll(s, records[..k], d.now), Before(h, k), records[k], d.now);
  }

  // What is passed on of records with these outcomes, after `earlier` ones of the source.
  function Expected(earlier: seq<ReportRecord>, records: seq<ReportRecord>, os: seq<Outcome>): seq<(nat, ReportRecord)>
    requires |records| == |os|
  {
    if records == [] then [] else
    var n := |records| - 1;
    var known := LastRegistered(earlier + records[..n], records[n].data[1]);
    Expected(earlier, records[..n], os[..n])
    + if known.Some? && (os[n].Unchecked? || (os[n].Judged? && os[n].verdict.decision.Accepted?))
      then [(known.value, records[n])] else []
  }

  function Pairs(passed: seq<AcceptedRecord>): (ps: seq<(nat, ReportRecord)>)
    ensures |ps| == |passed|
  {
    seq(|passed|, i requires 0 <= i < |passed| => (passed[i].address as nat, passed[i].record))
  }

  lemma OneExpected(s: Intake, earlier: seq<ReportRecord>, r: ReportRecord, now: u64)
    requires Learnt(s.ids, earlier)
    ensures
      var known, o := LastRegistered(earlier, r.data[1]), OutcomeOf(s, r, now);
      var passes := known.Some? && (o.Unchecked? || (o.Judged? && o.verdict.decision.Accepted?));
      Pairs(TakeRecord(s, r, now).passed) == Pairs(s.passed) + if passes then [(known.value, r)] else []
  {
    hide Blank, RegistrationAddress, LastRegistered;
  }

  lemma {:induction false} AllExpected(s: Intake, earlier: seq<ReportRecord>, records: seq<ReportRecord>, now: u64)
    requires Learnt(s.ids, earlier)
    ensures Pairs(TakeAll(s, records, now).passed)
         == Pairs(s.passed) + Expected(earlier, records, Outcomes(s, records, now))
  {
    hide Learnt, TakeRecord, OutcomeOf, LastRegistered, Pairs;
    if records == [] {
      assert Pairs(s.passed) + [] == Pairs(s.passed);
    } else {
      var n := |records| - 1;
      AllExpected(s, earlier, records[..n], now);
      RecordsLearn(s, earlier, records[..n], now);
      assert Outcomes(s, records, now)[..n] == Outcomes(s, records[..n], now);
      OneExpected(TakeAll(s, records[..n], now), earlier + records[..n], records[n], now);
    }
  }

  /** And it is passed on under that address, in order, exactly if it is unchecked or accepted. */
  lemma PassedAsRegistered(h: seq<Delivery>)
    requires h != [] && DecodeReports(h[|h| - 1].input).Success?
    ensures
      var d := h[|h| - 1];
      var passed := Passed(After(h[..|h| - 1]), d.source, d.input, d.now);
      && passed.Success? && |DeliveryOutcomes(h)| == |DeliveryRecords(h)|
      && Pairs(passed.value)
         == Expected(SourceRecords(h[..|h| - 1], d.source), DeliveryRecords(h), DeliveryOutcomes(h))
  {
    hide DecodeReports, Learnt, Outcomes, TakeAll, Expected;
    var before, d := h[..|h| - 1], h[|h| - 1];
    var s := Opened(After(before), d.source);
    SourceLearnt(before, d.source);
    AllExpected(s, SourceRecords(before, d.source), DecodeReports(d.input).value, d.now);
    assert Pairs(s.passed) == [];
    var e := Expected(SourceRecords(before, d.source), DeliveryRecords(h), DeliveryOutcomes(h));
    assert [] + e == e;
  }
}
