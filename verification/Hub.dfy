/**
 The bridge's convergence point for all receiver sources (bridge/src/hub.rs).
 */
module Hubs {
  import opened Bytes
  import opened Reports
  import opened SequenceGates

  datatype Metrics = Metrics(
    received: nat, accepted: nat, duplicates: nat, stale: nat, crcErrors: nat, sequenceMissing: nat)

  datatype AcceptedRecord = AcceptedRecord(address: u48, record: ReportRecord)

  datatype Hub = Hub(sources: map<string, map<u8, u48>>, metrics: map<string, Metrics>, gate: Gate)

  // One source's part of the hub while a report is taken in, and what it has passed on.
  datatype Intake = Intake(ids: map<u8, u48>, metrics: Metrics, gate: Gate, passed: seq<AcceptedRecord>)

  predicate Blank(d: RecordData) {
    forall i :: 0 <= i < 16 ==> d[i] == 0
  }

  function TakeRecord(s: Intake, r: ReportRecord, now: u64): Intake {
    var id := r.data[1];
    if Blank(r.data) then s
    else if RegistrationAddress(r.data).Some? then s.(ids := s.ids[id := RegistrationAddress(r.data).value])
    else if id !in s.ids then s
    else
      var address := s.ids[id];
      if r.metadata.Some? && r.metadata.value.RfV2() then
        var m := r.metadata.value;
        var counted := s.metrics.(received := s.metrics.received + 1);
        if !m.CrcValid() then s.(metrics := counted.(crcErrors := counted.crcErrors + 1))
        else if !m.SequenceValid() then s.(metrics := counted)
        else
          var v := Judge(s.gate, address, m.sequence, now);
          var gate := Evaluate(s.gate, address, m.sequence, now);
          match v.decision
          case Accepted =>
            Intake(s.ids, counted.(accepted := counted.accepted + 1,
                                   sequenceMissing := counted.sequenceMissing + v.missing),
                   gate, s.passed + [AcceptedRecord(address, r)])
          case Duplicate => s.(metrics := counted.(duplicates := counted.duplicates + 1), gate := gate)
          case Stale => s.(metrics := counted.(stale := counted.stale + 1), gate := gate)
      else s.(passed := s.passed + [AcceptedRecord(address, r)])
  }

  function TakeAll(s: Intake, records: seq<ReportRecord>, now: u64): Intake {
    if records == [] then s else
    TakeRecord(TakeAll(s, records[..|records| - 1], now), records[|records| - 1], now)
  }

  // `HashMap::entry(..).or_default()`
  function Opened(h: Hub, source: string): Intake {
    Intake(if source in h.sources then h.sources[source] else map[],
           if source in h.metrics then h.metrics[source] else Metrics(0, 0, 0, 0, 0, 0), h.gate, [])
  }

  function Closed(h: Hub, source: string, s: Intake): Hub {
    Hub(h.sources[source := s.ids], h.metrics[source := s.metrics], s.gate)
  }

  // `ingest`: the hub it leaves, and the records it passes on or the error it returns.
  function Ingest(h: Hub, source: string, input: seq<u8>, now: u64): Hub {
    match DecodeReports(input)
    case Failure(_) => h
    case Success(records) => Closed(h, source, TakeAll(Opened(h, source), records, now))
  }

  function Passed(h: Hub, source: string, input: seq<u8>, now: u64): Result<seq<AcceptedRecord>, DecodeError> {
    match DecodeReports(input)
    case Failure(e) => Failure(e)
    case Success(records) => Success(TakeAll(Opened(h, source), records, now).passed)
  }

  class ReceiverHub {
    var sources: map<string, map<u8, u48>>
    var metrics: map<string, Metrics>
    const gate: SequenceGate

    function View(): Hub
      reads this, gate
    {
      Hub(sources, metrics, gate.View())
    }

    constructor ()
      ensures View() == Hub(map[], map[], Gate(250, map[])) && fresh(gate)
    {
      sources, metrics := map[], map[];
      gate := new SequenceGate(250);
    }

    method IngestReport(source: string, input: seq<u8>, now: u64) returns (r: Result<seq<AcceptedRecord>, DecodeError>)
      modifies this, gate
      ensures r == Passed(old(View()), source, input, now)
      ensures View() == Ingest(old(View()), source, input, now)
    {
      var decoded := DecodeReportsLoop(input);
      if decoded.Failure? {
        return Failure(decoded.error);
      }
      ghost var h := View();
      var ids := if source in sources then sources[source] else map[];
      var counts := if source in metrics then metrics[source] else Metrics(0, 0, 0, 0, 0, 0);
      var passed: seq<AcceptedRecord> := [];
      var records := decoded.value;
      for n := 0 to |records|
        invariant sources == old(sources) && metrics == old(metrics)
        invariant Intake(ids, counts, gate.View(), passed) == TakeAll(Opened(h, source), records[..n], now)
      {
        assert records[..n + 1][..n] == records[..n];
        ids, counts, passed := TakeOne(ids, counts, passed, records[n], now);
      }
      assert records[..|records|] == records;
      sources := sources[source := ids];
      metrics := metrics[source := counts];
      r := Success(passed);
    }

    // The body of the loop, with its three ways to go on to the next record.
    method TakeOne(ids: map<u8, u48>, counts: Metrics, passed: seq<AcceptedRecord>, record: ReportRecord, now: u64)
      returns (ids': map<u8, u48>, counts': Metrics, passed': seq<AcceptedRecord>)
      modifies gate
      ensures Intake(ids', counts', gate.View(), passed')
           == TakeRecord(Intake(ids, counts, old(gate.View()), passed), record, now)
    {
      ids', counts', passed' := ids, counts, passed;
      if Blank(record.data) {
        return;
      }
      var localId := record.data[1];
      var registration := ReadRegistration(record.data);
      if registration.Some? {
        ids' := ids[localId := registration.value];
        return;
      }
      if localId !in ids {
        return;
      }
      var address := ids[localId];
      if record.metadata.Some? && record.metadata.value.RfV2() {
        var m := record.metadata.value;
        counts' := counts'.(received := counts'.received + 1);
        if !m.CrcValid() || !m.SequenceValid() {
          if !m.CrcValid() {
            counts' := counts'.(crcErrors := counts'.crcErrors + 1);
          }
          return;
        }
        var v := gate.EvaluatePacket(address, m.sequence, now);
        match v.decision {
          case Accepted =>
            counts' := counts'.(accepted := counts'.accepted + 1,
                                sequenceMissing := counts'.sequenceMissing + v.missing);
          case Duplicate =>
            counts' := counts'.(duplicates := counts'.duplicates + 1);
            return;
          case Stale =>
            counts' := counts'.(stale := counts'.stale + 1);
            return;
        }
      }
      passed' := passed + [AcceptedRecord(address, record)];
    }
  }
}
