/**
 From the radio to the hub: several receivers, a network that loses, repeats and reorders
 their reports, and one hub. Within one boot of each receiver, and without a clear or a
 group change, every record the hub passes on for an address came from a packet carrying that address.
 */
module Attribution {
  import opened Bytes
  import opened Reports
  import opened ReportBuilders
  import Runs = ReportRuns
  import opened RfReceivers
  import opened Hubs
  import HubRuns

  datatype Node = Node(receiver: Receiver, builder: Builder)

  datatype Heard = Heard(source: string, packet: RfPacket)

  datatype Sent = Sent(source: string, report: ReportBytes)

  // `heard` is what the receivers' radios took in, `sent` every report built, `passed`
  // everything the hub passed on; reports stay in `sent`, so any may arrive at any time, or never.
  datatype System = System(
    nodes: map<string, Node>, sent: seq<Sent>, hub: Hub, heard: seq<Heard>, passed: seq<AcceptedRecord>)

  datatype Step =
    | Radio(source: string, packet: RfPacket)
    | Pairing(source: string, request: PairRequest)
    | Build(source: string, now: int)
    | Arrive(index: nat, time: u64)

  function Take(s: System, e: Step): System {
    match e
    case Radio(source, packet) =>
      if source !in s.nodes then s else
      var (r, b) := HandleRf(s.nodes[source].receiver, s.nodes[source].builder, packet);
      s.(nodes := s.nodes[source := Node(r, b)], heard := s.heard + [Heard(source, packet)])
    case Pairing(source, request) =>
      if source !in s.nodes || s.nodes[source].receiver.count > 32 then s else
      var (r, b) := HandlePair(s.nodes[source].receiver, s.nodes[source].builder, request);
      s.(nodes := s.nodes[source := Node(r, b)])
    case Build(source, now) =>
      if source !in s.nodes then s else
      var n := s.nodes[source];
      var report := NextReport(n.builder, now);
      s.(nodes := s.nodes[source := n.(builder := Next(n.builder, now))],
         sent := if report.Some? then s.sent + [Sent(source, report.value)] else s.sent)
    case Arrive(index, time) =>
      if index >= |s.sent| then s else
      var m := s.sent[index];
      var more := Passed(s.hub, m.source, m.report, time);
      s.(hub := Ingest(s.hub, m.source, m.report, time),
         passed := if more.Success? then s.passed + more.value else s.passed)
  }

  function Run(s: System, steps: seq<Step>): System {
    if steps == [] then s else Take(Run(s, steps[..|steps| - 1]), steps[|steps| - 1])
  }

  // Receivers as they boot, whatever storage had them load; nothing sent or heard yet.
  ghost predicate Initial(s: System) {
    && s.sent == [] && s.heard == [] && s.passed == [] && s.hub == HubRuns.Started()
    && forall x :: x in s.nodes ==>
         s.nodes[x].builder.queue == [] && s.nodes[x].builder.table == s.nodes[x].receiver.table
  }

  // ---- The invariant ----

  // `data` with this metadata is what a receiver of `source` makes of a packet from `address`.
  ghost predicate Came(heard: seq<Heard>, source: string, data: RecordData, m: RecordMetadata, address: u48) {
    exists k :: 0 <= k < |heard| && CameAs(heard[k], source, data, m, address)
  }

  predicate CameAs(h: Heard, source: string, data: RecordData, m: RecordMetadata, address: u48) {
    && h.source == source && h.packet.crcOk && h.packet.version == 2 && h.packet.address == address
    && MakeRecord(h.packet.data, h.packet.rssi, h.packet.sequence, SENSOR_FLAGS) == Record(data, m)
  }

  // A CRC-valid record stands for a packet from the tracker its id is bound to.
  ghost predicate Vouched(heard: seq<Heard>, source: string, table: Table, data: RecordData, m: RecordMetadata) {
    m.CrcValid() ==> data[1] < 32 && table[data[1]] != 0 && Came(heard, source, data, m, table[data[1]])
  }

  ghost predicate Queueable(heard: seq<Heard>, source: string, table: Table, r: Record) {
    r.data[0] != 255 && Vouched(heard, source, table, r.data, r.metadata)
  }

  ghost predicate QueueOk(heard: seq<Heard>, source: string, table: Table, q: seq<Record>) {
    forall i :: 0 <= i < |q| ==> Queueable(heard, source, table, q[i])
  }

  ghost predicate NodeOk(heard: seq<Heard>, source: string, n: Node) {
    n.builder.table == n.receiver.table && QueueOk(heard, source, n.receiver.table, n.builder.queue)
  }

  // A registration names the address its id is bound to; any other record is vouched for.
  ghost predicate RecordOk(heard: seq<Heard>, source: string, table: Table, r: ReportRecord) {
    var registered := RegistrationAddress(r.data);
    && r.metadata.Some?
    && (registered.Some? ==> r.data[1] < 32 && table[r.data[1]] == registered.value)
    && Vouched(heard, source, table, r.data, r.metadata.value)
  }

  ghost predicate ReportOk(heard: seq<Heard>, source: string, table: Table, report: ReportBytes) {
    var d := DecodeReports(report);
    d.Success? && forall i :: 0 <= i < |d.value| ==> RecordOk(heard, source, table, d.value[i])
  }

  // What the hub has learnt of a source is part of that receiver's table.
  ghost predicate IdsOk(table: Table, ids: map<u8, u48>) {
    forall id :: id in ids ==> id < 32 && table[id] != 0 && ids[id] == table[id]
  }

  // A record passed on with a valid CRC came from a packet carrying its address.
  ghost predicate PassedOk(heard: seq<Heard>, a: AcceptedRecord) {
    a.record.metadata.Some? && (a.record.metadata.value.CrcValid() ==>
      exists source :: Came(heard, source, a.record.data, a.record.metadata.value, a.address))
  }

  ghost predicate Attributed(s: System) {
    && (forall x :: x in s.nodes ==> NodeOk(s.heard, x, s.nodes[x]))
    && (forall i :: 0 <= i < |s.sent| ==>
          s.sent[i].source in s.nodes
          && ReportOk(s.heard, s.sent[i].source, s.nodes[s.sent[i].source].receiver.table, s.sent[i].report))
    && (forall x :: x in s.hub.sources ==> x in s.nodes && IdsOk(s.nodes[x].receiver.table, s.hub.sources[x]))
    && (forall i :: 0 <= i < |s.passed| ==> PassedOk(s.heard, s.passed[i]))
  }

  // ---- A table entry, once written, stays; so nothing vouched for is taken back ----

  ghost predicate Grows(t: Table, u: Table) {
    forall id :: 0 <= id < 32 && t[id] != 0 ==> u[id] == t[id]
  }

  lemma CameGrows(h: seq<Heard>, more: seq<Heard>, source: string, data: RecordData, m: RecordMetadata, address: u48)
    requires Came(h, source, data, m, address)
    ensures Came(h + more, source, data, m, address)
  {
    var k :| 0 <= k < |h| && CameAs(h[k], source, data, m, address);
    assert CameAs((h + more)[k], source, data, m, address);
  }

  lemma VouchedGrows(h: seq<Heard>, more: seq<Heard>, source: string, t: Table, u: Table,
                     data: RecordData, m: RecordMetadata)
    requires Vouched(h, source, t, data, m) && Grows(t, u)
    ensures Vouched(h + more, source, u, data, m)
  {
    if m.CrcValid() {
      CameGrows(h, more, source, data, m, t[data[1]]);
    }
  }

  lemma QueueGrows(h: seq<Heard>, more: seq<Heard>, source: string, t: Table, u: Table, q: seq<Record>)
    requires QueueOk(h, source, t, q) && Grows(t, u)
    ensures QueueOk(h + more, source, u, q)
  {
    hide Vouched, Grows;
    forall i | 0 <= i < |q| ensures Queueable(h + more, source, u, q[i]) {
      assert Queueable(h, source, t, q[i]);
      VouchedGrows(h, more, source, t, u, q[i].data, q[i].metadata);
    }
  }

  lemma NodeGrows(h: seq<Heard>, more: seq<Heard>, source: string, n: Node)
    requires NodeOk(h, source, n)
    ensures NodeOk(h + more, source, n)
  {
    QueueGrows(h, more, source, n.receiver.table, n.receiver.table, n.builder.queue);
  }

  lemma ReportGrows(h: seq<Heard>, more: seq<Heard>, source: string, t: Table, u: Table, report: ReportBytes)
    requires ReportOk(h, source, t, report) && Grows(t, u)
    ensures ReportOk(h + more, source, u, report)
  {
    var d := DecodeReports(report);
    hide DecodeReports;
    forall i | 0 <= i < |d.value| ensures RecordOk(h + more, source, u, d.value[i]) {
      assert RecordOk(h, source, t, d.value[i]);
      VouchedGrows(h, more, source, t, u, d.value[i].data, d.value[i].metadata.value);
      NonZeroAddress(d.value[i].data);
    }
  }

  lemma NonZeroAddress(d: RecordData)
    ensures RegistrationAddress(d).Some? ==> RegistrationAddress(d).value != 0
  {
  }

  lemma PassedGrows(h: seq<Heard>, more: seq<Heard>, a: AcceptedRecord)
    requires PassedOk(h, a)
    ensures PassedOk(h + more, a)
  {
    if a.record.metadata.value.CrcValid() {
      var source :| Came(h, source, a.record.data, a.record.metadata.value, a.address);
      CameGrows(h, more, source, a.record.data, a.record.metadata.value, a.address);
    }
  }

  // One node changed and more was heard: everything else stays as good as it was.
  lemma NodeChanged(s: System, x: string, n: Node, more: seq<Heard>)
    requires Attributed(s) && x in s.nodes
    requires Grows(s.nodes[x].receiver.table, n.receiver.table) && NodeOk(s.heard + more, x, n)
    ensures Attributed(s.(nodes := s.nodes[x := n], heard := s.heard + more))
  {
    var t := s.(nodes := s.nodes[x := n], heard := s.heard + more);
    forall y | y in t.nodes ensures NodeOk(t.heard, y, t.nodes[y]) {
      if y != x {
        NodeGrows(s.heard, more, y, s.nodes[y]);
      }
    }
    forall i | 0 <= i < |t.sent|
      ensures ReportOk(t.heard, t.sent[i].source, t.nodes[t.sent[i].source].receiver.table, t.sent[i].report)
    {
      var y := t.sent[i].source;
      ReportGrows(s.heard, more, y, s.nodes[y].receiver.table, t.nodes[y].receiver.table, t.sent[i].report);
    }
    forall i | 0 <= i < |t.passed| ensures PassedOk(t.heard, t.passed[i]) {
      PassedGrows(s.heard, more, t.passed[i]);
    }
  }

  // ---- The steps ----

  lemma EnqueueOk(heard: seq<Heard>, source: string, table: Table, b: Builder, r: Record, replace: bool)
    requires QueueOk(heard, source, table, b.queue) && Queueable(heard, source, table, r)
    ensures QueueOk(heard, source, table, Enqueue(b, r, replace).queue) && Enqueue(b, r, replace).table == b.table
  {
    hide Queueable;
  }

  // What an admitted packet is enqueued as.
  lemma PacketQueueable(heard: seq<Heard>, x: string, table: Table, p: RfPacket)
    requires p.version == 2 && p.crcOk && p.data[0] <= 223 && p.data[1] < 32
    requires table[p.data[1]] == p.address != 0
    ensures Queueable(heard + [Heard(x, p)], x, table, MakeRecord(p.data, p.rssi, p.sequence, SENSOR_FLAGS))
  {
    var record := MakeRecord(p.data, p.rssi, p.sequence, SENSOR_FLAGS);
    assert (heard + [Heard(x, p)])[|heard|] == Heard(x, p);
    assert CameAs(Heard(x, p), x, record.data, record.metadata, p.address);
  }

  lemma DiagnosticQueueable(heard: seq<Heard>, x: string, table: Table, p: RfPacket)
    ensures Queueable(heard, x, table, MakeRecord(DiagnosticData(), p.rssi, p.sequence, DIAGNOSTIC_FLAGS))
  {
  }

  lemma AdmittedEntry(r: Receiver, p: RfPacket)
    ensures Grows(r.table, AfterRf(r, p).table)
    ensures p.version == 2 && p.crcOk && Admits(r, p) ==> AfterRf(r, p).table[p.data[1]] == p.address
  {
  }

  lemma RadioStep(heard: seq<Heard>, x: string, n: Node, p: RfPacket)
    requires NodeOk(heard, x, n)
    ensures
      var (r, b) := HandleRf(n.receiver, n.builder, p);
      Grows(n.receiver.table, r.table) && NodeOk(heard + [Heard(x, p)], x, Node(r, b))
  {
    hide Enqueue, QueueOk, Queueable, Grows, MakeRecord;
    var later, table := heard + [Heard(x, p)], AfterRf(n.receiver, p).table;
    AdmittedEntry(n.receiver, p);
    QueueGrows(heard, [Heard(x, p)], x, n.receiver.table, table, n.builder.queue);
    if p.version == 2 && !p.crcOk {
      DiagnosticQueueable(later, x, table, p);
      EnqueueOk(later, x, table, n.builder,
                MakeRecord(DiagnosticData(), p.rssi, p.sequence, DIAGNOSTIC_FLAGS), false);
    } else if p.version == 2 && Admits(n.receiver, p) {
      PacketQueueable(heard, x, table, p);
      var known := if n.receiver.primary then n.builder else SetTracker(n.builder, p.data[1], p.address);
      EnqueueOk(later, x, table, known, MakeRecord(p.data, p.rssi, p.sequence, SENSOR_FLAGS), true);
    }
  }

  lemma PairingStep(heard: seq<Heard>, x: string, n: Node, q: PairRequest)
    requires NodeOk(heard, x, n) && n.receiver.count <= 32
    ensures
      var (r, b) := HandlePair(n.receiver, n.builder, q);
      Grows(n.receiver.table, r.table) && NodeOk(heard, x, Node(r, b))
  {
    var (r, b) := HandlePair(n.receiver, n.builder, q);
    QueueGrows(heard, [], x, n.receiver.table, r.table, n.builder.queue);
    assert heard + [] == heard;
  }

  lemma BuildStep(heard: seq<Heard>, x: string, n: Node, now: int)
    requires NodeOk(heard, x, n)
    ensures NodeOk(heard, x, n.(builder := Next(n.builder, now)))
  {
    hide HasRegistration, Registrations, Vouched;
  }

  lemma BuiltReport(heard: seq<Heard>, x: string, n: Node, now: int)
    requires NodeOk(heard, x, n) && Pending(n.builder, now)
    ensures ReportOk(heard, x, n.receiver.table, NextReport(n.builder, now).value)
  {
    var b := n.builder;
    Runs.EmittedReportDecodes(b, now);
    hide DecodeReports, NextReport, Pending;
    var d := DecodeReports(NextReport(b, now).value).value;
    forall s | 0 <= s < 3 ensures RecordOk(heard, x, n.receiver.table, d[s]) {
      BuiltRecord(heard, x, n, d[s], s);
    }
  }

  lemma BuiltRecord(heard: seq<Heard>, x: string, n: Node, r: ReportRecord, s: nat)
    requires NodeOk(heard, x, n) && s < 3
    requires if s < Taken(n.builder) then r == ReportRecord(n.builder.queue[s].data, Some(n.builder.queue[s].metadata))
      else Runs.SpareSlotReads(n.builder.table, r)
    ensures RecordOk(heard, x, n.receiver.table, r)
  {
    ZerosNotRegistration();
    hide RegistrationAddress, HasRegistration;
    if s < Taken(n.builder) {
      NotRegistration(r.data);
    }
  }

  lemma NotRegistration(d: RecordData)
    ensures d[0] != 255 ==> RegistrationAddress(d).None?
  {
  }

  lemma ZerosNotRegistration()
    ensures RegistrationAddress(Zeros(16)).None?
  {
  }

  // One record of a good report, taken into the hub.
  lemma IntakeStep(heard: seq<Heard>, x: string, table: Table, s: Intake, r: ReportRecord, now: u64)
    requires IdsOk(table, s.ids) && RecordOk(heard, x, table, r)
    requires forall i :: 0 <= i < |s.passed| ==> PassedOk(heard, s.passed[i])
    ensures IdsOk(table, TakeRecord(s, r, now).ids)
    ensures forall i :: 0 <= i < |TakeRecord(s, r, now).passed| ==> PassedOk(heard, TakeRecord(s, r, now).passed[i])
  {
    NonZeroAddress(r.data);
    hide RegistrationAddress, Blank;
    if r.data[1] in s.ids && r.metadata.value.CrcValid() {
      assert Came(heard, x, r.data, r.metadata.value, s.ids[r.data[1]]);
      assert PassedOk(heard, AcceptedRecord(s.ids[r.data[1]], r));
    }
  }

  lemma {:induction false} IntakeSteps(heard: seq<Heard>, x: string, table: Table, s: Intake,
                                       records: seq<ReportRecord>, now: u64)
    requires IdsOk(table, s.ids) && s.passed == []
    requires forall i :: 0 <= i < |records| ==> RecordOk(heard, x, table, records[i])
    ensures IdsOk(table, TakeAll(s, records, now).ids)
    ensures forall i :: 0 <= i < |TakeAll(s, records, now).passed| ==>
      PassedOk(heard, TakeAll(s, records, now).passed[i])
  {
    if records != [] {
      var n := |records| - 1;
      IntakeSteps(heard, x, table, s, records[..n], now);
      IntakeStep(heard, x, table, TakeAll(s, records[..n], now), records[n], now);
    }
  }

  lemma ArriveStep(s: System, index: nat, time: u64)
    requires Attributed(s) && index < |s.sent|
    ensures Attributed(Take(s, Arrive(index, time)))
  {
    var m := s.sent[index];
    var table := s.nodes[m.source].receiver.table;
    assert ReportOk(s.heard, m.source, table, m.report);
    var records := DecodeReports(m.report).value;
    var after := TakeAll(Opened(s.hub, m.source), records, time);
    IntakeSteps(s.heard, m.source, table, Opened(s.hub, m.source), records, time);
    HubChanged(s, m.source, after.ids, Closed(s.hub, m.source, after), after.passed);
  }

  // The hub learnt more of one source and passed on more.
  lemma HubChanged(s: System, x: string, ids: map<u8, u48>, hub: Hub, more: seq<AcceptedRecord>)
    requires Attributed(s) && x in s.nodes && hub.sources == s.hub.sources[x := ids]
    requires IdsOk(s.nodes[x].receiver.table, ids)
    requires forall i :: 0 <= i < |more| ==> PassedOk(s.heard, more[i])
    ensures Attributed(s.(hub := hub, passed := s.passed + more))
  {
    hide NodeOk, ReportOk, IdsOk, PassedOk;
  }

  lemma BuildKeeps(s: System, x: string, now: int)
    requires Attributed(s) && x in s.nodes
    ensures Attributed(Take(s, Build(x, now)))
  {
    hide NodeOk, ReportOk, IdsOk, PassedOk, Next, Pending, ReportOf;
    var n := s.nodes[x];
    BuildStep(s.heard, x, n, now);
    assert s.heard + [] == s.heard;
    SameTable(n, now);
    NodeChanged(s, x, n.(builder := Next(n.builder, now)), []);
    if Pending(n.builder, now) {
      BuiltReport(s.heard, x, n, now);
    }
  }

  lemma SameTable(n: Node, now: int)
    ensures Grows(n.receiver.table, n.(builder := Next(n.builder, now)).receiver.table)
  {
  }

  lemma StepKeeps(s: System, e: Step)
    requires Attributed(s)
    ensures Attributed(Take(s, e))
  {
    hide NodeOk, ReportOk, IdsOk, PassedOk, HandleRf, HandlePair, Grows, Next, NextReport;
    match e {
      case Radio(x, p) =>
        if x in s.nodes {
          RadioStep(s.heard, x, s.nodes[x], p);
          var (r, b) := HandleRf(s.nodes[x].receiver, s.nodes[x].builder, p);
          NodeChanged(s, x, Node(r, b), [Heard(x, p)]);
        }
      case Pairing(x, q) =>
        if x in s.nodes && s.nodes[x].receiver.count <= 32 {
          PairingStep(s.heard, x, s.nodes[x], q);
          var (r, b) := HandlePair(s.nodes[x].receiver, s.nodes[x].builder, q);
          assert s.heard + [] == s.heard;
          NodeChanged(s, x, Node(r, b), []);
        }
      case Build(x, now) =>
        if x in s.nodes {
          BuildKeeps(s, x, now);
        }
      case Arrive(index, time) =>
        if index < |s.sent| {
          ArriveStep(s, index, time);
        }
    }
  }

  lemma {:induction false} RunKeeps(s: System, steps: seq<Step>)
    requires Attributed(s)
    ensures Attributed(Run(s, steps))
  {
    if steps != [] {
      RunKeeps(s, steps[..|steps| - 1]);
      StepKeeps(Run(s, steps[..|steps| - 1]), steps[|steps| - 1]);
    }
  }

  // The record carries the packet's sequence number, signal strength and data. The signal
  // strength also stands in the last data byte, except in types 1 and 4, which use it.
  predicate CarriesPacket(r: ReportRecord, p: RfPacket) {
    && r.metadata.Some?
    && r.metadata.value.sequence == p.sequence && r.metadata.value.rssi == p.rssi && r.metadata.value.flags == 7
    && r.data[..15] == p.data[..15]
    && r.data[15] == if p.data[0] == 1 || p.data[0] == 4 then p.data[15] else p.rssi
  }

  lemma MadeCarries(p: RfPacket, r: ReportRecord)
    requires r.metadata.Some?
    requires MakeRecord(p.data, p.rssi, p.sequence, SENSOR_FLAGS) == Record(r.data, r.metadata.value)
    ensures CarriesPacket(r, p)
  {
  }

  /**
   In every run, whatever the network loses, repeats or reorders: a record the hub passed
   on with a valid CRC carries, field by field, a packet that some receiver heard with a
   valid CRC from the record's address.
   */
  lemma PassedCameFromAddress(s: System, steps: seq<Step>, i: nat)
    requires Initial(s) && i < |Run(s, steps).passed|
    ensures
      var t := Run(s, steps);
      var a := t.passed[i];
      a.record.metadata.Some? && (a.record.metadata.value.flags / 4 % 2 == 1 ==>
        exists k :: 0 <= k < |t.heard| && t.heard[k].packet.crcOk && t.heard[k].packet.address == a.address
          && CarriesPacket(a.record, t.heard[k].packet))
  {
    RunKeeps(s, steps);
    var t := Run(s, steps);
    var a := t.passed[i];
    assert PassedOk(t.heard, a);
    if a.record.metadata.value.CrcValid() {
      var source :| Came(t.heard, source, a.record.data, a.record.metadata.value, a.address);
      var k :| 0 <= k < |t.heard| && CameAs(t.heard[k], source, a.record.data, a.record.metadata.value, a.address);
      MadeCarries(t.heard[k].packet, a.record);
    }
  }
}
