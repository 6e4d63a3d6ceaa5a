/**
 The receiver's report queue (firmware/nrf54l15/src/report_builder.c): a ring that
 keeps the newest sample of each tracker in place, and reports that fill their spare
 slots with tracker registrations in turn.
 */
module ReportBuilders {
  import opened Bytes
  import opened Reports

  const RING_SIZE: nat := 128
  const MAX_TRACKERS: nat := 32
  const REGISTRATION_PERIOD_MS: nat := 100

  type ReportBytes = s: seq<u8> | |s| == 64 witness seq(64, _ => 0)

  type Table = s: seq<u48> | |s| == 32 witness seq(32, _ => 0)

  type TrackerId = i: int | 0 <= i < 32

  datatype Record = Record(data: RecordData, metadata: RecordMetadata) {
    predicate Sensor() { data[0] <= 223 }
  }

  // What the driver's state means: the ring read in order, and the rest as it stands.
  datatype Builder = Builder(queue: seq<Record>, table: Table, cursor: nat, lastMs: int, drops: u32)

  // ---- report_builder_enqueue ----

  function MakeRecord(data: RecordData, rssi: u8, sequence: u8, flags: u8): Record {
    Record(if data[0] != 1 && data[0] != 4 then data[15 := rssi] else data, RecordMetadata(sequence, rssi, flags))
  }

  // The first queued sensor record of tracker `id`, or the end of the queue.
  function FindSensor(q: seq<Record>, id: u8): (i: nat)
    ensures i <= |q|
    ensures i < |q| ==> q[i].Sensor() && q[i].data[1] == id
    ensures forall j :: 0 <= j < i ==> !(q[j].Sensor() && q[j].data[1] == id)
  {
    if q == [] || (q[0].Sensor() && q[0].data[1] == id) then 0 else 1 + FindSensor(q[1..], id)
  }

  predicate Replaces(b: Builder, record: Record, replace: bool) {
    replace && FindSensor(b.queue, record.data[1]) < |b.queue|
  }

  predicate Drops(b: Builder, record: Record, replace: bool) {
    !Replaces(b, record, replace) && |b.queue| >= 127
  }

  function Enqueue(b: Builder, record: Record, replace: bool): Builder {
    if Replaces(b, record, replace) then
      b.(queue := b.queue[FindSensor(b.queue, record.data[1]) := record])
    else if Drops(b, record, replace) then b.(drops := (b.drops + 1) % 0x1_0000_0000)
    else b.(queue := b.queue + [record])
  }

  // ---- next_registration ----

  // The first registered id at or after `cursor`, cyclically, skipping `offset` of them.
  function NextFrom(table: Table, cursor: nat, offset: nat): (r: Option<TrackerId>)
    ensures r.Some? ==> table[r.value] != 0
    decreases 32 - offset
  {
    if offset >= 32 then None
    else if table[Place(cursor, offset)] != 0 then Some(Place(cursor, offset))
    else NextFrom(table, cursor, offset + 1)
  }

  function Place(cursor: nat, offset: nat): TrackerId {
    (cursor + offset) % 32
  }

  function RegistrationRecord(id: u8, address: u48): (d: RecordData) {
    [255, id] + Le48(address) + Zeros(8)
  }

  function NextCursor(id: nat): (c: TrackerId) {
    (id + 1) % 32
  }

  // Up to `slots` registrations, and the cursor they leave behind.
  function Registrations(table: Table, cursor: nat, slots: nat): (r: (seq<TrackerId>, nat))
    ensures |r.0| <= slots
    decreases slots
  {
    if slots == 0 then ([], cursor) else
    match NextFrom(table, cursor, 0)
    case None => ([], cursor)
    case Some(id) =>
      var (rest, last) := Registrations(table, NextCursor(id), slots - 1);
      ([id] + rest, last)
  }

  predicate HasRegistration(table: Table) {
    exists id :: 0 <= id < 32 && table[id] != 0
  }

  // ---- report_builder_next ----

  function Taken(b: Builder): nat {
    if |b.queue| <= 3 then |b.queue| else 3
  }

  predicate RegistrationDue(b: Builder, now: int) {
    HasRegistration(b.table) && now - b.lastMs >= REGISTRATION_PERIOD_MS
  }

  // Whether a report is ready (`report_builder_pending`).
  predicate Pending(b: Builder, now: int) {
    b.queue != [] || RegistrationDue(b, now)
  }

  function Emitted(b: Builder): (records: seq<Record>)
    ensures |records| == Taken(b)
  {
    b.queue[..Taken(b)]
  }

  function EmittedIds(b: Builder): seq<TrackerId> {
    Registrations(b.table, b.cursor, 3 - Taken(b)).0
  }

  // The data of the dequeued records, then the registrations, one after another.
  function DataBytes(records: seq<Record>): (s: seq<u8>)
    ensures |s| == 16 * |records|
  {
    if records == [] then [] else DataBytes(records[..|records| - 1]) + records[|records| - 1].data
  }

  function RegistrationBytes(ids: seq<TrackerId>, table: Table): (s: seq<u8>)
    ensures |s| == 16 * |ids|
  {
    if ids == [] then [] else
    var last := ids[|ids| - 1];
    RegistrationBytes(ids[..|ids| - 1], table) + RegistrationRecord(last, table[last])
  }

  function SensorCount(records: seq<Record>): nat {
    if records == [] then 0
    else SensorCount(records[..|records| - 1]) + if records[|records| - 1].Sensor() then 1 else 0
  }

  function MetadataBytes(records: seq<Record>, slot: nat): (s: seq<u8>)
    ensures |s| == 3
  {
    if slot < |records| then
      [records[slot].metadata.sequence, records[slot].metadata.rssi, records[slot].metadata.flags]
    else [0, 0, 0]
  }

  // The metadata of the first `n` slots; a slot without a dequeued record has none.
  function Metadata(records: seq<Record>, n: nat): (s: seq<u8>)
    ensures |s| == 3 * n
  {
    if n == 0 then [] else Metadata(records, n - 1) + MetadataBytes(records, n - 1)
  }

  lemma {:induction false} SensorCountBound(records: seq<Record>)
    ensures SensorCount(records) <= |records|
  {
    if records != [] {
      SensorCountBound(records[..|records| - 1]);
    }
  }

  function Trailer(records: seq<Record>): (d: RecordData)
    requires |records| <= 3
  {
    SensorCountBound(records);
    [250, 255, 0xd6, 1, SensorCount(records)] + Metadata(records, 3) + [0, 0x6d]
  }

  // Blank slots stay zero.
  function ReportOf(records: seq<Record>, ids: seq<TrackerId>, table: Table): ReportBytes
    requires |records| + |ids| <= 3
  {
    DataBytes(records) + RegistrationBytes(ids, table) + Zeros(48 - 16 * (|records| + |ids|)) + Trailer(records)
  }

  // The report `report_builder_next` writes, if any, and the state it leaves.
  function NextReport(b: Builder, now: int): Option<ReportBytes> {
    if !Pending(b, now) then None else Some(ReportOf(Emitted(b), EmittedIds(b), b.table))
  }

  function Next(b: Builder, now: int): Builder {
    if !Pending(b, now) then b else
    var (ids, cursor) := Registrations(b.table, b.cursor, 3 - Taken(b));
    b.(queue := b.queue[Taken(b)..], cursor := cursor,
       lastMs := if ids != [] || RegistrationDue(b, now) then now else b.lastMs)
  }

  function SetTracker(b: Builder, id: nat, address: u64): Builder {
    if id >= 32 then b else b.(table := b.table[id := address % 0x1_0000_0000_0000])
  }

  function ClearTrackers(b: Builder): Builder {
    b.(queue := [], table := Zeros48(), cursor := 0)
  }

  function Zeros48(): Table { seq(32, _ => 0) }

  // ---- The ring ----

  function Advance(i: nat): (r: nat)
    ensures r < 128
  {
    (i + 1) % 128
  }

  // How many records lie between the two indices, and where the `k`-th of them stands.
  function Length(read: nat, write: nat): (n: nat)
    requires read < 128 && write < 128
    ensures n < 128
  {
    if read <= write then write - read else 128 + write - read
  }

  function Cell(read: nat, k: nat): (i: nat)
    requires read < 128 && k <= 128
    ensures i < 128
  {
    if read + k < 128 then read + k else read + k - 128
  }

  // The records from `read` up to `write`, in order.
  function RingContents(ring: seq<Record>, read: nat, write: nat): (q: seq<Record>)
    requires |ring| == 128 && read < 128 && write < 128
    ensures |q| == Length(read, write)
  {
    seq(Length(read, write), k requires 0 <= k < Length(read, write) => ring[Cell(read, k)])
  }

  lemma CellFacts(read: nat, write: nat, k: nat)
    requires read < 128 && write < 128 && k <= Length(read, write)
    ensures Advance(Cell(read, k)) == Cell(read, k + 1)
    ensures Cell(read, k) == write <==> k == Length(read, write)
    ensures Cell(Advance(read), k) == Cell(read, k + 1)
    ensures forall j :: 0 <= j <= Length(read, write) && j != k ==> Cell(read, j) != Cell(read, k)
  {
  }

  lemma LengthFacts(read: nat, write: nat)
    requires read < 128 && write < 128
    ensures Advance(write) != read ==> Length(read, Advance(write)) == Length(read, write) + 1
    ensures Advance(write) == read <==> Length(read, write) == 127
    ensures read != write ==> Length(Advance(read), write) == Length(read, write) - 1
    ensures read == write <==> Length(read, write) == 0
    ensures Cell(read, 0) == read
  {
  }

  lemma RingPush(ring: seq<Record>, read: nat, write: nat, record: Record)
    requires |ring| == 128 && read < 128 && write < 128 && Advance(write) != read
    ensures RingContents(ring[write := record], read, Advance(write)) == RingContents(ring, read, write) + [record]
  {
    hide Advance, Cell, Length;
    LengthFacts(read, write);
    CellFacts(read, write, Length(read, write));
  }

  lemma RingPop(ring: seq<Record>, read: nat, write: nat)
    requires |ring| == 128 && read < 128 && write < 128 && read != write
    ensures RingContents(ring, read, write) == [ring[read]] + RingContents(ring, Advance(read), write)
  {
    hide Cell, Length;
    LengthFacts(read, write);
    forall k | 0 <= k < Length(read, write) - 1 ensures Cell(Advance(read), k) == Cell(read, k + 1) {
      CellFacts(read, write, k);
    }
  }

  lemma RingReplace(ring: seq<Record>, read: nat, write: nat, k: nat, record: Record)
    requires |ring| == 128 && read < 128 && write < 128 && k < Length(read, write)
    ensures RingContents(ring[Cell(read, k) := record], read, write) == RingContents(ring, read, write)[k := record]
  {
    hide Cell, Length;
    CellFacts(read, write, k);
  }

  class ReportBuilder {
    const ring: array<Record>
    const trackerAddresses: array<u48>
    var readIndex: nat
    var writeIndex: nat
    var registrationCursor: nat
    var lastRegistrationMs: int
    var drops: u32

    ghost predicate Valid()
      reads this
    {
      ring.Length == 128 && trackerAddresses.Length == 32
      && readIndex < 128 && writeIndex < 128 && registrationCursor < 32
    }

    ghost function View(): Builder
      reads this, ring, trackerAddresses
      requires Valid()
    {
      Builder(RingContents(ring[..], readIndex, writeIndex), trackerAddresses[..], registrationCursor,
              lastRegistrationMs, drops)
    }

    constructor ()
      ensures Valid() && fresh(ring) && fresh(trackerAddresses)
      ensures View() == Builder([], Zeros48(), 0, -100, 0)
    {
      ring := new Record[128](_ => Record(Zeros(16), RecordMetadata(0, 0, 0)));
      trackerAddresses := new u48[32](_ => 0);
      readIndex, writeIndex, registrationCursor, lastRegistrationMs, drops := 0, 0, 0, -100, 0;
      new;
      assert trackerAddresses[..] == Zeros48();
    }

    method SetTrackerAddress(id: u8, address: u64)
      requires Valid()
      modifies trackerAddresses
      ensures Valid() && View() == SetTracker(old(View()), id, address)
    {
      if id >= 32 {
        return;
      }
      trackerAddresses[id] := address % 0x1_0000_0000_0000;
    }

    method Clear()
      requires Valid()
      modifies this, trackerAddresses
      ensures Valid() && View() == ClearTrackers(old(View()))
    {
      forall i | 0 <= i < 32 { trackerAddresses[i] := 0; }
      readIndex, writeIndex, registrationCursor := 0, 0, 0;
      assert trackerAddresses[..] == Zeros48();
    }

    // The scan of `report_builder_enqueue`: the first cell with a sensor record of `id`.
    method Locate(id: u8) returns (cursor: nat, ghost k: nat)
      requires Valid()
      ensures k == FindSensor(View().queue, id)
      ensures cursor < 128 && cursor == Cell(readIndex, k) && (cursor == writeIndex <==> k == |View().queue|)
    {
      hide Cell, Length;
      cursor := readIndex;
      k := 0;
      ghost var q := View().queue;
      LengthFacts(readIndex, writeIndex);
      CellFacts(readIndex, writeIndex, 0);
      while cursor != writeIndex
        invariant k <= |q| && cursor == Cell(readIndex, k)
        invariant cursor == writeIndex <==> k == |q|
        invariant forall j :: 0 <= j < k ==> !(q[j].Sensor() && q[j].data[1] == id)
        decreases |q| - k
      {
        assert q[k] == ring[cursor];
        if ring[cursor].data[0] <= 223 && ring[cursor].data[1] == id {
          return;
        }
        CellFacts(readIndex, writeIndex, k);
        CellFacts(readIndex, writeIndex, k + 1);
        cursor := Advance(cursor);
        k := k + 1;
      }
    }

    method EnqueueRecord(data: RecordData, rssi: u8, sequence: u8, flags: u8, replace: bool)
      requires Valid()
      modifies this, ring
      ensures Valid() && View() == Enqueue(old(View()), MakeRecord(data, rssi, sequence, flags), replace)
    {
      hide Cell, Length, RingContents, FindSensor;
      var record := MakeRecord(data, rssi, sequence, flags);
      assert record.data[1] == data[1];
      ghost var before := View();
      if replace {
        var cursor, k := Locate(data[1]);
        if cursor != writeIndex {
          RingReplace(ring[..], readIndex, writeIndex, k, record);
          ring[cursor] := record;
          assert ring[..] == old(ring[..])[cursor := record];
          return;
        }
      }
      var next := Advance(writeIndex);
      LengthFacts(readIndex, writeIndex);
      if next == readIndex {
        drops := (drops + 1) % 0x1_0000_0000;
        return;
      }
      RingPush(ring[..], readIndex, writeIndex, record);
      ring[writeIndex] := record;
      assert ring[..] == old(ring[..])[writeIndex := record];
      writeIndex := next;
    }

    // `next_registration`: the record it writes, with the cursor moved past it.
    method NextRegistration() returns (r: Option<TrackerId>)
      requires Valid()
      modifies this`registrationCursor
      ensures Valid() && r == NextFrom(trackerAddresses[..], old(registrationCursor), 0)
      ensures registrationCursor == if r.Some? then NextCursor(r.value) else old(registrationCursor)
    {
      for offset := 0 to 32
        invariant registrationCursor == old(registrationCursor)
        invariant NextFrom(trackerAddresses[..], registrationCursor, 0)
               == NextFrom(trackerAddresses[..], registrationCursor, offset)
      {
        var id := Place(registrationCursor, offset);
        if trackerAddresses[id] != 0 {
          registrationCursor := NextCursor(id);
          return Some(id);
        }
      }
      r := None;
    }

    // `has_registration`
    method AnyRegistration() returns (any: bool)
      requires Valid()
      ensures any == HasRegistration(trackerAddresses[..])
    {
      for id := 0 to 32
        invariant forall i :: 0 <= i < id ==> trackerAddresses[i] == 0
      {
        if trackerAddresses[id] != 0 {
          return true;
        }
      }
      any := false;
    }

    // `report_builder_pending`
    method HasPending(now: int) returns (pending: bool)
      requires Valid()
      ensures pending == Pending(View(), now)
    {
      var any := AnyRegistration();
      LengthFacts(readIndex, writeIndex);
      pending := readIndex != writeIndex || (any && now - lastRegistrationMs >= REGISTRATION_PERIOD_MS);
    }

    // The dequeueing loop of `report_builder_next`.
    method TakeRecords() returns (records: seq<Record>)
      requires Valid()
      modifies this`readIndex
      ensures Valid() && records == Emitted(old(View()))
      ensures View() == old(View()).(queue := old(View()).queue[Taken(old(View()))..])
    {
      hide Length, Cell, RingContents, Advance;
      ghost var q := View().queue;
      records := [];
      LengthFacts(readIndex, writeIndex);
      while |records| < 3 && readIndex != writeIndex
        invariant readIndex < 128 && |records| <= 3
        invariant records + RingContents(ring[..], readIndex, writeIndex) == q
        decreases 3 - |records|
      {
        RingPop(ring[..], readIndex, writeIndex);
        AppendHead(records, ring[readIndex], RingContents(ring[..], Advance(readIndex), writeIndex));
        records := records + [ring[readIndex]];
        readIndex := Advance(readIndex);
      }
      LengthFacts(readIndex, writeIndex);
      SplitAtTaken(records, RingContents(ring[..], readIndex, writeIndex), q);
    }

    // The loop that fills the spare slots.
    method FillSlots(output: array<u8>, ghost data: seq<u8>, queued: nat) returns (ghost ids: seq<TrackerId>, any: bool)
      requires Valid() && output.Length == 64 && queued <= 3 && |data| == 16 * queued
      requires output[..] == data + Zeros(64 - 16 * queued)
      modifies this`registrationCursor, output
      ensures Valid() && any == (ids != []) && queued + |ids| <= 3
      ensures (ids, registrationCursor) == Registrations(trackerAddresses[..], old(registrationCursor), 3 - queued)
      ensures output[..] == data + RegistrationBytes(ids, trackerAddresses[..]) + Zeros(64 - 16 * (queued + |ids|))
    {
      hide RegistrationBytes, Registrations, Zeros, Filled;
      ids, any := [], false;
      ghost var table, start := trackerAddresses[..], registrationCursor;
      var slot := queued;
      ghost var filled := data;
      NothingFilled(table, start, data, queued);
      while slot < 3
        invariant Valid() && slot <= 3 && any == (ids != []) && trackerAddresses[..] == table
        invariant Filled(table, start, data, queued, ids, filled, slot, registrationCursor)
        invariant ZeroFrom(output[..], filled, slot)
      {
        ghost var c := registrationCursor;
        var next := FillSlot(output, filled, slot);
        if next.None? {
          AllFilled(table, start, data, queued, ids, filled, slot, c);
          return;
        }
        OneMoreFilled(table, start, data, queued, ids, filled, slot, c);
        filled := filled + RegistrationRecord(next.value, table[next.value]);
        ids, any := ids + [next.value], true;
        slot := slot + 1;
      }
      AllFilled(table, start, data, queued, ids, filled, slot, registrationCursor);
    }

    method FillSlot(output: array<u8>, ghost filled: seq<u8>, slot: nat) returns (next: Option<TrackerId>)
      requires Valid() && output.Length == 64 && slot < 3 && ZeroFrom(output[..], filled, slot)
      modifies this`registrationCursor, output
      ensures Valid() && next == NextFrom(trackerAddresses[..], old(registrationCursor), 0)
      ensures registrationCursor == if next.Some? then NextCursor(next.value) else old(registrationCursor)
      ensures next.None? ==> output[..] == old(output[..])
      ensures next.Some? ==>
        ZeroFrom(output[..], filled + RegistrationRecord(next.value, trackerAddresses[..][next.value]), slot + 1)
    {
      next := NextRegistration();
      if next.Some? {
        PutOverZeros(output, filled, 16 * slot, RegistrationRecord(next.value, trackerAddresses[next.value]));
      }
    }

    // `report_builder_next`
    method NextBytes(output: array<u8>, now: int) returns (ok: bool)
      requires Valid() && output.Length == 64
      modifies this, output
      ensures Valid() && View() == Next(old(View()), now)
      ensures ok == Pending(old(View()), now)
      ensures ok ==> NextReport(old(View()), now) == Some(output[..])
      ensures !ok ==> output[..] == old(output[..])
    {
      hide RegistrationRecord, Registrations, Trailer, RingContents, HasRegistration, DataBytes, RegistrationBytes;
      ghost var b := View();
      var records := TakeRecords();
      var any := AnyRegistration();
      var due := any && now - lastRegistrationMs >= REGISTRATION_PERIOD_MS;
      if |records| == 0 && !due {
        assert b.queue[Taken(b)..] == b.queue;
        return false;
      }
      var ids, registered := WriteReport(output, records);
      if due || registered {
        lastRegistrationMs := now;
      }
      ok := true;
    }

    method WriteReport(output: array<u8>, records: seq<Record>) returns (ghost ids: seq<TrackerId>, registered: bool)
      requires Valid() && output.Length == 64 && |records| <= 3
      modifies this`registrationCursor, output
      ensures Valid() && registered == (ids != []) && |records| + |ids| <= 3
      ensures (ids, registrationCursor) == Registrations(trackerAddresses[..], old(registrationCursor), 3 - |records|)
      ensures output[..] == ReportOf(records, ids, trackerAddresses[..])
    {
      hide Registrations, Trailer, DataBytes, RegistrationBytes;
      forall i | 0 <= i < 64 { output[i] := 0; }
      assert output[..] == Zeros(64);
      var valid := CopyData(output, records);
      ids, registered := FillSlots(output, DataBytes(records), |records|);
      ghost var body := DataBytes(records) + RegistrationBytes(ids, trackerAddresses[..]);
      SplitZeros(body, 48 - |body|, 16);
      WriteTrailer(output, body + Zeros(48 - |body|), records, valid);
    }
  }

  method PutOverZeros(output: array<u8>, ghost before: seq<u8>, at: nat, piece: seq<u8>)
    requires |before| == at && at + |piece| <= output.Length
    requires output[..] == before + Zeros(output.Length - at)
    modifies output
    ensures output[..] == before + piece + Zeros(output.Length - at - |piece|)
  {
    assert forall i :: 0 <= i < output.Length ==> output[i] == output[..][i];
    Put(output, at, piece);
  }

  // The loop that copies the dequeued records and counts those with RF data.
  method CopyData(output: array<u8>, records: seq<Record>) returns (valid: u8)
    requires output.Length == 64 && |records| <= 3 && output[..] == Zeros(64)
    modifies output
    ensures output[..] == DataBytes(records) + Zeros(64 - 16 * |records|)
    ensures valid == SensorCount(records)
  {
    valid := 0;
    assert records[..0] == [] && DataBytes([]) == [];
    hide DataBytes, SensorCount;
    for slot := 0 to |records|
      invariant output[..] == DataBytes(records[..slot]) + Zeros(64 - 16 * slot)
      invariant valid == SensorCount(records[..slot]) && valid <= slot
    {
      CopiedOne(records, slot);
      PutOverZeros(output, DataBytes(records[..slot]), 16 * slot, records[slot].data);
      if records[slot].data[0] <= 223 {
        valid := valid + 1;
      }
    }
    assert records[..|records|] == records;
  }

  lemma CopiedOne(records: seq<Record>, slot: nat)
    requires slot < |records|
    ensures DataBytes(records[..slot + 1]) == DataBytes(records[..slot]) + records[slot].data
    ensures SensorCount(records[..slot + 1]) ==
            SensorCount(records[..slot]) + if records[slot].Sensor() then 1 else 0
  {
    assert records[..slot + 1][..slot] == records[..slot];
  }

  // The metadata block, written over zeros.
  method WriteTrailer(output: array<u8>, ghost body: seq<u8>, records: seq<Record>, valid: u8)
    requires output.Length == 64 && |records| <= 3 && |body| == 48 && output[..] == body + Zeros(16)
    requires valid == SensorCount(records)
    modifies output
    ensures output[..] == body + Trailer(records)
  {
    hide MetadataBytes;
    PutOverZeros(output, body, 48, [250, 255, 0xd6, 1, valid]);
    ghost var front := body + [250, 255, 0xd6, 1, valid];
    assert front + Metadata(records, 0) == front;
    for slot := 0 to |records|
      invariant output[..] == front + Metadata(records, slot) + Zeros(11 - 3 * slot)
    {
      var m := records[slot].metadata;
      SlotMetadata(records, slot);
      PutOverZeros(output, front + Metadata(records, slot), 53 + slot * 3, [m.sequence, m.rssi, m.flags]);
      assert front + Metadata(records, slot + 1) == front + Metadata(records, slot) + [m.sequence, m.rssi, m.flags];
    }
    TrailerZeroed(front, records);
    ghost var zeroed := output[..];
    output[63] := 0x6d;
    assert output[..] == zeroed[..63] + [0x6d];
    TrailerSealed(body, records);
  }

  lemma TrailerZeroed(front: seq<u8>, records: seq<Record>)
    requires |records| <= 3
    ensures front + Metadata(records, |records|) + Zeros(11 - 3 * |records|) == front + Metadata(records, 3) + [0, 0]
  {
    hide Metadata;
    MetadataPad(records, |records|);
    assert Zeros(11 - 3 * |records|) == Zeros(9 - 3 * |records|) + [0, 0];
  }

  lemma TrailerSealed(body: seq<u8>, records: seq<Record>)
    requires |records| <= 3 && |body| == 48
    ensures
      var front := body + [250, 255, 0xd6, 1, SensorCount(records)];
      (front + Metadata(records, 3) + [0, 0])[..63] + [0x6d] == body + Trailer(records)
  {
    hide Metadata, SensorCount;
    SensorCountBound(records);
  }

  lemma SlotMetadata(records: seq<Record>, slot: nat)
    requires slot < |records|
    ensures MetadataBytes(records, slot) ==
      [records[slot].metadata.sequence, records[slot].metadata.rssi, records[slot].metadata.flags]
  {
  }

  lemma {:induction false} MetadataPad(records: seq<Record>, n: nat)
    requires |records| <= n <= 3
    ensures Metadata(records, 3) == Metadata(records, n) + Zeros(9 - 3 * n)
    decreases 3 - n
  {
    if n < 3 {
      MetadataPad(records, n + 1);
      assert MetadataBytes(records, n) + Zeros(6 - 3 * n) == Zeros(9 - 3 * n);
    }
  }

  lemma SplitZeros(front: seq<u8>, m: nat, n: nat)
    ensures front + Zeros(m + n) == front + Zeros(m) + Zeros(n)
  {
  }

  lemma RegistrationAppend(data: seq<u8>, ids: seq<TrackerId>, id: TrackerId, table: Table)
    ensures data + RegistrationBytes(ids + [id], table)
         == data + RegistrationBytes(ids, table) + RegistrationRecord(id, table[id])
  {
    assert (ids + [id])[..|ids|] == ids;
  }

  // ---- Steps of the loops above ----

  function Prefixed(ids: seq<TrackerId>, r: (seq<TrackerId>, nat)): (seq<TrackerId>, nat) {
    (ids + r.0, r.1)
  }

  lemma NoneYet(r: (seq<TrackerId>, nat))
    ensures Prefixed([], r) == r
  {
    assert [] + r.0 == r.0;
  }

  lemma RegistrationsEnd(table: Table, cursor: nat, slots: nat, ids: seq<TrackerId>)
    requires slots == 0 || NextFrom(table, cursor, 0).None?
    ensures Prefixed(ids, Registrations(table, cursor, slots)) == (ids, cursor)
  {
    assert ids + [] == ids;
  }

  lemma RegistrationsStep(table: Table, cursor: nat, slots: nat, ids: seq<TrackerId>)
    requires slots > 0 && NextFrom(table, cursor, 0).Some?
    ensures
      var id := NextFrom(table, cursor, 0).value;
      Prefixed(ids, Registrations(table, cursor, slots))
      == Prefixed(ids + [id], Registrations(table, NextCursor(id), slots - 1))
  {
    var id := NextFrom(table, cursor, 0).value;
    var rest := Registrations(table, NextCursor(id), slots - 1).0;
    assert ids + ([id] + rest) == ids + [id] + rest;
  }

  // The first slots are `filled`, the rest of the report is still zero.
  ghost predicate ZeroFrom(bytes: seq<u8>, filled: seq<u8>, slot: nat) {
    |filled| == 16 * slot <= 64 && bytes == filled + Zeros(64 - 16 * slot)
  }

  // Slots `queued` to `slot` hold the registrations of `ids`, and the rest will follow from `cursor`.
  ghost predicate Filled(table: Table, start: nat, data: seq<u8>, queued: nat, ids: seq<TrackerId>, filled: seq<u8>,
                         slot: nat, cursor: nat) {
    && queued <= slot <= 3 && |ids| == slot - queued && filled == data + RegistrationBytes(ids, table)
    && Registrations(table, start, 3 - queued) == Prefixed(ids, Registrations(table, cursor, 3 - slot))
  }

  lemma NothingFilled(table: Table, start: nat, data: seq<u8>, queued: nat)
    requires queued <= 3
    ensures Filled(table, start, data, queued, [], data, queued, start)
  {
    NoneYet(Registrations(table, start, 3 - queued));
  }

  lemma OneMoreFilled(table: Table, start: nat, data: seq<u8>, queued: nat, ids: seq<TrackerId>, filled: seq<u8>,
                      slot: nat, cursor: nat)
    requires Filled(table, start, data, queued, ids, filled, slot, cursor)
    requires slot < 3 && NextFrom(table, cursor, 0).Some?
    ensures
      var id := NextFrom(table, cursor, 0).value;
      Filled(table, start, data, queued, ids + [id], filled + RegistrationRecord(id, table[id]), slot + 1,
             NextCursor(id))
  {
    hide RegistrationRecord, RegistrationBytes, NextFrom, Registrations, Prefixed, NextCursor;
    var id := NextFrom(table, cursor, 0).value;
    RegistrationsStep(table, cursor, 3 - slot, ids);
    RegistrationAppend(data, ids, id, table);
  }

  lemma AllFilled(table: Table, start: nat, data: seq<u8>, queued: nat, ids: seq<TrackerId>, filled: seq<u8>,
                  slot: nat, cursor: nat)
    requires Filled(table, start, data, queued, ids, filled, slot, cursor)
    requires slot == 3 || NextFrom(table, cursor, 0).None?
    ensures (ids, cursor) == Registrations(table, start, 3 - queued)
    ensures queued + |ids| == slot && filled == data + RegistrationBytes(ids, table)
  {
    hide RegistrationBytes, NextFrom, Registrations, Prefixed;
    RegistrationsEnd(table, cursor, 3 - slot, ids);
  }

  lemma AppendHead(records: seq<Record>, head: Record, rest: seq<Record>)
    ensures records + ([head] + rest) == records + [head] + rest
  {
  }

  lemma SplitAtTaken(records: seq<Record>, rest: seq<Record>, q: seq<Record>)
    requires records + rest == q && |records| <= 3 && (|records| == 3 || rest == [])
    ensures var n := if |q| <= 3 then |q| else 3; records == q[..n] && rest == q[n..]
  {
  }
}
