/**
 The receiver's tracker table and what it makes of radio packets
 (firmware/nrf54l15/src/rf_receiver.c:94-214). Packets arrive in the radio's interrupt,
 so each handler is one step. The worker, clears and group changes are here as they run
 undisturbed; module PairingSteps takes them apart.
 */
module RfReceivers {
  import opened Bytes
  import opened Reports
  import opened ReportBuilders
  import opened ReceiverStores

  // A 28-byte RF-v2 packet, its fields read; `crcOk` says whether its CRC-32K matched.
  datatype RfPacket = RfPacket(
    data: RecordData, address: u48, sequence: u8, version: u8, crcOk: bool, rssi: u8)

  // A pairing request; `wellFormed` says whether length, marker and checksum are right.
  datatype PairRequest = PairRequest(wellFormed: bool, address: u48)

  // `struct pairing_persist_record`
  datatype PersistRecord = PersistRecord(id: TrackerId, count: nat, address: u48, generation: u32)

  const PERSIST_QUEUE_SIZE: nat := 8

  datatype Receiver = Receiver(
    primary: bool, pairing: bool, table: Table, count: nat, received: u32, crcErrors: u32,
    generation: u32, persist: seq<PersistRecord>)

  // `add_tracker` succeeds: the id exists, the address is one, and the slot is free or already its own.
  predicate CanAdd(r: Receiver, id: u8, address: u48) {
    id < 32 && address != 0 && (r.table[id] == 0 || r.table[id] == address)
  }

  function AddTracker(r: Receiver, id: TrackerId, address: u48): Receiver {
    r.(table := r.table[id := address], count := if id >= r.count then id + 1 else r.count)
  }

  // The packet names a tracker this receiver serves, or may learn.
  predicate Admits(r: Receiver, p: RfPacket) {
    && p.data[1] < 32 && p.data[0] <= 223 && p.address != 0
    && if r.primary then p.data[1] < r.count && r.table[p.data[1]] == p.address
       else CanAdd(r, p.data[1], p.address)
  }

  const SENSOR_FLAGS: u8 := 7
  const DIAGNOSTIC_FLAGS: u8 := 2

  function DiagnosticData(): RecordData { [251, 255] + Zeros(14) }

  // `handle_rf_v2`: the receiver and the report builder it leaves.
  function AfterRf(r: Receiver, p: RfPacket): Receiver {
    if p.version != 2 then r
    else if !p.crcOk then r.(crcErrors := (r.crcErrors + 1) % 0x1_0000_0000)
    else if !Admits(r, p) then r
    else
      var known := if r.primary then r else AddTracker(r, p.data[1], p.address);
      known.(received := (known.received + 1) % 0x1_0000_0000)
  }

  function HandleRf(r: Receiver, b: Builder, p: RfPacket): (Receiver, Builder) {
    (AfterRf(r, p),
     if p.version != 2 then b
     else if !p.crcOk then Enqueue(b, MakeRecord(DiagnosticData(), p.rssi, p.sequence, DIAGNOSTIC_FLAGS), false)
     else if !Admits(r, p) then b
     else
       Enqueue(if r.primary then b else SetTracker(b, p.data[1], p.address),
               MakeRecord(p.data, p.rssi, p.sequence, SENSOR_FLAGS), true))
  }

  // The first id below `n` already holding `address`, or `n`.
  function FindAddress(table: Table, address: u48, n: nat): (i: nat)
    requires n <= 32
    ensures i <= n && (i < n ==> table[i] == address)
    ensures forall j :: 0 <= j < i ==> table[j] != address
  {
    FindAddressFrom(table, address, n, 0)
  }

  function FindAddressFrom(table: Table, address: u48, n: nat, i: nat): (k: nat)
    requires i <= n <= 32
    ensures i <= k <= n && (k < n ==> table[k] == address)
    ensures forall j :: i <= j < k ==> table[j] != address
    decreases n - i
  {
    if i == n || table[i] == address then i else FindAddressFrom(table, address, n, i + 1)
  }

  // `handle_pair_request` gets as far as adding the tracker, under this id.
  predicate Pairs(r: Receiver, q: PairRequest)
    requires r.count <= 32
  {
    && r.primary && r.pairing && q.wellFormed && q.address != 0
    && FindAddress(r.table, q.address, r.count) < 32
    && CanAdd(r, FindAddress(r.table, q.address, r.count), q.address)
  }

  // It answers the tracker only if the persistence queue took the record.
  predicate Acknowledges(r: Receiver, q: PairRequest)
    requires r.count <= 32
  {
    Pairs(r, q) && |r.persist| < PERSIST_QUEUE_SIZE
  }

  function PairedId(r: Receiver, q: PairRequest): nat
    requires r.count <= 32
  {
    FindAddress(r.table, q.address, r.count)
  }

  // The receiver after a pairing request, and its report builder.
  function AfterPair(r: Receiver, q: PairRequest): Receiver
    requires r.count <= 32
  {
    if !Pairs(r, q) then r
    else
      var known := AddTracker(r, PairedId(r, q), q.address);
      if !Acknowledges(r, q) then known
      else known.(persist := r.persist + [PersistRecord(PairedId(r, q), known.count, q.address, r.generation)])
  }

  function HandlePair(r: Receiver, b: Builder, q: PairRequest): (Receiver, Builder)
    requires r.count <= 32
  {
    (AfterPair(r, q), if Pairs(r, q) then SetTracker(b, PairedId(r, q), q.address) else b)
  }

  // One record of `persist_pairing_work_handler`: what it leaves in storage.
  function Persisted(record: PersistRecord, generation: u32, s: Storage, entryWorks: bool, countWorks: bool): Storage
    requires record.count <= 32
  {
    if record.generation != generation then s
    else if !entryWorks then WithTracker(s, record.id, record.address, false)
    else WithCount(WithTracker(s, record.id, record.address, true), record.count, countWorks)
  }

  function Bumped(r: Receiver): Receiver {
    r.(generation := (r.generation + 1) % 0x1_0000_0000)
  }

  function Forgotten(r: Receiver): Receiver {
    r.(table := Zeros48(), count := 0, persist := [])
  }

  // `rf_receiver_clear_trackers`: RAM is cleared even if flash is not.
  function AfterClear(r: Receiver): Receiver {
    Forgotten(Bumped(r)).(pairing := r.primary)
  }

  // `rf_receiver_set_group`: a change that fails leaves the table, and the old role.
  function AfterGroup(r: Receiver, secondary: bool, ok: bool): Receiver {
    if ok then Forgotten(Bumped(r).(primary := !secondary, pairing := false)) else Bumped(r)
  }

  // The outcomes of its flash writes: the new group, the clear, and the old group if need be.
  datatype Writes = Writes(group: bool, failing: nat, restore: bool) {
    predicate Work(s: Storage) { group && failing > s.count }
  }

  // What flash calls the group of a primary or of a secondary.
  function GroupField(primary: bool, group: u48): u48 {
    if primary then 0 else group
  }

  function GroupStored(s: Storage, was: u48, requested: u48, w: Writes): Storage
    requires s.count <= 32
  {
    var cleared := Cleared(WithGroup(s, requested, w.group), w.failing);
    if w.Work(s) then cleared else WithGroup(cleared, was, w.restore)
  }

  class RfReceiver {
    const receiverId: u48
    var groupId: u48
    var primary: bool
    var pairing: bool
    const trackerAddresses: array<u48>
    var trackerCount: nat
    var receivedPackets: u32
    var crcErrors: u32
    var configGeneration: u32
    var persistQueue: seq<PersistRecord>
    const builder: ReportBuilder

    ghost predicate Valid()
      reads this, builder
    {
      && trackerAddresses.Length == 32 && trackerCount <= 32 && builder.Valid()
      && trackerAddresses != builder.trackerAddresses
      && forall i :: 0 <= i < |persistQueue| ==> persistQueue[i].count <= 32
    }

    // The storage driver, kept apart from the receiver's own arrays.
    ghost predicate Uses(storage: ReceiverStorage)
      reads this, storage, builder
    {
      storage.Valid() && storage.trackers != trackerAddresses && storage.trackers != builder.trackerAddresses
    }

    ghost function View(): Receiver
      reads this, trackerAddresses, builder
      requires Valid()
    {
      Receiver(primary, pairing, trackerAddresses[..], trackerCount, receivedPackets, crcErrors,
               configGeneration, persistQueue)
    }

    // `rf_receiver_init`, given what storage loaded.
    constructor (reports: ReportBuilder, stored: Table, count: nat, me: u48, group: u48)
      requires reports.Valid() && reports.View().table == Zeros48()
      requires count <= 32 && forall id :: count <= id < 32 ==> stored[id] == 0
      modifies reports.trackerAddresses
      ensures Valid() && builder == reports && fresh(trackerAddresses)
      ensures receiverId == me && groupId == if group == 0 then me else group
      ensures var isPrimary := group == 0 || group == me;
              View() == Receiver(isPrimary, isPrimary && count == 0, stored, count, 0, 0, 0, [])
      ensures builder.View() == old(reports.View()).(table := stored)
    {
      hide RingContents;
      builder := reports;
      receiverId, groupId := me, if group == 0 then me else group;
      primary := group == 0 || group == me;
      pairing := (group == 0 || group == me) && count == 0;
      trackerAddresses := new u48[32](_ => 0);
      trackerCount, receivedPackets, crcErrors, configGeneration, persistQueue := count, 0, 0, 0, [];
      new;
      ghost var isPrimary := primary;
      for id := 0 to count
        invariant Valid() && builder == reports && receiverId == me && groupId == if group == 0 then me else group
        invariant View() == Receiver(isPrimary, isPrimary && count == 0, trackerAddresses[..], count, 0, 0, 0, [])
        invariant forall i :: 0 <= i < 32 ==> trackerAddresses[i] == if i < id then stored[i] else 0
        invariant builder.View() == old(reports.View()).(table := trackerAddresses[..])
      {
        trackerAddresses[id] := stored[id];
        builder.SetTrackerAddress(id, stored[id]);
        assert trackerAddresses[..] == builder.View().table;
      }
      assert trackerAddresses[..] == stored;
    }

    method Add(id: u8, address: u48) returns (ok: bool)
      requires Valid()
      modifies this`trackerCount, trackerAddresses, builder.trackerAddresses
      ensures Valid() && ok == CanAdd(old(View()), id, address)
      ensures View() == if ok then AddTracker(old(View()), id, address) else old(View())
      ensures builder.View() == if ok then SetTracker(old(builder.View()), id, address) else old(builder.View())
    {
      if id >= 32 || address == 0 {
        return false;
      }
      if trackerAddresses[id] != 0 && trackerAddresses[id] != address {
        return false;
      }
      trackerAddresses[id] := address;
      if id >= trackerCount {
        trackerCount := id + 1;
      }
      builder.SetTrackerAddress(id, address);
      ok := true;
    }

    method HandleRfV2(p: RfPacket)
      requires Valid()
      modifies this`trackerCount, this`receivedPackets, this`crcErrors, trackerAddresses
      modifies builder, builder.trackerAddresses, builder.ring
      ensures Valid()
      ensures (View(), builder.View()) == HandleRf(old(View()), old(builder.View()), p)
    {
      hide RingContents, Enqueue, MakeRecord;
      if p.version != 2 {
        return;
      }
      if !p.crcOk {
        crcErrors := (crcErrors + 1) % 0x1_0000_0000;
        builder.EnqueueRecord(DiagnosticData(), p.rssi, p.sequence, DIAGNOSTIC_FLAGS, false);
        return;
      }
      var id := p.data[1];
      if id >= 32 || p.data[0] > 223 || p.address == 0 {
        return;
      }
      if primary {
        if id >= trackerCount || trackerAddresses[id] != p.address {
          return;
        }
      } else {
        var added := Add(id, p.address);
        if !added {
          return;
        }
      }
      receivedPackets := (receivedPackets + 1) % 0x1_0000_0000;
      builder.EnqueueRecord(p.data, p.rssi, p.sequence, SENSOR_FLAGS, true);
    }

    method HandlePairRequest(q: PairRequest) returns (reply: Option<TrackerId>)
      requires Valid()
      modifies this`trackerCount, this`persistQueue, trackerAddresses, builder.trackerAddresses
      ensures Valid()
      ensures (View(), builder.View()) == HandlePair(old(View()), old(builder.View()), q)
      ensures reply == if Acknowledges(old(View()), q) then Some(PairedId(old(View()), q)) else None
    {
      if !primary || !pairing || !q.wellFormed || q.address == 0 {
        return None;
      }
      var id := trackerCount;
      var cursor := 0;
      while cursor < trackerCount
        invariant cursor <= trackerCount && id == trackerCount
        invariant FindAddressFrom(trackerAddresses[..], q.address, trackerCount, 0)
               == FindAddressFrom(trackerAddresses[..], q.address, trackerCount, cursor)
      {
        if trackerAddresses[cursor] == q.address {
          id := cursor;
          break;
        }
        cursor := cursor + 1;
      }
      assert id == PairedId(old(View()), q);
      if id >= 32 {
        return None;
      }
      var added := Add(id, q.address);
      if !added {
        return None;
      }
      if |persistQueue| >= PERSIST_QUEUE_SIZE {
        return None;
      }
      persistQueue := persistQueue + [PersistRecord(id, trackerCount, q.address, configGeneration)];
      reply := Some(id);
    }

    // One turn of the loop of `persist_pairing_work_handler`.
    method PersistNext(storage: ReceiverStorage, entryWorks: bool, countWorks: bool) returns (popped: bool)
      requires Valid() && Uses(storage)
      modifies this`persistQueue, storage`flash, storage`trackerCount, storage.trackers
      ensures Valid() && Uses(storage) && popped == (old(persistQueue) != []) && builder.View() == old(builder.View())
      ensures popped ==>
        View() == old(View()).(persist := old(persistQueue)[1..])
        && storage.View() ==
             Persisted(old(persistQueue)[0], configGeneration, old(storage.View()), entryWorks, countWorks)
      ensures !popped ==> View() == old(View()) && storage.View() == old(storage.View())
    {
      if |persistQueue| == 0 {
        return false;
      }
      var record := persistQueue[0];
      persistQueue := persistQueue[1..];
      if record.generation == configGeneration {
        var ok := storage.SetTracker(record.id, record.address, entryWorks);
        if ok {
          ok := storage.SetTrackerCount(record.count, countWorks);
        }
      }
      popped := true;
    }

    // What a clear and a group change do to RAM, here and in the report queue.
    method Forget()
      requires Valid()
      modifies this`persistQueue, this`trackerCount, trackerAddresses, builder, builder.trackerAddresses
      ensures Valid() && View() == Forgotten(old(View())) && builder.View() == ClearTrackers(old(builder.View()))
    {
      persistQueue := [];
      forall i | 0 <= i < 32 { trackerAddresses[i] := 0; }
      trackerCount := 0;
      assert trackerAddresses[..] == Zeros48();
      builder.Clear();
    }

    // `rf_receiver_clear_trackers`
    method ClearAll(storage: ReceiverStorage, failing: nat, radioWorks: bool) returns (ok: bool)
      requires Valid() && Uses(storage)
      modifies this`configGeneration, this`persistQueue, this`trackerCount, this`pairing, trackerAddresses
      modifies storage`flash, storage`trackerCount, storage.trackers, builder, builder.trackerAddresses
      ensures Valid() && Uses(storage) && View() == AfterClear(old(View()))
      ensures storage.View() == Cleared(old(storage.View()), failing)
      ensures builder.View() == ClearTrackers(old(builder.View()))
      ensures ok == (failing > old(storage.View()).count && radioWorks)
    {
      configGeneration := (configGeneration + 1) % 0x1_0000_0000;
      ok := storage.ClearTrackers(failing);
      Forget();
      pairing := primary;
      ok := ok && radioWorks;
    }

    // Its flash writes: the new group, the clear, and after a failure the old group again.
    static method StoreGroup(storage: ReceiverStorage, was: u48, requested: u48, writes: Writes) returns (ok: bool)
      requires storage.Valid()
      modifies storage`flash, storage`trackerCount, storage`groupId, storage.trackers
      ensures storage.Valid() && ok == writes.Work(old(storage.View()))
      ensures storage.View() == GroupStored(old(storage.View()), was, requested, writes)
    {
      hide Cleared;
      ok := storage.SetGroup(requested, writes.group);
      var cleared := storage.ClearTrackers(writes.failing);
      ok := ok && cleared;
      if !ok {
        var restored := storage.SetGroup(was, writes.restore);
      }
    }

    method TakeRole(secondary: bool, group: u48)
      requires Valid()
      modifies this`configGeneration, this`pairing, this`primary, this`groupId
      ensures Valid() && View() == Bumped(old(View())).(primary := !secondary, pairing := false)
      ensures groupId == if secondary then group else receiverId
    {
      configGeneration := (configGeneration + 1) % 0x1_0000_0000;
      groupId := if secondary then group else receiverId;
      primary := !secondary;
      pairing := false;
    }

    // `rf_receiver_set_group`, past its argument check and up to the purge.
    method TryGroup(storage: ReceiverStorage, secondary: bool, group: u48, writes: Writes) returns (ok: bool)
      requires Valid() && Uses(storage)
      modifies this`configGeneration, this`pairing, this`primary, this`groupId
      modifies storage`flash, storage`trackerCount, storage`groupId, storage.trackers
      ensures Valid() && Uses(storage) && ok == writes.Work(old(storage.View()))
      ensures View() ==
        if ok then Bumped(old(View())).(primary := !secondary, pairing := false) else Bumped(old(View()))
      ensures storage.View() == GroupStored(old(storage.View()), GroupField(old(primary), old(groupId)),
                                            GroupField(!secondary, group), writes)
      ensures groupId == if !ok then old(groupId) else if secondary then group else receiverId
    {
      hide GroupStored;
      var previousGroup, previousPrimary, previousPairing := groupId, primary, pairing;
      TakeRole(secondary, group);
      ok := StoreGroup(storage, GroupField(previousPrimary, previousGroup), GroupField(primary, groupId), writes);
      if !ok {
        groupId, primary, pairing := previousGroup, previousPrimary, previousPairing;
      }
    }

    // `rf_receiver_set_group`
    method SetGroup(storage: ReceiverStorage, secondary: bool, requested: u64, writes: Writes) returns (ok: bool)
      requires Valid() && Uses(storage)
      modifies this`configGeneration, this`persistQueue, this`trackerCount, this`pairing, this`primary, this`groupId
      modifies trackerAddresses, storage`flash, storage`trackerCount, storage`groupId, storage.trackers
      modifies builder, builder.trackerAddresses
      ensures Valid() && Uses(storage)
      ensures
        var group := requested % 0x1_0000_0000_0000;
        if secondary && group == 0
        then !ok && View() == old(View()) && storage.View() == old(storage.View())
             && builder.View() == old(builder.View()) && groupId == old(groupId)
        else
          && ok == writes.Work(old(storage.View())) && View() == AfterGroup(old(View()), secondary, ok)
          && storage.View() == GroupStored(old(storage.View()), GroupField(old(primary), old(groupId)),
                                           GroupField(!secondary, group), writes)
          && builder.View() == (if ok then ClearTrackers(old(builder.View())) else old(builder.View()))
          && groupId == if !ok then old(groupId) else if secondary then group else receiverId
    {
      hide GroupStored, GroupField, ClearTrackers, RingContents, Forgotten;
      var group: u48 := requested % 0x1_0000_0000_0000;
      if secondary && group == 0 {
        return false;
      }
      ok := TryGroup(storage, secondary, group, writes);
      if ok {
        Forget();
      }
    }
  }
}
