/**
 The receiver's settings in flash and their copy in RAM
 (firmware/nrf54l15/src/receiver_storage.c). Flash is a set of numbered entries; each
 write or delete is told whether it works, since the file system may refuse it.
 */
module ReceiverStores {
  import opened Bytes
  import opened ReportBuilders

  // What survives a crash.
  datatype Flash = Flash(group: Option<u48>, count: Option<u8>, entries: map<TrackerId, u48>)

  datatype Storage = Storage(flash: Flash, group: u48, trackers: Table, count: nat)

  // The count a boot would find, and the address it would find for `id`.
  function StoredCount(f: Flash): (n: nat)
    ensures n <= 32
  {
    if f.count.Some? && f.count.value <= 32 then f.count.value else 0
  }

  function StoredAddress(f: Flash, id: TrackerId): u48 {
    if id < StoredCount(f) && id in f.entries then f.entries[id] else 0
  }

  function StoredTable(f: Flash): Table {
    seq(32, id requires 0 <= id < 32 => StoredAddress(f, id))
  }

  // `receiver_storage_init`
  function Loaded(f: Flash): Storage {
    Storage(f, if f.group.Some? then f.group.value else 0, StoredTable(f), StoredCount(f))
  }

  function WithTracker(s: Storage, id: TrackerId, address: u48, works: bool): Storage {
    s.(trackers := s.trackers[id := address],
       flash := if works then s.flash.(entries := s.flash.entries[id := address]) else s.flash)
  }

  function WithCount(s: Storage, count: u8, works: bool): Storage {
    s.(count := count, flash := if works then s.flash.(count := Some(count)) else s.flash)
  }

  function WithGroup(s: Storage, group: u48, works: bool): Storage {
    s.(group := group, flash := if works then s.flash.(group := Some(group)) else s.flash)
  }

  function WithoutEntry(s: Storage, id: TrackerId): Storage {
    s.(flash := s.flash.(entries := s.flash.entries - {id}))
  }

  // The first `n` deletes of a clear.
  function WithoutEntries(s: Storage, n: nat): Storage
    requires n <= 32
  {
    if n == 0 then s else WithoutEntry(WithoutEntries(s, n - 1), n - 1)
  }

  // The end of a clear, once every delete has worked.
  function Emptied(s: Storage, works: bool): Storage {
    WithCount(s.(trackers := Zeros48()), 0, works)
  }

  // A clear whose write number `failing` fails: the deletes count from 0, the count's write comes last.
  function Cleared(s: Storage, failing: nat): Storage
    requires s.count <= 32
  {
    if failing < s.count then WithoutEntries(s, failing)
    else Emptied(WithoutEntries(s, s.count), failing != s.count)
  }

  class ReceiverStorage {
    var flash: Flash
    var groupId: u48
    const trackers: array<u48>
    var trackerCount: nat

    ghost predicate Valid()
      reads this
    {
      trackers.Length == 32 && trackerCount <= 32
    }

    ghost function View(): Storage
      reads this, trackers
      requires Valid()
    {
      Storage(flash, groupId, trackers[..], trackerCount)
    }

    constructor (f: Flash)
      ensures Valid() && fresh(trackers) && View() == Loaded(f)
    {
      flash := f;
      groupId := if f.group.Some? then f.group.value else 0;
      trackers := new u48[32](_ => 0);
      trackerCount := if f.count.Some? && f.count.value <= 32 then f.count.value else 0;
      new;
      for id := 0 to trackerCount
        invariant flash == f && trackerCount == StoredCount(f) && groupId == Loaded(f).group
        invariant forall i :: 0 <= i < 32 ==> trackers[i] == if i < id then StoredAddress(f, i) else 0
      {
        trackers[id] := if id in f.entries then f.entries[id] else 0;
      }
      assert trackers[..] == StoredTable(f);
    }

    method SetTracker(id: u8, address: u64, works: bool) returns (ok: bool)
      requires Valid()
      modifies this`flash, trackers
      ensures Valid() && ok == (id < 32 && works)
      ensures id < 32 ==> View() == WithTracker(old(View()), id, address % 0x1_0000_0000_0000, works)
      ensures id >= 32 ==> View() == old(View())
    {
      if id >= 32 {
        return false;
      }
      trackers[id] := address % 0x1_0000_0000_0000;
      if works {
        flash := flash.(entries := flash.entries[id := trackers[id]]);
      }
      ok := works;
    }

    method SetTrackerCount(count: u8, works: bool) returns (ok: bool)
      requires Valid()
      modifies this`flash, this`trackerCount
      ensures Valid() && ok == (count <= 32 && works)
      ensures View() == if count <= 32 then WithCount(old(View()), count, works) else old(View())
    {
      if count > 32 {
        return false;
      }
      trackerCount := count;
      if works {
        flash := flash.(count := Some(count));
      }
      ok := works;
    }

    method SetGroup(group: u64, works: bool) returns (ok: bool)
      requires Valid()
      modifies this`flash, this`groupId
      ensures Valid() && ok == works && View() == WithGroup(old(View()), group % 0x1_0000_0000_0000, works)
    {
      groupId := group % 0x1_0000_0000_0000;
      if works {
        flash := flash.(group := Some(groupId));
      }
      ok := works;
    }

    method ClearTrackers(failing: nat) returns (ok: bool)
      requires Valid()
      modifies this`flash, this`trackerCount, trackers
      ensures Valid() && ok == (failing > old(trackerCount)) && View() == Cleared(old(View()), failing)
    {
      ghost var s := View();
      for id := 0 to trackerCount
        invariant Valid() && id <= failing && trackerCount == s.count && View() == WithoutEntries(s, id)
      {
        if id == failing {
          return false;
        }
        flash := flash.(entries := flash.entries - {id});
      }
      forall i | 0 <= i < 32 { trackers[i] := 0; }
      assert trackers[..] == Zeros48();
      ok := SetTrackerCount(0, failing != trackerCount);
    }
  }
}
