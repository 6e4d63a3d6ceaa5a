# The tracker data path and the command path, modelled and proved in Dafny

The system is a radio receiver (nRF54L15), a controller that bridges it to Wi-Fi (ESP32-C5)
and a host program (Rust) that merges what several receivers hear. This project models the
code that carries tracker samples and management commands between them, and proves what
every run of it keeps, whatever is lost, repeated, reordered, delayed or interrupted.

- **Wire formats.** `ShiftRegister`, `Crc32`: why a CRC-32 sees every burst of four bytes,
  from linearity and injectivity of one bit step. `BridgeEnvelope`: the 80-byte SPI frame.
  `GatewayDatagram`: the UDP datagram, whose C and Rust codecs are compared.
  `Bytes`: integer widths and little-endian fields.
- **Host.** `DatagramGates`, `SequenceGates`: the wrapping order gates against gates over
  unbounded numbers. `Reports`, `Hubs`, `HubRuns`: decoding reports, learning addresses,
  and what the counters mean over whole runs. `HubLearning`: what the hub knows and what
  becomes of each record, read off the decoded records alone.
- **Receiver.** `ReportBuilders`, `RoundRobin`, `ReportRuns`: the 128-cell ring, the
  registrations that fill spare slots, and how long a sample waits. `RegistrationRuns`: the
  registrations of successive reports. `RfReceivers`: the tracker
  table, the worker that stores it, clears and group changes. `ReceiverRuns`: whom a receiver
  serves and what its own queue holds, in every run from boot.
  `Attribution` joins receivers, reports, a network that loses, repeats and reorders, and the hub.
  `ReceiverStores`, `PairingPersistence`: pairing under interrupts, a deferred worker,
  clears, failing flash writes and crashes. `PairingLosses` says how
  an answered pairing can be lost; `PairingSteps` puts the steps together again.
- **Commands over SPI.** `ReplayCaches`, `CommandClients`, `CommandServers`: the replay cache
  and the two halves of the protocol; `CommandWire` ties their frames to bytes. `CommandRuns`:
  two controller tasks and the receiver's thread as one transition system, each critical
  section a step. `CommandDelivery`: what retries achieve. `CommandAliases`,
  `CommandMixups`: the exact condition under which a caller can be handed another command's
  answer. `FrameOrder`, `ReadyHandshake`: the MORE_PENDING flag and the READY line.

State that the firmware updates in place is a class over arrays and fields, and each of its
methods is proved against a function on values (`View()` gives the value). The runs are
stated over those same functions. Inputs, clocks, losses, results of flash writes and what a
command does when it is executed are parameters of the steps.

## Where the code differs from its documents or from what one expects

- A caller of `bridge_spi_command` can receive the answer of another command. Request ids have
  16 bits, and the receiver's cache is not bounded in time. `MisledIffAliased` gives the
  condition at the moment of issue, `NoAliasWhen` two conditions a caller can rely on, and
  `MixupHappens` a run in which the 65,537th command gets the answer of the first. No run
  executes a command twice (`AtMostOnce`).
- A crash inside `receiver_storage_clear_trackers` leaves holes: entries go from id 0 up, the
  count goes last (`ClearCanTear`). `CrashLeavesLoadable` has the exact condition for every id
  below the count being filled, in every run without failed writes or overflow: no clear under
  way past its first delete, and none torn there by a crash that no later clear has completed.
  What is loaded in those runs is only accepted pairs.
- A tracker that was answered can be forgotten without a crash: the worker pops the record,
  its write fails, and nothing is left but a log line (`FailedWriteLoses`). `LostIff` and
  `KeptIffNeverLost` say exactly when: if and only if the write that fails is of the only copy.
- A popped pairing record is written if its generation matches modulo 2^32
  (`WritesOnlyCurrent`); `StaleWriteHappens` is a run in which an old one is.
- protocol/PROTOCOL.md:21 says that SVB1 payloads are zero padded; the decoder takes any padding
  (`PaddingIgnored`), so re-encoding may change it (`BridgeEnvelope.EncodeOfDecode`). The same
  goes for the reserved bytes of SVW1 (`ReservedIgnored`, `GatewayDatagram.EncodeOfDecode`).
- docs/prototype-wiring.md:24-27 asks the controller to see READY low, then high, before it
  drains another frame, and the code does. The first transfer of a poll, though, trusts the
  level alone: `TransfersAreFresh` says what has to hold at that poll, `MisreadClocksStale`
  what happens otherwise.

## Model

| member | source | states |
|---|---|---|
| ShiftRegister.TakeWord | protocol/bridge_protocol.c:37-44 | Taking in four bytes equals 32 bit steps on the word they form: the two loops seen as one map, for any sound word layout |
| ShiftRegister.SealedIffResidue | protocol/bridge_protocol.c:35-46 | A message ends in its own checksum if and only if the register after the whole message is one constant residue |
| ShiftRegister.BurstBreaksSeal | protocol/bridge_protocol.c:35-46 | No change confined to four consecutive bytes, wherever it lies, turns a sealed message into a sealed one |
| Crc32.IeeeSound | protocol/bridge_protocol.c:40-43 | The bit step with polynomial EDB88320 is XOR-linear and injective and moves words down as the general argument needs |
| Crc32.ComputeCrc | protocol/bridge_protocol.c:35-46 | The two nested loops compute the checksum that the lemmas speak of, on every input |
| Crc32.BurstDetected | bridge/src/gateway.rs:225-234 | A sealed message hit by a burst of up to four bytes, header, payload, checksum or across them, is not sealed |
| Crc32.SealedIsSeal | protocol/bridge_protocol.c:60-61 | A sealed message is the sealing of exactly one body, its own |
| BridgeEnvelope.EncodeInto | protocol/bridge_protocol.c:48-62 | The encoder leaves in the buffer exactly the wire form: fields at their offsets, zero padding, checksum |
| BridgeEnvelope.WireForm | protocol/bridge_protocol.c:48-62 | Every byte of an envelope at its offset: marker, version, kind, flags, length, little-endian sequence and request id, payload, zeros, checksum |
| BridgeEnvelope.DecodeOfEncode | protocol/bridge_protocol.c:48-82 | Decoding an encoded message gives it back, cut to 64 bytes, exactly when its kind is one of the five; otherwise nothing |
| BridgeEnvelope.PaddingIgnored | protocol/bridge_protocol.c:64-82 | A sealed envelope with any bytes behind its payload decodes to the same message |
| BridgeEnvelope.EncodeOfDecode | protocol/bridge_protocol.c:64-82 | Encoding what was decoded restores the bytes if and only if the padding was zero |
| BridgeEnvelope.BurstRejected | protocol/bridge_protocol.c:64-72 | A valid envelope changed within four consecutive bytes is rejected |
| GatewayDatagram.CEncodeInto | protocol/gateway_protocol.c:37-67 | The C encoder writes the wire form and its size, or writes nothing and returns 0; bytes past the size stay |
| GatewayDatagram.WriteHeader | bridge/src/gateway.rs:128-140 | The Rust header writes, with the gateway id shifted out byte by byte, leave the same header as the C ones for the low 48 bits of the id |
| GatewayDatagram.EncodeFresh | bridge/src/gateway.rs:125-150 | The Rust encoder, copying reports in a loop, returns the wire form |
| GatewayDatagram.DecodersAgree | bridge/src/gateway.rs:72-123 | C and Rust decoders accept the same byte strings of any length and read the same message |
| GatewayDatagram.EncodersAgree | protocol/gateway_protocol.c:37-67 | For the same message both encoders emit the same bytes |
| GatewayDatagram.WireForm | bridge/src/gateway.rs:125-150 | Every byte of a datagram at its offset: marker, version, kind 1 to 5, flags, count, little-endian ids, numbers and lengths, the reports in order, checksum |
| GatewayDatagram.CEncodeRefuses | protocol/gateway_protocol.c:41-45 | The C encoder refuses exactly the structs that no Rust message corresponds to |
| GatewayDatagram.DecodeOfEncode | bridge/src/gateway.rs:72-150 | Decoding an encoded message restores it if and only if its gateway id fits 48 bits |
| GatewayDatagram.ReservedIgnored | bridge/src/gateway.rs:72-123 | A sealed datagram with any two reserved bytes is accepted by both decoders and reads as the same message |
| GatewayDatagram.EncodeOfDecode | bridge/src/gateway.rs:72-150 | Encoding a decoded datagram restores its bytes if and only if bytes 14 and 15 are zero |
| GatewayDatagram.BurstRejected | protocol/gateway_protocol.c:80-90 | A valid datagram changed within four consecutive bytes is rejected by both decoders |
| DatagramGates.GatewayDatagramGate.Accept | bridge/src/gateway.rs:176-206 | The method decides and updates its maps as the specification does |
| DatagramGates.TracksBoots | bridge/src/gateway.rs:176-206 | In every run the stored boot is the newest one accepted and the retired set is all others heard |
| DatagramGates.BlocksAreContiguous | bridge/src/gateway.rs:184-190 | Boots of accepted batches stand in contiguous blocks: a boot that was left never returns |
| DatagramGates.AcceptedIff | bridge/src/gateway.rs:191-205 | With skew below 2^31 a batch passes if and only if it opens a new boot or is above every number heard from the newest one |
| DatagramGates.AcceptedIncrease | bridge/src/gateway.rs:191-205 | Inside a boot accepted unbounded numbers strictly increase, so no batch is accepted twice |
| SequenceGates.SequenceGate.EvaluatePacket | bridge/src/dedup.rs:44-115 | The method returns the verdict and leaves the map of the specification |
| SequenceGates.SequenceGate.Clear | bridge/src/dedup.rs:117-119 | Forgetting a tracker removes its state and no other |
| SequenceGates.RefinesIdeal | bridge/src/dedup.rs:44-115 | Over any interleaving of sources and trackers, with any silences, the 8-bit gate gives the verdict and the gap of a gate on unbounded numbers that starts anew after a silence; within a stretch numbers are at most 128 below or 127 above the reference |
| SequenceGates.SilenceStartsAnew | bridge/src/dedup.rs:45-71 | From any state, a tracker not heard before or silent for the reset time is accepted with any number, with nothing missing, and that number is the new reference; other trackers keep theirs |
| SequenceGates.AcceptedIncrease | bridge/src/dedup.rs:44-115 | Of two packets of one tracker with no silence between them an accepted later one has the larger number, so none is accepted twice |
| SequenceGates.NumbersAccountedFor | bridge/src/dedup.rs:79-95 | (accepted - 1) + missing = highest - first, for each tracker of any run, since its last silence |
| SequenceGates.AgreesIff | bridge/src/dedup.rs:59-113 | For one timely packet, the exact set of true numbers for which the 8-bit verdict is the unbounded one |
| SequenceGates.RecoversWithin130 | bridge/src/dedup.rs:59-113 | From any gate state and under any timing a restarted tracker is accepted by its 130th consecutive packet, if no other source is accepted for it meanwhile |
| SequenceGates.Refuses129 | bridge/src/dedup.rs:59-113 | The bound is met: a state that refuses 129 packets in a row |
| Reports.DecodeReportsLoop | bridge/src/report.rs:64-119 | The two loops over a moving offset compute the decoding, errors included |
| Reports.ReadRegistration | bridge/src/report.rs:129-138 | The loop over six bytes gives the little-endian address, or none |
| Reports.TrailedReport | bridge/src/report.rs:71-94 | A report with the marker reads as three records, each with its own three metadata bytes, or fails if its count is over 3 |
| Reports.ReportsFirst | bridge/src/report.rs:64-119 | Whole 64-byte reports in front of further bytes decode to their records in front of those of the rest |
| Reports.BareRecords | bridge/src/report.rs:95-117 | Without a marker at any report the k-th record is bytes 16k to 16k + 16, without metadata, up to the end |
| ReportBuilders.ReportBuilder.SetTrackerAddress | firmware/nrf54l15/src/report_builder.c:33-41 | Sets one table entry to the low 48 bits, ignores ids past 31, changes nothing else |
| ReportBuilders.ReportBuilder.Clear | firmware/nrf54l15/src/report_builder.c:43-50 | Empties queue and table and resets the cursor; timer and drop count stay |
| ReportBuilders.ReportBuilder.Locate | firmware/nrf54l15/src/report_builder.c:65-72 | The scan of the ring stops at the first queued sensor record of the tracker, or at the end |
| ReportBuilders.ReportBuilder.EnqueueRecord | firmware/nrf54l15/src/report_builder.c:52-83 | The ring acts as a 127-entry queue: replace in place, drop the new record when full, or append |
| ReportBuilders.ReportBuilder.NextRegistration | firmware/nrf54l15/src/report_builder.c:85-100 | Finds the next registered id cyclically and moves the cursor past it |
| ReportBuilders.ReportBuilder.HasPending | firmware/nrf54l15/src/report_builder.c:164-172 | True exactly when the next call would write a report |
| ReportBuilders.ReportBuilder.TakeRecords | firmware/nrf54l15/src/report_builder.c:118-122 | Takes up to three records off the front of the ring, in order |
| ReportBuilders.ReportBuilder.FillSlots | firmware/nrf54l15/src/report_builder.c:138-143 | Writes registrations into the spare slots over zeros until the report is full or none is left |
| ReportBuilders.ReportBuilder.NextBytes | firmware/nrf54l15/src/report_builder.c:112-162 | Writes the 64 bytes of the report and leaves the specified state, or returns false and writes nothing |
| RoundRobin.OneStep | firmware/nrf54l15/src/report_builder.c:85-100 | One call takes the head of the rotation and rotates it |
| RoundRobin.CallsFollowRotation | firmware/nrf54l15/src/report_builder.c:85-100 | n consecutive calls, up to a full turn, give the first n of the rotation |
| RoundRobin.RotationIsExact | firmware/nrf54l15/src/report_builder.c:85-100 | The rotation lists exactly the registered ids, each once |
| RoundRobin.EachIdOnce | firmware/nrf54l15/src/report_builder.c:85-100 | With k ids registered, k calls from any cursor emit each exactly once in cyclic ascending order |
| RegistrationRuns.SpareSlotsRotate | firmware/nrf54l15/src/report_builder.c:85-146 | Over any run with an unchanged table, across reports and with anything enqueued between: any k spare slots in a row, with k trackers registered, name each once, and the next slot names the first of them again |
| RegistrationRuns.IdlePace | firmware/nrf54l15/src/report_builder.c:128-146 | With a tracker registered, a report that empties the queue with a slot to spare is followed by the next, if nothing is enqueued, from 100 ms on and not before |
| RegistrationRuns.ClearedAnnouncesNothing | firmware/nrf54l15/src/report_builder.c:43-50 | After a clear no report of any run registers anything until an address is set |
| ReportRuns.DropNeedsDiagnostics | firmware/nrf54l15/src/rf_receiver.c:137-162 | In every run a drop implies at least 95 queued diagnostics, 96 if a sensor record is dropped |
| ReportRuns.Named | firmware/nrf54l15/src/report_builder.c:52-83 | Every record queued or delivered is that of one identified enqueue, and the drop counter counts the drops |
| ReportRuns.Accounted | firmware/nrf54l15/src/report_builder.c:43-83 | enqueued = delivered + queued + replaced + dropped + cleared, in every run |
| ReportRuns.NoneOvertakes | firmware/nrf54l15/src/report_builder.c:65-122 | Each tracker's delivered records, then its queued one, are in the order they were enqueued |
| ReportRuns.DeliveredInTime | firmware/nrf54l15/src/report_builder.c:65-122 | From any builder state, absent a clear, the first queued sample of a tracker, at position p, leaves in report p/3 + 1 from now, as the newest of its tracker by then |
| ReportRuns.SampleInTime | firmware/nrf54l15/src/report_builder.c:65-122 | In any run from boot this holds of the sample at any position p |
| ReportRuns.DiagnosticInTime | firmware/nrf54l15/src/report_builder.c:65-122 | A queued diagnostic leaves after as many reports, unchanged |
| ReportRuns.QueueBound | firmware/nrf54l15/src/report_builder.c:74-82 | At most 127 records ever wait, so that is at most 43 reports |
| ReportRuns.EmittedReportDecodes | bridge/src/report.rs:64-119 | From any builder state a report decodes to three records: the dequeued ones with their metadata, then registrations carrying the table's address, blanks only if none is registered |
| ReportRuns.ReportLayout | firmware/nrf54l15/src/report_builder.c:131-161 | The bytes of a report: records in order in the slots, the marker, the number of sensor records, and per slot its sequence number, signal strength and flags, or zeros |
| Hubs.ReceiverHub.IngestReport | bridge/src/hub.rs:37-94 | The loop over the records leaves the specified maps, counters and gate and returns the specified records; on a decode error nothing changes |
| HubRuns.MetricsCountOutcomes | bridge/src/hub.rs:44-92 | Over any run each source's counters equal the tally of what became of its records |
| HubRuns.Accounted | bridge/src/hub.rs:61-92 | received = accepted + duplicates + stale + CRC errors + records without a valid sequence, per source, in every run |
| HubRuns.PassedInOrder | bridge/src/hub.rs:50-92 | Of one report the records passed on are, in order, exactly those unchecked or accepted |
| HubRuns.RunPassedInOrder | bridge/src/hub.rs:50-92 | Over any run the records passed on are the in-order subsequence, of all records decoded, of exactly those unchecked or accepted |
| HubRuns.ErrorsChangeNothing | bridge/src/hub.rs:43 | A run ends in the same hub as the run without its undecodable reports |
| HubRuns.RunCalls | bridge/src/hub.rs:69-86 | Over any run the hub's one gate has judged exactly the sequence-valid records of all sources, in order |
| HubRuns.FirstCopyWins | bridge/src/hub.rs:69-86 | Across sources, with no silence of 250 ms between, an accepted packet is newer than every earlier one of its tracker: the first copy passes, later copies do not |
| HubLearning.LearnsExactly | bridge/src/hub.rs:52-55 | After any run the hub knows exactly the ids that each source has registered in a record of type 255 with an address in bytes 2 to 7 that is not zero, each under the last such address |
| HubLearning.OutcomesCalled | bridge/src/hub.rs:50-92 | A record is skipped if and only if it is all zero, a registration, or of an id its source has not registered before; any other is unchecked, a CRC error, without sequence, or judged under the address registered last, as the three bits of its flags say |
| HubLearning.PassedAsRegistered | bridge/src/hub.rs:50-92 | What a report passes on is, in order, each record of a registered id that is unchecked or accepted, under the address registered last |
| RfReceivers.RfReceiver.Add | firmware/nrf54l15/src/rf_receiver.c:94-109 | Registers an id with its address in table, count and report builder, or refuses and changes nothing |
| RfReceivers.RfReceiver.HandleRfV2 | firmware/nrf54l15/src/rf_receiver.c:127-163 | Receiver and builder after a packet, every rejection included |
| RfReceivers.RfReceiver.HandlePairRequest | firmware/nrf54l15/src/rf_receiver.c:165-214 | Receiver after a pairing request, and the reply, sent only if the record was queued |
| RfReceivers.RfReceiver.PersistNext | firmware/nrf54l15/src/rf_receiver.c:111-125 | One turn of the worker's loop: a record of another generation is dropped, else its entry is written and, only if that works, the count |
| RfReceivers.RfReceiver.ClearAll | firmware/nrf54l15/src/rf_receiver.c:380-395 | A clear forgets queue, table and count in RAM whether or not flash does, and says whether all worked |
| RfReceivers.RfReceiver.SetGroup | firmware/nrf54l15/src/rf_receiver.c:320-354 | A group change takes over the new role and forgets the table, or after a failed write keeps table and role and writes the old group back |
| ReceiverRuns.PairingStep | firmware/nrf54l15/src/rf_receiver.c:165-214 | A tracker that asks again keeps its id, a new one gets the next id if one of 32 is left, and it is answered if one of the eight places for records to store is free; the record names the id, address, count and generation |
| ReceiverRuns.RunOrderly | firmware/nrf54l15/src/rf_receiver.c:94-109 | In every run the entries from the count on are free, no address is twice in a primary's table, and the report builder has the same table |
| ReceiverRuns.StaysWelcome | firmware/nrf54l15/src/rf_receiver.c:143-157 | Once a tracker has an id, its intact sensor packets are taken at any point of any run, until a clear or a group change |
| ReceiverRuns.StartsAfresh | firmware/nrf54l15/src/rf_receiver.c:320-395 | After a clear or a group change table, queue and records to store are empty and the generation is the next; a cleared primary pairs at once under id 0, a primary after a group change does not, and a secondary takes any intact packet |
| ReceiverRuns.QueueIsHistory | firmware/nrf54l15/src/rf_receiver.c:127-163 | In every run from boot the report queue is the one that the packets' own history makes: a sample that replaces for each intact packet of a served tracker, a diagnostic that does not for each garbled one, and nothing for any other |
| ReceiverRuns.OneSampleEach | firmware/nrf54l15/src/rf_receiver.c:143-163 | In every run from boot the queue holds at most one sensor record of each tracker |
| ReceiverRuns.NewestWaits | firmware/nrf54l15/src/rf_receiver.c:143-163 | After an intact packet of a served tracker that record is this packet's, where the old one stood or else at the end; only behind at least 96 diagnostics is it dropped and counted |
| ReceiverRuns.GarbledWaits | firmware/nrf54l15/src/rf_receiver.c:131-141 | A garbled packet leaves a diagnostic with its signal strength and sequence number at the end, or is dropped and counted behind at least 95 |
| ReceiverRuns.PacketsCounted | firmware/nrf54l15/src/rf_receiver.c:135-159 | In every run the two status counters are the numbers of packets taken and of garbled ones, modulo 2^32 |
| PairingSteps.PersistInSteps | firmware/nrf54l15/src/rf_receiver.c:111-125 | The three steps of the worker, undisturbed, are one call of `PersistNext` |
| PairingSteps.ClearInSteps | firmware/nrf54l15/src/rf_receiver.c:380-395 | The steps of a clear, undisturbed, are one call of `ClearAll`, for each write that may fail |
| PairingSteps.JoinInSteps | firmware/nrf54l15/src/rf_receiver.c:320-354 | The steps of a group change, undisturbed, are one call of `SetGroup`, for each combination of failing writes |
| Attribution.StepKeeps | firmware/nrf54l15/src/rf_receiver.c:143-162 | Every step keeps the invariant that ties tables, queued records, reports in flight and the hub's id maps to packets heard |
| Attribution.RunKeeps | bridge/src/hub.rs:52-59 | So does every run, under loss, duplication and reordering |
| Attribution.PassedCameFromAddress | bridge/src/hub.rs:50-92 | Every CRC-valid record passed on for an address came from a packet heard from this address, and carries its sequence number, its signal strength, flags 7 and its data, byte 15 replaced by the signal strength except in types 1 and 4 |
| ReceiverStores.ReceiverStorage.constructor | firmware/nrf54l15/src/receiver_storage.c:33-61 | What boot loads from flash: a valid count, entries below it, zero where one is missing |
| ReceiverStores.ReceiverStorage.SetTracker | firmware/nrf54l15/src/receiver_storage.c:85-94 | Sets one entry in RAM, and in flash if the write works; ids past 31 change nothing |
| ReceiverStores.ReceiverStorage.SetTrackerCount | firmware/nrf54l15/src/receiver_storage.c:96-104 | Sets the count in RAM, and in flash if the write works; counts past 32 change nothing |
| ReceiverStores.ReceiverStorage.SetGroup | firmware/nrf54l15/src/receiver_storage.c:68-73 | Sets the low 48 bits of the group in RAM, and in flash if the write works |
| ReceiverStores.ReceiverStorage.ClearTrackers | firmware/nrf54l15/src/receiver_storage.c:106-116 | The delete loop and the zero count: a failing delete stops it with exactly the entries before it gone and RAM as it was |
| PairingPersistence.StepKeeps | firmware/nrf54l15/src/rf_receiver.c:111-125 | Every step, crash included, keeps the invariant between RAM table, persist queue, worker and flash |
| PairingPersistence.AcknowledgedIsKept | firmware/nrf54l15/src/rf_receiver.c:184-212 | On any flash, and whatever else fails: a pairing answered in the current generation is in flash below the count, in the queue or with the worker, in every run with fewer than 2^32 clears since boot in which no write of the worker has failed in this generation |
| PairingPersistence.WritesOnlyCurrent | firmware/nrf54l15/src/rf_receiver.c:117-122 | On any flash, in every run: the worker writes a record if and only if the clears and group changes since number a multiple of 2^32; otherwise flash is untouched |
| PairingPersistence.CrashLeavesLoadable | firmware/nrf54l15/src/receiver_storage.c:33-61 | From a filled flash, in every run without a failed write, a full queue or 2^32 clears: flash loads to accepted pairs only, and every id below the count is filled if and only if no clear is past its first delete and none was torn there by a crash without a later one completing |
| PairingPersistence.ClearCanTear | firmware/nrf54l15/src/receiver_storage.c:106-116 | A concrete crash inside a clear after which id 0 is empty and id 1 is still loaded |
| PairingLosses.AnsweredInPlace | firmware/nrf54l15/src/rf_receiver.c:193-212 | Answering a request puts the pairing in place, whatever went wrong before |
| PairingLosses.LostIff | firmware/nrf54l15/src/rf_receiver.c:115-123 | In any reachable state a step inside the generation leaves an answered pairing in place if and only if it is not a failing write of its only copy |
| PairingLosses.KeptIffNeverLost | firmware/nrf54l15/src/rf_receiver.c:111-125 | In every run, while its generation lasts, a pairing stays in flash, in the queue or with the worker at every point if and only if no write of its only copy fails |
| PairingLosses.ReachesFlash | firmware/nrf54l15/src/rf_receiver.c:111-125 | In every run: an answered pairing, if no write of the worker has failed since, is in flash below the count once the worker has had as many turns as records wait |
| PairingLosses.FailedWriteLoses | firmware/nrf54l15/src/rf_receiver.c:115-123 | A run of three steps after which an answered pairing is in none of the three places |
| PairingLosses.StaleWriteHappens | firmware/nrf54l15/src/rf_receiver.c:119 | A run in which, after exactly 2^32 clears, a record from before the first is written |
| ReplayCaches.CommandReplayCache.Find | protocol/command_replay_cache.c:11-21 | The scan returns the first entry for the request id, or none |
| ReplayCaches.CommandReplayCache.Store | protocol/command_replay_cache.c:23-30 | Overwrites the slot at the cursor and advances it cyclically; nothing else changes |
| ReplayCaches.HoldsLastEight | protocol/command_replay_cache.c:23-30 | After any history of stores slot i holds the last store whose turn it was, and unused slots are vacant |
| ReplayCaches.FoundIffRecent | protocol/command_replay_cache.c:11-30 | An id is found if and only if one of the last eight stores was for it |
| CommandClients.BridgeSpi.Issue | firmware/esp32c5/main/bridge_spi.c:223-231 | The critical section that publishes a command: a fresh request id, no response, no attempt made |
| CommandClients.BridgeSpi.TakeDone | firmware/esp32c5/main/bridge_spi.c:222 | Taking the binary semaphore without waiting; also the successful take on line 233 |
| CommandClients.BridgeSpi.PrepareCommand | firmware/esp32c5/main/bridge_spi.c:59-76 | A frame carries the command if and only if an attempt is due, under wrapping ticks; its fields, and the state left |
| CommandClients.BridgeSpi.AcceptResponse | firmware/esp32c5/main/bridge_spi.c:78-89 | Stores a response and signals completion exactly when a command is active under its id |
| CommandClients.BridgeSpi.PrepareFrame | firmware/esp32c5/main/bridge_spi.c:91-97 | The buffer holds the encoded frame of a due attempt, or an idle one; the sequence number advances |
| CommandClients.BridgeSpi.AcceptFrame | firmware/esp32c5/main/bridge_spi.c:118-135 | What a received frame does: a full report is queued if there is room, a response accepted, a garbled frame counted; the result says whether more is pending |
| CommandClients.RetrySpacing | firmware/esp32c5/main/bridge_spi.c:63-71 | In unwrapped ticks, after an attempt the next one is due if and only if attempts are left and 50 ticks have passed, up to 2^31 ticks later |
| CommandClients.ThreeFrames | firmware/esp32c5/main/bridge_spi.c:59-76 | A command's first frame is due at once, the second from exactly 50 ticks after the first, the third from exactly 50 ticks after the second, and a fourth never |
| CommandClients.BridgeSpi.Collect | firmware/esp32c5/main/bridge_spi.c:234-241 | Copies the stored response and its result, or reports the wrong size and copies nothing |
| CommandClients.BridgeSpi.Deactivate | firmware/esp32c5/main/bridge_spi.c:243-246 | After a timeout the command is inactive and counted |
| CommandServers.SpiBridge.PrepareTx | firmware/nrf54l15/src/spi_bridge.c:49-65 | The buffer holds the encoded frame: the waiting response, else a report, else idle, flagged if more is pending; the response is consumed |
| CommandServers.SpiBridge.Handle | firmware/nrf54l15/src/receiver_control.c:151-156 | Answers from the cache without executing, or executes and stores the answer |
| CommandServers.SpiBridge.ProcessRx | firmware/nrf54l15/src/spi_bridge.c:67-78 | Garbled frames are counted, commands handled, all else ignored |
| CommandWire.RequestArrives | firmware/nrf54l15/src/spi_bridge.c:67-78 | Through encode and decode the frame of an attempt is the command's own request, byte for byte, handled under its id; any other frame of the controller changes nothing |
| CommandWire.AnswerArrives | firmware/esp32c5/main/bridge_spi.c:78-89 | Through encode and decode an answer is heard as the reply executed, under its id, whatever flag the report queue adds |
| CommandWire.AnswerDelivered | firmware/esp32c5/main/bridge_spi.c:234-241 | Of an executed reply the caller gets a failure if it says so, else success, with all its bytes if they fit its room, exactly or with space to spare; a smaller room gets the wrong size, and no answer a timeout |
| CommandWire.FrameBytes | firmware/nrf54l15/src/spi_bridge.c:49-65 | The kind and flag bytes of command, answer, report and idle frames, with bit 0 for more pending and bit 1 for a failed command |
| CommandWire.ReportArrives | firmware/esp32c5/main/bridge_spi.c:126-134 | With no answer waiting, a ready report arrives as built, its flag true exactly if more is pending, and no command is affected |
| CommandRuns.ShapeStep | firmware/nrf54l15/src/spi_bridge.c:80-104 | Every step of every task keeps the invariant of the whole channel: callers, frames in flight, cache and history |
| CommandRuns.AtMostOnce | firmware/nrf54l15/src/receiver_control.c:151-156 | In every run a command is executed at most once, in the order of issue, with the bytes that were issued; no side condition |
| CommandRuns.AtMostThreeFrames | firmware/esp32c5/main/bridge_spi.c:64-72 | In every run no command is put in more than three frames |
| CommandRuns.ReturnsOfExecutions | firmware/esp32c5/main/bridge_spi.c:216-250 | What a caller is handed is the answer of an execution of its own command or of one a multiple of 65,536 before it |
| CommandRuns.StoredUntilCopied | firmware/esp32c5/main/bridge_spi.c:233-241 | Once the signal is taken, the stored response is for the caller's request id and no step of any task changes it before it is copied |
| CommandRuns.CompletionIsSound | firmware/esp32c5/main/bridge_spi.c:221-248 | In every run a command starts with no completion signalled and none can be by a late response under another id; the caller gets exactly what was stored |
| CommandDelivery.AttemptDelivers | firmware/esp32c5/main/bridge_spi.c:59-135 | An attempt that is due and gets through, and one frame more, hand the caller an answer; the command is executed unless the receiver has its answer already |
| CommandDelivery.LostRequestIsRetried | firmware/esp32c5/main/bridge_spi.c:59-76 | If the first frame is lost on its way there, the retry has the command executed once and hands over the answer |
| CommandDelivery.LostAnswerIsRetried | firmware/nrf54l15/src/receiver_control.c:151-156 | If the first answer is lost on its way back, the retry hands over that answer and nothing is executed again |
| CommandAliases.OwnRuns | firmware/esp32c5/main/bridge_spi.c:216-250 | Where nothing foreign is about under a command's id, no continuation hands its caller a foreign answer |
| CommandMixups.MisledIffAliased | firmware/esp32c5/main/bridge_spi.c:223-241 | At any issue in any run: some continuation hands the caller another command's answer if and only if its id has an alias in the cache or in flight |
| CommandMixups.NoAliasWhen | protocol/command_replay_cache.c:11-30 | There is no alias if fewer than 65,536 commands were issued or at least 8 of the 65,535 before were executed |
| CommandMixups.AnswersAreOwn | firmware/esp32c5/main/bridge_spi.c:216-250 | Under either condition, whatever follows, the caller gets the answer of its own command's execution |
| CommandMixups.MixupHappens | firmware/esp32c5/main/bridge_spi.c:225 | A run in which the 65,537th command is answered with the response to the first |
| FrameOrder.FrameInHalves | firmware/nrf54l15/src/spi_bridge.c:49-65 | The two looks at the report queue, taken one after the other, give the frame of `PrepareTx` |
| FrameOrder.StepKeeps | firmware/nrf54l15/src/spi_bridge.c:49-78 | Radio, pairing, clock, commands and frames each keep the promise of the last flag |
| FrameOrder.NeverIdleAfterMore | firmware/nrf54l15/src/spi_bridge.c:61-63 | In every run a frame flagged MORE_PENDING is never followed by an idle one, also across a clear or a group change |
| FrameOrder.FramesNumbered | firmware/nrf54l15/src/spi_bridge.c:52-55 | In every run the n-th frame carries sequence n modulo 2^16, responses included |
| ReadyHandshake.RunInStep | firmware/nrf54l15/src/spi_bridge.c:88-102 | A drain has at most eight transfers, and unless a poll misread it, READY is high exactly from the raise to the completion callback |
| ReadyHandshake.TransfersAreFresh | firmware/esp32c5/main/bridge_spi.c:137-170 | If each poll comes after the callback of the last transfer, every transfer of a drain finds a freshly armed peripheral |
| ReadyHandshake.MisreadClocksStale | firmware/esp32c5/main/bridge_spi.c:159-161 | A poll before that callback can clock a peripheral that is not armed |

## Left out

- Radio, GPIO, SPI, UDP, HID and flash drivers: a transaction is an exchange either half of which may be lost, the network may lose, repeat and reorder, a flash write works, fails, or is the last before a crash.
- Corruption that the CRC does not detect: the burst results bound it, the runs assume it does not happen.
- Wall-clock bounds: ticks and uptime are arbitrary or nondecreasing inputs, and waits end at any time.
- Web portal, Wi-Fi manager, configuration, logging, captive DNS and bridge/src/slimevr.rs: plumbing, or floating-point mathematics.
- firmware/esp32c5/main/gateway_udp.c and bridge/src/inputs.rs: only their order, decode, then gate, then ingest, is used.
- protocol/id48_codec.c, the RF-v2 CRC-32K, the pairing checksum and the address derivation: a packet says whether its check succeeded.
- What a command does when executed and the layout of status and tracker pages: the reply is an input of the step; clears and group changes are modelled where they matter.
- Reboots: the command results hold within one boot of both controllers, since a restart of one resets its request ids or its cache. The reboot that a receiver schedules after some commands is left out with them.
- Transfer, report and queue-drop counters of the controller: nothing reads them here.
- A mutex that a caller waits for in vain and arguments refused up front: such calls touch nothing.
- Flash reads that fail at boot, and 64-bit counters that overflow on the host.
- Bytes are integers, and an OR of bytes at disjoint positions is their sum; 32-bit words of the checksum are bit vectors.
- The runs of two or more components (attribution, persistence, commands, frame order) act on values; the classes are tied to those by their contracts, not by shared objects.
- Registrations every 100 ms are not claimed: a full report resets the timer without one (firmware/nrf54l15/src/report_builder.c:138-146).
- Attribution covers one boot of each receiver: a secondary forgets what it learnt when it reboots, while the hub keeps its ids.
- Attribution across a clear or a new pairing, a gate in which the newest boot wins, and tracker pages without overlap are not claimed either; the code does not provide them.
- Diagnostics of type 251 are counted by no hub metric, since their id 255 never resolves.
