# Verified model of the device firmware and its upload hosts

A Dafny model of the networked sensor firmware (ESP-IDF, C) and of the two Python
upload functions that talk to it, with proofs about image transfer, health
and recovery, lifeboat advertising, command lines and Wi-Fi credentials.

`dafny verify dfyconfig.toml` checks everything.

## How it is built

Each C file that changes state is a class or a method over arrays and fields
with the source's branches. Its contract ties the new state to a function of the
old one, and the properties are lemmas about those functions: invariants
of every step, statements over whole runs, equivalences.

* `Bytes`, `Text`: words, little-endian lanes, C strings, decimal and hex scanning.
* `Crc32`: the software checksum, bit by bit, and what it detects.
* `OtaFlash`: the flash device as a record of the calls made to it. Open handles,
  flashed bytes and boot switches are read off that record, never off the
  code's own counters.
* `OtaSession`, `OtaHeader`, `BleOta`, `BleHost`, `OtaTcp`: writer, session, the BLE
  transfer under a lossy channel, the TCP transfer under any segmentation.
* `HealthMonitor`, `RollbackPolicy`, `Coordinator`, `SystemRuns`,
  `Escalation`, `TransferInSystem`, `AuthInSystem`: the device across reboots, with the BLE transfer and the TCP
  connections inside it.
* `Lifeboat`: the advertising machine and its bounded queue.
* `CommandDispatch`, `LineAssembler`, `WifiCredentials`: command lines on two transports.
* `ErrSource`, `WifiBackoff`: the error source and the reconnect delay.

## Assumptions

* A GATT, Wi-Fi or command callback, and the handling of one queued event, is one
  atomic step. Some coordinator invariants fail at finer interleavings, for
  example between the check of the TCP proof and the change of mode.
* What the environment answers is a parameter of the call that asks: flash calls,
  receives, NVS writes, queue and timer creation, random numbers. Every answer is
  allowed unless a row says which one is needed.
* `esp_ota_begin` gives a new non-zero handle; `esp_ota_end` and `esp_ota_abort` consume
  it. The update partition is not the running one. After an official
  rollback the boot loader picks neither the slot just marked invalid nor an
  unverified one; after a manual fallback whose boot-partition call worked it picks
  that partition; and no boot makes a slot NEW or PENDING_VERIFY that was neither.
* An update slot holds at most 0xFFFF0000 bytes (the partition table gives each
  0x200000), and one session write carries at most 65535: a BLE write length has 16
  bits, a TCP block 4096 bytes.
* The checksum is the software branch of `ota_session.c`, used when neither IDF
  helper header exists. `sscanf` is taken from the C standard, with the clamping
  of newlib for numbers that do not fit.
* The service-started hook is modelled with `CONFIG_FEATURE_BLE_LIFEBOAT` on.

## Where the code differs from its documentation

The model follows the code.

* The repository's `README.md` and the comments say a complete image is finalized on disconnect and
  by FINISH. The last DATA frame has always finalized it already: neither branch
  succeeds (`DisconnectNeverFinishes`, `FinishNeverSucceeds`).
* That `README.md` lists a bare `ABORT`; the code accepts `BL_OTA ABORT` only.
* The software checksum leaves out the inversions of zlib's, so with that branch
  the hosts' own images pass, over TCP and BLE, only under the condition of `HostChecksumFits`. A
  checksum of 0 switches the check off, over TCP too.
* `ota_perform` begins a session on uninitialised memory; if it looks active the transfer
  is refused (`StaleMemoryOnlyRefuses`). The success results are for the other case.
* The watchdog of the lifeboat is stopped when recovery is left and never started again
  (`WatchdogStaysHalted`, `FailedStartStrandsSecondRecovery`).
* `app_cfg.h` speaks of 10% jitter either way; the code gives 5% (`WaitWindow`, `WindowIsTight`).
* `gatt_wifi_cred.c` says its two-line form carries SSIDs with spaces and empty
  passwords; the rebuilt `setwifi` line cannot (`CredentialRoundTrip`).
* `errsrc_set_enum` called twice with a code outside the table leaves code and string
  disagreeing (`UnknownCodeTwice`).

## Model

| member | source | states |
|---|---|---|
| `Crc32.UpdateRegister` | components/ota/ota_session.c:28-38 | the nested software loop computes the register function `Update`, whose laws the next rows prove |
| `Crc32.UpdateComposes` | components/ota/ota_session.c:28-38 | checking an image block by block gives the same register as checking it at once |
| `Crc32.BitStepInvertible` | components/ota/ota_session.c:34 | one bit step loses nothing: it has an inverse |
| `Crc32.UpdateInjective` | components/ota/ota_session.c:28-38 | over the same bytes, two registers agree afterwards exactly when they agreed before |
| `Crc32.UpdateIsOneInjection` | components/ota/ota_session.c:28-38 | up to four bytes act as one 32-bit value xored into the register, followed by an injective shift |
| `Crc32.BurstDetected` | components/ota/ota_session.c:28-38 | two equal-length images that differ at most inside one window of four bytes end in the same register exactly when they are equal |
| `Crc32.StartDifferencePropagates` | components/ota/ota_session.c:28-38 | a difference in the start value travels through the data as a shift that does not depend on the bytes |
| `Crc32.HostCrcAgreesByLengthOnly` | app/tcp_client.py:55 | the host's zlib checksum equals the software register exactly for lengths at which the all-ones word shifts to itself, whatever the bytes |
| `Crc32.HostCrcDiffersOnOneByte` | app/ble_client.py:89 | for every one-byte image the two checksums differ |
| `Crc32.CrcTrailerRoundTrip` | components/ota/ota_handler.c:105-108 | the device reads back the word the host packs little-endian |
| `Crc32.PolynomialExponents` | components/ota/ota_session.c:29 | the constant holds the exponents of the CRC-32 polynomial of RFC 1952, reflected |
| `Crc32.CheckValue` | app/tcp_client.py:55 | the host's checksum of 123456789 is the standard check value 0xCBF43926 |
| `OtaFlash.Appended` | components/ota/ota_writer.c:21-44 | how one more device call changes the open handles, the flashed bytes, the announced size, the boot switches and the discipline of the record |
| `OtaSession.OtaWriter.Begin` | components/ota/ota_writer.c:9-27 | no slot, image too large, refused begin and opened handle, with the state each leaves |
| `OtaSession.OtaWriter.Write` | components/ota/ota_writer.c:29-32 | no handle or no data is refused without a device call |
| `OtaSession.OtaWriter.End` | components/ota/ota_writer.c:34-40 | the handle is ended first; the boot partition is set only after that succeeded |
| `OtaSession.OtaWriter.Abort` | components/ota/ota_writer.c:42-47 | an open handle is given back once, and forgotten |
| `OtaSession.OtaSession.Begin` | components/ota/ota_session.c:45-67 | a busy session is left alone; otherwise all counters start from zero |
| `OtaSession.OtaSession.Write` | components/ota/ota_session.c:69-88 | bounds check, device write, counter, register and yield counter in the source's order, 32-bit sums included |
| `OtaSession.OtaSession.Finish` | components/ota/ota_session.c:90-114 | short image, checksum mismatch, failed end and success, with the handle's fate in each |
| `OtaSession.OtaSession.Abort` | components/ota/ota_session.c:116-121 | an idle session is left alone; an active one gives its handle back |
| `OtaSession.BegunInv` | components/ota/ota_session.c:45-67 | begin keeps the invariant that counters and register are exactly what the device record says |
| `OtaSession.WrittenInv` | components/ota/ota_session.c:69-88 | so does write, and the 32-bit sum in its bounds check is the true sum |
| `OtaSession.WrittenEffect` | components/ota/ota_session.c:69-88 | a block within bounds reaches the flash exactly when the device takes it, and nothing else changes |
| `OtaSession.FinishedEffect` | components/ota/ota_session.c:90-114 | finish succeeds exactly when the flashed bytes are complete, the checksum is right or waived, and the device ends and switches; the record shows which calls were made |
| `OtaSession.HandlesDisciplined` | components/ota/ota_session.c:45-121 | over every sequence of calls each handle is new when opened, used only while open, closed at most once, and none is open when idle |
| `OtaSession.BootSwitchedExactlyWhenDeserved` | components/ota/ota_session.c:90-114 | after any history a call sets the boot partition exactly when it finishes a session whose accepted writes are all the announced bytes in order with the expected checksum |
| `OtaSession.DamagedImageRefused` | components/ota/ota_session.c:100-106 | an image damaged within four consecutive bytes is refused, its handle given back, the boot partition untouched |
| `OtaSession.WriterRefuses` | components/ota/ota_writer.c:29-40 | when the writer refuses before any call to the device, and when it succeeds |
| `OtaSession.BeginAnswers` | components/ota/ota_session.c:45-67 | which cause gives which error code of begin; a refused begin leaves device and session as they were |
| `OtaSession.WriteAnswers` | components/ota/ota_session.c:69-78 | which cause gives which error code of write |
| `OtaSession.FinishAnswers` | components/ota/ota_session.c:90-114 | which cause gives which error code of finish, told from the flashed bytes |
| `OtaSession.YieldCounts` | components/ota/ota_session.c:82-86 | every accepted block counts towards the next yield, and 64 KiB reach it |
| `OtaSession.YieldsEvery64K` | components/ota/ota_session.c:82-86 | over every run fewer than 64 KiB have been written since the last yield |
| `Bytes.Le32RoundTrip` | components/ble/gatt/ble_ota.c:42 | the 32-bit reader inverts the host's little-endian packing |
| `Bytes.Le16RoundTrip` | components/ble/gatt/ble_ota.c:43 | the 16-bit reader inverts the host's little-endian packing |
| `OtaHeader.CopyLine` | components/ble/gatt/ble_ota.c:51-55 | the control line is cut to 127 bytes and at a NUL, with line ends blanked in place |
| `OtaHeader.StartRoundTrip` | components/ble/gatt/ble_ota.c:62-66 | for every non-zero size and every 32-bit checksum the START line the host prints survives the copy and parses to the same pair |
| `OtaHeader.ControlWords` | components/ble/gatt/ble_ota.c:59-112 | the three control words, spelled out |
| `OtaHeader.LineBegins` | components/ble/gatt/ble_ota.c:51-59 | the copied line begins with a control word exactly when the written bytes do, line ends counting as blanks |
| `OtaHeader.LineIs` | components/ble/gatt/ble_ota.c:51-56 | the copied line byte by byte: up to the first NUL or the 127th byte, CR and LF blanked |
| `OtaHeader.SizeRoundTrip` | components/ble/gatt/ble_ota.c:63 | every decimal size is read back, clamped to 32 bits |
| `OtaHeader.SignedSize` | components/ble/gatt/ble_ota.c:63 | a minus sign wraps the size, a plus sign is ignored |
| `OtaHeader.CrcAfterPrefix` | components/ble/gatt/ble_ota.c:63 | the checksum may carry a 0x |
| `OtaHeader.NegatedCrc` | components/ble/gatt/ble_ota.c:63 | a minus sign negates the checksum modulo 2 to the 32nd |
| `OtaHeader.LongCrc` | components/ble/gatt/ble_ota.c:63 | more than eight significant digits are clamped |
| `OtaHeader.NoImageWithoutSize` | components/ble/gatt/ble_ota.c:63-66 | size zero and a line without a number are malformed |
| `Text.WhiteSpace` | components/ble/gatt/ble_ota.c:63 | the blanks that a scan skips are those of the C standard |
| `Text.HexInEitherCase` | components/ble/gatt/ble_ota.c:63 | hexadecimal digits of either case read the same |
| `OtaHeader.FrameRoundTrip` | app/ble_client.py:107 | the device decodes sequence number, length and payload of every frame the host packs |
| `BleOta.BleOta.OnCtrlWrite` | components/ble/gatt/ble_ota.c:47-121 | which control line does what, from any state |
| `BleOta.BleOta.OnStart` | components/ble/gatt/ble_ota.c:59-92 | busy, malformed, forbidden outside recovery, refused by the session, or started with the monitor latched |
| `BleOta.BleOta.Open` | components/ble/gatt/ble_ota.c:73-91 | the session begun, and on success the transfer state, the monitor latch and the acknowledgement |
| `BleOta.BleOta.OnFinish` | components/ble/gatt/ble_ota.c:94-110 | finish and restart, or report and reset |
| `BleOta.BleOta.OnDataWrite` | components/ble/gatt/ble_ota.c:123-182 | which frames are dropped, written, counted, fatal or final |
| `BleOta.BleOta.OnDisconnect` | components/ble/gatt/ble_ota.c:184-204 | finish a complete transfer, abort any other |
| `BleOta.StartedLockstep` | components/ble/gatt/ble_ota.c:59-92 | START keeps both layers in agreement; a transfer begins only in recovery and with the monitor latched |
| `BleOta.FinishNeverSucceeds` | components/ble/gatt/ble_ota.c:94-110 | FINISH never reports success: an active transfer is short of its image, so it is aborted |
| `BleOta.DisconnectNeverFinishes` | components/ble/gatt/ble_ota.c:184-204 | a disconnect always aborts an active transfer; the finalize branch is never reached |
| `BleOta.EmptyFrameAborts` | components/ble/gatt/ble_ota.c:145-153 | a well-formed frame without payload kills the transfer |
| `BleOta.AbortLine` | components/ble/gatt/ble_ota.c:112-118 | a line that begins with BL_OTA ABORT drops an active transfer, gives its handle back and says OK ABORTED; without a transfer it only answers ERR NOACTIVE |
| `BleOta.FinishLine` | components/ble/gatt/ble_ota.c:94-110 | a line that begins with BL_OTA FINISH drops an active transfer with ERR FINISH; without one it only answers ERR NOACTIVE |
| `BleOta.StartLine` | components/ble/gatt/ble_ota.c:59-92 | the reply to START for every state and argument, and that a refused one changes nothing |
| `BleOta.OtherLine` | components/ble/gatt/ble_ota.c:120 | any other line is only answered ERR UNKNOWN, an empty write not at all |
| `BleOta.FrameAnswers` | components/ble/gatt/ble_ota.c:123-182 | the exact replies to a frame: none, ERR WRITE, progress, and at the end OK REBOOTING exactly if the device restarts and ERR FINISH otherwise |
| `BleOta.OneReportPerMark` | components/ble/gatt/ble_ota.c:155-164 | over every run an active transfer has reported exactly once per 256 KiB written |
| `BleOta.SessionNeverOverflows` | components/ble/gatt/ble_ota.c:140-156 | for a frame the hook passes on, the session's own overflow check is silent and no counter wraps |
| `BleOta.TakenFrame` | components/ble/gatt/ble_ota.c:140-182 | a taken frame appends exactly its payload to the flash and moves the sequence number by one, or ends the transfer |
| `BleOta.TakenFrameRestarts` | components/ble/gatt/ble_ota.c:146-181 | a taken frame restarts the device exactly when it is the last, the checksum of the whole image fits and the device ends and switches |
| `BleOta.CompletedEffect` | components/ble/gatt/ble_ota.c:165-181 | the last frame restarts the device exactly when the image is complete, its checksum right and the device switches |
| `BleOta.StepLockstep` | components/ble/gatt/ble_ota.c:47-204 | every hook keeps both layers active together with equal counters, strictly short of the total |
| `BleOta.LayersAgree` | components/ble/gatt/ble_ota.c:47-204 | over every sequence of hooks both layers agree, and an idle or restarted device holds no handle |
| `BleOta.RestartMeansSwitched` | components/ble/gatt/ble_ota.c:166-181 | the device restarts only on a last frame, after OK REBOOTING, with the whole announced image flashed, its checksum right and the boot partition set once |
| `BleHost.Upload` | app/ble_client.py:86-141 | every write the host attempts and what it returns, for every pattern of refused writes: START, the frames up to the first refusal, then ABORT or FINISH |
| `BleHost.SendFrames` | app/ble_client.py:101-110 | the DATA loop attempts exactly the frames of the image, numbered from zero, up to the first refused write |
| `BleHost.TriedInOrder` | app/ble_client.py:104-123 | what got through is a run of the frames from the first, all of them exactly when the upload succeeds |
| `BleHost.FramesFitTheMtu` | app/ble_client.py:98-99 | frames fit a write exactly from an MTU of 17 on, and fill it up to 189 |
| `BleHost.UploadEnds` | app/ble_client.py:92-141 | a refused START ends the upload; FINISH follows exactly a complete one and ABORT exactly a refused frame |
| `BleHost.FramesSplitImage` | app/ble_client.py:105-110 | the frames are well-formed, numbered without gaps, and their payloads join to the image |
| `BleHost.OtherFrameDropped` | components/ble/gatt/ble_ota.c:134-138 | a late or early frame of the host changes nothing |
| `BleHost.NextFrameTaken` | components/ble/gatt/ble_ota.c:140-182 | the expected frame is written and moves the transfer on |
| `BleHost.StartOpensTransfer` | components/ble/gatt/ble_ota.c:59-92 | the host's own START opens exactly the transfer its frames belong to |
| `BleHost.AbortMakesRoom` | app/ble_client.py:119-123 | the host's ABORT ends the transfer on the device and gives its handle back, and its next START opens a new one |
| `BleHost.LastByteExactlyWhenInOrder` | components/ble/gatt/ble_ota.c:123-182 | under any loss, duplication and reordering the last byte is reached exactly when the frames occur in order among the deliveries; until then the flash holds the frames before the expected number |
| `BleHost.HostImageInstalled` | components/ble/gatt/ble_ota.c:165-181 | the host's upload over a lossy channel to a working device restarts it, with exactly the image on its flash, if and only if the frames occur in order among the deliveries and the checksum in START is 0 or the register of the image |
| `BleHost.NeverAnythingButThePrefix` | components/ble/gatt/ble_ota.c:123-182 | even when flash writes fail, what is on the flash is a prefix of the image |
| `OtaTcp.Socket.Recv` | components/ota/ota_handler.c:29 | what one receive may do: some bytes off the front of the stream, interruption, failure or end |
| `OtaTcp.RecvFully` | components/ota/ota_handler.c:25-35 | all the bytes asked for, in place and in order, or the first end or failure |
| `OtaTcp.ReceivePayload` | components/ota/ota_handler.c:73-95 | the receive loop writes the payload in blocks of at most 4096 bytes and stops at the first failure |
| `OtaTcp.ReceiveTrailer` | components/ota/ota_handler.c:97-128 | the trailing checksum set on the session, the finish and the reply it leads to |
| `OtaTcp.Perform` | components/ota/ota_handler.c:47-129 | the whole transfer: replies, device state, stream consumed and restart, for every behaviour of socket and device |
| `OtaTcp.FullTakesFromTheFront` | components/ota/ota_handler.c:25-35 | a full receive takes exactly its bytes off the front of the stream, however they came |
| `OtaTcp.StreamedEffect` | components/ota/ota_handler.c:73-95 | a completed payload phase has flashed the first bytes of the stream in 4096-byte blocks; a broken one left everything consistent |
| `OtaTcp.StaleMemoryOnlyRefuses` | components/ota/ota_handler.c:58-64 | an uninitialised session that happens to look active ends the transfer before the device is touched |
| `OtaTcp.EveryPathCleansUp` | components/ota/ota_handler.c:60-120 | on every path the handles are used in order and none is left open |
| `OtaTcp.RefusalReplies` | components/ota/ota_handler.c:48-71 | the reply and error of a transfer that stops before a byte is received, by cause |
| `OtaTcp.RepliesWhenDelivered` | components/ota/ota_handler.c:86-122 | with everything delivered the last reply and the error name the first thing that went wrong: a refused block, the checksum, the end of the image, or nothing |
| `OtaTcp.RepliesWhenCutOff` | components/ota/ota_handler.c:78-104 | with the flash working, a network that gives up is told whether it was in the payload or in the trailer |
| `OtaTcp.BlocksAreBounded` | components/ota/ota_handler.c:73-95 | every block but the last is 4096 bytes, the last at most that |
| `OtaTcp.SucceedsExactly` | components/ota/ota_handler.c:73-129 | a transfer succeeds exactly when image and trailer are delivered and acceptable; it then consumed size + 4 bytes, flashed the first size of them in blocks and switched the boot partition |
| `OtaTcp.SegmentationDoesNotMatter` | components/ota/ota_handler.c:25-35 | two networks that deliver the same bytes in different pieces give the same transfer, successful or not |
| `OtaTcp.PatientNetworkDelivers` | components/ota/ota_handler.c:25-35 | a connection that keeps bringing bytes delivers, with any segmentation and any interruptions |
| `OtaTcp.SendImage` | app/tcp_client.py:90-101 | the host's pieces join to the image and its trailer, none exceeds 16 KiB, and progress is reported in increasing order up to the size |
| `OtaTcp.HostImageInstalled` | app/tcp_client.py:93-101 | what the host sends over a patient connection is installed byte for byte exactly when the trailer fits and the device works |
| `Crc32.HostChecksumFits` | app/tcp_client.py:55 | the exact condition under which the checksum the hosts send satisfies the software check, over either transport |
| `OtaTcp.BurstNeverInstalled` | components/ota/ota_handler.c:105-120 | an image hit on the way by a burst of at most four bytes is never installed when the trailer is the device's own non-zero checksum of the good image |
| `HealthMonitor.Monitor.OnWifiError` | components/monitor/monitor.c:38-76 | latch, clear, saturating count and the three outcomes of a report |
| `HealthMonitor.Monitor.ControlOk` | components/monitor/monitor.c:29-34 | latches once, and clears the streak only then |
| `HealthMonitor.StateIsHistory` | components/monitor/monitor.c:22-76 | the latch and the streak since arming, told from the reports alone |
| `HealthMonitor.VerdictIsHistory` | components/monitor/monitor.c:38-76 | recovery is requested exactly at the first second failure in a row before any control-ok; a rollback is considered exactly at first failures in a row until then |
| `HealthMonitor.RecoveryRequestedAtMostOnce` | components/monitor/monitor.c:73-74 | the timeout callback fires at most once per arming, and nothing is asked for after it |
| `HealthMonitor.LatchIsFinal` | components/monitor/monitor.c:22-76 | the event that latches the monitor fixes its streak for good |
| `HealthMonitor.StreakNeverSaturates` | components/monitor/monitor.c:47-48 | the saturating branch is never taken; an unlatched streak is at most one |
| `RollbackPolicy.IsRollbackEligible` | components/monitor/monitor_policy.c:12-23 | eligible exactly on an OTA slot whose readable state is NEW or PENDING_VERIFY |
| `RollbackPolicy.SelectManualFallbackTarget` | components/monitor/monitor_policy.c:25-42 | factory first, then the other slot, never the running partition |
| `RollbackPolicy.TryRollbackNow` | components/monitor/monitor_policy.c:44-66 | official rollback, or flag, boot partition and restart, or nothing to fall back to |
| `RollbackPolicy.TargetIsElsewhere` | components/monitor/monitor_policy.c:39-41 | a target is present and not running; from an OTA slot there is none only when no other partition exists |
| `RollbackPolicy.FactoryComesFirst` | components/monitor/monitor_policy.c:39-41 | from an OTA slot the fallback is factory exactly if there is one, and otherwise the other slot exactly if there is one |
| `RollbackPolicy.RollbackEffect` | components/monitor/monitor_policy.c:44-66 | when a rollback reboots and how, and what it does to the images, the flag and the boot partition |
| `RollbackPolicy.BootedFlag` | main/main.c:29-33 | a boot of factory drops the flag if it can be written, a boot of a slot keeps it, and any non-zero byte is a flag that is up |
| `RollbackPolicy.BootFlag.SetPostRollback` | components/bootflag/bootflag.c:19-23 | the persistent byte afterwards, a failed write included |
| `Coordinator.Syscoord.constructor` | components/syscoord/sys_core.c:59-85 | what a boot sets up: waiting for control, monitor armed, lifeboat off |
| `Coordinator.Syscoord.SetMode` | components/syscoord/sys_core.c:26-56 | a repeated mode does nothing; each new mode has its side effects |
| `Coordinator.Syscoord.EnqueueRecovery` | components/syscoord/sys_priv.h:37-40 | a request is dropped when four are waiting |
| `Coordinator.Syscoord.OnWifiState` | components/syscoord/sys_events.c:5-14 | losing Wi-Fi drops the TCP proof and leaves NORMAL |
| `Coordinator.Syscoord.ControlPathOk` | components/syscoord/sys_policy.c:11-30 | only an authenticated TCP proof marks the image valid, latches the monitor and promotes |
| `Coordinator.Syscoord.AuthOverTcp` | components/cmd/cmd_auth.c:59-62 | an accepted AUTH over TCP records the proof and then promotes |
| `Coordinator.Syscoord.WorkerTurn` | components/syscoord/sys_policy.c:38-55 | one queued request enters recovery and brings the lifeboat up, whatever the mode has become |
| `Coordinator.Syscoord.OnWifiError` | components/monitor/monitor.c:38-76 | the monitor's verdict carried out: rollback attempt or recovery request |
| `Coordinator.Syscoord.GotIp` | components/net/wifi/wifi_event.c:31-57 | coordinator, error source and monitor in the source's order |
| `Coordinator.Syscoord.GotIpLost` | components/net/wifi/wifi_event.c:59-74 | a specific Wi-Fi failure is not overwritten and not counted again |
| `Coordinator.Syscoord.WifiEvt` | components/net/wifi/wifi_event.c:76-123 | which Wi-Fi event reports which error, in which order |
| `SystemRuns.NextCore` | components/syscoord/sys_core.c:26-56 | every callback, worker turn and reboot keeps the coordinator invariant |
| `SystemRuns.CoordinatorInvariant` | components/syscoord/sys_policy.c:11-30 | from any board over every run, stale recovery requests included: NORMAL means TCP-authenticated, monitor latched, lifeboat off; a lifeboat that is on means RECOVERY; in NORMAL the flag is up exactly if it was up and could not be written at the promotion that entered it, and the image is unverified exactly if it was then and no promotion since could mark it |
| `SystemRuns.PromotionEffect` | components/syscoord/sys_policy.c:19-29 | a promotion ends in NORMAL; afterwards the image is unverified exactly if it was and the mark failed, and the flag is up exactly if it was and NORMAL was not just entered with a working write |
| `SystemRuns.StaysNormal` | components/syscoord/sys_core.c:26-28 | while NORMAL lasts the flag does not change, and the image changes only by a promotion that marks it |
| `SystemRuns.OrdinaryStep` | components/syscoord/sys_events.c:5-14 | without promotion or reboot the mode moves only to recovery by the worker or out of NORMAL by a Wi-Fi loss, and a latched monitor outside NORMAL stays latched |
| `SystemRuns.ModeChangesOnlyByPromotionOrReboot` | components/syscoord/sys_core.c:26-56 | RECOVERY is left only by an authenticated promotion or a reboot; NORMAL is entered exactly by a promotion |
| `SystemRuns.RollbackNeedsUnlatchedMonitor` | components/monitor/monitor.c:56-67 | the monitor rolls back only on a Wi-Fi failure, with an unverified image and a clear flag, in NORMAL or unlatched with an empty streak |
| `SystemRuns.NoRollbackMidFlash` | components/ble/gatt/ble_ota.c:87-88 | over every run, a rollback while a BLE transfer is active happens only if, since that transfer began, an unverified image was promoted and could not be marked valid |
| `SystemRuns.RollbackExactlyWhenDue` | components/monitor/monitor.c:56-60 | some event makes the monitor roll back if and only if the image is unverified, the flag clear, and the mode NORMAL or the monitor unlatched with an empty streak |
| `SystemRuns.StepShields` | components/syscoord/sys_policy.c:19-28 | each step of a transfer keeps rollbacks out of reach unless it is a promotion whose mark fails |
| `SystemRuns.MidFlashRollbackExactlyWhenUnverified` | components/ble/gatt/ble_ota.c:87-88 | during a transfer some continuation of it ends in a rollback if and only if the running image is still unverified |
| `SystemRuns.StaysSpent` | components/monitor/monitor_policy.c:44-66 | once the flag is up or no unverified image is left, every step but a rescue keeps it so and rolls nothing back |
| `SystemRuns.NoRollbackLoop` | components/monitor/monitor_policy.c:44-66 | over every multi-boot run, between two rollbacks by the monitor there is a proof of control, a finished OTA or a boot of the factory image, or else the first was a manual fallback that lost its flag |
| `SystemRuns.RollbackSpends` | components/monitor/monitor_policy.c:44-66 | a rollback that does not boot factory uses up the chance of another exactly unless a manual fallback lost its flag with an unverified image still there |
| `SystemRuns.RollbackPossibleExactlyWhenUnspent` | components/monitor/monitor.c:56-60 | from a boot, some run without any rescue reaches a rollback if and only if the flag is clear and a slot is unverified |
| `SystemRuns.LoopExactlyWhenFlagLost` | components/monitor/monitor_policy.c:52-58 | after a rollback a further one without rescue is possible if and only if the flag of a manual fallback was lost |
| `SystemRuns.FlagWriteFailureLoops` | components/monitor/monitor_policy.c:54-58 | a concrete run in which a lost flag leads to two rollbacks in a row |
| `SystemRuns.MarkFailureRollsBackMidFlash` | components/syscoord/sys_policy.c:21-24 | a concrete run in which a failed mark leads to a rollback during a transfer |
| `TransferInSystem.TransferLatches` | components/ble/gatt/ble_ota.c:87-88 | a transfer touches the monitor only when it begins, and then latches it |
| `TransferInSystem.TransferIsSystemStep` | components/ble/gatt/ble_ota.c:47-204 | each hook of the detailed transfer is one step of the system model: a start in recovery, an end, a finished OTA, or nothing |
| `TransferInSystem.NoRollbackWhileHandleOpen` | components/ble/gatt/ble_ota.c:68-88 | for every interleaving of frames, control lines, Wi-Fi events, promotions and reboots: while the transfer holds a flash handle, a rollback happens only after a promotion since the transfer began that could not mark an unverified image |
| `SystemRuns.ManualFallbackReachesFactory` | components/monitor/monitor_policy.c:50-58 | on a device with a factory image a manual fallback that could set the boot partition boots factory, which is a rescue |
| `Escalation.WifiEventIsReported` | components/net/wifi/wifi_event.c:80-122 | every Wi-Fi event leaves the text of its own reason in the error source |
| `Escalation.IpIsReported` | components/net/wifi/wifi_event.c:41-73 | a gained address clears the report; a lost one is reported unless one of five specific failures is |
| `Escalation.EventEffect` | components/monitor/monitor.c:38-76 | what any event does to the monitor, the recovery queue and the TCP proof, and when it reboots, read off what the monitor hears |
| `Escalation.FirstFailureRollsBack` | components/monitor/monitor.c:56-60 | with an unverified image and a clear flag, a first failure of any kind rolls back exactly if there is a way to |
| `Escalation.TwoFailuresAskForRecovery` | components/monitor/monitor.c:69-75 | two failures in a row with nothing heard between them leave a recovery request in the queue |
| `Escalation.WorkerEntersRecovery` | components/syscoord/sys_policy.c:38-55 | a queued request enters RECOVERY and turns the lifeboat on at the worker's next turn |
| `Escalation.TwoFailuresReachRecovery` | components/syscoord/sys_policy.c:38-55 | the whole way from two failures in a row to RECOVERY with the lifeboat on |
| `Escalation.EntryHides` | components/syscoord/sys_core.c:37-50 | entering WAIT_CONTROL or NORMAL turns the lifeboat off and puts radio, link and watchdog to rest |
| `Escalation.BootStartsClean` | components/syscoord/sys_core.c:59-85 | what every boot starts from |
| `SystemRuns.TwoRollbacksHappen` | components/monitor/monitor_policy.c:44-66 | a run with two rollbacks and a new image between them, so the statement above is about runs that exist |
| `TransferInSystem.TransferCanBeUnderWay` | components/ble/gatt/ble_ota.c:59-92 | from every board some run reaches a state with a transfer holding a handle |
| `AuthInSystem.CmdAuth` | components/cmd/cmd_auth.c:47-67 | the right token on a TCP connection authenticates the link and proves control to the coordinator; a wrong one does neither |
| `AuthInSystem.GrantIsAuthLine` | components/cmd/cmd_auth.c:47-67 | a byte or a hang-up grants exactly when it ends a line that is AUTH, in any case and spacing, with the token in force |
| `AuthInSystem.GrantPromotes` | components/cmd/cmd_auth.c:58-62 | a grant puts the system in NORMAL at once; a byte or hang-up that grants nothing leaves it alone |
| `AuthInSystem.TokenIsShared` | components/cmd/cmd_auth.c:11 | a token set on one connection is the one in force on all of them, and nothing but a connection's lines changes it |
| `AuthInSystem.ConnectionsGuarded` | components/cmd/command.c:50-53 | over every mixture of events, on every TCP connection, nothing but the open commands runs before its own granted AUTH |
| `AuthInSystem.NormalMeansAuthenticated` | components/cmd/cmd_auth.c:47-67 | over every mixture of TCP connections, Wi-Fi events, BLE transfers and reboots: NORMAL means that some TCP connection completed an AUTH line with the token then in force, and nothing has left NORMAL since |
| `Lifeboat.Lifeboat.BleLifeboatSet` | components/ble/fallback/fb_core.c:50-64 | off stops and forgets a deferred start; on posts a kick or defers it |
| `Lifeboat.Lifeboat.BleStartAdvertising` | components/ble/fallback/fb_core.c:70-81 | ignored, deferred or posted |
| `Lifeboat.Lifeboat.BleSetConnected` | components/ble/fallback/fb_core.c:84-94 | a disconnect posts a kick or defers it while the lifeboat is on |
| `Lifeboat.Lifeboat.BleFallbackInit` | components/ble/fallback/fb_core.c:96-170 | skipped for a stack already up; otherwise the flags it clears and the queue and timer it creates |
| `Lifeboat.Lifeboat.BleFallbackStop` | components/ble/fallback/fb_core.c:172-180 | the transient flags cleared and the watchdog stopped |
| `Lifeboat.Lifeboat.FbAdvKick` | components/ble/fallback/fb_gap.c:21-40 | a kick is ignored, deferred, or issues one or two start calls |
| `Lifeboat.Lifeboat.FbGapEvt` | components/ble/fallback/fb_gap.c:65-126 | each radio event's flags, and the deferred start honoured once both payloads are set |
| `Lifeboat.Lifeboat.AdvWatchCb` | components/ble/fallback/fb_gap.c:43-49 | an idle lifeboat is kicked |
| `Lifeboat.Lifeboat.BlePost` | components/ble/fallback/fb_worker.c:33-36 | a kick is queued unless there is no queue or eight are waiting |
| `Lifeboat.Lifeboat.BleWorkerTurn` | components/ble/fallback/fb_worker.c:16-31 | one queued kick is carried out |
| `Lifeboat.FlagsAreHistory` | components/ble/fallback/fb_core.c:50-180 | over every run from boot: connected, lifeboat, radio and payload flags are exactly what the last relevant events say |
| `Lifeboat.RunReached` | components/ble/fallback/fb_gap.c:65-126 | in every state reached the payload is ready exactly if both its parts are set, no kick or start exists without the queue, and a start is deferred only while the lifeboat is on and always while it is on without its payload |
| `Lifeboat.QueueMoves` | components/ble/fallback/fb_worker.c:16-36 | the queue grows exactly by the listed requests while there is room, and shrinks by one per worker turn |
| `Lifeboat.RadioCalls` | components/ble/fallback/fb_gap.c:21-40 | only a worker turn on a wanted lifeboat starts advertising; only its retry and a hide stop it |
| `Lifeboat.DisconnectAdvertisesAgain` | components/ble/fallback/fb_core.c:84-94 | after a client has gone a ready lifeboat is wanted, has a kick queued, and starts at the worker's next turn |
| `Lifeboat.HideRests` | components/ble/fallback/fb_core.c:172-180 | hiding leaves lifeboat, link, radio and watchdog at rest and stops a running radio |
| `Lifeboat.StepKeepsWakeUp` | components/ble/fallback/fb_gap.c:21-40 | after any step a wanted lifeboat has a kick queued, a start just issued, or nothing happened to the earlier one |
| `Lifeboat.NoLostWakeUp` | components/ble/fallback/fb_core.c:50-94 | over every run: when lifeboat, stack and payload are ready and nobody is connected, a kick is queued or a start was issued since that became true or advertising last stopped, exactly when the queue could be created |
| `Lifeboat.WatchdogStaysHalted` | components/ble/fallback/fb_gap.c:50-58 | a stopped watchdog never runs again, because bring-up is skipped and its timer is created once |
| `Lifeboat.WatchIsHistory` | components/ble/fallback/fb_gap.c:50-58 | over every run the watchdog exists exactly if its timer could be created at the first entry into recovery, and is halted exactly if the lifeboat was hidden since |
| `Lifeboat.TickRescuesExactlyIfTicking` | components/ble/fallback/fb_gap.c:43-49 | an idle, ready lifeboat with an empty queue is woken by the next tick exactly when the watchdog is running |
| `Lifeboat.FailedStartStrandsSecondRecovery` | components/ble/fallback/fb_core.c:172-180 | a concrete run in which a failed start during a second recovery leaves the lifeboat silent |
| `ErrSource.StrToEnum` | components/errsrc/errsrc.c:28-34 | the table search, NULL and empty string included |
| `ErrSource.ErrSource.Set` | components/errsrc/errsrc.c:41-54 | what is stored and when the subscriber is called |
| `ErrSource.ErrSource.SetCode` | components/errsrc/errsrc.c:36-39 | the code is stored first, then its string is set |
| `ErrSource.ErrSource.Subscribe` | components/errsrc/errsrc.c:60-63 | the new subscriber gets the current snapshot |
| `ErrSource.CodeRoundTrip` | components/errsrc/errsrc.c:22-34 | enum to string to enum is the identity in range |
| `ErrSource.CanonicalStrings` | components/errsrc/errsrc.c:9-20 | the ten canonical strings, and UNKNOWN for everything else |
| `ErrSource.ShortStringIsStored` | components/errsrc/errsrc.c:41-54 | a string that fits is what is stored afterwards, NONE standing for NULL and the empty string |
| `ErrSource.LongStringIsCut` | components/errsrc/errsrc.c:45-49 | a string of 64 characters or more is always stored, cut to 63 |
| `ErrSource.CodeIsStored` | components/errsrc/errsrc.c:36-39 | a code in range is stored exactly, with its string, whatever was there before |
| `ErrSource.AgreesAfterString` | components/errsrc/errsrc.c:41-54 | for strings of any length, code and string agree afterwards exactly when they did before or something was stored |
| `ErrSource.AgreesAfterCode` | components/errsrc/errsrc.c:36-39 | setting a code breaks the agreement exactly for a second code outside the table |
| `ErrSource.NotifiedExactlyOnChange` | components/errsrc/errsrc.c:44-53 | the subscriber is called without a change exactly for over-long repeats of the stored prefix |
| `ErrSource.CodeAndStringAgree` | components/errsrc/errsrc.c:22-54 | over every sequence of calls with codes in range the stored code is the lookup of the stored string |
| `ErrSource.AgreesFromBoot` | components/errsrc/errsrc.c:4-6 | so from the initial NONE on, code and string agree after every such sequence |
| `ErrSource.UnknownCodeTwice` | components/errsrc/errsrc.c:36-39 | the same code outside the table, set twice, leaves the pair disagreeing |
| `CommandDispatch.RtrimN` | components/cmd/command.c:11-15 | trailing blanks become NULs in the buffer, the rest stays |
| `CommandDispatch.LskipN` | components/cmd/command.c:19-25 | where the first non-blank stands |
| `CommandDispatch.Lookup` | components/cmd/command.c:47-58 | the first table entry of the same length and letters, case aside |
| `CommandDispatch.CmdCtx.DispatchLine` | components/cmd/command.c:27-62 | nothing, WHAT, DENIED or the command with its arguments as a C string, for every buffer |
| `CommandDispatch.CmdCtx.Execute` | components/cmd/cmd_auth.c:47-81 | the right token authenticates the link; SETTOKEN replaces it; no other command touches either |
| `CommandDispatch.SpacingDoesNotMatter` | components/cmd/command.c:27-44 | blanks around and between the words do not change name and arguments |
| `CommandDispatch.FindIsExact` | components/cmd/cmd_table.c:20-34 | no two entries share a name, so an entry is found exactly for its own name |
| `CommandDispatch.CommandTable` | components/cmd/cmd_table.c:20-34 | the thirteen names, spelled out and in order |
| `CommandDispatch.FlagIsByName` | components/cmd/cmd_table.c:20-34 | an entry needs authentication exactly if its name is one of the seven privileged ones spelled out |
| `CommandDispatch.FoundByName` | components/cmd/command.c:47-58 | a name is found, with the right flag, exactly if it is in one of the two spelled-out lists |
| `CommandDispatch.NameDecides` | components/cmd/command.c:27-62 | an open command runs, a privileged one runs on an authenticated link and is denied on any other, anything else is WHAT, a blank line nothing; only AUTH and SETTOKEN touch the link |
| `CommandDispatch.CaseIsFolded` | components/cmd/command.c:49 | two bytes fold to the same one exactly if they are equal or the two cases of one ASCII letter |
| `CommandDispatch.CapitalsDoNotMatter` | components/cmd/command.c:49 | names are the same exactly up to the case of ASCII letters |
| `CommandDispatch.AuthComparesTokens` | components/cmd/cmd_auth.c:47-67 | AUTH grants exactly if its argument is the token, byte for byte, or the token, blanks up to the 65th byte, and more |
| `CommandDispatch.StoredTokenOpens` | components/cmd/cmd_auth.c:47-81 | whatever a line makes the token was set on an authenticated link, is not empty, has at most 64 bytes and no blank at either end, and AUTH with it grants |
| `CommandDispatch.SettokenReplaces` | components/cmd/cmd_auth.c:69-81 | SETTOKEN replaces the token on an authenticated link if it can be saved, and is denied on any other |
| `CommandDispatch.DispatchGuarded` | components/cmd/command.c:50-53 | a line runs anything but the six open commands only after a granted AUTH on the link |
| `CommandDispatch.DispatchActs` | components/cmd/command.c:46-61 | a line makes the link do at most one command with the arguments on the line, privileged only on an authenticated link |
| `LineAssembler.BleCmd.OnRx` | components/ble/gatt/ble_cmd.c:78-99 | the per-byte loop on the 128-byte buffer, dispatching included |
| `LineAssembler.BleCmd.OnConnect` | components/ble/gatt/ble_cmd.c:59-76 | a new connection starts unauthenticated with an empty line |
| `LineAssembler.BleCmd.OnDisconnect` | components/ble/gatt/ble_cmd.c:101-106 | the half line and the authentication are gone |
| `LineAssembler.TcpClient.OnReceived` | components/net/tcp/tcp_client.c:54-81 | the chunk loop with its search for line feeds does what the bytes do one by one |
| `LineAssembler.TcpClient.Serve` | components/net/tcp/tcp_client.c:50-88 | the whole connection, the unterminated tail at its end included |
| `LineAssembler.AssemblyIsSplitting` | components/ble/gatt/ble_cmd.c:81-98 | byte-wise assembly is the simple reading: split at LF, drop CR, keep 127 bytes, skip empty lines, hold the rest |
| `LineAssembler.WritesDoNotMatter` | components/ble/gatt/ble_cmd.c:78-99 | how a stream is cut into writes makes no difference |
| `LineAssembler.TransportsAgree` | components/net/tcp/tcp_client.c:57-88 | for every stream and any two ways to cut it BLE runs its lines, and TCP the same lines and then the unterminated rest |
| `LineAssembler.SameWithoutTail` | components/net/tcp/tcp_client.c:84-88 | the two transports do the same exactly when only blanks follow the last line feed |
| `LineAssembler.StreamGuarded` | components/cmd/command.c:50-53 | over every stream on either transport nothing but the six spelled-out open commands runs before a granted AUTH |
| `LineAssembler.FreshLinkMustAuthenticate` | components/ble/gatt/ble_cmd.c:59-106 | after a connect or a disconnect AUTH must be granted anew before anything but the open commands runs |
| `LineAssembler.LinesOf127` | components/ble/gatt/ble_cmd.c:85-88 | a line without carriage returns is kept up to its 127th byte |
| `WifiCredentials.RstripCrlf` | components/ble/gatt/gatt_wifi_cred.c:13-18 | trailing blanks cut off the C string in place, nothing else touched |
| `WifiCredentials.ReadTwoLines` | components/ble/gatt/gatt_wifi_cred.c:35-45 | the two fields of the two-line form, trimmed and cut to 32 and 64 bytes |
| `WifiCredentials.OnWifiCredWrite` | components/ble/gatt/gatt_wifi_cred.c:20-72 | both forms, the rebuilt command line and its way through the line assembler |
| `WifiCredentials.Wifi.CmdSetwifi` | components/cmd/cmd_wifi.c:6-15 | the pair handed on, or BADFMT |
| `WifiCredentials.SetWifiBounds` | components/cmd/cmd_wifi.c:8-10 | whatever is handed on consists of two solid words of at most 32 and 64 bytes |
| `WifiCredentials.FieldsOf` | components/ble/gatt/gatt_wifi_cred.c:35-45 | what the two-line form yields for two solid words |
| `WifiCredentials.LineRuns` | components/ble/gatt/gatt_wifi_cred.c:62-71 | no buffer truncates the rebuilt line, and what it makes the link do |
| `WifiCredentials.CredentialRoundTrip` | components/ble/gatt/gatt_wifi_cred.c:20-72 | for every pair of byte strings: the write hands on exactly that pair if and only if the link is authenticated and the pair consists of solid words within 32 and 64 bytes that begin and end above 0x20 as required |
| `WifiCredentials.EmptyNameIsRefused` | components/ble/gatt/gatt_wifi_cred.c:35-60 | the two-line form is refused exactly if its first line has nothing above 0x20, and then changes nothing |
| `WifiCredentials.NothingWritten` | components/ble/gatt/gatt_wifi_cred.c:21 | a write without bytes is ignored |
| `WifiCredentials.FirstWordDecides` | components/ble/gatt/gatt_wifi_cred.c:46-60 | three words on one line are read exactly if the first is setwifi in any case of letters; a refused write changes nothing |
| `WifiCredentials.WordsInNumbers` | components/ble/gatt/gatt_wifi_cred.c:30-31 | what a pair of words is in numbers: no NUL, no white space, at most 32 and 64 bytes |
| `WifiCredentials.PrintableIsCarried` | components/ble/gatt/gatt_wifi_cred.c:29-32 | every pair of non-empty words of bytes above 0x20 within the limits meets that condition |
| `WifiCredentials.OneLineRoundTrip` | components/ble/gatt/gatt_wifi_cred.c:46-53 | for every pair of byte strings the one-line form hands on exactly that pair if and only if the link is authenticated and the pair is solid words within the limits, the SSID beginning and the password ending above 0x20 |
| `WifiCredentials.DispatchGives` | components/cmd/cmd_wifi.c:6-15 | every line hands on at most one pair, only on an authenticated link, and its SSID begins above 0x20 |
| `WifiBackoff.Backoff.Schedule` | components/net/wifi/wifi_backoff.c:38-63 | the timer gets the jittered delay; no 32-bit step overflows |
| `WifiBackoff.Backoff.Reset` | components/net/wifi/wifi_backoff.c:30-32 | the next schedule starts over |
| `WifiBackoff.PlainValues` | components/net/wifi/wifi_backoff.c:42-43 | the delays double from 500 ms and stay at 30000 ms from the seventh on |
| `WifiBackoff.WaitWindow` | components/net/wifi/wifi_backoff.c:45-55 | for every draw the wait lies within a twentieth of the delay, at most 31499 ms |
| `WifiBackoff.WindowIsTight` | components/net/wifi/wifi_backoff.c:45-55 | every value of that window is drawn for some random number |
| `WifiBackoff.WaitsGrow` | components/net/wifi/wifi_backoff.c:42-55 | until the cap each wait is longer than the one before, whatever is drawn |

## Left out

- Interleavings inside a callback, and two OTA transfers running at once.
- The IDF checksum helpers: what `BurstDetected` says of the software branch is not claimed of them.
- Lifetime of `cmd_ctx_t` pointers on the command bus, and the commands' own effects other than
  AUTH, SETTOKEN and SETWIFI.
- `OTA` lines inside a TCP command stream: they read the socket themselves, so
  `TransportsAgree` is about streams of other commands. `ota_perform` is modelled on its own.
- The loading of the stored token, and the parsing of the `OTA` command's arguments.
- Log lines, source labels, the yield delay itself, settling delays before a restart.
- Socket timeouts, and the limits on how many TCP connections there are.
- Alerts, LED, DHT sampling, diagnostic and version text: no property worth proving.
- The hosts' scanning, consoles, reconnects, and waiting for replies.
- Coordinator.Syscoord.constructor: takes the event queue and the worker task to be created. Without the queue
  the worker's first receive stops in a FreeRTOS assertion, which is a `Reset` at every boot.
- Coordinator.Syscoord.EnqueueRecovery: for the same reason has no case without a queue.
- Coordinator.Syscoord.GotIp: leaves out the reconnect timer and the delayed start of the TCP server, which no
  other property depends on; `WifiBackoff` has the delay itself.
- Coordinator.Syscoord.WifiEvt: leaves out the same two timers.
- Lifeboat.Lifeboat.BleFallbackInit: leaves out bring-up errors that `ESP_ERROR_CHECK` turns into a restart (the
  system model has them as `Reset`) and a worker task that cannot be created (posted kicks then stay queued).
- BleOta.OneReportPerMark: for images up to 0xFFFC0000 bytes; beyond that the next mark wraps around.
- CommandDispatch.CmdCtx.Execute: is the link's side of a command only; `AuthInSystem.CmdAuth` adds what AUTH
  over TCP does to the system.
- TransferInSystem.NoRollbackWhileHandleOpen: the reboot after a finished image goes to a slot the move names, which
  stands for the update partition of the writer.
