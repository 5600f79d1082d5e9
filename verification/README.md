# Verified models of the voice device and its server

This project models the parts of the repository in which bytes, images, words or events could get
lost, and proves that they do not, or says exactly when they do. Each `.dfy` file is one component:

| file | component |
|---|---|
| `Bytes.dfy`, `Blocks.dfy`, `Http.dfy` | byte strings, big-endian integers, re-framing into blocks, HTTP bodies |
| `JitterBuffer.dfy`, `JitterGate.dfy`, `JitterClose.dfy`, `JitterTasks.dfy`, `JitterRuns.dfy` | the playback jitter buffer of the device: the interleaving of producer, player task and closer, when playback begins and how it ends, the loops, and particular runs |
| `DownlinkPipeline.dfy`, `DownlinkErrors.dfy`, `DownlinkTasks.dfy` | HTTP reader, decoder task and playback task joined by two bounded queues, where their errors come from, and their loops |
| `OtaDevice.dfy`, `OtaTasks.dfy` | the update on the device with power loss between any two steps, and its tasks |
| `OtaServer.dfy` | releases, reports, manifest and closeout on the server |
| `OtaProtocol.dfy` | device and server together, with reports that may be lost on the way back |
| `FramedV1.dfy` | the framed-v1 wire format: packers, strict parser, incremental parsers |
| `OpusUplink.dfy` | the Opus uplink from the microphone's PCM to the server's |
| `TextSegmentation.dfy` | splitting an answer into speakable segments while it is being written |
| `SessionStore.dfy`, `SessionRunner.dfy` | the session store, its waiting loops, and the run of one session |
| `IdiomGame.dfy` | the idiom-chain game |
| `VadCapture.dfy` | voice-activity detection, the two captures after it, and the desk-top simulator |
| `TriggerInput.dfy` | button debouncing on a wrapping tick counter |

`dafny verify dfyconfig.toml` checks the whole project.

## How concurrency, time and failure are modelled

A concurrent component is a state and a relation `Next` whose steps are the atomic actions of the
source: taking the mutex, a locked section, one queue or ring-buffer call, one NVS commit. A run is
any sequence of such steps; theorems hold of every state of every run. The tasks themselves are
methods with the loops of the source. Before each of its own actions such a method lets the other
tasks take any number of steps, and each method is shown to extend a run of the step machine, so
that the theorems apply to it.

Timeouts, allocation failures, driver errors and refused callbacks are nondeterministic choices or
oracle parameters; clocks are sequences of readings. The Opus codec and SHA-256 are functions given
as parameters; where a lossless codec is needed it is an explicit precondition. Speech recognition,
the language model, the skills and the speech engines are parameters of the session run.

## What turned out to be false, and exactly when

* The check of the Opus residue at the end of a downlink stream (`cloud_client.c:3178`) never
  fires, because the residue is cleared before (`cloud_client.c:3154`). `ResidueIsIgnored` says what
  it misses in every run: the undecoded end of the received bytes, which is empty exactly if they
  are whole inner packets. `TruncatedOpusStillOk` gives a run for every unfinished packet.
* An update record can be erased by the confirmation or validation of an older update while a new
  update is under way: `LateEraseLosesTheRecord`. The selected slot is then neither valid nor named
  by the record. `AccountedExactlyWhen` gives the condition; the device stays bootable in any case.
* The audio mutex can be left with a deleted task, and everything that needs it then hangs:
  `OrphanedOnlyByForcedDelete` gives the two ways and `OrphanHangs` the consequence.
  `PlayerDeletedInCodecWrite` is a run in which the close deletes the player inside the codec write,
  `ProducerDeletedInWrite` one in which the join timeout of the downlink deletes the producer.
* The close can delete a player task that has already ended, through a handle that is out of date:
  `EndedTaskIsDeletedExactlyWhen`, and the run of `EndedPlayerIsDeleted`.
* Claiming an audio stream with an empty consumer name claims nothing: `ClaimIsExclusiveExactlyWhen`.
  The HTTP handler always draws a fresh name.
* A session and its audio stream do not always end to match. `EndsToMatchExactlyWhen` gives the
  condition on the providers; there are three ways to break it:
  * an exception that the playing branch does not catch leaves the session running and its audio
    open: `SilentEngineLeavesItRunning`. The queue timeout of a silent speech engine
    (`realtime_tts.py:111`) is one, a failing download (`tts.py:78`) and an unreadable recording
    (`static_audio.py:66`) are others;
  * a caught exception with an empty text leaves an audio stream that looks cleanly ended although
    the session failed: `CleanEndExactlyWhen`, `NamelessFailureLooksClean`. Every exception the
    repository itself raises there has a text, so this takes a `ValueError` without one from a
    library that is called while a recording is played (`realtime_session.py:555`);
  * a session without input fails but its audio stream is left open: `RunSession`.
* An answer whose language model fails is not always a failed session: the failure travels through
  the event queue of the speech engine, and an engine that ends the stream first completes the
  session: `LlmFailureExactlyWhen`, `LateFailureIsMissed`.
* A button press that lasts a whole turn of the 32-bit tick counter is reported as a short press:
  `WrappedPressIsReported`, `ReportedPressIsShortExactlyWhen`.
* Under the first-segment limits the segments can depend on how the text arrives:
  `ArrivalMattersExactlyWhen` says for which chunks, `FirstSegmentDependsOnArrival` shows two.
* The incremental and the one-shot splitter need not agree: `SplittersAgreeExactlyWhen` gives the
  condition at each cut, `SplittersDiffer` a text.
* The streaming capture accepts a speech prefix larger than the buffer, which the buffered capture
  refuses: `FitsTheBuffer`. The simulator knows no timeout: `SimulatorAgrees`.

## Model

| member | source | states |
|---|---|---|
| `JitterBuffer.StepKeeps` | esp_idf_demo/main/audio_out.c:594-1147 | every atomic action of producer, player and closer keeps mutual exclusion, the byte account, the block structure and the life cycle of the player |
| `JitterBuffer.RunKeeps` | esp_idf_demo/main/audio_out.c:594-1147 | the invariant holds in every state of every interleaving |
| `JitterBuffer.PlaybackIsPrefix` | esp_idf_demo/main/audio_out.c:660-768 | in every reachable state the codec has an in-order prefix of the enqueued bytes; scratch block, unread item and ring hold exactly the rest; both counters are exact up to the send in flight and the uncounted write |
| `JitterBuffer.NormalEndDelivers` | esp_idf_demo/main/audio_out.c:606-745 | a player that leaves its loop by itself has delivered every byte, and the total is then a multiple of the block |
| `JitterBuffer.WholeBlocksMeansMultiple` | esp_idf_demo/main/audio_out.c:712-743 | writes inside the loop are whole blocks, so what the codec got there is a multiple of the block |
| `JitterBuffer.CloseLosesAtMostTail` | esp_idf_demo/main/audio_out.c:1016-1147 | when close returns ESP_OK with the producer finished, the codec misses at most the tail tolerance, nothing unless the tail was accepted, and something whenever the total is no multiple of the block |
| `JitterBuffer.OrphanedOnlyByForcedDelete` | esp_idf_demo/main/audio_out.c:1047-1091 | the mutex passes to a deleted task exactly when the timeout branch of the close deletes the player inside a locked section, or the join timeout of the downlink the producer; completion and tail acceptance never do that |
| `JitterBuffer.OrphanHangs` | esp_idf_demo/main/audio_out.c:1079-1090 | once the mutex is orphaned it stays so: no other task gets it, and the close never returns, or never begins if the producer was deleted |
| `JitterBuffer.EndedTaskIsDeletedExactlyWhen` | esp_idf_demo/main/audio_out.c:1023-1091 | the close deletes a player that has already ended exactly when the player finished between the poll that still saw it at work and the deletion |
| `JitterGate.GateOpensExactlyWhen` | esp_idf_demo/main/audio_out.c:606-656 | at one look at the gate the player leaves exactly if the stream is being closed and the level is zero, and goes on exactly if it is being closed or the level has reached the prebuffer, or the rebuffer target while rebuffering |
| `JitterGate.StarvingExactlyWhen` | esp_idf_demo/main/audio_out.c:665-698 | after an empty receive the player leaves exactly if the stream is being closed with level zero, and starts to rebuffer exactly if the stream plays and is not being closed |
| `JitterGate.ReceivesOnlyWhenFull` | esp_idf_demo/main/audio_out.c:606-656 | in every run the player passes the gate only if nothing made it wait, the stream is being closed, or the bytes counted in and not yet out reach the target in force |
| `JitterGate.NothingPlaysBeforePrebuffer` | esp_idf_demo/main/audio_out.c:608-623 | in every run, until the close begins, the player takes and the codec gets nothing before the prebuffer has been enqueued |
| `JitterGate.WriteGoesOnExactlyWhen` | esp_idf_demo/main/audio_out.c:914-950 | the first section of a write goes on exactly if the codec is open, the player runs or could be created, and no error was reported; otherwise nothing is sent |
| `JitterGate.RingFits` | esp_idf_demo/main/audio_out.c:964-970 | in every state of every run the ring, with what the player has taken out and not given back, holds at most its capacity |
| `JitterClose.DecidesByLastPoll` | esp_idf_demo/main/audio_out.c:1028-1090 | the closer is finished, settles for the tail, or gives up or polls on exactly as its last poll saw the player done, playing at the tail, or neither |
| `JitterClose.CloseErrorHasCause` | esp_idf_demo/main/audio_out.c:1067-1147 | in every run the close returns ESP_FAIL only if the codec refused a block or its close, ESP_ERR_TIMEOUT only if the closer gave up waiting, and ESP_OK only if the codec closed |
| `JitterRuns.PlayerDeletedInCodecWrite` | esp_idf_demo/main/audio_out.c:1079-1083 | for every configuration a run in which the player is deleted inside the codec write and the mutex is orphaned |
| `JitterRuns.ProducerDeletedInWrite` | esp_idf_demo/main/cloud_client.c:3147-3149 | a run in which the join timeout deletes the producer inside its locked section |
| `JitterRuns.TailIsLost` | esp_idf_demo/main/audio_out.c:1049-1066 | for every configuration whose ring holds a block and the tolerance, a run in which the close returns ESP_OK and exactly the tolerance is missing: the loss bound is attained |
| `JitterRuns.EndedPlayerIsDeleted` | esp_idf_demo/main/audio_out.c:1067-1081 | for every configuration a run in which the timeout branch deletes a player that has played everything and ended |
| `JitterTasks.AudioStreamTask` | esp_idf_demo/main/audio_out.c:594-807 | the player loop, with its scratch array, is a run of the step machine; it ends by marking itself done, unless it is deleted or never scheduled again |
| `JitterTasks.OneTurn` | esp_idf_demo/main/audio_out.c:606-745 | one turn of the loop keeps the local block and the recorded one equal and leaves a block that is not full |
| `JitterTasks.DrainItem` | esp_idf_demo/main/audio_out.c:702-743 | an item goes through the scratch block piece by piece: what has left the block is in the codec, in order, and counted; or the codec refused a block and the task reports it |
| `JitterTasks.PlayTail` | esp_idf_demo/main/audio_out.c:747-769 | what is left in the scratch block after the loop is in the codec and counted, or was refused and that is reported |
| `JitterTasks.CodecSection` | esp_idf_demo/main/audio_out.c:872-896 | in one locked section the codec gets all of the block or nothing of it |
| `JitterTasks.CloseStream` | esp_idf_demo/main/audio_out.c:1016-1147 | the close function: if it returns ESP_OK and the producer had finished, at most the tolerated tail is missing; if it returns an error, a refused block, a refused close or giving up the player is among the steps |
| `JitterTasks.WaitForPlayer` | esp_idf_demo/main/audio_out.c:1023-1114 | the waiting loop ends in the final locked section by completion, tail acceptance or forced deletion |
| `JitterTasks.WriteBuffered` | esp_idf_demo/main/audio_out.c:898-1014 | a buffered write enqueues all of the chunk or nothing; it refuses exactly empty and odd chunks, and otherwise fails only without room in the ring, without memory, with a closed codec or after a player error |
| `DownlinkPipeline.RunKeeps` | esp_idf_demo/main/cloud_client.c:1324-1485 | in every interleaving queues lose and reorder nothing, markers sit at the end, and no fault goes unnoticed |
| `DownlinkPipeline.PlayedIsPrefix` | esp_idf_demo/main/cloud_client.c:1324-1485 | whatever fails or times out, the callback has been given an in-order prefix of what it should be given |
| `DownlinkPipeline.OkMeansExactDelivery` | esp_idf_demo/main/cloud_client.c:2926-3199 | a run that returns ESP_OK has passed the callback exactly the received payloads (PCM) or the decodes of every complete inner packet (Opus); no send timed out, no decode and no callback failed |
| `DownlinkErrors.OkExactlyWhen` | esp_idf_demo/main/cloud_client.c:2926-3199 | a run returns ESP_OK exactly if no read, send, join, decode, terminal send or callback failed, something was received, no frame was left half and no inner packet was bad |
| `DownlinkErrors.RunTells` | esp_idf_demo/main/cloud_client.c:1324-3199 | in every state of every run an error that some task has stored has its step or its bad input among what went before |
| `DownlinkPipeline.ResidueIsIgnored` | esp_idf_demo/main/cloud_client.c:3154-3181 | in every run that returns ESP_OK the Opus decoder is left with exactly the undecoded end of the received payload bytes, which is empty exactly if they are whole inner packets: the check at the end misses every other stream |
| `DownlinkPipeline.WholeFramesLeaveNothing` | esp_idf_demo/main/cloud_client.c:3154-3181 | a server that puts only whole inner packets into each frame leaves nothing undecoded |
| `DownlinkPipeline.TruncatedOpusStillOk` | esp_idf_demo/main/cloud_client.c:3154-3199 | for every start of an inner packet, sent framed or not, there is a run that ends in ESP_OK with those bytes undecoded |
| `DownlinkPipeline.DecodeAppend` | esp_idf_demo/main/cloud_client.c:1210-1254 | decoding the residue followed by later bytes gives what decoding everything at once gives |
| `DownlinkPipeline.OpusPending.DecodePendingPackets` | esp_idf_demo/main/cloud_client.c:1210-1254 | the in-place residue buffer ends as the undecoded rest, the chunks handed over are the decodes, and it fails exactly for a bad packet or a refused chunk |
| `DownlinkTasks.PlaybackTask` | esp_idf_demo/main/cloud_client.c:1433-1485 | the playback loop is a run of the step machine and ends at a marker or a refused callback |
| `DownlinkTasks.DecodeTask` | esp_idf_demo/main/cloud_client.c:1324-1431 | the decoder loop is a run of the step machine and ends by handing on a marker |
| `DownlinkTasks.DecodePending` | esp_idf_demo/main/cloud_client.c:1210-1254 | inside the decoder task every complete inner packet is decoded; it pauses only on an incomplete one |
| `DownlinkTasks.StreamRealtimeAudio` | esp_idf_demo/main/cloud_client.c:2926-3199 | the reader with its reading, sending and joining loops: ESP_OK implies that the whole body was read, delivered exactly and ended with a complete frame; an error has one of the named causes: an incomplete body, a fault, a half frame, nothing received, or a lost terminal or join |
| `DownlinkTasks.ReadBody` | esp_idf_demo/main/cloud_client.c:2927-3106 | the reading loop ends without error only at the end of the HTTP body, having read all of it; it ends with an error only for an incomplete body, a fault or a half frame |
| `OtaDevice.RunIsBootable` | esp_idf_demo/main/main.c:1346-1910 | with power loss between any two steps the selected slot holds a whole image, and one not yet valid has a whole valid image to fall back to |
| `OtaDevice.PowerLossIsSurvivable` | esp_idf_demo/main/main.c:1554-1687 | after any power loss the device runs a whole image |
| `OtaDevice.OneBootOnTrial` | esp_idf_demo/main/main.c:1688-1910 | a new image gets one boot: by the next restart it has been marked valid and stays, unless a further update switches the slot, or the device goes back to the other slot, which holds a whole valid image |
| `OtaDevice.LowerKeepsApart` | esp_idf_demo/main/cloud_client.c:2265-2267 | the digest comparison takes two characters for one exactly if they are equal or the two cases of one ASCII letter |
| `OtaDevice.LowerMeansSameText` | esp_idf_demo/main/cloud_client.c:2265-2267 | so two digests match exactly if they have one length and agree in this way at every position |
| `OtaDevice.SwitchOnlyToWholeArtifact` | esp_idf_demo/main/main.c:1572-1608 | the boot slot is switched only to a slot that is not running and holds an image of the size of the manifest, whose digest is that of the manifest at every position up to letter case |
| `OtaDevice.MarkedOnlyAfterConfirmation` | esp_idf_demo/main/main.c:1846-1856 | the app is marked valid only after the server accepted, in the same boot, the confirmation that the running slot is the one the record names |
| `OtaDevice.ClearingMeansReported` | esp_idf_demo/main/main.c:1884-1887 | the record is given up only after the mark succeeded and the server accepted that report, in the same boot |
| `OtaDevice.PendingMeansConfirmed` | esp_idf_demo/main/main.c:1703-1756 | validation is pending only after such a confirmation |
| `OtaDevice.AccountedExactlyWhen` | esp_idf_demo/main/main.c:1137-1272 | the selected slot is valid or named by the pending record throughout a run exactly if no step erases the record of a slot not yet valid or switches to a slot the record does not name |
| `OtaDevice.SerialUseIsAccounted` | esp_idf_demo/main/main.c:1586-1608 | so it is in every run in which no confirmation or validation erases the record while an update has it stored |
| `OtaDevice.LateEraseLosesTheRecord` | esp_idf_demo/main/main.c:1771-1795 | a run in which the recovery of an old record erases the one of the next update |
| `OtaDevice.StreamArtifact` | esp_idf_demo/main/cloud_client.c:2163-2268 | streaming succeeds only if the whole body was written and has the size and, position by position up to letter case, the digest of the manifest; each error code says what was wrong; it does succeed on a deliverable artifact |
| `OtaDevice.WriteInactivePartition` | esp_idf_demo/main/main.c:1346-1461 | the artifact goes only to the other slot and only while the running image is validated |
| `OtaTasks.WriteArtifact` | esp_idf_demo/main/main.c:1346-1461 | the write loop on the shared device state ends with the whole artifact or with nothing under way; the latter only after a power loss, on a running image on trial, for a wrong size or digest, or a chunk the flash refused |
| `OtaTasks.ScheduleBootSwitch` | esp_idf_demo/main/main.c:1554-1687 | when the function has switched, the boot slot is not the running one and holds the whole artifact; when not, the record or the boot slot could not be written or the power failed |
| `OtaTasks.UpdateDevice` | esp_idf_demo/main/main.c:1346-1687 | when it restarts into the new slot, the device runs exactly the received chunks, which have the size and digest of the manifest, on trial, beside a whole valid image; it ends otherwise only for one of the named reasons |
| `OtaTasks.ConfirmAfterReboot` | esp_idf_demo/main/main.c:1688-1807 | validation is pending afterwards exactly if the result is a confirmation, which the server accepted for the recorded slot since the last restart; every other result has its step: no record, a refused report, or a restart |
| `OtaTasks.ConfirmLoaded` | esp_idf_demo/main/main.c:1700-1807 | with a record loaded, an accepted report confirms exactly the running slot and recovers from the other one |
| `OtaTasks.NoteBusinessReady` | esp_idf_demo/main/main.c:1819-1844 | while validation is pending and not yet started it starts the validation task or reports that it could not be created; it changes nothing else |
| `OtaTasks.ValidateApp` | esp_idf_demo/main/main.c:1846-1893 | validated means marked, reported and the flag dropped; refused means that the mark or the report failed, and the task can start again; otherwise the device has restarted |
| `OtaTasks.DropRecord` | esp_idf_demo/main/main.c:1884-1887 | flag and record are dropped only after the server accepted the report that the image was marked valid |
| `OtaTasks.Mark` | esp_idf_demo/main/main.c:1852-1852 | marking happens only after an accepted confirmation since the last restart |
| `OtaServer.KeyNeedsDigit` | src/api/ota.py:53-57 | the version key is empty exactly for versions without digits |
| `OtaServer.VersionsArePreordered` | src/api/ota.py:60-68 | the minimum-version test is a total preorder on versions that contain digits |
| `OtaServer.ZerosDoNotMatter` | src/api/ota.py:64-68 | padding with zeros does not change the comparison |
| `OtaServer.VersionKeyOfDotted` | src/api/ota.py:53-57 | the key of numbers written with dots between them is the list of those numbers |
| `OtaServer.MinimumVersionMeans` | src/api/ota.py:60-68 | on dotted versions the test compares number by number, missing ones counting as zero: the first difference decides |
| `OtaServer.OtherVersions` | src/api/ota.py:60-66 | without a minimum every version will do, and a version or minimum without digits is met only by the same text |
| `OtaServer.MatchingMeans` | src/api/ota.py:71-94 | a release matches exactly if target, switch, device list, board, hardware revision, force or minimum version, reports and artifact data are each as required |
| `OtaServer.SuppressedExactlyWhen` | src/api/ota.py:90-91 | a release is suppressed for a device exactly by an ok report of the boot switch or of the confirmation |
| `OtaServer.Database.GetManifest` | src/api/ota.py:113-128 | the manifest offers at most one release; it is enabled, lists the asking device and meets every other point, and no release before it in listing order does; it offers none exactly if no release meets them all |
| `OtaServer.OfferIsUnique` | src/api/ota.py:123-128 | there is at most one such release |
| `OtaServer.OnlyListedDevicesAreOffered` | src/api/ota.py:83-84 | in every history a device that no release created under an id lists is never offered that id |
| `OtaServer.TextOrderMeans` | src/storage/db.py:262-283 | the text order of the listing: a text comes before its extensions, and else the first different character decides |
| `OtaServer.ListedSorts` | src/storage/db.py:262-283 | the listing is sorted by priority, creation time and id, and is a permutation of the table |
| `OtaServer.Database.CreateRelease` | src/storage/db.py:207-259 | a release is stored, as given and behind the others, exactly if its id is new and no device is listed twice |
| `OtaServer.Database.RecordReport` | src/storage/db.py:309-340 | a report is appended to the table |
| `OtaServer.NeverOfferedAgain` | src/storage/db.py:286-306 | after a successful boot-switch or post-reboot report a release is never offered to that device again, in every history |
| `OtaServer.StaysUntilClosed` | src/storage/db.py:207-259 | in every history a release stays as it was created, and stays enabled until a closeout of it is accepted |
| `OtaServer.Database.CloseRelease` | scripts/ota_release_closeout.py:67-81 | success exactly if the release exists and every required stage was reported ok; it then disables that release and no other |
| `OtaServer.ClosesExactlyWhen` | scripts/ota_release_closeout.py:67-81 | a closeout is accepted exactly if the release exists and each of the three stages, with --p3d four, has an ok report of that device |
| `OtaServer.ClosedForGood` | scripts/ota_release_closeout.py:67-80 | after a closeout the release is never offered to any device, and every required stage had been reported |
| `OtaServer.IdsStayUnique` | src/storage/db.py:207-259 | release ids stay unique in every history |
| `OtaProtocol.StepKeeps` | esp_idf_demo/main/main.c:1346-1893 | every step of the device, of its reports and of other users of the server keeps it true that a record naming the running slot names the release whose image runs there |
| `OtaProtocol.RunKeeps` | esp_idf_demo/main/main.c:1346-1893 | so it is in every state of every run of device and server, reports lost on the way back included |
| `OtaProtocol.NewReport` | esp_idf_demo/main/main.c:1732-1745 | a successful confirmation reaches the server only from a device that runs the release, a successful validation only from one that has marked it valid |
| `OtaProtocol.ReportIsTrue` | src/storage/db.py:286-306 | every such report the server has is backed by a moment of the run |
| `OtaProtocol.ClosedMeansInstalled` | scripts/ota_release_closeout.py:67-80 | a release is closed out for a device only after that device has run an image with the size and digest of the release, and with --p3d only after it marked it valid |
| `OtaProtocol.NeverFetchedAgain` | src/api/ota.py:90-91 | once a successful switch or confirmation is recorded, the device never again fetches a manifest of that release |
| `OtaProtocol.NeverInstalledTwice` | esp_idf_demo/main/main.c:1983-2088 | a release whose boot switch was recorded is never begun again on that device, whether it was kept or rolled back |
| `OtaProtocol.NotAfterRestart` | esp_idf_demo/main/main.c:1927-1983 | after a recorded confirmation the release can be begun again only before the next restart, with a manifest fetched earlier |
| `FramedV1.ParseStrict` | src/providers/opus.py:174-195 | the strict parser accepts exactly the bodies that parse without residue into consecutively numbered packets, and reports a gap exactly when a header is out of step |
| `FramedV1.Pack` | src/providers/opus.py:165-171 | packing numbers the non-empty payloads from 0 and fails only when a number or length does not fit |
| `FramedV1.ParseInvertsFrames` | src/providers/opus.py:165-195 | parsing inverts packing, for any numbering |
| `FramedV1.WireLayout` | src/providers/opus.py:165-171 | byte by byte: packet i is its number and its payload length, each in four bytes with the highest first, and the payload |
| `FramedV1.PackedStreamRoundTrip` | src/api/realtime.py:113-119 | a packed stream cut anywhere is read back as the non-empty payloads, without residue and without a gap |
| `FramedV1.ParseBuffered` | scripts/realtime_smoke.py:65-79 | the in-place parser returns the packets and leaves the residue of the reference parse |
| `FramedV1.ParseAppend` | scripts/realtime_smoke.py:65-79 | parsing resumes from the residue |
| `FramedV1.ChunkingIrrelevant` | scripts/realtime_smoke.py:65-79 | however a stream is cut into reads, packets and residue are those of the whole stream |
| `FramedV1.FrameStream.Append` | esp_idf_demo/main/cloud_client.c:987-1012 | appending to the growing buffer keeps its contents; it fails only without memory |
| `FramedV1.FrameStream.ConsumePackets` | esp_idf_demo/main/cloud_client.c:1022-1118 | the packets handed on are those of the reference parse up to the first refusal; the buffer keeps the residue |
| `FramedV1.GapCountIsBrokenNeighbours` | esp_idf_demo/main/cloud_client.c:1061-1071 | the gap counter is the number of neighbours that are not consecutive |
| `FramedV1.BrokenExactlyWhen` | esp_idf_demo/main/cloud_client.c:1061-1071 | two neighbours are out of step exactly if the second number is not the first plus one modulo 2^32 |
| `FramedV1.ReadStream` | esp_idf_demo/main/cloud_client.c:3038-3048 | over any sequence of reads packets, residue and gap counter are those of the whole stream |
| `Blocks.WholeAppend` | esp_idf_demo/main/cloud_client.c:1951-1994 | re-framing continues from the residue: blocks and residue of a stream do not depend on how it was cut |
| `Blocks.PaddedKeepsBytes` | src/providers/opus.py:261-267 | the padded blocks are the stream followed by zeros up to a whole block |
| `OpusUplink.Uplink.SendCurrentFrame` | esp_idf_demo/main/cloud_client.c:1739-1806 | a full frame goes out as the next numbered message, or nothing changes |
| `OpusUplink.Uplink.SendPcm` | esp_idf_demo/main/cloud_client.c:1951-1994 | a send succeeds exactly if connected and every completed frame could be encoded and sent; the rest waits in the frame buffer |
| `OpusUplink.Uplink.Finish` | esp_idf_demo/main/cloud_client.c:1996-2011 | finish pads and sends the last partial frame |
| `OpusUplink.SendRecording` | esp_idf_demo/main/cloud_client.c:1951-2011 | for any chunking the messages are those of the padded recording, numbered from 0 |
| `OpusUplink.DecodeStreamPayload` | src/api/realtime.py:164-176 | an inner packet is accepted exactly if its two-byte length fits and the codec decodes it, an empty one without the codec |
| `OpusUplink.Receiver.ReceiveMessage` | src/api/realtime.py:634-670 | a message is accepted exactly if it parses strictly from the expected number and decodes; each packet is appended and acknowledged with both running totals; a parse error changes nothing, a packet that does not decode leaves what came before it in place |
| `OpusUplink.Receiver.Reconstruct` | src/api/realtime.py:758-763 | the declared length must lie within what was decoded, and cuts it |
| `OpusUplink.Roundtrip` | src/api/realtime.py:633-763 | with a lossless codec the server recovers exactly the recording, and its decoded bytes are the recording zero-padded to a whole frame |
| `OpusUplink.EncodePcmStream` | src/providers/opus.py:240-267 | the Python encoder yields the payloads of the padded recording |
| `OpusUplink.BothPathsAgree` | src/providers/opus.py:240-267 | device and Python encoder put the same messages on the wire |
| `OpusUplink.DecodeFramed` | src/providers/opus.py:198-237 | the one-shot decoder accepts exactly strictly numbered, well-formed bodies and returns the decodes in order |
| `OpusUplink.PythonRoundtrip` | src/providers/opus.py:198-267 | encoder, packer and one-shot decoder give back the recording padded to whole frames |
| `TextSegmentation.SoftIndex` | src/services/realtime_session.py:208-208 | the maximum over all hints of their last positions is the last position of any hint |
| `TextSegmentation.SplitLongPart` | src/services/realtime_session.py:201-215 | the loop terminates and cuts as specified |
| `TextSegmentation.LongPartLosesNothing` | src/services/realtime_session.py:201-215 | a long part is cut into non-empty pieces within the limit whose concatenation it is |
| `TextSegmentation.LongCutMeans` | src/services/realtime_session.py:207-213 | a long part is cut behind the last hint that leaves at least the minimum, else at the limit |
| `TextSegmentation.SplitSentences` | src/services/realtime_session.py:228-236 | the character loop cuts after each sentence ending |
| `TextSegmentation.SplitAnswerText` | src/services/realtime_session.py:218-244 | the one-shot splitter computes the specified segments |
| `TextSegmentation.AnswerLosesNothing` | src/services/realtime_session.py:218-244 | its segments concatenate to the text without white space and respect the limit |
| `TextSegmentation.SoftCutSearchIsIdle` | src/services/realtime_session.py:285-291 | the backward search for a soft cut at the limit never changes the cut |
| `TextSegmentation.FindBoundary` | src/services/realtime_session.py:277-291 | the scan with its backward search finds the first stop |
| `TextSegmentation.SplitStreamBuffer` | src/services/realtime_session.py:247-303 | the incremental splitter computes the specified segments and remainder in every mode |
| `TextSegmentation.SplitLosesNothing` | src/services/realtime_session.py:247-303 | segments followed by the remainder are the text, segments respect the limit, and the remainder contains no further cut |
| `TextSegmentation.StreamLosesNothing` | src/services/realtime_session.py:247-303 | the same with the first-segment limits: no segment exceeds the larger limit |
| `TextSegmentation.ArrivalIrrelevant` | src/services/realtime_session.py:247-303 | splitting a, then the remainder followed by b, gives the segments and remainder of a followed by b |
| `TextSegmentation.RemainderIsOneSegment` | src/services/realtime_session.py:218-244 | the one-shot splitter turns a remainder into a single segment |
| `TextSegmentation.FlushIsRemainder` | src/services/realtime_session.py:449-458 | so the final flush yields the remainder as one segment |
| `TextSegmentation.CollectSegments` | src/services/realtime_session.py:426-458 | the segments do not depend on the chunks, concatenate to the answer without white space, and respect the limit |
| `TextSegmentation.SpeakSegments` | src/services/realtime_session.py:594-644 | what the streaming engine is given: of a complete answer all of it, of one that breaks off the segments cut so far, with the rest pending; no segment is empty and none exceeds the larger limit |
| `TextSegmentation.FedLosesNothing` | src/services/realtime_session.py:594-627 | in first-segment mode segments and pending text are the received text, however it was cut into chunks |
| `TextSegmentation.FirstLimitsMean` | src/services/realtime_session.py:270-276 | the limits of the first segment are the settings where they make sense, and the general limits otherwise |
| `TextSegmentation.OpeningWithinLimits` | src/services/realtime_session.py:270-301 | the first segment keeps to its own maximum, later ones to the general one, and a first segment below its minimum ends a sentence |
| `TextSegmentation.FedWithinLimits` | src/services/realtime_session.py:594-627 | so it is for any chunks of the language model |
| `TextSegmentation.SaidWithinLimits` | src/services/realtime_session.py:594-644 | and for a complete answer with its final flush |
| `TextSegmentation.FirstSegmentArrivalExactlyWhen` | src/services/realtime_session.py:292-301 | in first-segment mode two pieces are cut like their concatenation exactly if the second is empty, the first is too short for a segment, or its first segment ends at an ending, a hint or the limit |
| `TextSegmentation.ArrivalMattersExactlyWhen` | src/services/realtime_session.py:594-627 | the same for any number of chunks: only the text that had arrived by the first cut matters |
| `TextSegmentation.FirstSegmentDependsOnArrival` | src/services/realtime_session.py:292-293 | one text, in one chunk and in two, with different segments |
| `TextSegmentation.FirstCutsCoincideExactlyWhen` | src/services/realtime_session.py:201-303 | the incremental and the one-shot splitter make the same first cut exactly if a sentence that fits has no allowed hint before its end and a longer one at most one within the limit |
| `TextSegmentation.SplittersAgreeExactlyWhen` | src/services/realtime_session.py:201-303 | they make the same segments exactly if this holds at every cut |
| `TextSegmentation.PipelinesAgreeExactlyWhen` | src/services/realtime_session.py:218-458 | the same for the two answer pipelines, on every text and with all settings |
| `TextSegmentation.SplittersDiffer` | src/services/realtime_session.py:218-303 | one text on which they differ |
| `TextSegmentation.SplittersAgreeWithoutHints` | src/services/realtime_session.py:218-303 | they agree on every text without soft hints |
| `SessionStore.SameKeys` | src/storage/realtime_store.py:136-307 | in every history the two tables have the same keys |
| `SessionStore.NothingLost` | src/storage/realtime_store.py:226-307 | in every history delivered chunks followed by queued ones are the accepted ones, and delivered ones are a prefix even after the session is gone |
| `SessionStore.EndMeansAll` | src/storage/realtime_store.py:286-307 | a consumer that sees the end, or the stream's error, has been handed everything accepted |
| `SessionStore.ExpiredForGood` | src/storage/realtime_store.py:146-177 | an expired session never comes back: every later operation misses it |
| `SessionStore.LivesForItsTime` | src/storage/realtime_store.py:134-153 | in every history a session is found from its creation until its time to live is over, and at no later moment |
| `SessionStore.ReadsBack` | src/storage/realtime_store.py:155-208 | an update, a completion or a failure is what the next read of the session returns |
| `SessionStore.OthersUntouched` | src/storage/realtime_store.py:33-307 | an operation leaves every other session as it is |
| `SessionStore.ClaimIsExclusiveExactlyWhen` | src/storage/realtime_store.py:210-224 | a claim shuts out every other consumer for good exactly if the name is not empty |
| `SessionStore.ConsumerStays` | src/storage/realtime_store.py:218-224 | a claimed stream keeps its consumer |
| `SessionStore.Store.CreateSession` | src/storage/realtime_store.py:33-144 | both tables get an entry |
| `SessionStore.Store.GetSession` | src/storage/realtime_store.py:146-153 | an expired record is dropped from both tables, a live one is returned |
| `SessionStore.Store.UpdateSession` | src/storage/realtime_store.py:155-166 | a live record gets the changes |
| `SessionStore.Store.SetDone` | src/storage/realtime_store.py:168-190 | a live record becomes done |
| `SessionStore.Store.SetFailed` | src/storage/realtime_store.py:192-208 | a live record becomes failed with the code |
| `SessionStore.Store.ClaimAudioConsumer` | src/storage/realtime_store.py:210-224 | the first named consumer wins |
| `SessionStore.Store.AppendAudioChunk` | src/storage/realtime_store.py:226-238 | a non-empty chunk joins a live stream, finished or not |
| `SessionStore.Store.FinishAudio` | src/storage/realtime_store.py:240-250 | a live stream is finished |
| `SessionStore.Store.FailAudio` | src/storage/realtime_store.py:252-263 | a live stream is finished with an error code |
| `SessionStore.Store.PeekAudio` | src/storage/realtime_store.py:269-280 | one locked section of waiting for the first chunk |
| `SessionStore.Store.TakeAudio` | src/storage/realtime_store.py:290-302 | one locked section of the consumer |
| `SessionStore.ConsumeAudioStream` | src/storage/realtime_store.py:286-307 | with other threads running in between, a sole consumer is handed the chunks in order and all of them when the stream ends; it ends well exactly when the stream was finished without an error |
| `SessionStore.WaitForFirstAudioChunk` | src/storage/realtime_store.py:265-284 | the wait ends well only with a chunk in the queue; a stream that ends without one, or is gone, has its own error |
| `SessionRunner.RunSession` | src/services/realtime_session.py:331-770 | the outcome, the kept question and the chunks in the audio stream follow from what the providers do; a session with input has been accepted and running and ends in at most one of done and failed, without input it fails and its audio is left open |
| `SessionRunner.Answer` | src/services/realtime_session.py:399-770 | the three audio paths and the two health checks that choose between them |
| `SessionRunner.EndsWithoutAudio` | src/services/realtime_session.py:331-398 | how a session ends that has no input, cannot be recognised, has no skill or nothing to say, which question it keeps, and where the text of its answer comes from |
| `SessionRunner.EndOfPlayback` | src/services/realtime_session.py:546-770 | how each of the audio paths ends, by the exceptions that are caught there and those that are not |
| `SessionRunner.OutcomeMeans` | src/services/realtime_session.py:331-770 | the statuses a session has had, its code, and the end of its audio stream, for each way to end |
| `SessionRunner.Stream` | src/services/realtime_session.py:698-727 | exactly the non-empty chunks are appended, in order |
| `SessionRunner.PlayAndEnd` | src/services/realtime_session.py:546-588 | a playback is passed on and the session then ends by the exceptions caught there, by its emptiness where that counts, or well; any other exception leaves it as it is |
| `SessionRunner.AnswerLive` | src/services/realtime_session.py:589-695 | the streaming engine is given the segments of the answer, of a broken one those cut so far, and its event queue decides how the playback ends |
| `SessionRunner.WhatIsSpokenLive` | src/services/realtime_session.py:589-644 | on the live path the engine is given segments that concatenate to the whole answer without white space, or, if the language model fails, to the part cut so far; the audio stream gets the chunks of the engine's events, up to the failure if there is one |
| `SessionRunner.WhatIsPlayed` | src/services/realtime_session.py:459-736 | on the other paths the audio stream gets the recording, or the speech of segments that concatenate to the whole answer |
| `SessionRunner.TrimMeans` | src/services/realtime_session.py:337-337 | trimming removes exactly the white space around the text |
| `SessionRunner.StreamTextChunks` | src/providers/realtime_tts.py:102-141 | the loop over the event queue plays up to the first failure, end or silence |
| `SessionRunner.HeardMeans` | src/providers/realtime_tts.py:102-141 | the event queue is played up to its first failure or end, with all the audio before that; a queue without either raises a timeout |
| `SessionRunner.HeardUpToFailure` | src/providers/realtime_tts.py:127-133 | a failure in the queue is raised unless the engine has ended the stream before |
| `SessionRunner.LlmFailureExactlyWhen` | src/services/realtime_session.py:628-629 | a language model that fails ends the session with llm_request_failed and what was heard before, unless the engine ended the stream before that failure came out of the queue |
| `SessionRunner.LateFailureIsMissed` | src/providers/realtime_tts.py:132-133 | a language model that fails after the engine has ended the stream: the session is done |
| `SessionRunner.DoneMeansPlayed` | src/storage/realtime_store.py:286-307 | a consumer whose stream ended was handed exactly what the provider played |
| `SessionRunner.OutcomeStays` | src/services/realtime_session.py:759-770 | nothing other threads do afterwards changes the outcome |
| `SessionRunner.EndsToMatchExactlyWhen` | src/services/realtime_session.py:331-770 | session and audio end to match, done without an error or failed with the same code, exactly if there is input and the playback the run comes to raises only exceptions that are caught there and have a text |
| `SessionRunner.CleanEndExactlyWhen` | src/services/realtime_session.py:581-588 | the audio of a failed session ends without an error exactly if the playback the inputs lead to raises a caught exception with an empty text |
| `SessionRunner.NamelessFailureLooksClean` | src/services/realtime_session.py:585-588 | a recorded answer that breaks with an empty message: the session has failed, its audio looks cleanly ended |
| `SessionRunner.SilentEngineLeavesItRunning` | src/providers/realtime_tts.py:111-111 | an engine that stops answering raises a queue timeout nobody catches: the session stays running and its audio open |
| `SessionRunner.OthersChangeNothing` | src/storage/realtime_store.py:210-307 | consumers and readers change neither status nor end of the audio |
| `IdiomGame.IndexByWord` | src/voice_skills/idiom_game.py:357-357 | the word index holds the last entry of each word |
| `IdiomGame.BuildReplyIndex` | src/voice_skills/idiom_game.py:578-582 | the index lists, for each sound, the entries in dictionary order |
| `IdiomGame.FindReply` | src/voice_skills/idiom_game.py:559-567 | the indexed search returns what a linear scan of the pool returns first |
| `IdiomGame.ScanOfStarting` | src/voice_skills/idiom_game.py:559-567 | looking only at the entries of one sound finds the same reply |
| `IdiomGame.EasierReplyIsHarderReply` | src/voice_skills/idiom_game.py:569-576 | a reply at one level is the reply at every harder level |
| `IdiomGame.TurnEndsExactlyWhen` | src/voice_skills/idiom_game.py:437-517 | a turn is refused, won by turns, won for lack of a reply or answered, each exactly under its condition; the answer is the first entry of the pool that can be played |
| `IdiomGame.WinsByTurnsExactlyWhen` | src/voice_skills/idiom_game.py:466-485 | in a game of one difficulty a fitting word wins exactly when the robot has said as many words as the difficulty demands of the user |
| `IdiomGame.KnowsExactlyWhen` | src/voice_skills/idiom_game.py:569-576 | the robot knows exactly the first entries of the dictionary, as many as the difficulty or the configured limit says |
| `IdiomGame.EveryGameIsFair` | src/voice_skills/idiom_game.py:417-517 | over every sequence of messages no word is played twice, each word starts with the last sound of the previous one, and the turn count stays below the target in force |
| `IdiomGame.GameIsBounded` | src/voice_skills/idiom_game.py:417-517 | the robot plays at most as many words as the dictionary has, whatever the switches |
| `IdiomGame.Skill.Get` | src/voice_skills/idiom_game.py:318-325 | an expired game is dropped |
| `IdiomGame.Skill.Start` | src/voice_skills/idiom_game.py:386-410 | a new game starts from the chosen opening |
| `IdiomGame.Skill.PlayWord` | src/voice_skills/idiom_game.py:466-517 | an accepted word wins the game or is answered |
| `IdiomGame.Skill.Handle` | src/voice_skills/idiom_game.py:417-517 | one message changes only its own device's game: a game expires exactly after its time to live, a refused word does not renew it, and a win ends it |
| `IdiomGame.FindOpenings` | src/voice_skills/idiom_game.py:368-371 | the opening pool is the known opening words, or the first entries |
| `IdiomGame.MakeSkill` | src/voice_skills/idiom_game.py:354-371 | an empty dictionary is refused; otherwise every level has its index |
| `VadCapture.AvgAbsPcm16Le` | esp_idf_demo/main/audio_in.c:53-68 | the firmware's loop computes the mean absolute sample |
| `VadCapture.AvgAbsOfSamples` | esp_idf_demo/tools/vad_sim.py:61-72 | the simulator's level is the same function |
| `VadCapture.LevelIsBetween` | esp_idf_demo/main/audio_in.c:53-68 | the level of samples whose magnitudes lie between two bounds lies between them |
| `VadCapture.RecordAfterSpeechStart` | esp_idf_demo/main/audio_in.c:161-265 | the buffered capture holds prefix and chunks, its metrics are those of the chunks, and it refuses exactly a prefix larger than the buffer |
| `VadCapture.StreamAfterSpeechStart` | esp_idf_demo/main/audio_in.c:381-494 | the streaming capture passes prefix and chunks on with the same metrics and fails exactly when the callback or the driver does |
| `VadCapture.CaptureIsUnique` | esp_idf_demo/main/audio_in.c:161-494 | both captures of one microphone read the same chunks, so bytes and metrics agree |
| `VadCapture.EarlyStop` | esp_idf_demo/main/audio_in.c:220-240 | a capture stops early at the first moment at which it has the minimum length and ends in chunks at or below the silence level, of the required size, after speech; and not before |
| `VadCapture.OverExactlyWhen` | esp_idf_demo/main/audio_in.c:220-240 | the running variables find the utterance over exactly then |
| `VadCapture.ChunksAreWhole` | esp_idf_demo/main/audio_in.c:207-210 | every read but the last brings a whole chunk, the last one what still fits |
| `VadCapture.PeakIsLargest` | esp_idf_demo/main/audio_in.c:197-223 | the reported peak is the largest level among prefix and chunks |
| `VadCapture.QuietTailIsContiguous` | esp_idf_demo/main/audio_in.c:220-233 | the silence counter is the length of the unbroken quiet run at the end |
| `VadCapture.FitsTheBuffer` | esp_idf_demo/main/audio_in.c:181-183 | a capture exceeds the buffer only by its prefix |
| `VadCapture.WaitForSpeechStart` | esp_idf_demo/main/audio_in.c:268-366 | the wait ends at the first detection, error or timeout; the prefix never needs the shift branch |
| `VadCapture.SpeechIsHeard` | esp_idf_demo/main/audio_in.c:312-355 | consecutive armed chunks at or above the start level, of the required size and read before the timeout, end the wait with speech at the latest there |
| `VadCapture.SpeechWasLoud` | esp_idf_demo/main/audio_in.c:312-355 | reported speech is such chunks, and no more of them than were needed |
| `VadCapture.StreakIsMaximal` | esp_idf_demo/main/audio_in.c:330-355 | the returned prefix is exactly the last consecutive loud chunks |
| `VadCapture.NoStreakUnarmed` | esp_idf_demo/main/audio_in.c:319-321 | before arming no loud chunk counts |
| `VadCapture.Simulate` | esp_idf_demo/tools/vad_sim.py:126-175 | the simulator reports the first detection and the peak level |
| `VadCapture.SimulatorAgrees` | esp_idf_demo/tools/vad_sim.py:126-175 | simulator and firmware agree on the detection and its chunk exactly within the firmware's timeout |
| `TriggerInput.Trigger.constructor` | esp_idf_demo/main/trigger_input.c:67-75 | both keys start with the level on their pin and no press in progress |
| `TriggerInput.Trigger.PollButton` | esp_idf_demo/main/trigger_input.c:290-343 | a poll of the voice button updates the fields as specified and fires as specified |
| `TriggerInput.Trigger.PollReconfigButton` | esp_idf_demo/main/trigger_input.c:226-288 | a poll of the boot key does |
| `TriggerInput.Trigger.Poll` | esp_idf_demo/main/trigger_input.c:345-415 | the boot key comes first and hides the voice button from the poll in which it fires; both keys and all events are those of the runs of samples the two pins have shown |
| `TriggerInput.ElapsedOfWrapped` | esp_idf_demo/main/trigger_input.c:302-304 | wrapping subtraction of wrapped ticks never exceeds the real span and equals it below a whole turn |
| `TriggerInput.KeyMeans` | esp_idf_demo/main/trigger_input.c:290-343 | what the fields of a key mean in terms of the samples |
| `TriggerInput.StateFollowsExactlyWhen` | esp_idf_demo/main/trigger_input.c:226-310 | the state of a key follows the pin exactly when the level has been the same for the debounce time |
| `TriggerInput.DebounceHolds` | esp_idf_demo/main/trigger_input.c:295-310 | the state changes only after the level was the same for the debounce time |
| `TriggerInput.ButtonFiresExactlyWhen` | esp_idf_demo/main/trigger_input.c:306-342 | the voice button reports exactly at the release of a press shorter, in 32-bit ticks, than the long-press time |
| `TriggerInput.OneReportPerPress` | esp_idf_demo/main/trigger_input.c:319-340 | two reports belong to two presses |
| `TriggerInput.DownAtStartIsSilent` | esp_idf_demo/main/trigger_input.c:67-75 | a key that is down at the start reports nothing until released and pressed again |
| `TriggerInput.ReportedPressIsShortExactlyWhen` | esp_idf_demo/main/trigger_input.c:319-331 | a reported press was really short exactly if it did not last a whole turn of the counter |
| `TriggerInput.WrappedPressIsReported` | esp_idf_demo/main/trigger_input.c:319-331 | such a press is reported |
| `TriggerInput.ReconfigFiresExactlyWhen` | esp_idf_demo/main/trigger_input.c:249-263 | the boot key reports exactly at the first settled poll of a press that has lasted the long-press time |
| `TriggerInput.HeldKeyIsReported` | esp_idf_demo/main/trigger_input.c:249-263 | one run in which a held key is reported, once |
| `TriggerInput.OneLongReportPerPress` | esp_idf_demo/main/trigger_input.c:249-287 | a press is reported as long at most once |

## Left out

- JitterTasks.WriteBuffered: a call that begins after the close has begun is not modelled; in the source it would start a second player. It takes a caller that deletes only the reader of the downlink, as `main.c:812` does on its own timeout.
- JitterBuffer.CloseLosesAtMostTail: a codec write is atomic and delivers everything or nothing; `audio_out_lock` does not fail; the sizes are parameters with the inequalities of `config.h`.
- JitterBuffer.EndedTaskIsDeletedExactlyWhen: what a deletion through the handle of an ended task does is up to FreeRTOS; in the model it has no effect.
- DownlinkPipeline.OkMeansExactDelivery: payload lengths stay below 2^32 - 8, so the sum with the header does not wrap.
- OpusUplink.Uplink.SendPcm: fewer than 2^32 frames per stream; the same holds of Finish, SendRecording and both round trips.
- OpusUplink.Uplink.Finish: the end marker and the wait for the server's answer are not part of it.
- OtaDevice.RunIsBootable: NVS commits are atomic, setting the boot slot does what it says, and the flash layer refuses to begin an update while the running image awaits validation.
- OtaTasks.ValidateApp: the validation timeout and every other restart are power losses, which may happen at any time.
- OtaProtocol.NewReport: the successful reports of the last three stages under a device's name come from that device; the server does not authenticate them.
- OtaProtocol.ClosedMeansInstalled: the `partition_write` report, which closeout also requires, is not tied to the device's steps.
- OtaServer.VersionsArePreordered: digits are the ASCII ones.
- SessionStore.Store.UpdateSession: the `trace` dictionary, its timings and the aliasing of shallow copies are not modelled; a missing text and an empty one are the same.
- SessionStore.ExpiredForGood: the clock does not run backwards and random session ids never repeat.
- SessionRunner.RunSession: other threads read, claim and consume the session but do not update it; the branch for rejected questions is unreachable in the source and left out; speech recognition and the resolution of prepared audio do not raise.
- IdiomGame.Skill.Handle: finding an idiom in the text (cleaning, dictionary lookup, judge) and the difficulty phrases are a parameter.
- VadCapture.WaitForSpeechStart: allocation failures and the opening and closing of the microphone are left out; the branch that shifts the prefix is an assertion that it is not reached.
- VadCapture.StreamAfterSpeechStart: elapsed times are not among the metrics.
- TriggerInput.Trigger.Poll: the touch panel and the wake word are left out.
- Log lines, elapsed-time traces, peak levels and queue-pending metrics: approximate by design.
- HTTP, WebSocket, Wi-Fi, I2S, SQLite and FreeRTOS internals: nondeterministic success, failure, timeout or atomic table updates.
- Retrieval and scoring, provider protocols, URL handling, WAV parsing, idiom audio plans, flashing and packaging scripts: easier, or determined by libraries.
