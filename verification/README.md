# Thermometer history recovery, verified

A Dafny model of a two-sensor Bluetooth thermometer: its firmware (C), the PC service that polls it and
recovers its history (Python), the sample table the service writes, and the alert engine of its dashboard
(TypeScript). The centre is the path that brings the last few minutes of samples from the firmware's rings
into database rows although sampling goes on, sequence numbers wrap and connections are imperfect.

`dafny verify dfyconfig.toml` checks the whole project.

## How it fits together

- **Words, Layouts, Wire, Buffers**: fixed-width integers, the shared layout codec, the protocol's constants
  and layouts, and writing layouts field by field into a byte buffer.
- **HistoryBuffer, Device, Thermometer**: a ring over an array refined to a window of records; the device as
  a state machine, and what it records told by its readings alone; the firmware's shared state as a class that
  refines it.
- **ApplicationAuth, ProtocolServer, RequestHandler, ProtocolRuns, LockoutRuns, LockoutEnds**: challenge, proof
  and lockout; the request function; the same in memory, byte for byte; and what holds over whole runs, up to
  the moment a lockout ends.
- **ProtocolClient, ThermometerClient, RoundTrip, ByteForms**: the client's builders and decoders, its fallback
  to older firmware, both ends of the wire together, and every message as bytes.
- **HistorySync, Retries, HistoryAccounting, Recovery, DeviceRuns, Generations**: the transfer loop under
  arbitrary replies, each turn told by the answers to its calls, its books, the end-to-end theorem against the
  modelled device with calls that fail, the same from boot over any requests, and the same through the client's
  fallback to older firmware.
- **RingTape, LiveRecovery, LiveDevice**: the transfer while its rings are overwritten and frozen anew, with lost
  answers and sessions: what is stored is right, and what is missing is what the device no longer holds.
- **HistoryBatch, SampleTable, TableGuarantees, Storage**: dating and grouping, the order-sensitive upsert,
  reconciliation, confluence, and the composition from ring to row.
- **Futures, PersistenceQueue, RequestScheduler, PollSchedule**: the service's queues and its poll loop.
- **HistoryPersistence, HistoryRuns**: what an upsert and its reconciliation do to a table together, and the
  database queue running on the sample table.
- **AlertEngine, Crc8, CrcDivision**: the alert reducer, the sensor checksum, and the polynomial division it
  stands for.

What the source changes in place is a class or a method with loops, proved against a function of the old
state; the guarantees are lemmas about those functions. Every stretch of code between two awaits, or under
the firmware's mutex, is one atomic step, and runs are arbitrary sequences of such steps.

## Conventions

- Temperatures are integer centi-degrees, times integer microseconds, the exact average of a sample is kept
  in half centi-degrees and rounded half away from zero when it is stored. Stored times are rounded to a
  second, as `backend/database/schema.sql:9-9` declares a DATETIME without a fraction.
- The keyed hash (HMAC-SHA-256, section 2 of RFC 2104) is an arbitrary function that may fail.
- Clocks, random bytes, replies, readiness and stalls are parameters: functions of the number of interactions
  so far, of a slot or of the packet sent.
- The sample period and the reconciliation's tolerance (half a period in the code) are parameters. Whether slots
  keep a row is stated for a tolerance of at least half a second, to cover the rounding of stored times, and below
  a period; in the code they are half a second and one second.
- The ring capacity is any number from 1 to 65535; limits of the authentication are any positive numbers. The
  protocol's sizes are those of `protocol/thermometer_protocol.json`.

## Where code and documentation differ

- `frontend/src/lib/alertEngine.ts:89-92` promises independent state per recipient, rule and source. Ids that
  contain the separator break this; `AlertEngine.IndependentIffDistinct` gives the exact condition.
- `frontend/src/hooks/useAlertEngine.ts:22-24` promises a step that is idempotent per frame. Pairs that share a
  key break this too, unless their thresholds agree: `AlertEngine.IdempotentIffCompatible`.
- `backend/pc_client/mysql_adapter.py:233-241` reasons that a reconciled batch's rows are already written, as
  rows for the same seconds. Its upsert was started before, but may have raised; and a key that was in the
  table already keeps the date of its row, which for a LIVE row is the time it was received. Either way a slot's
  only row can be deleted. `HistoryPersistence.SafeIffReturnedAndAligned` gives the exact condition: rows already
  present are dated near their samples, and the upsert returned its success or had nothing new to store;
  `HistoryPersistence.SecondsKeptIffFilled` gives it for single seconds, `HistoryRuns.ReconcileAfterSuccessIsSafe`
  for whole runs, `HistoryRuns.FailedUpsertLosesSlot` and `HistoryRuns.MisalignedRunLosesSlot` the failing runs.
- `backend/pc_client/persistence_worker.py:57-67` resolves what waits only when there is a task to stop, on entry
  and again after the flush, where another stop may have taken it away: `PersistenceQueue.StopResolvesIff`.
- `README.md:1089-1097` lists opcodes up to 7 and 32 records per chunk; the code also knows opcode 8 and 72
  compact records. The model follows the code.

## Model

| member | source | states |
|---|---|---|
| Layouts.LayoutDetails | protocol/shared_config.py:24-38 | accepts exactly the layouts whose fields all have a name, a known type and no earlier namesake; the fault reported is that of the first bad field; otherwise the offsets are the running sums and the size their total |
| Layouts.SoundIff | protocol/shared_config.py:24-38 | a layout is sound exactly if every field has a name of its own that is not empty, and one of the nine known types |
| Layouts.Tiling | protocol/shared_config.py:24-38 | the offsets of any layout tile [0, size): every byte belongs to exactly one field |
| Layouts.FieldRoundTrip | backend/pc_client/protocol.py:172-200 | numbers decode to the value packed, two's complement for signed fields; byte values come back padded with zeros or cut to the field's size |
| Layouts.FieldImageRoundTrip | backend/pc_client/protocol.py:172-200 | every image of the right length is the encoding of what it decodes to |
| Layouts.UnpackPack | backend/pc_client/protocol.py:181-200 | unpacking undoes packing for every layout and all in-range values |
| Layouts.PackUnpack | backend/pc_client/protocol.py:181-200 | packing undoes unpacking for every layout and every byte string of its size: the codec is a bijection |
| Layouts.PackedSlot | backend/pc_client/protocol.py:172-200 | in the packed bytes, each field's slice at its computed offset is that field's own image |
| Layouts.ImageDetermined | backend/pc_client/protocol.py:172-178 | two strings of the layout's size that agree on every field's slice are equal: no byte escapes the fields |
| Layouts.KeywordRoundTrip | backend/pc_client/protocol.py:181-200 | packing fails for want of a keyword exactly when one is missing; otherwise the keyword forms of pack and unpack invert each other, and an extra keyword is ignored |
| Layouts.ImageRoundTrip | backend/pc_client/protocol.py:181-200 | any received packet of the right size survives unpacking to keywords and packing again |
| Words.U32RoundTrip | firmware/main/src/protocol.c:47-70 | the shifting writer and reader of 32-bit values are inverse |
| Words.I16RoundTrip | firmware/main/src/protocol.c:42-62 | writing a signed value through its unsigned conversion keeps it |
| Wire.PacketsFit | protocol/shared_config.py:225-239 | the largest full and the largest compact history response fit one ATT read response and the largest packet, and full chunks are no longer than compact ones |
| Wire.HeaderPacked | backend/pc_client/protocol.py:342-356 | the firmware's header bytes, written one offset at a time, are the packed header layout |
| Buffers.WriteNext | firmware/main/src/protocol.c:53-70 | writing the next field's image at its offset extends the part of a layout already in the buffer |
| Buffers.WritesPack | firmware/main/src/protocol.c:42-70 | once all fields have been written at their offsets, the buffer holds exactly the packer's bytes and is unchanged elsewhere |
| HistoryBuffers.RingKeepsNewest | firmware/main/src/history_buffer.c:19-31 | after any appends an empty ring holds the last min(n, capacity) records, in order |
| HistoryBuffers.ArrangedPush | firmware/main/src/history_buffer.c:25-30 | overwriting the slot behind the newest record and moving the indices on pushes onto the window, in a full ring and in one with room |
| HistoryBuffers.HistoryBuffer.constructor | firmware/main/src/history_buffer.c:12-17 | a fresh ring is empty |
| HistoryBuffers.HistoryBuffer.Append | firmware/main/src/history_buffer.c:19-31 | the array and its two indices represent the old window plus the record, minus the oldest one when the ring was full |
| HistoryBuffers.HistoryBuffer.Count | firmware/main/src/history_buffer.c:33-36 | the length of the window |
| HistoryBuffers.HistoryBuffer.OldestSequence | firmware/main/src/history_buffer.c:38-45 | the first record's sequence, 0 for an empty ring |
| HistoryBuffers.HistoryBuffer.Locate | firmware/main/src/history_buffer.c:56-65 | finds the first record carrying the start sequence, or the end |
| HistoryBuffers.HistoryBuffer.Copy | firmware/main/src/history_buffer.c:47-79 | copies exactly the requested slice of the window into the caller's array and touches nothing else; success means that something was copied |
| HistoryBuffers.HistoryBuffer.Assign | firmware/main/src/thermometer.c:297-297 | structure assignment makes an independent copy: both windows are then equal |
| HistoryBuffers.SliceAvailable | firmware/main/src/history_buffer.c:52-78 | a copy yields something exactly when the count is positive and the start is held, and then min(requested, available) records from there on |
| Device.RingsContiguous | firmware/main/src/thermometer.c:129-178 | from boot, over any run with overwriting and wrap-around: both rings hold equally many records, numbered contiguously and pairwise distinctly, with oldest = newest - count + 1 modulo 2^32; frozen rings are contiguous too |
| Device.StepsRecorded | firmware/main/src/thermometer.c:157-305 | numbering of live and frozen rings is an invariant of sampling, readings, buttons, display commands and freezing |
| Device.LiveRingKeepsNewest | firmware/main/src/thermometer.c:129-178 | under any interleaving the live ring is the last min(n, capacity) of all n samples that the readings call for |
| Device.ShownStep | firmware/main/src/thermometer.c:98-137 | what a step does to a sensor: a valid reading sets its temperature, any reading whether it counts as connected, a command or button its display if it is connected, sampling its number; nothing else changes any of these |
| Device.HistoryIsSamples | firmware/main/src/thermometer.c:98-174 | from boot, the records sampled are those the readings call for: numbered from 1 modulo 2^32, each with the last valid reading's temperature, valid exactly if the last reading was |
| Device.SampleTells | firmware/main/src/thermometer.c:129-137 | record by record: a sample carries the temperature of the sensor's last valid reading before it, 0 if there was none, and is valid exactly if its last reading was, Disconnected otherwise and before the first |
| Thermometers.Thermometer.constructor | firmware/main/src/thermometer.c:196-209 | at start both sensors are disconnected with the display off and all rings are empty |
| Thermometers.Thermometer.TakeSample | firmware/main/src/thermometer.c:166-174 | one sampling step advances the wrapping counter and appends one record to both rings and to no snapshot; what the record says is Device.SampleTells |
| Thermometers.Thermometer.ApplyReading | firmware/main/src/thermometer.c:98-127 | a reading updates only its own sensor; display state survives a fault |
| Thermometers.Thermometer.GetCurrent | firmware/main/src/thermometer.c:63-82 | the snapshot is taken from one state; the average is valid only with both sensors visible and truncates toward zero |
| Thermometers.Thermometer.GetHistoryMeta | firmware/main/src/thermometer.c:285-305 | freezes both live rings as they are and describes the frozen ones, leaving the live rings alone |
| Thermometers.Thermometer.SetDisplay | firmware/main/src/thermometer.c:307-338 | only an available sensor's flag changes; what is reported is the state afterwards |
| Thermometers.Thermometer.ToggleDisplay | firmware/main/src/thermometer.c:340-363 | only an available sensor's flag is inverted |
| Thermometers.Thermometer.CopyHistory | firmware/main/src/thermometer.c:376-395 | reads the frozen ring once there is one, the live ring before, and changes neither |
| ApplicationAuth.NextKeepsInv | firmware/main/src/application_auth.c:31-42 | the failure count reaches its maximum exactly while a lock is recorded, and a pending challenge never coexists with an authenticated session |
| ApplicationAuth.RunKeepsInv | firmware/main/src/application_auth.c:89-163 | the same over any run of connections, challenges and proofs with a clock that does not go back |
| ApplicationAuth.RejectionsWithinBudget | firmware/main/src/application_auth.c:123-163 | from any reachable state, refused proofs stay within the budget that the failure count and the running lock leave |
| ApplicationAuth.LockoutBound | firmware/main/src/application_auth.c:31-163 | over any run without a right proof at most maxFailures proofs are compared per started lockout period, across any number of connections |
| ApplicationAuth.ProofDecides | firmware/main/src/application_auth.c:123-163 | the outcome of a proof from its time, the lock, the pending challenge and the hash alone, with the counter, the lock and the disconnect request it leaves |
| ApplicationAuth.LockoutEnds | firmware/main/src/application_auth.c:31-42 | over any run from a start without failures: after the last of maxFailures wrong proofs, at t, a challenge is refused before t + lockout and issued from then on, whatever is sent meanwhile, unless maxFailures further proofs have been wrong |
| ApplicationAuth.RightProofAccepted | firmware/main/src/application_auth.c:123-163 | an issued challenge is answered with success by the keyed hash of domain, version, device, boot and nonce, in time, and the failures are cleared |
| ApplicationAuth.AuthGuard.CheckLocked | firmware/main/src/application_auth.c:31-42 | tells whether a lock is set and not yet over, leaves a running one alone and clears an expired one with its failure count |
| ApplicationAuth.AuthGuard.BeginChallenge | firmware/main/src/application_auth.c:106-121 | issues a fresh challenge and ends the old authentication unless locked out |
| ApplicationAuth.AuthGuard.CheckProof | firmware/main/src/application_auth.c:123-163 | settles a proof: locked, expired or absent challenge, wrong, or right, with the counter, the lock and the session as the code leaves them |
| ApplicationAuth.AuthSession.TakeDisconnect | firmware/main/src/application_auth.c:171-178 | a requested disconnect is reported once |
| ApplicationAuth.ConstantTimeEqual | firmware/main/src/application_auth.c:21-29 | accumulating differences decides equality of the whole strings |
| ProtocolServer.ProcessTotal | firmware/main/src/protocol.c:379-483 | for every request and every capacity of at least a header: the response lies between header size and capacity, its length field matches, opcode and request ID are echoed and the response flag is set |
| ProtocolServer.FinishResponse | firmware/main/src/protocol.c:72-84 | the eight header bytes go in front of the payload already in place: the buffer then holds the framed reply and zeroes |
| ProtocolServer.EncodeCurrent | firmware/main/src/protocol.c:178-198 | the field-by-field writes of a snapshot produce the packed current_response layout |
| ProtocolServer.EncodeMeta | firmware/main/src/protocol.c:263-280 | the field-by-field writes of the metadata produce the packed layout |
| ProtocolServer.EncodeRecords | firmware/main/src/protocol.c:350-370 | the record loop writes exactly the concatenated record images, full or compact |
| ProtocolServer.EncodeChunk | firmware/main/src/protocol.c:341-374 | prefix and records together are the chunk payload |
| ProtocolServer.EncodeDisplay | firmware/main/src/protocol.c:239-244 | the display result is the packed layout |
| ProtocolServer.EncodeChallenge | firmware/main/src/protocol.c:108-116 | the challenge is the packed layout |
| RequestHandlers.RequestHandler.ProcessRequest | firmware/main/src/protocol.c:379-483 | in memory: state and response buffer end up exactly as the request function says, byte for byte; a buffer without room for a header is left alone |
| RequestHandlers.RequestHandler.HandleGetHistoryChunk | firmware/main/src/protocol.c:287-377 | the chunk handler clamps, copies from the served ring and encodes; its state does not change; how many records it answers is RoundTrip.ChunkIsMaximal |
| RequestHandlers.RequestHandler.HandleGetHistoryMeta | firmware/main/src/protocol.c:251-285 | freezes and describes, or answers an error without freezing when the buffer is too small |
| RequestHandlers.RequestHandler.HandleSetDisplay | firmware/main/src/protocol.c:205-249 | errors are found in the order length, sensor, value, capacity, and none of them switches anything |
| RequestHandlers.RequestHandler.HandleAuthBegin | firmware/main/src/protocol.c:86-120 | the challenge is issued even when the response does not fit, as in the firmware |
| RequestHandlers.RequestHandler.HandleAuthProve | firmware/main/src/protocol.c:122-156 | the outcome of the proof as a status without payload |
| RequestHandlers.RequestHandler.StartSession | firmware/main/src/protocol.c:9-17 | a new connection starts unauthenticated and keeps the lockout counters |
| RequestHandlers.RequestHandler.TakeBondReset | firmware/main/src/protocol.c:27-34 | a requested bond reset is reported once |
| RequestHandlers.RequestHandler.TakeDisconnect | firmware/main/src/protocol.c:36-40 | a requested disconnect is reported once |
| RequestHandlers.RequestHandler.EndSession | firmware/main/src/protocol.c:19-25 | a closed connection leaves nothing behind but the lockout counters |
| ProtocolRuns.AuthenticatedIff | firmware/main/src/protocol.c:425-443 | over any run of arbitrary bytes a session is authenticated exactly when the proof for this connection's last issued challenge was accepted within the timeout and no challenge was issued since |
| ProtocolRuns.ProtectedNeedsProof | firmware/main/src/protocol.c:440-443 | a protected opcode succeeds only on such a session |
| ProtocolRuns.ChallengeUsedOnce | firmware/main/src/application_auth.c:137-146 | between two compared proofs a new challenge was issued: no nonce is tried twice |
| ProtocolRuns.UnauthenticatedIsHarmless | firmware/main/src/protocol.c:440-443 | whatever an unauthenticated peer sends changes neither display flags nor rings nor bond; protected opcodes change nothing at all |
| ProtocolRuns.AlwaysInv | firmware/main/src/protocol.c:379-483 | the authentication invariant holds before every input of every run of bytes |
| LockoutRuns.InputIsEvent | firmware/main/src/protocol.c:425-438 | no byte sequence other than a well-formed AUTH_BEGIN or AUTH_PROVE touches the authentication state |
| LockoutRuns.GuessingIsBounded | firmware/main/src/application_auth.c:123-163 | the lockout bound for requests as bytes: at most maxFailures wrong proofs are compared per started lockout period |
| LockoutEnds.LockoutEndsOnWire | firmware/main/src/application_auth.c:31-163 | for requests as bytes over any connections: after the last of maxFailures wrong proofs, at t, a client that knows the passkey is turned away at AUTH_BEGIN before t + lockout, and from then on let in |
| ProtocolClient.ParseResponse | backend/pc_client/protocol.py:408-453 | what is accepted has the expected opcode and request ID, a known status and exactly the payload behind the header |
| ProtocolClient.DecodeRecordLoop | backend/pc_client/protocol.py:563-589 | the loop with its early exit yields every record decoded, or nothing when one status code is unknown |
| ProtocolClient.ChunkFitsMtu | backend/pc_client/thermometer_client.py:518-528 | from the smallest legal MTU on, the computed count is the largest that fits one ATT read response, up to the form's maximum |
| ThermometerClients.ThermometerClient.NextRequestId | backend/pc_client/thermometer_client.py:407-409 | request IDs wrap at 16 bits |
| ThermometerClients.ThermometerClient.GetHistoryChunk | backend/pc_client/thermometer_client.py:490-516 | the loop makes at most two exchanges: a refused compact request is repeated once in the full form, any other failure is the caller's |
| ThermometerClients.FullFormIsFinal | backend/pc_client/thermometer_client.py:493-515 | once the full form is settled on, no compact request is sent again |
| ThermometerClients.ChunkCallServed | backend/pc_client/thermometer_client.py:490-516 | whatever form it starts with, the call against the device of today or an older one yields the device's own records from the start on; it remembers the form that was answered, and an older device at once |
| ThermometerClients.ChunkCallIsMaximal | backend/pc_client/thermometer_client.py:490-528 | a call for a number the ring holds brings as many of the records asked for as one ATT read response of the negotiated size holds, in the compact form if both sides know it |
| ThermometerClients.GenerationsAgree | backend/pc_client/thermometer_client.py:508-513 | both generations' answers agree: one list begins with the other |
| RoundTrip.RequestAccepted | backend/pc_client/protocol.py:342-356 | the firmware finds no fault in any client-built header and reads back opcode, ID and payload |
| RoundTrip.ReplyParsed | firmware/main/src/protocol.c:72-84 | every framed reply parses; an error status is reported as such |
| RoundTrip.ExchangeParses | backend/pc_client/protocol.py:408-453 | for every request a client can build, the answer is never found malformed |
| RoundTrip.CurrentRoundTrip | backend/pc_client/protocol.py:456-494 | the client decodes the snapshot the device encoded, temperatures of disconnected sensors left out |
| RoundTrip.CurrentFetched | firmware/main/src/protocol.c:167-203 | a GET_CURRENT exchange shows the client each sensor's temperature, connection and display as the device has them, and their average, cut towards zero, exactly when both are displayed, and changes nothing |
| RoundTrip.DisplayCommanded | firmware/main/src/protocol.c:205-249 | a display command switches an available sensor as asked and tells the client so; an unavailable one stays as it was and is reported as such |
| RoundTrip.MetaRoundTrip | backend/pc_client/protocol.py:522-536 | the client decodes the metadata the device encoded |
| RoundTrip.DisplayRoundTrip | backend/pc_client/protocol.py:497-508 | the client decodes the display result the device encoded |
| RoundTrip.ChallengeRoundTrip | backend/pc_client/protocol.py:511-519 | the client decodes the challenge the device issued |
| RoundTrip.ChunkRoundTrip | backend/pc_client/protocol.py:539-589 | the client decodes the records the device encoded, in either form; compact ones are numbered from the start sequence |
| RoundTrip.ChunkFetched | firmware/main/src/protocol.c:287-377 | a chunk request on an authenticated session brings back exactly the meaning of the stored records, or NOT_AVAILABLE when there is none |
| RoundTrip.ChunkIsMaximal | firmware/main/src/protocol.c:312-339 | a request for a number the ring holds brings the records from there on, as many as possible: at most the count asked for, 32 full or 72 compact, what fits behind 15 bytes at 7 or 3 bytes each, and what the ring has, one of these bounds being reached |
| RoundTrip.ChunkNotHeld | firmware/main/src/protocol.c:333-339 | a request for a number the ring does not hold is refused as not available |
| RoundTrip.ChunkTooShort | firmware/main/src/protocol.c:319-331 | a buffer without room for one record makes the request fail with INTERNAL_ERROR |
| RoundTrip.CompactRefinesFull | firmware/main/src/protocol.c:312-376 | compact and full answers to one request: the shorter list is a prefix of the longer, sequence numbers included, although the compact form carries none |
| RoundTrip.Handshake | backend/pc_client/protocol.py:320-339 | a client that knows the passkey is let in unless a lockout is still running: its proof for the challenge it decoded is accepted in time |
| ByteForms.LowestFirst | firmware/main/src/protocol.c:53-70 | numbers are stored lowest byte first, negative ones as their complement to 2^16 |
| ByteForms.CurrentBytes | firmware/main/src/protocol.c:157-203 | the snapshot's twenty bytes, with the codes of display states and flags |
| ByteForms.MetaBytes | firmware/main/src/protocol.c:263-285 | the metadata's twenty bytes |
| ByteForms.DisplayBytes | firmware/main/src/protocol.c:239-248 | the display result's three bytes |
| ByteForms.ChallengeBytes | firmware/main/src/protocol.c:105-119 | the challenge's bytes: device, boot and nonce |
| ByteForms.ChunkBytes | firmware/main/src/protocol.c:341-376 | a chunk's bytes: sensor, start, count and record size, then each record with its number in the full form only |
| ByteForms.ResponseBytes | firmware/main/src/protocol.c:72-84 | a response's header bytes, with the code of each status |
| ByteForms.RequestBytes | backend/pc_client/protocol.py:342-356 | a request's header bytes |
| ByteForms.ChunkRequestForm | backend/pc_client/protocol.py:386-405 | a chunk request is built exactly for a known sensor, a 32-bit start and 1 to 32 or 72 records, as these bytes |
| ByteForms.DisplayRequestForm | backend/pc_client/protocol.py:366-371 | a display request is built exactly for a known sensor, as these bytes |
| ByteForms.ProofForm | backend/pc_client/protocol.py:374-383 | a proof request is built exactly from 32 bytes |
| ByteForms.ParsedIff | backend/pc_client/protocol.py:408-453 | a response is taken exactly if version, opcode, number, length, status and response flag are in order |
| ByteForms.CurrentTakenIff | backend/pc_client/protocol.py:456-494 | a snapshot is taken exactly if states, flags and the spare byte are in range |
| ByteForms.DisplayTakenIff | backend/pc_client/protocol.py:497-508 | a display result is taken exactly if sensor, state and flag are in range |
| ByteForms.ChunkTakenIff | backend/pc_client/protocol.py:539-589 | a chunk is taken exactly if sensor and record size are right, it is as long as its count says, and every record's status is known |
| ByteForms.HeaderFaults | firmware/main/src/protocol.c:387-424 | which header faults are refused with which status, in the order in which they are looked for, changing nothing |
| ByteForms.GateFaults | firmware/main/src/protocol.c:440-483 | without a proven passkey all but the two authentication requests are refused, with one exactly the unknown opcodes |
| ByteForms.LengthFaults | firmware/main/src/protocol.c:425-470 | payloads of the wrong length are refused, with the status each opcode has for it, changing nothing |
| ByteForms.FieldFaults | firmware/main/src/protocol.c:205-331 | fields out of range and buffers too short are refused in the order sensor, value, room, changing nothing |
| ByteForms.ProofAnswered | firmware/main/src/protocol.c:122-156 | AUTH_PROVE answers without a payload whether the proof was accepted, not asked for, wrong or locked out, each with its own status |
| ByteForms.BondResetAsked | firmware/main/src/protocol.c:472-480 | exactly an authenticated RESET_BOND without payload asks for the bond to be reset |
| HistorySync.ValidateChunk | backend/pc_client/history_sync.py:262-277 | accepts exactly non-empty, contiguous answers to the request that are not longer than asked |
| HistorySync.TryChunk | backend/pc_client/history_sync.py:119-153 | the retry loop stops at an acceptable chunk, a timeout, NOT_AVAILABLE or the last retry, and not before; call by call this is Retries.FirstDecides |
| Retries.FirstDecides | backend/pc_client/history_sync.py:121-153 | the first call that repeating cannot mend decides, if the retries reach it: an acceptable chunk in time is taken, NOT_AVAILABLE and lateness end the turn; when all retries + 1 calls fail otherwise, the turn gives up after exactly these |
| Retries.TurnStores | backend/pc_client/history_sync.py:114-208 | if call number j + 1 <= retries + 1 of a turn answers in time, after j failures that may be repeated, the turn stores exactly these records, moves the sensor on behind them and requeues it while something is left |
| Retries.TurnGivesUp | backend/pc_client/history_sync.py:121-192 | if every call fails in a way that may be repeated, the sensor is dropped and reported after exactly retries + 1 calls, and nothing is stored |
| Retries.TurnRunsOut | backend/pc_client/history_sync.py:138-153 | a call that comes too late, or is not answered in time, ends the transfer without storing anything |
| Retries.TurnRefused | backend/pc_client/history_sync.py:143-192 | NOT_AVAILABLE is not repeated: new metadata in time decides between going on behind the gap, written off exactly, and dropping the sensor, each failure being reported |
| Retries.TurnDecided | backend/pc_client/history_sync.py:121-153 | every turn goes in one of these four ways |
| Retries.LoopGoesOn | backend/pc_client/history_sync.py:113-113 | no turn begins after the deadline; before it, the first sensor of the queue has its turn |
| HistorySync.Transfer | backend/pc_client/history_sync.py:99-208 | the loop as written computes the transfer function and terminates |
| HistorySync.RecoverOrDrop | backend/pc_client/history_sync.py:154-192 | a failed turn salvages the surviving suffix when the same boot still holds some of it, and drops the sensor otherwise |
| HistorySync.AcceptChunk | backend/pc_client/history_sync.py:194-208 | an accepted chunk is stored and the sensor requeued while something is left |
| HistorySync.StepProgress | backend/pc_client/history_sync.py:113-208 | whatever the replies, even with a stopped clock, every pass shrinks the sum of what is left in the queue |
| HistorySync.TransferRotates | backend/pc_client/history_sync.py:113-208 | in every run the queue only rotates: the front sensor leaves or goes to the back |
| HistorySync.ServedInOrder | backend/pc_client/history_sync.py:113-114 | the sensor waiting at place n is served exactly n passes later |
| HistorySync.RoundRobin | backend/pc_client/history_sync.py:113-208 | between two services of one sensor every other is served at most once |
| HistoryAccounting.GiveUpCases | backend/pc_client/history_sync.py:154-192 | a turn without a chunk either only reports failures or skips exactly the overwritten records |
| HistoryAccounting.StepBooked | backend/pc_client/history_sync.py:154-208 | under arbitrary replies a pass posts at most one entry, a credit or a write-off, and only for the sensor it served |
| HistoryAccounting.Accounting | backend/pc_client/history_sync.py:99-233 | at the end of any transfer retrieved + lost + left = expected, the next sequence continues right behind, and exactly `retrieved` distinct records are stored |
| HistoryAccounting.CompleteIsGapless | backend/pc_client/history_sync.py:211-233 | a complete result comes from one boot with nothing left over and no failure, and holds exactly the sequences oldest .. oldest + expected - 1 modulo 2^32 of every sensor, whatever the device answered |
| HistoryAccounting.CompleteIff | backend/pc_client/history_sync.py:210-233 | a result is complete exactly when both counts were met, nothing failed or was left waiting, time did not run out and the device did not restart |
| HistoryAccounting.ReportTells | backend/pc_client/history_sync.py:210-214 | in any run the report names an exceeded budget exactly if a sensor was left waiting or time ran out, a restart exactly if there was one, and every failure of a turn |
| Recovery.StillServing | firmware/main/src/thermometer.c:387-393 | sampling, readings, buttons and other requests between two chunks leave the frozen rings as they were served |
| Recovery.MetaFreezes | firmware/main/src/protocol.c:251-285 | asking for the metadata freezes the live rings, and the decoded metadata describes them |
| Recovery.MetaTells | firmware/main/src/protocol.c:251-285 | the client learns boot, newest number, how many records each live ring holds and its oldest number, 0 for an empty one |
| Recovery.FetchIsMaximal | backend/pc_client/thermometer_client.py:490-528 | a chunk call of the transfer brings as many of the records asked for as one ATT read response of the negotiated size holds |
| Recovery.LoopRecovers | backend/pc_client/history_sync.py:99-233 | against any world in which one of the calls the retries allow brings the next records, the transfer completes with exactly the rings |
| Recovery.RecoveryIsExact | backend/pc_client/history_sync.py:60-245 | end to end: on any reachable device, with overwriting, wrap-around and harmless activity at will, an authenticated transfer without timeouts and with at most `retries` failing calls in a row is complete and its records are exactly both decoded rings as frozen |
| DeviceRuns.InputIsDeviceEvent | firmware/main/src/protocol.c:440-482 | an input moves sensors and rings by at most one device event: a background event, an accepted display command or a freeze |
| DeviceRuns.TraceIsDeviceRun | firmware/main/src/protocol.c:379-483 | whatever bytes arrive, the device's state is that of the run of these events |
| DeviceRuns.AlwaysRecorded | firmware/main/src/thermometer.c:157-305 | the numbering of the rings that recovery relies on holds in every state a run of arbitrary bytes reaches |
| DeviceRuns.RecoveryFromBoot | backend/pc_client/history_sync.py:60-245 | from boot to the client: after any inputs at all, an authenticated transfer without timeouts and with at most `retries` failing calls in a row is complete and holds, per sensor, exactly the decoded last min(n, capacity) samples since boot, as the readings among the inputs called for them |
| RingTapes.LiveIsTail | firmware/main/src/thermometer.c:157-178 | from any moment on, the live ring is the end of a tape that starts with its content then and gains one record per sample |
| RingTapes.FrozenIsWindow | firmware/main/src/thermometer.c:285-305 | from a freeze on, with further ones at any time, the frozen ring is the live ring of that or a later moment |
| RingTapes.WindowSlice | firmware/main/src/history_buffer.c:47-79 | as long as numbers do not come round, a copy from a number on is the tape from that number's place on if the window still holds it, and empty otherwise |
| LiveRecovery.SalvageIsExact | backend/pc_client/history_sync.py:154-192 | when a chunk is reported as not available and new metadata arrives, the transfer goes on behind the overwritten records and writes off exactly these if some but not all of what was due is gone, and drops the sensor otherwise |
| LiveRecovery.TransferIsFaithful | backend/pc_client/history_sync.py:113-208 | against rings that go on and any failures: everything stored is a record of the ring described first, and of the records a sensor is through with those not stored have been overwritten |
| LiveRecovery.MissingIsOverwritten | backend/pc_client/history_sync.py:113-208 | when every request gets through within its retries, every record of the ring described first is stored unless it has been overwritten |
| LiveDevices.InputsFollow | firmware/main/src/protocol.c:379-483 | any inputs to the device, from anyone and in any order, further metadata requests included, make up such a course |
| LiveDevices.MetaLeavesFrozen | firmware/main/src/protocol.c:251-285 | a metadata request leaves rings frozen and described as the transfer takes them up |
| LiveDevices.LiveTransferIsFaithful | backend/pc_client/history_sync.py:60-245 | end to end, on a device that goes on sampling, is asked for metadata by anyone, loses sessions and answers, or never freezes its rings: each record stored is the meaning of the record the ring held under that number when it was described, and a record given up is one the device no longer holds |
| LiveDevices.LiveTransferKeepsPace | backend/pc_client/history_sync.py:60-245 | when every request gets through within its retries on an open session, every record of the described rings that the device still holds at the end has been stored |
| Generations.EitherGenerationRecovers | backend/pc_client/thermometer_client.py:490-516 | a whole transfer through the compact-to-full fallback recovers both frozen rings exactly, from today's firmware and from older one, with at most `retries` failing calls in a row, whatever the client remembers at each call |
| Generations.OlderIsRemembered | backend/pc_client/thermometer_client.py:508-513 | after its first call to an older device the client keeps to the full form |
| HistoryBatches.BuildHistoryBatch | backend/pc_client/ble_service.py:1543-1592 | the two loops and the sort compute the batch function, for any list of records |
| HistoryBatches.BuildSample | backend/pc_client/ble_service.py:1551-1591 | one reading per sensor, absent ones marked, the average only with both temperatures, the date of the last sensor that has one |
| HistoryBatches.GroupingIsLossless | backend/pc_client/ble_service.py:1547-1591 | one sample per distinct sequence, each reading that of its record, each record in a sample, dated like the last sensor's record, with the sum of both temperatures exactly when there are two |
| HistoryBatches.DatedByDisplacement | backend/pc_client/history_sync.py:279-290 | a date is the anchor's plus the signed distance of the sequence, from -(2^31 - 1) to 2^31 periods |
| HistoryBatches.OnePeriodApart | backend/pc_client/history_sync.py:279-290 | consecutive sequences are exactly one period apart if and only if the first is not 2^31 past the anchor |
| HistoryBatches.BatchFollowsDevice | backend/pc_client/ble_service.py:1592-1592 | any two samples of a batch are as many periods apart as their sequences, across the wrap; so they come out in device order |
| SampleTables.SampleTable.Publish | backend/pc_client/mysql_adapter.py:180-206 | inserts the row unless the natural key is taken, and then changes nothing; a sample without both sensors is refused untouched |
| SampleTables.SampleTable.Execute | backend/pc_client/mysql_adapter.py:213-221 | a multi-row statement is the row-by-row fold |
| SampleTables.SampleTable.UpsertHistory | backend/pc_client/mysql_adapter.py:208-226 | slicing by 100 is invisible: the table ends up as after one row-by-row fold; an unusable sample keeps its slice and later ones out |
| SampleTables.ParamsIs | backend/pc_client/mysql_adapter.py:89-111 | a sample can be stored exactly if it has a reading of both sensors; of several the last one counts |
| SampleTables.StoredIs | backend/pc_client/mysql_adapter.py:208-226 | of a list whose first unusable sample is number k, exactly the whole slices of 100 before it are stored |
| SampleTables.UpdateColumns | backend/pc_client/mysql_adapter.py:49-76 | the column assignments in order, each reading what earlier ones left, amount to the merge, and a HISTORY row with both temperatures gets their middle, a half rounded away from zero |
| SampleTables.SampleTable.Reconcile | backend/pc_client/mysql_adapter.py:228-279 | window, scan and delete remove exactly the PROVISIONAL rows within tolerance of some sample, and no other row |
| SampleTables.UpsertMore | backend/pc_client/mysql_adapter.py:213-221 | storing two lists one after the other is storing their concatenation |
| TableGuarantees.RunEvolves | backend/pc_client/mysql_adapter.py:44-76 | over any run of writes: LIVE rows never change, a retrieved reading is never altered or withdrawn, a HISTORY row has an average exactly with both temperatures, within half a centi-degree of the middle and not nearer to zero, and only placeholders are deleted |
| TableGuarantees.PublishedOutcome | backend/pc_client/mysql_adapter.py:180-206 | publishing adds the row under its natural key if that is free, without one as the next placeholder, and changes no other row |
| TableGuarantees.SweptOutcome | backend/pc_client/mysql_adapter.py:228-279 | reconciling keeps a row exactly if it is no placeholder or lies further than the tolerance from every sample, and changes none |
| TableGuarantees.UpsertAllSettles | backend/pc_client/mysql_adapter.py:49-76 | after storing agreeing batches, each side of a row is described without reference to order: the settled old value, else what some sample reports, else not retrieved |
| TableGuarantees.OrderAndRepetitionDoNotMatter | backend/pc_client/mysql_adapter.py:44-77 | agreeing batches stored in any order and any number of times give the same sensor, status, average and source columns |
| TableGuarantees.CommuteIffAgree | backend/pc_client/mysql_adapter.py:49-76 | two recovered samples commute on every table if and only if they agree on the readings both retrieved |
| TableGuarantees.BatchStores | backend/pc_client/mysql_adapter.py:89-111 | every built batch can be stored, as sound HISTORY rows |
| TableGuarantees.BatchIsTruthful | backend/pc_client/ble_service.py:1543-1592 | batches built from one device's records all tell its recordings, so partial retries converge |
| TableGuarantees.TruthfulAgree | backend/pc_client/mysql_adapter.py:49-76 | samples that tell one device's recordings agree |
| TableGuarantees.GaplessBatchClearsWindow | backend/pc_client/mysql_adapter.py:228-279 | reconciling with a gapless batch leaves no placeholder in the whole time it spans |
| Storage.RingReachesTable | backend/pc_client/ble_service.py:1487-1502 | from ring to database, with at most `retries` failing calls in a row: every record the rings held when frozen ends up in the row of its boot and sequence as the device recorded it, unless that side was settled before |
| PersistenceQueue.PersistenceWorker.Create | backend/pc_client/persistence_worker.py:29-43 | a capacity must be positive |
| PersistenceQueue.PersistenceWorker.Put | backend/pc_client/persistence_worker.py:69-84 | a full queue resolves the future at once and counts the overflow |
| PersistenceQueue.PersistenceWorker.PutBatch | backend/pc_client/ble_service.py:1498-1502 | a batch's two calls are put with nothing in between |
| PersistenceQueue.PersistenceWorker.FailPending | backend/pc_client/persistence_worker.py:118-128 | every waiting request is resolved and the queue emptied |
| PersistenceQueue.ReconcileFollowsUpsert | backend/pc_client/persistence_worker.py:69-128 | over any run with overflow, failures, cancellation and stop: the call started right before a reconciliation was the upsert of the same batch, and calls start in the order they were put |
| PersistenceQueue.UpsertMayHaveFailed | backend/pc_client/persistence_worker.py:104-114 | that upsert may have raised: a run of the queue in which the reconciliation still starts; what it then does to the table is FailedUpsertLosesSlot |
| PersistenceQueue.RunTracked | backend/pc_client/persistence_worker.py:89-128 | a future is open only while its request waits or runs, and its outcome tells whether the adapter was called |
| PersistenceQueue.OutcomesStand | backend/pc_client/persistence_worker.py:94-95 | no future is resolved twice |
| PersistenceQueue.CallsKept | backend/pc_client/persistence_worker.py:69-114 | the adapter is called with exactly what each request asked for, batch and sample included, in every run |
| PersistenceQueue.OutcomeExplained | backend/pc_client/persistence_worker.py:69-128 | in every run a resolved future got its outcome for its own reason: the result or error of its own call, refusal exactly when the queue was full, the worker's end while it ran, or a stop while it waited |
| PersistenceQueue.ServedInTurn | backend/pc_client/persistence_worker.py:89-116 | however the calls end, an idle worker serves the waiting requests one after another in their order |
| PersistenceQueue.PersistenceWorker.Stop | backend/pc_client/persistence_worker.py:57-67 | does nothing without a task; otherwise, when nothing else happens meanwhile, ends the worker, fails what still waits and forgets the task |
| PersistenceQueue.StopLeaves | backend/pc_client/persistence_worker.py:57-67 | future by future, with anything happening while stop flushes and while it waits for the cancelled worker, other stops included: without a task on entry every open future stays open; without one after the flush every future open by then does; otherwise only what a worker started meanwhile is running |
| PersistenceQueue.StopResolvesIff | backend/pc_client/persistence_worker.py:57-67 | stopping leaves no future open if and only if there was a task on entry and still one after the flush, or nothing was open when it gave up |
| PersistenceQueue.StoppedBeforeStart | backend/pc_client/persistence_worker.py:58-59 | a request put before the first start is still open after stopping |
| PersistenceQueue.OvertakenStopFails | backend/pc_client/persistence_worker.py:64-67 | two stops at once: the first finds its task gone after the flush, fails, and leaves a request open that was put meanwhile |
| PersistenceQueue.OverflowCounts | backend/pc_client/persistence_worker.py:45-49 | the overflow counter is the number of refused requests |
| HistoryPersistence.BuiltIsStorable | backend/pc_client/ble_service.py:1543-1592 | every sample of a built batch can be stored under its own key |
| HistoryPersistence.BuiltIsSpaced | backend/pc_client/ble_service.py:1543-1592 | the samples of a built batch lie at least one period apart |
| HistoryPersistence.CommittedRow | backend/pc_client/mysql_adapter.py:49-76 | after any prefix of a batch is stored, a sample's key is in the table exactly when it was before or the sample is among those stored, in a row that keeps the date it was inserted with |
| HistoryPersistence.SlotsKeptIffCovered | backend/pc_client/mysql_adapter.py:233-241 | reconciling after an upsert that committed a prefix of the batch: every deleted placeholder has a sample near it whose key is in the table in a row dated near that sample, whatever placeholders there are, if and only if every sample's key has such a row already or is new and was stored |
| HistoryPersistence.SlotsKeptIffAllStored | backend/pc_client/mysql_adapter.py:233-241 | over all tables whose rows are aligned with the batch, that is so if and only if the whole batch was stored |
| HistoryPersistence.SafeIffReturnedAndAligned | backend/pc_client/mysql_adapter.py:233-241 | knowing the table and how the upsert ended, the reconciliation is safe for every number of committed slices and all placeholders if and only if rows already present are dated near their samples, and the upsert returned its success or there was nothing new to store |
| HistoryPersistence.MisalignedRowLosesSlot | backend/pc_client/mysql_adapter.py:233-241 | success alone is not enough: a LIVE row received at second 10 holds the key of a sample dated second 9, and the placeholder of second 9 is deleted although no other row is within half a second of it |
| HistoryPersistence.SecondsKeptIffFilled | backend/pc_client/mysql_adapter.py:233-241 | second by second, as the table dates rows: no second loses its last row, whatever placeholders there are, if and only if every second near a sample has a keyed row or gets one |
| HistoryPersistence.SecondsNear | backend/pc_client/mysql_adapter.py:242-247 | with half a second of tolerance a sample is near the second it is stored under and, when it lies on the half second, also the one before |
| HistoryPersistence.ExactRowsFill | backend/pc_client/mysql_adapter.py:233-241 | storing a batch fills every second near it when no sample lies on a half second and rows already present have the very date the batch would give them |
| HistoryRuns.RunSound | backend/pc_client/persistence_worker.py:89-116 | over any run of the queue on the table, every upsert that returned its success has all its samples in the table, in rows dated near them exactly when the rows it met were |
| HistoryRuns.ReconcileAfterSuccessIsSafe | backend/pc_client/ble_service.py:1498-1502 | over any such run, when a reconciliation is about to act: no slot can lose its last row if and only if every sample of its batch is in the table in a row dated near it; when its upsert, the call started before it, returned its success, if and only if the rows that one met were aligned with the batch |
| HistoryRuns.FailedUpsertLosesSlot | backend/pc_client/mysql_adapter.py:233-241 | when the upsert raised, a run in which the placeholder of the batch's first slot is the slot's only row and is about to be deleted, for every non-empty batch of spaced samples |
| HistoryRuns.MisalignedRunLosesSlot | backend/pc_client/ble_service.py:1447-1453 | and when every call succeeds: the poll of one second fails, the next one's LIVE row is the sample a batch dates one second earlier, and the placeholder is about to be deleted with nothing in its place |
| RequestScheduler.BleRequestScheduler.Submit | backend/pc_client/ble_scheduler.py:53-67 | a request is queued in priority order under the next number, or refused without a connection |
| RequestScheduler.BleRequestScheduler.Take | backend/pc_client/ble_scheduler.py:79-87 | an abandoned request is skipped, one without a connection fails, any other starts |
| RequestScheduler.BleRequestScheduler.Stop | backend/pc_client/ble_scheduler.py:46-51 | ends the worker and fails what still waits |
| RequestScheduler.StartsTheFirst | backend/pc_client/ble_scheduler.py:79-87 | in every run an action starts only when none is in flight, and it is the (priority, arrival) minimum of all that wait |
| RequestScheduler.WaitIsBounded | backend/pc_client/ble_scheduler.py:13-29 | while a request waits only smaller ones start; a display request is overtaken by nothing submitted later, so by at most those display requests already ahead besides the running action |
| RequestScheduler.RunTracked | backend/pc_client/ble_scheduler.py:69-98 | a future is open only while its request waits or runs; a result means that the action was started |
| RequestScheduler.OutcomesStand | backend/pc_client/ble_scheduler.py:88-96 | no request is resolved twice |
| RequestScheduler.PrioritiesKept | backend/pc_client/ble_scheduler.py:53-67 | in every run requests are numbered as they come in, and each waits and starts with the priority its caller gave |
| RequestScheduler.OutcomeExplained | backend/pc_client/ble_scheduler.py:79-98 | in every run a resolved future got its outcome for its own reason: the result or exception of its own action, a missing connection when it was taken, draining while it waited, or cancellation |
| RequestScheduler.ReachesTheFirst | backend/pc_client/ble_scheduler.py:79-87 | on a connection an idle worker skips what callers have given up and starts the first request left |
| RequestScheduler.StoppingResolvesAll | backend/pc_client/ble_scheduler.py:46-51 | stopping leaves no accepted request unresolved, whatever is submitted while the worker winds down; only a worker started meanwhile may still be busy |
| PollSchedule.PollCurrent | backend/pc_client/ble_service.py:1422-1471 | for any clock, sleeps and stalls: slots 1, 2, 3, ... get exactly one outcome each, in order and dated by multiples of the interval; a sample is requested only before the next slot is due and a slot skipped only after that; with a clock that does not go back no slot is decided before it is due, or later than the clock has moved by itself, and without stalls of a whole interval each slot when it is due |
| PollSchedule.SkipMissed | backend/pc_client/ble_service.py:1432-1442 | the inner loop gives up, one by one and each under its own date, exactly the slots whose successor is due already |
| PollSchedule.BriskIsLive | backend/pc_client/ble_service.py:1422-1471 | without stalls of a whole interval no slot is skipped, and a slot is live exactly if the thermometer is connected and the request succeeds |
| PollSchedule.OneRequestPerSlot | backend/pc_client/ble_service.py:1432-1442 | with a steady clock every request falls into its own slot, so no two share an interval |
| Crc8.DallasCrc8 | firmware/main/src/real_temperature_sensors.c:118-133 | the nested loops compute the fold of the bit step, for messages of every length |
| Crc8.CrcLinear | firmware/main/src/real_temperature_sensors.c:118-133 | the checksum of the XOR of two messages is the XOR of their checksums |
| Crc8.AcceptedIffZero | firmware/main/src/real_temperature_sensors.c:157-159 | a frame is accepted exactly when the checksum over data and checksum byte is zero |
| Crc8.BurstDetected | firmware/main/src/real_temperature_sensors.c:157-159 | every accepted frame damaged by a burst of at most eight consecutive bits is rejected |
| Crc8.ByteDetected | firmware/main/src/real_temperature_sensors.c:157-159 | every accepted frame with one byte changed is rejected |
| CrcDivision.CrcIsRemainder | firmware/main/src/real_temperature_sensors.c:118-133 | for data of every length, the check byte's bits are the remainder that dividing the data's bits, as sent, by x^8 + x^5 + x^4 + 1 leaves by hand |
| CrcDivision.HasQuotient | firmware/main/src/real_temperature_sensors.c:118-133 | any polynomial followed by its remainder is a multiple of the generator |
| CrcDivision.MultipleEndsSo | firmware/main/src/real_temperature_sensors.c:118-133 | in every multiple of the generator the last eight digits are the remainder of those before |
| CrcDivision.AcceptedIffMultiple | firmware/main/src/real_temperature_sensors.c:157-159 | a frame is accepted exactly when its bits, as sent, are a multiple of x^8 + x^5 + x^4 + 1 |
| AlertEngine.StepAlertEngine | frontend/src/lib/alertEngine.ts:154-195 | the nested loops visit exactly the enabled, applicable pairs, in order |
| AlertEngine.AlertsAreTrue | frontend/src/lib/alertEngine.ts:154-195 | every alert goes to an enabled recipient under an enabled rule that applies to it, and is true of the reading: value, limit passed, time, destination and message |
| AlertEngine.AlertsIffChanged | frontend/src/lib/alertEngine.ts:154-195 | where no two active pairs share a key, a rule alerts its recipient exactly when its sensor has a reading that lies beyond another limit, or none, than the last one did, and remembers it |
| AlertEngine.KeyTrace | frontend/src/lib/alertEngine.ts:142-195 | for every key and any stream, with rules and recipients changing at will: the transitions emitted are the zones of the non-null readings seen while active, consecutive repeats removed, starting from NORMAL |
| AlertEngine.IndependentIffDistinct | frontend/src/lib/alertEngine.ts:104-113 | every (recipient, rule) pair alerts on exactly its own changes if and only if the composite keys are pairwise distinct |
| AlertEngine.PlainKeysInjective | frontend/src/lib/alertEngine.ts:104-113 | ids without a colon give distinct keys |
| AlertEngine.UniqueIdsMayCollide | frontend/src/lib/alertEngine.ts:104-113 | unique ids alone do not: two recipients and two rules that share a key |
| AlertEngine.SilentIffOneZone | frontend/src/hooks/useAlertEngine.ts:22-24 | on a second pass over one frame a key is silent if and only if all pairs that share it see one zone |
| AlertEngine.IdempotentIffCompatible | frontend/src/hooks/useAlertEngine.ts:22-24 | stepping the same frame again emits nothing and changes nothing, for all states and readings, if and only if active pairs that share a key have the same thresholds |
| AlertEngine.SameBandsIff | frontend/src/lib/alertEngine.ts:124-129 | two rules tell the same zone for every reading if and only if their high thresholds are equal and their low ones are equal or both above them |
| AlertEngine.CollidingPairsRepeat | frontend/src/hooks/useAlertEngine.ts:22-24 | two colliding pairs with high thresholds 40 and 100 alert again at a reading of 50 |
| AlertEngine.Idempotent | frontend/src/hooks/useAlertEngine.ts:22-24 | in particular, with distinct keys stepping the same frame again emits nothing and changes nothing |

## Left out

- The connection manager of the service (discovery, pairing, reconnecting, generations, operation tracking) and its state transitions: they depend on foreign Bluetooth stacks.
- GATT and GAP plumbing, pairing and bonding, long attribute reads: a request and its response are one exchange, and the response buffer is the largest packet.
- The inside of the keyed hash, random number generation, 1-Wire timing, LCD, GPIO and the real-time kernel.
- The prologue of `synchronize` (anchor retrieval, its exceptions) and `operation.progress`: the model starts at the transfer loop; an anchor of another boot is a parameter of `Complete`.
- Connection pools, SQL text, HTTP layers, email, the credential file, configuration loading beyond layouts and sizes.
- The columns `id` of keyed rows and `failure_reason`, `get_last_boot_id`, and the two adapter calls without a table: rows with a natural key are held by that key, others by their running number.
- Floating point: the averages of Python floats and of DECIMAL columns are one exact rounding; not-a-number readings do not occur.
- Null pointers, absent buffers, and running out of memory when the firmware starts.
- Button debounce, simulated sensors and waveforms, dashboard components: small and self-contained.
- The text of alert event identifiers, error messages and log lines; an alert event carries its key, zone and timestamp instead.
- Concurrency inside a step: the firmware's mutex and the event loop are taken at their word.
- A reboot of the device in the middle of a transfer: the recovery theorems follow one boot. What the loop then does, dropping the sensor, is in its model.
- A chunk that was altered on its way and still passes every check: the packets carry no checksum, so an answer that passes is taken for the device's.
- How long `PersistenceWorker.stop` flushes: any events may happen while it does.
- Two workers side by side: starting one while `stop` still waits for the old one would leave the new one unknown to its object, and a further start would add another. The model has one worker; what such a start leaves open is stated, what a third one does is not.
- An action of the scheduler that never returns: no claim says that a waiting request eventually starts.
- PollSchedule.PollCurrent: a slot whose request is cancelled ends the loop, so that slot is not claimed to have an outcome.
- Crc8.BurstDetected: longer bursts and several separate errors, which an eight-bit checksum cannot all detect.
