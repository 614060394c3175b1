# LEPG: verified model of the gateway tunnel

LEPG moves sensor readings from an edge client to a server over a binary protocol of its own, with a CRC, an
acknowledge-and-retry loop and a deduplication cache, and lets the client poll and write Modbus devices. This project
models that path in Dafny 4.11 and proves what it guarantees, over every input and every run. `dafny verify
dfyconfig.toml` checks everything.

| files | part of the system |
|---|---|
| `Bytes`, `Crc`, `CrcDivision` | fixed-width integers, the table-driven CRC-16, and polynomial division over GF(2) |
| `Frame`, `FrameProperties` | the 13-byte-header frame, its encoder and its decoder over a connection with arbitrary chunking |
| `Payload`, `PayloadProperties` | the Handshake, Ack, Upload and Notify codecs |
| `WireLayout` | the byte positions of frames and payloads, and what the decoders make of any bytes |
| `Recency`, `Dedup` | the LRU deduplication cache, as a heap-allocated ring of elements plus a map, and the theory of recency it refines |
| `DeviceIndex`, `Grouping` | the server's two tables, and the two ways of grouping readings by device |
| `Server` | handling one upload: cache, store, output groups and acknowledgement frame |
| `ClientStore`, `Client`, `ClientProperties` | the client's status table, its buffering loop, its upload loop, and runs of it |
| `Protocol`, `ProtocolSafety`, `ProtocolTheorems`, `ProtocolDedup`, `ProtocolStore`, `ProtocolLimits`, `ProtocolRefinement` | clients, connections and the server as interleaved steps, with loss, delay, timeouts and reconnects |
| `Modbus`, `ModbusLayout` | the Modbus simulator's register map, and its requests and replies byte by byte |
| `ModbusPoint`, `ModbusValues`, `ModbusRoundTrip` | the client's writes and polls, what they leave in the registers or make of them, and what a written value reads back as |

Code that updates state is modelled by classes and methods proved against a specification function or predicate; the
properties are then proved of the specification. `Protocol` is a state machine whose steps follow those
specifications: `DecodeUpload`, `UploadBytes`, `Pending`, `Mark`, `Hit`, `Added` and `UploadKey` are the functions the
methods were proved against, and `ProtocolRefinement` proves that the steps of one handled upload, and of one sent
batch, have the effect those methods' contracts state. Loss, timing, failing statements and chunk sizes are nondeterministic choices.

## Where the code does less than its documentation says

The repository's README promises that no data is lost. The model follows the code:

- A payload is remembered before it is parsed and saved (`internal/server/server.go:180`) and never forgotten. After a
  failed save a repetition is acknowledged Ok without being stored: `ProtocolLimits.FailedSaveIsAcknowledged`.
  `ProtocolStore.UntrueOkIff` gives the exact condition, and `ProtocolStore.SentMeansStored` what an Ok is worth.
- The client never compares the message id of an acknowledgement with the batch it waits for
  (`internal/client/client.go:428-430`). A late acknowledgement marks the next batch as sent:
  `ProtocolLimits.LateAckMarksUnsentRow`. `ProtocolTheorems.SentMeansSaved` is about runs where the ids match, the check
  the client could make.
- Looking a key up and inserting it are two critical sections (`internal/server/server.go:175-180`):
  `ProtocolLimits.TwoHandlersSaveTwice`. `ProtocolDedup.SavesBounded` counts what this costs in every run, and
  `ProtocolDedup.SavesBoundedByEvictions` is free of it when each gateway's uploads are handled one at a time.
- When the client is cancelled while it waits, or a concluding status update fails, rows stay Sending and are never
  loaded again: `ClientProperties.StrandsIff`, `ClientProperties.SendingIsForever`.
- `sendAck` drops an acknowledgement whose checksum is zero (`internal/server/server.go:333`), and a first upload
  without readings is not acknowledged (`internal/server/server.go:199`). Both are in the contract of
  `Server.UploadServer.HandleUpload`.
- The payload length is truncated to 16 bits (`internal/msg/msg.go:111`), so the test for payloads above 65535 bytes
  never fires (`internal/client/client.go:399`, asserted in `Client.Session.UploadReadings`), and frames carry
  exactly the payloads below 64 KiB (`FrameProperties.RoundTripIff`).
- The raw data of a notification is not checked on encoding (`internal/msg/payload.go:237`):
  `PayloadProperties.NotifyReadsBack` says what is kept, `NotifyRoundTripIff` when it is everything.
- Polling 32-bit integers ignores the byte order that writing applies (`internal/client/modbus.go:58-63`):
  `ModbusRoundTrip.LongReadsBackIff` gives the exact condition, `LittleEndianOne` an instance.
- Polling a point whose type needs more bytes than its quantity returns panics (`internal/client/modbus.go:48-63`):
  `ModbusPoint.PollPanicsIff` gives the exact condition.
- `docs/design/message-protocol.md` describes another acknowledgement layout than `internal/msg/payload.go:60-74`; the
  model has the latter.

## Assumptions

- SHA-256 is a parameter `hash`. Theorems that need it say so: hashes of one length (`FixedHash`), or no collision among
  the payloads of the run (`NoCollision`).
- `container/list`, SQLite, PostgreSQL, bun and the goburrow Modbus client are not part of this model. The list is
  written out as a ring of linked elements; each SQL statement is atomic, succeeds or fails, and the batch limit of a
  query is positive; the Modbus client sends the request its call names and treats an exception reply as an error.
- Times are opaque numbers given by the caller. Finite float64 values are exact reals, and zero has no sign;
  single-precision bit patterns and out-of-range conversions are parameters (`FloatUnit`).

## Model

| member | source | states |
|---|---|---|
| `Crc.FillTable` | internal/utils/checksum.go:11-23 | the nested loops leave in every entry the register after eight zero bits behind that index |
| `Crc.CalChecksum` | internal/utils/checksum.go:26-32 | for every byte string the table-driven loop returns the checksum computed bit by bit from 0xFFFF, which is that of no bytes |
| `Crc.CheckValue` | internal/utils/checksum.go:26-32 | the digits 1 to 9 have the check value of this CRC, 0x29B1 |
| `Crc.EightBitsAreOneTableStep` | internal/utils/checksum.go:14-30 | feeding the eight bits of a byte equals one table step, for every register and byte |
| `CrcDivision.RemainderUnique` | internal/utils/checksum.go:11-32 | division by the generator over GF(2) has one quotient and one remainder |
| `CrcDivision.ChecksumIsTheRemainder` | internal/utils/checksum.go:11-32 | a 16-bit string is the remainder of the message times x^16, with its first sixteen bits inverted, by x^16+x^12+x^5+1 if and only if it is the checksum |
| `CrcDivision.UnnoticedIff` | internal/utils/checksum.go:26-32 | two messages of equal length share a checksum if and only if the generator divides their difference |
| `CrcDivision.OddChangeDetected` | internal/utils/checksum.go:26-32 | every change of an odd number of bits changes the checksum |
| `Crc.ChecksumXor` | internal/utils/checksum.go:26-32 | for messages of equal length the xor of the checksums is a function of the xor of the messages alone |
| `Crc.BurstDetected` | internal/utils/checksum.go:26-32 | different messages that agree outside sixteen consecutive bits, at any bit offset, have different checksums |
| `Crc.SeventeenBitsEscape` | internal/utils/checksum.go:26-32 | sixteen is sharp: two messages that differ within seventeen bits share a checksum |
| `Crc.ResidueZero` | internal/utils/checksum.go:26-32 | a message followed by a trailer has checksum zero if and only if the trailer is the message's big-endian checksum |
| `Frame.Msg.Encode` | internal/msg/msg.go:151-170 | the buffer holds header, payload and checksum of the message, which changes only in its checksum field |
| `Frame.IdGenerator.Next` | internal/msg/msg.go:82-84 | the n-th id is n mod 65536, also after the 32-bit counter wraps |
| `Frame.MsgFactory.NewMsg` | internal/msg/msg.go:98-118 | the message carries the next id and its payload's length modulo 65536; a packet that cannot be encoded gives no message and takes no id |
| `Frame.Conn.ReadFull` | cmd/loadgen/main.go:334-344 | whatever chunks the connection returns, the buffer is filled with the next bytes exactly when the stream has enough of them, and otherwise all of them are consumed |
| `Frame.Conn.DecodeFrame` | internal/msg/msg.go:172-213 | under any chunking, the message, the error and the bytes left are those of decoding the byte stream; with an error the message is filled as far as the code got |
| `Frame.ReceiveAll` | internal/server/server.go:131-148 | the receive loop delivers every frame before the first error of the stream, and that error |
| `FrameProperties.RoundTrip` | internal/msg/msg.go:151-213 | an encoded frame decodes to itself and to its checksum, and nothing behind it is consumed |
| `FrameProperties.RoundTripIff` | internal/msg/msg.go:98-213 | that round trip works if and only if the magic is right and the payload is below 65536 bytes |
| `FrameProperties.Canonical` | internal/msg/msg.go:172-213 | whatever is accepted re-encodes to exactly the bytes consumed |
| `FrameProperties.AcceptedIff` | internal/msg/msg.go:172-213 | a stream begins with an acceptable frame if and only if it has the magic, is complete and has residue zero over the whole frame |
| `FrameProperties.StreamRoundTrip` | internal/msg/msg.go:151-213 | the concatenation of any list of frames decodes to exactly that list and then to whatever follows |
| `FrameProperties.CutStream` | internal/msg/msg.go:172-213 | a stream cut inside a frame yields the whole earlier frames and then an error, a plain end of file only at the two read boundaries |
| `FrameProperties.CorruptionDetected` | internal/msg/msg.go:172-213 | any burst of up to sixteen bits outside the length field is rejected: magic error if the magic changed, checksum error otherwise |
| `FrameProperties.OddCorruptionDetected` | internal/msg/msg.go:172-213 | so is any change of an odd number of bits outside the length field |
| `FrameProperties.CorruptionUnnoticedIff` | internal/msg/msg.go:172-213 | a change outside magic and length field goes unnoticed if and only if the generator divides it |
| `FrameProperties.ByteCorruptionDetected` | internal/msg/msg.go:172-213 | replacing any one byte outside the length field is rejected, with the error its position implies |
| `FrameProperties.LengthByteUnprotected` | internal/msg/msg.go:199-210 | the length field is not protected: for every header there is a frame whose length byte can be changed so that another payload is accepted |
| `WireLayout.FrameLayout` | internal/msg/msg.go:151-170 | every field of an encoded frame at its byte position, most significant byte first |
| `WireLayout.FrameReads` | internal/msg/msg.go:172-213 | for every byte stream the error, or the payload, the header fields and the bytes left, by position and length |
| `WireLayout.FrameFilled` | internal/msg/msg.go:172-213 | what a refused stream leaves in the message: nothing, its magic alone, or its header, with the payload once that is whole |
| `WireLayout.TwosComplement` | internal/msg/payload.go:122-131 | 64-bit integers are written as their value modulo 2^64 and read back |
| `Payload.HandshakePayload.Encode` | internal/msg/payload.go:13-27 | refuses exactly what the specification refuses and otherwise produces its bytes |
| `Payload.HandshakePayload.Decode` | internal/msg/payload.go:29-55 | for arbitrary bytes, never out of bounds: the value or the error of the specification, and after an error the fields read before it |
| `PayloadProperties.HandshakeRoundTrip` | internal/msg/payload.go:13-55 | an encoded handshake comes back with whatever follows it |
| `PayloadProperties.HandshakeAcceptedIff` | internal/msg/payload.go:29-55 | the decoder accepts exactly the byte strings that begin with an encoding |
| `PayloadProperties.HandshakePrefixRejected` | internal/msg/payload.go:29-55 | every strict prefix of an encoding is rejected |
| `WireLayout.HandshakeLayout` | internal/msg/payload.go:13-27 | version, serial number and token of an encoded handshake at their byte positions |
| `WireLayout.HandshakeReads` | internal/msg/payload.go:29-55 | for every byte string which error names which field, by length, and which fields an error leaves as they were |
| `Payload.AckPayload.Decode` | internal/msg/payload.go:67-74 | for arbitrary bytes the message id and code of the first three, or too short with the receiver unchanged |
| `PayloadProperties.AckRoundTrip` | internal/msg/payload.go:60-74 | an encoded acknowledgement comes back with whatever follows it |
| `PayloadProperties.AckCanonical` | internal/msg/payload.go:60-74 | what is accepted re-encodes to the bytes consumed |
| `WireLayout.AckLayout` | internal/msg/payload.go:60-65 | message id in the first two bytes, code in the third |
| `Payload.UploadPayload.Encode` | internal/msg/payload.go:106-134 | refuses with the first oversize length exactly when some string is longer than 65535 bytes; otherwise the bytes of the specification, whose number the precomputed total equals |
| `Payload.UploadPayload.Decode` | internal/msg/payload.go:136-191 | for arbitrary bytes, never out of bounds: the readings appended and the error are those of the specification, also on a partial failure |
| `PayloadProperties.LStringRoundTrip` | internal/msg/payload.go:84-104 | a string that its length field can count comes back with whatever follows it |
| `PayloadProperties.LStringCanonical` | internal/msg/payload.go:89-104 | what a string reader accepts re-encodes to the bytes consumed |
| `PayloadProperties.ReadingRoundTrip` | internal/msg/payload.go:106-191 | one reading comes back, with full-range 64-bit ids and timestamps |
| `PayloadProperties.UploadRoundTrip` | internal/msg/payload.go:106-191 | every list of readings with strings of at most 65535 bytes comes back; the count guard never rejects an encoder's output |
| `PayloadProperties.UploadRoundTripIff` | internal/msg/payload.go:106-191 | decoding undoes encoding if and only if there are fewer than 2^32 readings |
| `PayloadProperties.UploadCanonical` | internal/msg/payload.go:136-191 | the readings decoded re-encode to exactly the bytes consumed |
| `PayloadProperties.UploadAcceptedIff` | internal/msg/payload.go:136-191 | the decoder accepts exactly the byte strings that begin with an encoding |
| `PayloadProperties.UploadPrefixRejected` | internal/msg/payload.go:136-191 | every strict prefix of an encoding is rejected |
| `PayloadProperties.UploadInjective` | internal/msg/payload.go:106-134 | equal upload payloads carry equal readings |
| `WireLayout.ReadingLayout` | internal/msg/payload.go:122-131 | the ten fields of an encoded reading one behind the other, at their byte positions |
| `WireLayout.UploadLayout` | internal/msg/payload.go:118-133 | the number of readings in the first four bytes, then the readings in order |
| `PayloadProperties.FirstIsRefused` | internal/msg/payload.go:107-117 | the string refused is the first over 65535 bytes, reading by reading and field by field |
| `PayloadProperties.CountRefusedIff` | internal/msg/payload.go:136-144 | a count is refused, with nothing read, if and only if so many readings of 31 bytes cannot follow |
| `PayloadProperties.CutFieldIsNamed` | internal/msg/payload.go:147-188 | a reading cut off within a field is rejected with that field's name, as missing or as truncated |
| `PayloadProperties.CutUploadKeeps` | internal/msg/payload.go:136-191 | an upload cut off within a reading gives exactly the readings before it, and that field's error |
| `Payload.NotifyPayload.Encode` | internal/msg/payload.go:216-241 | refuses exactly what the specification refuses and otherwise produces its bytes |
| `Payload.NotifyPayload.Decode` | internal/msg/payload.go:243-288 | for arbitrary bytes, never out of bounds: the value or the error of the specification, and after an error the fields read before it |
| `PayloadProperties.NotifyReadsBack` | internal/msg/payload.go:216-288 | everything comes back except raw data beyond what its 16-bit length counts, which is left unread |
| `PayloadProperties.NotifyRoundTripIff` | internal/msg/payload.go:216-288 | the round trip works if and only if the raw data has at most 65535 bytes |
| `PayloadProperties.NotifyCanonical` | internal/msg/payload.go:243-288 | what is accepted re-encodes to the bytes consumed |
| `PayloadProperties.NotifyPrefixRejected` | internal/msg/payload.go:243-288 | every strict prefix of an encoding without oversize raw data is rejected |
| `WireLayout.NotifyLayout` | internal/msg/payload.go:216-241 | the fields of an encoded notification at their byte positions |
| `WireLayout.NotifyReads` | internal/msg/payload.go:243-288 | for every byte string which error names which field, by length, and which fields an error leaves as they were |
| `Dedup.LinkedList.MoveToFront` | internal/server/server.go:49-58 | the ring stays linked both ways, the element moves to the front, the others keep their order |
| `Dedup.LinkedList.Remove` | internal/server/server.go:63-68 | the ring stays linked both ways without the element |
| `Dedup.DedupCache.KeysDistinct` | internal/server/server.go:30-35 | whenever map and list agree, no key is on the list twice and the map's domain is the list's keys |
| `Dedup.DedupCache.Exists` | internal/server/server.go:45-53 | a hit moves the key to the front, a miss changes nothing; map, list and bound stay in agreement |
| `Dedup.DedupCache.Add` | internal/server/server.go:55-70 | a known key moves to the front, a new one is inserted and may evict the least recent; map, list and bound stay in agreement |
| `Dedup.DedupCache.Clear` | internal/server/server.go:72-77 | no key is left |
| `Recency.RunIsRecent` | internal/server/server.go:45-77 | after any run the cache holds the most recently used keys, as many as fit, most recent first |
| `Recency.ExistsIff` | internal/server/server.go:45-77 | after any run a lookup finds a key if and only if it was added since the last clear and fewer than capacity distinct other keys were added or hit after its last use |
| `Server.UploadKeyInjective` | internal/server/server.go:79-82 | because hashes have one length, a key determines the gateway and the payload's hash |
| `Server.Connection.SendAck` | internal/server/server.go:322-340 | exactly one frame goes out, with the next id, from which the id and code acknowledged are decoded, or nothing when its checksum is zero; a failing write sends some part of it |
| `Server.AckOnWire` | internal/server/server.go:322-340 | the bytes of an acknowledgement are a frame of its type whose payload decodes to the request's id and the code |
| `Server.UploadServer.HandleUpload` | internal/server/server.go:173-233 | a remembered payload changes no table and is acknowledged with code 1; a new one is remembered, parsed, saved with the given upload time and grouped, and acknowledged with code 1 when every statement went through and 2 when one failed or nothing could be parsed; one without readings is not acknowledged; every acknowledgement is of type 4 and carries the upload's message id; the key, made of serial number, colon and hash, is the most recent afterwards |
| `DeviceIndex.PostgresStore.SaveReadings` | internal/server/cache/postgres.go:65-110 | the tables after insert and upserts, in any order and with any statement failing, and the error says which one failed; the rows inserted repeat gateway, time and the fields of the readings one by one |
| `DeviceIndex.DeviceTableIsIndex` | internal/server/cache/postgres.go:65-110 | in every run without a failed upsert, with any clock and any failing inserts, the device table is the index of the readings table: same devices, latest name, first and last upload time |
| `DeviceIndex.DeviceHasReading` | internal/server/cache/postgres.go:65-110 | in every run each device row has a stored reading of that gateway and device |
| `DeviceIndex.BatchIsStored` | internal/server/cache/postgres.go:65-91 | in every run each reading of a batch whose insert went through has its row in the readings table |
| `DeviceIndex.StoredFromBatch` | internal/server/cache/postgres.go:65-91 | in every run each row of the readings table came with such a batch |
| `DeviceIndex.SeenTimesAreBounds` | internal/server/cache/postgres.go:65-110 | with a clock that never goes back, first and last seen bound all upload times of the device |
| `Grouping.GroupReadingsByDeviceName` | internal/server/server.go:346-356 | returns for each name occurring the group of that name |
| `Grouping.GroupReadingsPrealloc` | internal/server/server.go:361-382 | the same groups under any map iteration order; no slice outgrows its reserved capacity and each ends exactly full |
| `Grouping.GroupIsSubsequence` | internal/server/server.go:346-382 | a group is the order-preserving subsequence of exactly the readings with its name, an empty name counting as `__unknown__`; there is a group for each name that has a reading |
| `Grouping.GroupsArePermutation` | internal/server/server.go:346-382 | in any order the groups together are a permutation of the batch |
| `ClientStore.SQLiteStore.LoadPendingReadings` | internal/client/cache/sqlite.go:76-85 | the first rows, in id order, that are not sent or failed, up to the limit; short of the limit all of them; nothing only when the statement failed |
| `ClientStore.PendingIsFront` | internal/client/cache/sqlite.go:76-85 | the batch is the front of the rows still to be uploaded: as many as the limit, or all of them |
| `ClientStore.OldestPendingFirst` | internal/client/cache/sqlite.go:76-85 | the oldest row still to be uploaded leads the next batch |
| `ClientStore.MarkPending` | internal/client/cache/sqlite.go:76-97 | setting the status of a loaded batch by its ids changes exactly its rows |
| `ClientStore.SQLiteStore.SaveReadings` | internal/client/cache/sqlite.go:58-64 | the readings become new rows behind the others, with the next ids and not sent, or nothing changes |
| `ClientStore.SQLiteStore.UpdateReadingsStatus` | internal/client/cache/sqlite.go:87-97 | exactly the rows with the given ids get the status, or nothing changes |
| `Client.ConsumeAndWrite` | internal/client/client.go:202-236 | rows saved followed by the buffer are the readings received, in order, whatever saves failed; the buffer is exactly what the outcomes of the saves leave of it, and the failures counted are the saves the store refused; without one the buffer stays below the batch size and is empty after a tick, a close or a stop |
| `Client.BufferedStep` | internal/client/client.go:207-235 | one more arrival: a reading is appended, and saved with the others once there are enough; anything else saves what there is; only a save that went through empties the buffer |
| `Client.BufferIsRest` | internal/client/client.go:207-235 | while no save failed, the buffer is what was received since the last tick, but for the full batches among it |
| `Client.Session.UploadReadings` | internal/client/client.go:381-449 | the statuses, the timeout counter, the error, the statements that failed and the bytes sent for every way an upload can go: none, the frame, or part of it when the write fails |
| `Client.Session.UploadTick` | internal/client/client.go:307-328 | when the load goes through, the batch is what was pending; its frame goes out and its outcome is that of the event awaited, each failure being a statement or write that did fail; the counter starts over with code 1 and the session gives up after the third timeout in a row |
| `Client.RowAfter` | internal/client/client.go:393-446 | the status each row ends with, for every way an upload can go |
| `Client.UploadOnWire` | internal/client/client.go:393-418 | the bytes sent for a batch that fits are a frame of type 3 from which the very batch is decoded |
| `ClientProperties.NothingIsLost` | internal/client/client.go:294-328 | over any run no row is dropped, moved or rewritten, and rows that are sent or being sent stay so |
| `ClientProperties.SendingIsForever` | internal/client/client.go:444-445 | a row left as being sent is never touched again, in any later session |
| `ClientProperties.NoneSendingAtHead` | internal/client/client.go:294-328 | while uploads conclude with their status update, no row is being sent at the loop head, so every row not sent is visible to the next load |
| `ClientProperties.StrandsIff` | internal/client/client.go:412-446 | an upload strands rows if and only if it was cancelled or its concluding status update failed |
| `ClientProperties.TimeoutCounter` | internal/client/client.go:428-443 | the counter is the number of timeouts of the session since its last Ok acknowledgement, and below three in an open session |
| `ProtocolSafety.NextKeeps` | internal/client/client.go:381-449 | every step of every gateway, handler and connection keeps the invariant that ties rows, requests, acknowledgements, cache and store together |
| `ProtocolRefinement.HandlerRefines` | internal/server/server.go:173-233 | a handler's look-up, insertion and save, taken together, change cache, store and acknowledgements as the handler's contract says, for each of its five reactions |
| `ProtocolRefinement.HandledIsRun` | internal/server/server.go:173-233 | look-up, insertion and save are steps of runs, each possible after the one before, whatever the save statements do |
| `ProtocolRefinement.AckRefines` | internal/server/server.go:173-209 | the acknowledgement queued is the one the handler writes: the bytes carry its code and the message id of the request it answers |
| `ProtocolRefinement.RequestRefines` | internal/client/client.go:393-418 | sending queues the gateway's next batch, encoded, under the number of the message built for it |
| `ProtocolRefinement.RequestOnWire` | internal/client/client.go:393-418 | the frame written for such a request decodes to its payload and message id, and the payload to the batch |
| `ProtocolRefinement.BrokenUploadRefines` | internal/client/client.go:393-426 | an upload that cannot be encoded, marked or written ends with the rows, counter and session the upload arm's contract says |
| `ProtocolRefinement.WaitedUploadRefines` | internal/client/client.go:412-446 | so does one that is acknowledged, times out or is cancelled, whatever happens elsewhere while it waits |
| `ProtocolRefinement.StartedIsRun` | internal/client/client.go:393-426 | however an upload starts, that is a step of runs, or two when its batch could not be marked |
| `ProtocolRefinement.ConcludedIsStep` | internal/client/client.go:428-446 | however its wait ends, that is a step of runs |
| `ProtocolTheorems.MarkedAtMostAcked` | internal/client/client.go:428-434 | in every run, without hypotheses, batches marked sent never exceed Ok acknowledgements emitted |
| `ProtocolTheorems.MessageIdIdentifies` | internal/client/client.go:428-430 | an acknowledgement with the id waited for, less than 65536 messages late, answers the very request waited for |
| `ProtocolTheorems.WhenSent` | internal/client/client.go:428-434 | in every run, without hypotheses, each sent row was made so at a step where its gateway, waiting for a batch with that row, took an Ok |
| `ProtocolTheorems.SentMeansSaved` | internal/client/client.go:428-434 | in every run that takes Ok acknowledgements only with the id waited for, the Ok that made a row sent answered the very upload waited for; that upload carried the row and was saved, failed itself, or is owed by a busy handler |
| `ProtocolTheorems.SavedIsGenuine` | internal/server/server.go:194-204 | in every run, without hypotheses, every reading saved is, unchanged, a row of that gateway's own table |
| `ProtocolStore.UntrueOkIff` | internal/server/server.go:174-178 | with each gateway's uploads handled one at a time, a look-up acknowledges Ok an upload that is not saved if and only if its key is in the cache, it failed, and it was never saved |
| `ProtocolStore.FinishOkIsTrue` | internal/server/server.go:199-207 | an Ok for an upload just handled means that all it carries was inserted and all its devices registered |
| `ProtocolStore.RunTells` | internal/server/server.go:173-209 | in every run with each gateway's uploads handled one at a time, every Ok on its way answers an upload that was saved or failed |
| `ProtocolStore.SentMeansStored` | internal/client/client.go:428-434 | in such runs that take Ok acknowledgements only with the id waited for, the upload whose Ok made a row sent was saved before, unless it failed itself; once it is saved, the server's readings table has a row with the same nine fields and the gateway's serial number |
| `ProtocolStore.StoredIsGenuine` | internal/server/server.go:194-204 | in every run, without hypotheses, every row of the server's readings table is a row of that gateway's own table |
| `ProtocolDedup.SavesBounded` | internal/server/server.go:173-204 | in every run, without hypotheses, a payload of a gateway is saved at most once more often than its key was evicted or inserted while present |
| `ProtocolDedup.RunKeepsHandlers` | internal/server/server.go:174-180 | with each gateway's uploads handled one at a time, no key is ever inserted while present |
| `ProtocolDedup.SavesBoundedByEvictions` | internal/server/server.go:173-204 | under any interleaving with each gateway's uploads handled one at a time, a payload of a gateway is saved at most once more often than its key was evicted |
| `ProtocolDedup.SuppressedBySameGateway` | internal/server/server.go:174-180 | an upload is taken for a repetition only if the same gateway had one with the same hash accepted |
| `ProtocolLimits.FailedSaveIsAcknowledged` | internal/server/server.go:174-204 | a reachable state, under any hash, where the only row is sent and the readings table is empty |
| `ProtocolLimits.LateAckMarksUnsentRow` | internal/client/client.go:428-436 | a reachable state, under any hash, where a sent row was in no upload the server accepted, although no save failed |
| `ProtocolLimits.TwoHandlersSaveTwice` | internal/server/server.go:175-180 | a reachable state, under any hash, where two handlers saved the same payload with nothing evicted |
| `Modbus.ReadRegs` | cmd/modbus-sim/main.go:157-179 | for every request the reply or exception of the specification: the words from the address on, wrapping around |
| `Modbus.ReadBits` | cmd/modbus-sim/main.go:182-207 | bit i of the reply is the stored bit at address + i modulo 65536, the padding is zero; or the exception |
| `Modbus.BitsReplyUnique` | cmd/modbus-sim/main.go:182-207 | that description determines every byte of the reply |
| `Modbus.DeviceStore.ProcessPdu` | cmd/modbus-sim/main.go:132-154 | total on all byte strings: new tables and reply for every function code, malformed requests changing nothing |
| `Modbus.DeviceStore.WriteMultiReg` | cmd/modbus-sim/main.go:238-258 | the words land one after the other, and the reply echoes address and quantity |
| `Modbus.WriteThenRead` | cmd/modbus-sim/main.go:157-258 | a multi-register write followed by a read of the same range returns the bytes written for 1 to 125 words and an exception otherwise, also across address wraparound |
| `Modbus.WriteElsewhere` | cmd/modbus-sim/main.go:238-258 | registers outside the written range, and the other tables, keep their contents |
| `ModbusLayout.RegsReply` | cmd/modbus-sim/main.go:157-179 | reading registers: exception 3, exception 2, or every word of the reply and the register it comes from |
| `ModbusLayout.BitsReply` | cmd/modbus-sim/main.go:182-207 | reading bits: exception 3, exception 2, or every bit of the reply with its mask and the table entry it comes from |
| `ModbusLayout.CoilWritten` | cmd/modbus-sim/main.go:210-226 | writing one coil: 0xFF00 is on, 0 is off, anything else exception 3 |
| `ModbusLayout.RegistersWritten` | cmd/modbus-sim/main.go:238-258 | writing several registers: exception 3 unless the byte count fits, and otherwise what every register of the device holds afterwards |
| `ModbusLayout.NotSupported` | cmd/modbus-sim/main.go:132-154 | every other function code gets exception 1, an empty request no answer |
| `ModbusPoint.ConversionIsItsOwnInverse` | internal/model/modbus.go:32-49 | reordering twice is the identity, for every order and every length |
| `ModbusPoint.ModbusRuntime.ExecuteWrite` | internal/client/modbus_runtime.go:225-286 | through the request it sends, the device ends up with the value's bytes in the point's registers if and only if the function code is 1 with a bool, or 3 with one of the five numeric types; codes 2 and 4 are refused as read-only, and every other refusal has its condition; no refusal changes the device |
| `ModbusPoint.ModbusRuntime.WriteCoil` | internal/client/modbus_runtime.go:288-295 | the coil is on exactly when the raw value is not the number zero, and the device accepts the request |
| `ModbusPoint.ModbusRuntime.WriteSingleReg` | internal/client/modbus_runtime.go:297-309 | the register holds the value's 16-bit word, and the device accepts the request |
| `ModbusPoint.ModbusRuntime.WriteMultiReg` | internal/client/modbus_runtime.go:311-327 | two registers hold the value's 32-bit pattern in the point's byte order, and the device accepts the request |
| `ModbusPoint.ModbusRuntime.PollOnce` | internal/client/modbus_runtime.go:140-202 | every point up to a panic yields what the device's tables imply, readings come out in point order, and the runtime is degraded exactly when some read failed |
| `ModbusPoint.PollPanicsIff` | internal/client/modbus.go:48-63 | a poll panics if and only if the point can be read and its type needs more bytes than come back |
| `ModbusValues.ByteOrders` | internal/model/modbus.go:32-49 | the four bytes under each order |
| `ModbusValues.WordAfter` | internal/client/modbus_runtime.go:273-309 | what a 16-bit write leaves in the register: the truncated quotient modulo 65536 when it is in range |
| `ModbusValues.LongAfter` | internal/client/modbus_runtime.go:311-327 | the two registers a 32-bit write changes, and which of the reordered bytes each holds |
| `ModbusValues.CoilAfter` | internal/client/modbus_runtime.go:273-295 | a coil goes off exactly when the value is the offset and the scale is not zero |
| `ModbusValues.ParsesAs` | internal/client/modbus.go:48-74 | what each type makes of the bytes a read returns |
| `ModbusValues.FailedIff` | internal/client/modbus_runtime.go:155-177 | a poll fails exactly when the quantity is out of bounds or its table lacks one of the addresses |
| `ModbusValues.EmittedPositions` | internal/client/modbus_runtime.go:147-195 | exactly the points that yield a value are emitted, in the order of the points |
| `ModbusRoundTrip.LessThanOneStep` | internal/client/modbus_runtime.go:273-274 | undoing the scaling of a truncated raw value loses less than one scale step, towards the offset, and nothing exactly when the raw value is whole |
| `ModbusRoundTrip.WordReadsBack` | internal/client/modbus_runtime.go:297-309 | a 16-bit point in range polls back within one scale step of the value written, exactly it when the raw value is whole, and fails only for registers the write does not set |
| `ModbusRoundTrip.LongReadsBackIff` | internal/client/modbus.go:58-63 | a 32-bit integer point reads back its truncated value if and only if its bytes read the same in the point's byte order |
| `ModbusRoundTrip.LittleEndianOne` | internal/client/modbus.go:61-63 | 1 written to a little-endian counter polls as 16777216 |
| `ModbusRoundTrip.FloatReadsBack` | internal/client/modbus.go:64-71 | a float32 point keeps its bit pattern in every byte order |
| `ModbusRoundTrip.CoilReadsBack` | internal/client/modbus.go:50-51 | a coil point polls on exactly when one of the first eight coils it reads is on after the write |
| `ModbusRoundTrip.OneCoilReadsBack` | internal/client/modbus_runtime.go:288-295 | a point of one coil polls on exactly when the value written is not the offset, or the scale is zero |
| `ModbusRoundTrip.OtherPointsKeep` | internal/client/modbus_runtime.go:225-327 | writing a point changes the poll of no point that shares no register with it |

## Left out

- Sockets, deadlines, tickers and goroutine scheduling: only delivery, loss, timeout and reconnect steps remain; a read
  that fails for another reason than the end of the stream is not distinguished.
- ProtocolTheorems.SentMeansSaved: requires that consumed Ok acknowledgements carry the id waited for and that hashes do
  not collide; LateAckMarksUnsentRow shows what happens otherwise.
- ProtocolStore.SentMeansStored: requires in addition that each gateway's uploads are handled one at a time, because a
  second handler acknowledges what the first has not saved yet.
- ProtocolDedup.SavesBoundedByEvictions: requires the same; SavesBounded is the statement for every run.
- ModbusRoundTrip.WordReadsBack: the raw value must be in the register's range, because Go leaves the conversion of others to the machine.
- Protocol.CanSend: the interleaved model sends only batches whose payload fits one frame; what a larger one does on
  the wire is in Client.Session.UploadReadings and FrameProperties.RoundTripIff.
- Heartbeats and notifications appear in the interleaved model only as messages that take an id.
- The router channel of the client: a full one blocks the reading loop, so acknowledgements wait in one queue with those
  still on the connection.
- The type checks of `executeWrite` for function codes 6 and 16 can no longer fail after the code is chosen by type.
- The split branch of oversize batches is unreachable and only asserted to be so.
- Retries and back-off of dialling, the handshake exchange, the connection registry and its cleanup.
- SQL queries other than the ones listed, row deletion, and indexes.
- MQTT, HTTP, ThingsBoard, JSON and log output; configuration loading and validation.
- Framing of Modbus requests (MBAP header, RTU checksum) and the simulator's device data.
- Float rounding, and readings that are no finite number.
- Concurrent use of one cache object: its methods are atomic, as the mutex makes them.
