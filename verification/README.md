# Verified model of the GEMA gateway

This project models, in Dafny 4.11, the parts of an industrial IoT gateway whose
behaviour is hard to see by reading one function, and proves what they guarantee:

- **Modbus RTU** (`Crc16`, `CrcDetection`, `CrcTable`, `CrcLookup`, `CrcFrames`,
  `CrcOrder`, `CrcTwoBits`, `ByteNumbers`, `ModbusRtu`, `ModbusProperties`). The table-driven CRC-16
  is refined down from polynomial long division; the receive check rejects every burst
  of up to 16 bits, every odd error, and every error of two bits in a frame of any size
  in use; reading input registers inverts a conforming slave.
- **The vision daemon's frame pipeline** (`FrameQueue`, `VisionPipeline`,
  `VisionObjects`, `VisionSafety`, `VisionRuns`, `VisionShutdown`, `VisionStuck`).
  Producer, consumer and `main` are interleaved threads over the frame pool and the
  drop-oldest queue, for any pool size and capacity; the methods of the two objects do
  what the steps of the threads do. Frames are conserved over whole runs, and shutdown
  is possible, and loses nothing, exactly under the conditions stated.
- **The configuration manager** (`ConfigText`, `ConfigRoundTrip`, `ConfigUpdate`,
  `ConfigThresholds`, `ConfigFlush`): the exact condition under which a configuration survives its file,
  what any update means, and the memory-first, disk-later protocol.
- **OCR decoding and labels** (`Ctc`, `CtcAlignment`, `OcrLabels`, `LabelGenerator`):
  both greedy CTC decoders, how many time steps a label needs, and which generated
  training labels fit into 18.
- **Over-the-air update** (`OtaCommand`, `OtaUpdate`, `OtaProgress`): one command, and
  several crashing processes over one file system.
- **Store and forward**: the cloud upload (`CloudSync`, `CloudPolls`), the gateway's
  bounded buffer (`GatewayBuffer`, `GatewayRuns`, `GatewayOrder`, `GatewayEnd`) and the
  Norvi node's flash spool (`NorviSpool`, `NorviLosses`, `NorviWedge`).
- **MQTT framing** of the test broker (`MqttFraming`).

Concurrent parts are state machines: an action is one step of one thread, a thread
that cannot move stays where it is, and so every sequence of actions is a schedule.
A loop of the program that updates variables is a method proved against a function;
lemmas then state what that function or machine means. What the environment decides
(bytes on a line, HTTP answers, timers, whether a file opens, checksums) is a
parameter. In `ModbusRtu` a script of exchanges stands for the serial line; bytes that
are not read stay on it, as nothing in the program discards them. `Wrappers` holds the
option type.
`dafny verify dfyconfig.toml` checks everything.

## Where code and documentation differ

The model follows the code.

- The header of the vision daemon's `main.cpp` (lines 23-26) gives the stop order
  orchestrator, producer; the code (lines 231-237) stops the producer first. In the
  documented order the program can hang (`VisionStuck.CanGetStuck`), and a run that ends
  can leave frames unprocessed (`VisionStuck.NoneLeftIff`).
- `config_manager.cpp` line 87 promises that fields missing from an update are
  inherited. The parser has already filled them with defaults, so none is
  (`ConfigRoundTrip.MissingTextsReset`, `ConfigRoundTrip.EmptyUpdateResets`).
- `hasura_client.py` documents pauses of 2, 4 and 8 seconds; the first is never slept
  (`GatewayBuffer.InsertTelemetryBatch`).
- `cloud_sync.js` line 13 gives the pause as base x 2^attempt; the code uses
  2^(attempt - 1) (`CloudSync.BufferedRow.SyncRecord`).
- The drop-oldest policy of `mqtt_worker.py` (lines 194-199), and the order of arrival,
  fail once a failed batch is re-queued behind newer entries: exactly when is
  `GatewayOrder.RequeueDropsOldestIff` and `GatewayOrder.EntriesStayInOrderIff`, and
  `GatewayOrder.NewerOvertakes` gives runs from the start in which they fail.
- `config_manager.cpp` line 49 promises that a stop flushes pending writes. A stop of
  a manager that was not started, and an update after the final snapshot, are not
  written (`ConfigFlush.StopFlushesIff`, `ConfigFlush.OverlappingUpdateIff`).
- A spool of more than ten records is meant to drain in chunks; it never does
  (`NorviWedge.CanDrainIff`).
- The Modbus master neither compares the slave address of a response with that of its
  request (`ModbusProperties.ReadIffReply` quantifies over it) nor discards unread
  bytes. A late, doubled or over-long reply is read as the next slave's, so the poll's
  per-slave error handling does not isolate the nodes
  (`ModbusProperties.DoubledReplyShiftsNodes`, `ModbusProperties.ReadAloneIff`).

## Model

| member | source | states |
|---|---|---|
| Crc16.FeedAppend | edge_ops/modbus_bridge/src/ModbusRTUMaster.cpp:55-59 | the register depends on the message only through the bits shifted in, in order: shifting in a concatenation is shifting in one part after the other |
| Crc16.FeedIsDivision | edge_ops/modbus_bridge/src/ModbusRTUMaster.cpp:53-61 | from any register, shifting in a message leaves the remainder of schoolbook polynomial long division |
| Crc16.CrcIsPolynomialRemainder | edge_ops/modbus_bridge/src/ModbusRTUMaster.cpp:53-61 | the checksum is the remainder of the message, first 16 bits inverted and 16 zeros appended, on division by x^16 + x^15 + x^2 + 1 (section 6.2.2 of MODBUS over Serial Line V1.02) |
| CrcTable.BitsStep | edge_ops/modbus_bridge/src/ModbusRTUMaster.cpp:14-16 | one right shift with 0xA001 on a 16-bit word is one step of the bit-level register |
| CrcLookup.EntryIsEightShifts | edge_ops/modbus_bridge/src/ModbusRTUMaster.cpp:16-49 | every one of the 256 table entries is eight right shifts with 0xA001 of its index |
| CrcLookup.ByteUpdate | edge_ops/modbus_bridge/src/ModbusRTUMaster.cpp:57-58 | one table-driven update shifts in the eight bits of the byte, least significant first |
| CrcLookup.TableCrcIsCrc | edge_ops/modbus_bridge/src/ModbusRTUMaster.cpp:53-61 | the table-driven checksum equals the bit-at-a-time checksum for every byte string |
| CrcLookup.Crc16Of | edge_ops/modbus_bridge/src/ModbusRTUMaster.cpp:53-61 | the byte loop returns the bitwise checksum of the first `len` bytes |
| CrcDetection.FeedLinear | edge_ops/modbus_bridge/src/ModbusRTUMaster.cpp:53-61 | shifting in is linear: the register after a bitwise sum is the sum of the registers |
| CrcDetection.ShiftZero | edge_ops/modbus_bridge/src/ModbusRTUMaster.cpp:53-61 | idle shifts keep a zero register zero and never make a non-zero one zero |
| CrcDetection.AcceptedIffResidueZero | edge_ops/modbus_bridge/src/ModbusRTUMaster.cpp:115-121 | a frame passes the receive check exactly when shifting in all of it, checksum included, leaves zero |
| CrcDetection.UndetectedIffMultiple | edge_ops/modbus_bridge/src/ModbusRTUMaster.cpp:115-121 | an error passes unnoticed exactly when it alone leaves remainder zero, whatever frame it hits |
| CrcDetection.BurstRejected | edge_ops/modbus_bridge/src/ModbusRTUMaster.cpp:115-121 | every non-zero error within 16 consecutive bits on the wire, checksum bits included, is rejected, for frames of any length |
| CrcDetection.GeneratorSlipsThrough | edge_ops/modbus_bridge/src/ModbusRTUMaster.cpp:115-121 | 16 is the best such bound: an accepted frame hit by the generator, an error 17 bits wide, is a different frame and accepted, wherever it is hit |
| CrcDetection.FeedParity | edge_ops/modbus_bridge/src/ModbusRTUMaster.cpp:53-61 | the parity of the register is its initial parity plus the parity of the bits shifted in |
| CrcDetection.OddRejected | edge_ops/modbus_bridge/src/ModbusRTUMaster.cpp:115-121 | every error in an odd number of bits is rejected |
| CrcFrames.CrcOkIsAccepted | edge_ops/modbus_bridge/src/ModbusRTUMaster.cpp:115-121 | comparing the checksum with the last two bytes, low byte first, is the bit-level check |
| CrcFrames.FramedOk | edge_ops/modbus_bridge/src/ModbusRTUMaster.cpp:87-91 | a frame built for sending passes the receive check |
| CrcFrames.OkIsFramed | edge_ops/modbus_bridge/src/ModbusRTUMaster.cpp:115-121 | a frame that passes the check is some message with its checksum appended |
| CrcFrames.UndetectedError | edge_ops/modbus_bridge/src/ModbusRTUMaster.cpp:115-121 | on bytes: an error goes unnoticed exactly when its bits are a multiple of the generator |
| CrcFrames.BurstDetected | edge_ops/modbus_bridge/src/ModbusRTUMaster.cpp:88-121 | on bytes: bursts of up to 16 bits in transmission order are detected |
| CrcFrames.OddDetected | edge_ops/modbus_bridge/src/ModbusRTUMaster.cpp:88-121 | on bytes: errors of an odd number of bits are detected |
| CrcOrder.UnitIff | edge_ops/modbus_bridge/src/ModbusRTUMaster.cpp:53-61 | a power of x leaves remainder 1 on division by the generator if and only if its exponent is a multiple of 32767 |
| CrcTwoBits.TwoBitsAcceptedIff | edge_ops/modbus_bridge/src/ModbusRTUMaster.cpp:115-121 | an accepted frame hit in two bits is accepted again if and only if the two are a multiple of 32767 bits apart |
| CrcTwoBits.TwoBitsDetected | edge_ops/modbus_bridge/src/ModbusRTUMaster.cpp:88-121 | on bytes: errors of two bits are detected in every frame of at most 4095 bytes |
| ModbusRtu.ModbusRTUMaster.SendRequest | edge_ops/modbus_bridge/src/ModbusRTUMaster.cpp:85-98 | exactly the request with its checksum, low byte first, is written; a short write is an error |
| ModbusRtu.ModbusRTUMaster.ReceiveResponse | edge_ops/modbus_bridge/src/ModbusRTUMaster.cpp:103-124 | fewer than four bytes are a timeout, a wrong checksum is a CRC error, otherwise all bytes received are returned; all indices are in range, and what is not read stays for the next read |
| ModbusRtu.ModbusRTUMaster.Examine | edge_ops/modbus_bridge/src/ModbusRTUMaster.cpp:111-123 | the length and checksum tests, in that order |
| ModbusRtu.ModbusRTUMaster.Answer | edge_ops/modbus_bridge/src/ModbusRTUMaster.cpp:151-196 | the outcome and the bytes left unread, given the bytes available when the request is out |
| ModbusRtu.ModbusRTUMaster.Extract | edge_ops/modbus_bridge/src/ModbusRTUMaster.cpp:156-196 | the checks after reception in order, and the registers high byte first |
| ModbusRtu.RequestIsRead | edge_ops/modbus_bridge/src/ModbusRTUMaster.cpp:139-149 | a slave that reads the frame of a request by section 6.4 of MODBUS Application Protocol V1.1b3 finds exactly the slave address, the first register and the count asked for, for all of them |
| ModbusRtu.ModbusRTUMaster.ReadInputRegisters | edge_ops/modbus_bridge/src/ModbusRTUMaster.cpp:129-197 | one request on the wire for a count of 1 to 125, which is read back as this slave, first register and count, and none otherwise; the call ends in exactly one outcome and leaves exactly the bytes it did not read, both functions of what is available on the line |
| ModbusRtu.PollNode | edge_ops/modbus_bridge/src/TelemetryOrchestrator.cpp:25-46 | one slave's outcome as one node: count and online, or error with count 0 |
| ModbusRtu.PollNodes | edge_ops/modbus_bridge/src/TelemetryOrchestrator.cpp:25-46 | five nodes and five requests in slave order, each node read from what earlier exchanges left unread followed by its own bytes |
| ModbusProperties.PollAsks | edge_ops/modbus_bridge/src/TelemetryOrchestrator.cpp:25-46 | the five frames of a poll ask slaves 1 to 5, in that order, for one register from register 0 on |
| ModbusProperties.RegistersAreRead | edge_ops/modbus_bridge/src/ModbusRTUMaster.cpp:129-197 | when the line brings what a slave answers to the frame it was sent, the registers read are that slave's, from the first asked for on, in order |
| ModbusProperties.ReplyIsRead | edge_ops/modbus_bridge/src/ModbusRTUMaster.cpp:151-196 | a conforming slave's reply (section 6.4 of MODBUS Application Protocol V1.1b3), whatever follows it, yields exactly its words |
| ModbusProperties.ReadWasReply | edge_ops/modbus_bridge/src/ModbusRTUMaster.cpp:134-196 | values are returned only for a conforming reply that carries them |
| ModbusProperties.ReadIffReply | edge_ops/modbus_bridge/src/ModbusRTUMaster.cpp:129-197 | values come back if and only if the bytes that arrive start with a conforming reply carrying them, under any slave address |
| ModbusProperties.ExceptionIff | edge_ops/modbus_bridge/src/ModbusRTUMaster.cpp:156-168 | an exception code surfaces if and only if the bytes read are a frame with a right checksum that starts as an exception reply for function code 04 |
| ModbusProperties.TimeoutIff | edge_ops/modbus_bridge/src/ModbusRTUMaster.cpp:109-114 | a read is a timeout if and only if the request went out and fewer than four bytes arrived |
| ModbusProperties.CrcErrorIff | edge_ops/modbus_bridge/src/ModbusRTUMaster.cpp:115-121 | it is a CRC error if and only if four bytes or more arrived that are no message with its checksum |
| ModbusProperties.FrameErrorIff | edge_ops/modbus_bridge/src/ModbusRTUMaster.cpp:129-196 | it is a frame error if and only if the count is out of range, the write was short, or a message with its checksum arrived that is neither an exception nor as many registers as were asked for |
| ModbusProperties.DamagedReplyIsCrcError | edge_ops/modbus_bridge/src/ModbusRTUMaster.cpp:115-121 | a reply damaged by a burst of up to 16 bits, in two bits or in an odd number of bits is a CRC error whatever follows it, never values or an exception code |
| ModbusProperties.PollIsolatesNodes | edge_ops/modbus_bridge/src/TelemetryOrchestrator.cpp:25-46 | when no exchange leaves bytes unread, whatever happens on one slave's exchange leaves the other four nodes unchanged |
| ModbusProperties.UnreadDisturbs | edge_ops/modbus_bridge/src/ModbusRTUMaster.cpp:109-123 | whatever bytes are left unread, there is an answer of the next slave whose node they change |
| ModbusProperties.ReadAloneIff | edge_ops/modbus_bridge/src/TelemetryOrchestrator.cpp:25-46 | a slave's node depends on its own exchange alone, whatever that will be, if and only if the exchanges before it left nothing unread |
| ModbusProperties.DoubledReplyShiftsNodes | edge_ops/modbus_bridge/src/TelemetryOrchestrator.cpp:25-46 | one reply that arrives twice makes every later node show the count of the slave before it |
| ModbusProperties.PollReportsOnline | edge_ops/modbus_bridge/src/TelemetryOrchestrator.cpp:29-36 | a slave that answers with its count, with nothing unread in front, is online with that count, whatever follows |
| ModbusProperties.PollReportsDamage | edge_ops/modbus_bridge/src/TelemetryOrchestrator.cpp:41-45 | a slave whose answer is noticeably damaged, with nothing unread in front, is in error with count 0 |
| FrameQueue.FramePool.AcquirePass | edge_ops/gema_vision/include/frame_pool.hpp:64-80 | one pass takes the first free buffer and marks only it as taken; without a free one nothing changes |
| VisionSafety.WorldReleased | edge_ops/gema_vision/include/frame_pool.hpp:99-116 | when the deleter gives the consumer's slot back, every slot still has exactly one owner and the queued pictures are intact |
| FrameQueue.ThreadSafeQueue.Push | edge_ops/gema_vision/include/thread_safe_queue.hpp:64-75 | the item is appended, after dropping and counting the oldest when a bounded queue is full |
| FrameQueue.ThreadSafeQueue.Pop | edge_ops/gema_vision/include/thread_safe_queue.hpp:106-119 | the oldest item is taken, or the null item when the queue is shut down and empty |
| FrameQueue.ThreadSafeQueue.TryPop | edge_ops/gema_vision/include/thread_safe_queue.hpp:127-136 | the oldest item is taken if there is one |
| VisionShutdown.ConsumerProgress | edge_ops/gema_vision/include/thread_safe_queue.hpp:106-154 | once the queue is shut down, every step of the consumer brings it nearer to having drained the queue and left, without setting the producer back |
| FrameQueue.PushedKeepsNewest | edge_ops/gema_vision/include/thread_safe_queue.hpp:64-75 | a bounded queue stays within its bound and holds the newest items in order |
| VisionObjects.Create | edge_ops/gema_vision/src/main.cpp:144-149 | a new pool and a new queue hold the initial state |
| VisionObjects.AcquireSlot | edge_ops/gema_vision/include/frame_pool.hpp:64-80 | a pass over the pool object does to the shared state what the producer's steps do, as far as the first free slot or all the way round |
| VisionObjects.PushSlot | edge_ops/gema_vision/include/thread_safe_queue.hpp:64-75 | a push on the queue object, with the deleter of the frame it evicts, does what the producer's step does |
| VisionObjects.PopSlot | edge_ops/gema_vision/include/thread_safe_queue.hpp:106-119 | a pop does what the consumer's step does, and gives the slot that the consumer works on next |
| VisionObjects.DropSlot | edge_ops/gema_vision/include/frame_pool.hpp:99-116 | the deleter of a frame the consumer lets go of does what the consumer's step does |
| VisionObjects.CloseQueue | edge_ops/gema_vision/include/thread_safe_queue.hpp:147-154 | a shutdown of the queue object does what the step of `main` does |
| VisionSafety.FewerThanSlots | edge_ops/gema_vision/include/frame_pool.hpp:64-116 | while the producer holds a slot, fewer slots than the pool has are queued |
| VisionSafety.WorldPushed | edge_ops/gema_vision/include/thread_safe_queue.hpp:64-75 | a push keeps every slot with one owner, the evicted frame's slot becoming available through its deleter, and the queued pictures intact |
| VisionSafety.WorldPopped | edge_ops/gema_vision/include/thread_safe_queue.hpp:106-119 | a pop hands the oldest slot to the consumer with its picture intact |
| VisionSafety.StepIsSound | edge_ops/gema_vision/include/mock_video_producer.hpp:160-174 | any step of producer, consumer or main keeps slot ownership, picture contents, counters and stages |
| VisionRuns.RunIsSound | edge_ops/gema_vision/src/main.cpp:201-237 | that invariant holds in every state of every schedule |
| VisionRuns.RunsFollowMain | edge_ops/gema_vision/src/main.cpp:201-237 | in every reachable state producer and consumer are told to run, and the queue to shut down, exactly between the calls of `main` that say so |
| VisionRuns.FramesAreAccountedFor | edge_ops/gema_vision/include/thread_safe_queue.hpp:64-119 | for any pool size and capacity and any schedule: each slot has one owner, pushes = pops + drops + queue length, the bound holds, the consumer has seen popped frames in production order as painted, and a queue with room for the pool drops nothing |
| VisionRuns.CleanShutdown | edge_ops/gema_vision/src/main.cpp:231-237 | a run ended by stopping the producer first leaves an empty queue and all slots free, and processed + dropped = produced; with room for the pool everything produced was processed, in order, unchanged |
| VisionRuns.LossyShutdown | edge_ops/gema_vision/src/inference_orchestrator.cpp:51-64 | a run ended in the opposite order leaves exactly the queued frames unprocessed, and their slots taken |
| VisionShutdown.UsefulDecreases | edge_ops/gema_vision/include/mock_video_producer.hpp:88-97 | unless the program has ended, a step is enabled that brings the end nearer in a well-founded order, even while the producer spins for a buffer |
| VisionShutdown.Stoppable | edge_ops/gema_vision/src/main.cpp:231-237 | from every state the invariant allows, some schedule ends the program, if the producer is stopped first or the queue is too small for the pool |
| VisionStuck.NeverDropsIffRoomy | edge_ops/gema_vision/include/thread_safe_queue.hpp:64-75 | no schedule drops a frame if and only if the queue is unbounded or at least as long as the pool |
| VisionStuck.NoneLeftIff | edge_ops/gema_vision/src/main.cpp:222-237 | in every run that ends each frame produced was processed or dropped if and only if the producer is stopped first; in the opposite order a run from the start ends with a frame in the queue |
| VisionStuck.StuckForever | edge_ops/gema_vision/include/frame_pool.hpp:64-80 | with the consumer gone and every slot taken, no schedule ends the program |
| VisionStuck.CanGetStuck | edge_ops/gema_vision/src/main.cpp:23-26 | in the order of the header comment such a state is reachable |
| VisionStuck.AlwaysStoppableIff | edge_ops/gema_vision/src/main.cpp:222-237 | the program can be ended from every reachable state if and only if the producer is stopped first or the queue cannot hold the whole pool |
| VisionStuck.AsShipped | edge_ops/gema_vision/src/main.cpp:144-149 | with four buffers, a queue for eight and the producer stopped first: always stoppable, nothing dropped, all frames processed in order, all slots free |
| ConfigText.AppendAll | edge_ops/gema_vision/src/config_manager.cpp:184-196 | the threshold entries are appended in order |
| ConfigText.Serialize | edge_ops/gema_vision/src/config_manager.cpp:169-200 | the file's text, line by line, for any configuration |
| ConfigThresholds.ThresholdIsRead | edge_ops/gema_vision/src/config_manager.cpp:184-193 | every field of a threshold is printed under its own key: the parser's own search reads each back from its entry |
| ConfigThresholds.PiecesAreListed | edge_ops/gema_vision/src/config_manager.cpp:184-196 | the entries are printed in order, each but the last as one that another follows |
| ConfigThresholds.EntryEnds | edge_ops/gema_vision/src/config_manager.cpp:192-195 | such an entry ends with a comma, the last one does not |
| ConfigUpdate.DecIsCanonical | edge_ops/gema_vision/src/config_manager.cpp:173-177 | a number is printed with a sign exactly when it is negative and without leading zeros |
| ConfigRoundTrip.StoiDec | edge_ops/gema_vision/src/config_manager.cpp:229-233 | every 32-bit number is read back from its decimal text |
| ConfigUpdate.StoiFails | edge_ops/gema_vision/src/config_manager.cpp:229-233 | a text is no number if and only if no digit stands behind its blanks and sign, or the digits there do not fit 32 bits |
| ConfigRoundTrip.FindQuoted | edge_ops/gema_vision/src/config_manager.cpp:210-213 | the first find of a quoted key is the first quoted text that equals it |
| ConfigRoundTrip.HostAsKey | edge_ops/gema_vision/src/config_manager.cpp:209-227 | a host that spells a later key makes that key read as the port |
| ConfigRoundTrip.ExtractTelemetry | edge_ops/gema_vision/src/config_manager.cpp:250-251 | which text is read for the last key, with every way an earlier value can stand in for it |
| ConfigRoundTrip.NumbersReread | edge_ops/gema_vision/src/config_manager.cpp:238-241 | which four numbers are read back |
| ConfigRoundTrip.RoundTripIff | edge_ops/gema_vision/src/config_manager.cpp:169-255 | the eight flat fields come back from their file if and only if the four texts are non-empty and free of quotes and none stands in for a later key with a different value; thresholds and config topic come back as defaults, always |
| ConfigUpdate.TextIsRead | edge_ops/gema_vision/src/config_manager.cpp:209-223 | in any text, a key's value is the quoted text behind the first occurrence of the quoted key and the next colon, after any blanks, tabs and line breaks or none |
| ConfigUpdate.NumberIsRead | edge_ops/gema_vision/src/config_manager.cpp:224-234 | likewise for every 32-bit number, up to a comma, a brace or the end of the line |
| ConfigUpdate.UpdateMeans | edge_ops/gema_vision/src/config_manager.cpp:73-92 | an update gives each of the eight fields what its flat JSON object says, with any other members, in any order and however it is spaced, or the default if it says nothing, and only a port of 0 keeps the current one; provided no text in it spells one of the keys |
| ConfigRoundTrip.MissingTextsReset | edge_ops/gema_vision/src/config_manager.cpp:87-92 | a text missing from an update is not inherited: the current one survives if and only if it is the default |
| ConfigRoundTrip.MissingNumbersReset | edge_ops/gema_vision/src/config_manager.cpp:89-90 | a number missing from an update is not inherited either, the port included: the current one survives if and only if it is the default |
| ConfigRoundTrip.EmptyUpdateResets | edge_ops/gema_vision/src/config_manager.cpp:80-98 | an update without any field resets every field to its default |
| ConfigRoundTrip.RestartIff | edge_ops/gema_vision/src/config_manager.cpp:112-126 | a restart restores the eight fields if and only if they survive the file and the port is not 0 |
| ConfigFlush.StepIsSound | edge_ops/gema_vision/src/config_manager.cpp:47-163 | every step of writers, flush thread, start and stop keeps: a flush is due, or the one under way writes the current configuration, or the file holds it, unless a flush has failed or been called off since |
| ConfigFlush.QuietMeansFlushed | edge_ops/gema_vision/src/config_manager.cpp:119-163 | in every reachable quiet state after a first update, if the last flush did not fail and no mark was taken back since, the file holds the current configuration |
| ConfigFlush.FlusherCatchesUpIff | edge_ops/gema_vision/src/config_manager.cpp:132-150 | left alone, five steps of the flush thread bring the file up to date if and only if a mark is set, a flush is under way, or it already was; earlier failures do not matter |
| ConfigFlush.StartLoadsIff | edge_ops/gema_vision/src/config_manager.cpp:34-45 | a start makes the configuration of a file that is there current and marks it, keeps the current one without a file, and starts the flush thread unless it runs |
| ConfigFlush.FileChangesIff | edge_ops/gema_vision/src/config_manager.cpp:144-163 | the file changes exactly when a flush renames what it printed into place |
| ConfigFlush.FailedFlushIsOver | edge_ops/gema_vision/src/config_manager.cpp:132-163 | a flush that cannot open its file is over, and without a new mark nothing is ever written |
| ConfigFlush.FailedStopIsOver | edge_ops/gema_vision/src/config_manager.cpp:60-67 | a stop whose last open fails ends all the same and leaves the file as it is |
| ConfigFlush.FreshIsQuiet | edge_ops/gema_vision/src/config_manager.cpp:20-23 | a fresh manager holds the defaults, with nothing marked, running or failed |
| ConfigFlush.UpdatesIff | edge_ops/gema_vision/src/config_manager.cpp:73-98 | the configuration changes exactly by a writer's update or what a start loads |
| ConfigFlush.UnmarkedCounts | edge_ops/gema_vision/src/config_manager.cpp:73-98 | each update, of a writer or of a start, waits for one mark of its own, and each mark makes a flush due |
| ConfigFlush.FailedIff | edge_ops/gema_vision/src/config_manager.cpp:155-163 | a failed open is remembered until a flush succeeds |
| ConfigFlush.TakenBackIff | edge_ops/gema_vision/src/config_manager.cpp:49-57 | a mark taken back by a stop without a thread is remembered until a flush succeeds |
| ConfigFlush.StopWritesSnapshot | edge_ops/gema_vision/src/config_manager.cpp:47-67 | for every interleaving with the flush thread and any number of updates, a stop of a started manager ends with the configuration on disk that was current at its final snapshot |
| ConfigFlush.StopFlushesIff | edge_ops/gema_vision/src/config_manager.cpp:47-67 | a stop that no update overlaps brings a stale file up to date if and only if the manager was started |
| ConfigFlush.OverlappingUpdateIff | edge_ops/gema_vision/src/config_manager.cpp:60-67 | the update that overlaps a stop reaches the disk if and only if it is swapped in before the final snapshot |
| ConfigFlush.StopEnds | edge_ops/gema_vision/src/config_manager.cpp:47-67 | such a stop can always end |
| ConfigFlush.StopBeforeStartLosesMark | edge_ops/gema_vision/src/config_manager.cpp:49-57 | a stop before start takes back a pending mark, and nothing is written afterwards although the thread runs |
| ConfigFlush.LateUpdateStaysInMemory | edge_ops/gema_vision/src/config_manager.cpp:60-67 | from a fresh manager: start, stop, and an update after the final snapshot is marked with nothing left to write it |
| Ctc.ReadingIsCtc | edge_ops/gema_vision/src/lprnet_ocr_engine.cpp:54-60 | the decoding rule is: collapse runs, then remove blanks |
| Ctc.BestClass | edge_ops/gema_vision/src/lprnet_ocr_engine.cpp:24-52 | the first class with the largest value, or none when a value is not finite |
| Ctc.TurnSpells | edge_ops/gema_vision/src/lprnet_ocr_engine.cpp:36-60 | one turn of the loop, also after a corrupt step, adds what the rule adds |
| Ctc.GreedyDecode | edge_ops/gema_vision/src/lprnet_ocr_engine.cpp:12-64 | the daemon's loop spells the reading of the path of first best classes, a corrupt step counting as a blank; empty for null or empty input; defined whenever no best class is beyond the character table |
| Ctc.DecodeCtc | edge_ops/gema_vision/scripts/training/train.py:66-76 | the script's loop spells the reading of its predictions |
| Ctc.PathIsUnique | edge_ops/gema_vision/src/lprnet_ocr_engine.cpp:44-52 | the logits determine the path |
| Ctc.DecodersAgree | edge_ops/gema_vision/scripts/training/train.py:52-77 | both decoders give the same text on finite logits, with ties if the script's argmax takes the first best class |
| CtcAlignment.LongEnough | edge_ops/gema_vision/src/lprnet_ocr_engine.cpp:54-60 | a path is at least as long as its reading plus the reading's equal neighbours, and one longer when it ends in a blank |
| CtcAlignment.ShortestReads | edge_ops/gema_vision/src/lprnet_ocr_engine.cpp:54-60 | a path of exactly that length reads as the label |
| CtcAlignment.AlignmentBound | edge_ops/gema_vision/include/ocr_engine.hpp:113-117 | a label can be decoded from a given number of steps if and only if there are at least its length plus its equal neighbours |
| OcrLabels.FindChar | edge_ops/gema_vision/scripts/training/train.py:45 | the position of a character in the class list, or -1 |
| OcrLabels.EncodeLabel | edge_ops/gema_vision/scripts/training/train.py:41-49 | the classes that spell the label, or the error exactly when a character is unknown |
| OcrLabels.SpelledDoubles | edge_ops/gema_vision/include/ocr_engine.hpp:107-112 | spelling keeps equal neighbours, as the class characters differ |
| OcrLabels.ReadableIff | edge_ops/gema_vision/include/ocr_engine.hpp:107-117 | a text can be read in a number of steps if and only if its characters are known and there are enough steps |
| LabelGenerator.PairsKeepSqueezed | edge_ops/gema_vision/scripts/training/dataset_gen.py:231-232 | a pass of the clean-up loop leaves what the runs of colons collapse to |
| LabelGenerator.PairsShrink | edge_ops/gema_vision/scripts/training/dataset_gen.py:231-232 | each pass of the loop shortens the label, so the loop ends |
| LabelGenerator.CleanUp | edge_ops/gema_vision/scripts/training/dataset_gen.py:229-234 | the loop and the strip compute: collapse colon runs, drop colons at the ends |
| LabelGenerator.CleanUpMeans | edge_ops/gema_vision/scripts/training/dataset_gen.py:229-234 | a cleaned label keeps the other characters in order and has no double colon and none at its ends |
| LabelGenerator.LabelSteps | edge_ops/gema_vision/scripts/training/dataset_gen.py:57-70 | the label of every pair of templates, and the steps it needs |
| LabelGenerator.FitsIff | edge_ops/gema_vision/scripts/training/dataset_gen.py:201-236 | for all dates and lots drawn, 18 steps can spell the label if and only if it is "V", a date, "LOTE" and a plain lot with few enough digits and repetitions |
| LabelGenerator.VenceNeverFits | edge_ops/gema_vision/scripts/training/dataset_gen.py:57-61 | a label with "VENCE" has at least 21 characters and can never be decoded |
| LabelGenerator.DateIsRead | edge_ops/gema_vision/scripts/training/dataset_gen.py:57-61 | a date reads back as day, month and year, two digits each, in that order |
| LabelGenerator.LabelDate | edge_ops/gema_vision/scripts/training/dataset_gen.py:57-70 | it stands in the label right behind its first word, whatever the templates |
| LabelGenerator.LotIsRead | edge_ops/gema_vision/scripts/training/dataset_gen.py:63-70 | a lot reads back as its number, padded to four digits or not, or as day, month and year |
| OtaCommand.OtaManager.OnOtaCommand | edge_ops/gema_vision/src/ota_manager.cpp:243-348 | a busy manager changes nothing; otherwise the eight steps run in order up to the first that fails, each in its phase and all from the download on under the lock, and the call ends in success exactly when all work, with the lock released |
| OtaUpdate.AdvanceKeepsLock | edge_ops/gema_vision/src/ota_manager.cpp:211-237 | at most one process is past the lock, and the lock names it |
| OtaUpdate.AdvanceKeepsReliance | edge_ops/gema_vision/src/ota_manager.cpp:599-692 | what the process with the lock verified and backed up stays so until it replaces the binary |
| OtaUpdate.AdvanceKeepsHistory | edge_ops/gema_vision/src/ota_manager.cpp:657-681 | a replacement installs content with the command's checksum and finds a complete backup of the binary it replaces |
| OtaUpdate.EveryRunIsCrashSafe | edge_ops/gema_vision/src/ota_manager.cpp:243-348 | for any number of processes, any interleaving and any crashes: the binary is the initial one or the last of a chain of such replacements |
| OtaUpdate.DoneStaysDone | edge_ops/gema_vision/src/ota_manager.cpp:245-251 | whatever commands come and however they interleave, a process whose command ended runs no step again until it is restarted, after failure as after success |
| OtaProgress.StepEndsIff | edge_ops/gema_vision/src/ota_manager.cpp:278-348 | in every reachable state a step of the process with the lock ends its command if and only if it is the last or fails (download, digest, copy of the backup, either rename); then all files are as they were and the lock is released, and otherwise the process goes on with it |
| OtaProgress.OnlyReplaceInstalls | edge_ops/gema_vision/src/ota_manager.cpp:657-692 | the binary changes exactly when a rename of the staged file succeeds, to that file |
| OtaProgress.RenamesMove | edge_ops/gema_vision/src/ota_manager.cpp:657-692 | the two renames move the artifact to the staging name and from there to the binary, leaving nothing behind |
| OtaProgress.LockIff | edge_ops/gema_vision/src/ota_manager.cpp:211-237 | a process gets the lock if and only if it is free and can be opened, and is done otherwise |
| OtaProgress.IdleWaits | edge_ops/gema_vision/src/ota_manager.cpp:245-251 | a process does nothing without a command or after its command's end, and takes a command if and only if it is idle |
| OtaProgress.CrashReleases | edge_ops/gema_vision/src/ota_manager.cpp:211-237 | a crash releases the lock, and only that process's, and leaves every file as it is |
| OtaProgress.CommandEnds | edge_ops/gema_vision/src/ota_manager.cpp:243-348 | from every reachable state, eight steps of a process with a command end it without the lock, whatever their results and whatever the other processes do |
| OtaUpdate.ReplacedStaysBackedUpIff | edge_ops/gema_vision/src/ota_manager.cpp:615-681 | after a replacement the replaced binary stays in a complete backup, whatever the processes do and however they crash, if and only if no process of the version that replaced it begins another backup |
| OtaUpdate.SecondUpdateOverwrites | edge_ops/gema_vision/src/ota_manager.cpp:617-632 | a run in which two processes of one version update one after the other: the first binary is gone from its backup |
| CloudSync.BufferedRow.SyncRecord | services/cloud_sync/cloud_sync.js:125-202 | one chain's POSTs, pauses and final row as a function of the answers: retries only after 5xx, at most up to the limit, FAILED exactly when the last allowed try meets 5xx, each pause the backoff of its retry |
| CloudSync.PausesAddUp | services/cloud_sync/cloud_sync.js:177-180 | the pauses of a chain add up to at most a minute per retry and to the geometric sum while none is cut off |
| CloudSync.PausesDouble | services/cloud_sync/cloud_sync.js:177-180 | the first pause is the base and each later one twice the one before, up to a minute |
| CloudSync.CutOffPauses | services/cloud_sync/cloud_sync.js:177-180 | a pause that would exceed a minute is exactly a minute, as is every later one |
| CloudSync.LoneChainSettles | services/cloud_sync/cloud_sync.js:125-202 | a chain that nothing disturbs ends with the status and count that `SyncRecord` has for the same answers |
| CloudSync.StatusChangesIff | services/cloud_sync/cloud_sync.js:150-201 | a pending row becomes synced if and only if one of its POSTs is accepted, and failed if and only if a chain on its last try meets a server error; refused and broken POSTs leave it pending |
| CloudSync.PostsOpenIff | services/cloud_sync/cloud_sync.js:125-237 | a POST is sent exactly when a poll or the end of a pause finds the row pending, and is over exactly with its answer |
| CloudSync.SettledChainsEnd | services/cloud_sync/cloud_sync.js:182-188 | once the row is settled, one more step of each chain ends them all |
| CloudSync.ChainsAreSound | services/cloud_sync/cloud_sync.js:125-202 | for any interleaving of any number of chains: a pending row is below the retry limit, no count exceeds it, a synced row was accepted, a row never becomes pending again |
| CloudSync.AcceptedStaysSynced | services/cloud_sync/cloud_sync.js:213-237 | while polls do not overlap a chain, an accepted row is synced and stays so |
| CloudSync.StaysSyncedIff | services/cloud_sync/cloud_sync.js:165-170 | overlapping chains can turn a synced row into a failed one if and only if one of them is awaiting its last POST |
| CloudSync.OverlapLosesSync | services/cloud_sync/cloud_sync.js:232-237 | two overlapping polls can leave an accepted row failed, whatever the limit |
| CloudSync.OverlapLowersRetry | services/cloud_sync/cloud_sync.js:173-175 | a run from a fresh row in which two overlapping chains take the retry count back |
| CloudSync.CountNeverFallsIff | services/cloud_sync/cloud_sync.js:173-188 | the retry count can never fall below its present value if and only if no chain is awaiting an answer with an older count |
| CloudSync.ErrorsAreBounded | services/cloud_sync/cloud_sync.js:161-188 | while polls do not overlap a chain, a row meets at most as many 5xx answers as it has tries left |
| CloudSync.ErrorsAreUnbounded | services/cloud_sync/cloud_sync.js:213-237 | with overlap a fresh row can meet any number of 5xx answers and still be pending |
| CloudPolls.PollPrefix | services/cloud_sync/cloud_sync.js:215-217 | rows that arrive later do not change what a poll does to earlier ones |
| CloudPolls.PollAt | services/cloud_sync/cloud_sync.js:215-223 | which rows a poll leaves pending: the refused ones and those beyond its batch |
| CloudPolls.PollCounts | services/cloud_sync/cloud_sync.js:215-223 | a poll syncs a row unless refused rows use up its batch of ten |
| CloudPolls.BlockedForEver | services/cloud_sync/cloud_sync.js:215-217 | ten refused rows in front of a row keep it pending after any number of polls |
| CloudPolls.SyncedIffNotBlocked | services/cloud_sync/cloud_sync.js:213-224 | a row the cloud would accept is synced eventually if and only if fewer than ten refused rows are pending in front of it |
| GatewayBuffer.EnqueueAllKeepsLast | edge_ops/gateway_translator/src/mqtt_worker.py:194-212 | enqueuing a list leaves the last `max_buffer` entries of buffer and list |
| GatewayBuffer.GatewayWorker.EnqueueTelemetry | edge_ops/gateway_translator/src/mqtt_worker.py:194-212 | an entry is appended, after evicting and counting the oldest when full |
| GatewayBuffer.GatewayWorker.DrainBuffer | edge_ops/gateway_translator/src/mqtt_worker.py:214-223 | all entries are handed out and the buffer is empty |
| GatewayBuffer.GatewayWorker.EnqueueEach | edge_ops/gateway_translator/src/mqtt_worker.py:159-166 | a message's entries, or a failed batch, enqueued one by one; the drop count grows by exactly the excess |
| GatewayBuffer.GatewayWorker.FlushOnce | edge_ops/gateway_translator/src/main.py:82-106 | without arrivals, all that the buffer held is posted, with the tries and the outcome of an insert, and a failed flush restores the buffer exactly and drops nothing |
| GatewayBuffer.RequeueDropsNewest | edge_ops/gateway_translator/src/main.py:98-104 | a re-queued batch goes behind newer entries, and those newer ones are dropped first |
| GatewayBuffer.InsertTelemetryBatch | edge_ops/gateway_translator/src/hasura_client.py:50-202 | at most three POSTs, retries only after retriable answers, success exactly when the last one is, and pauses of 4 and then 8 seconds |
| GatewayRuns.StepAccounts | edge_ops/gateway_translator/src/main.py:80-122 | each step of callback and main loop moves every entry between arrived, inserted, dropped, lost, in flight and buffered without losing count |
| GatewayRuns.EveryEntryIsAccountedFor | edge_ops/gateway_translator/src/main.py:80-122 | for every interleaving: arrivals = inserted + dropped + lost + in flight + buffered as multisets, and the buffer is bounded |
| GatewayRuns.RequeueRun | edge_ops/gateway_translator/src/main.py:103-104 | the re-queue loop enqueues the whole batch and drops exactly what it displaces |
| GatewayRuns.FailedInsertRestores | edge_ops/gateway_translator/src/main.py:97-104 | a failed insert during which nothing arrives leaves the buffer as it was |
| GatewayRuns.FailedBatchGoesBehind | edge_ops/gateway_translator/src/main.py:97-104 | entries that arrived during a failed insert end up in front of its batch and are the ones dropped |
| GatewayEnd.ShutdownSettlesAll | edge_ops/gateway_translator/src/main.py:80-122 | after the first signal the main loop stops within a number of its steps that its phase bounds, whatever the inserts return; if nothing arrives meanwhile, the buffer is then empty and arrivals = inserted + dropped + lost |
| GatewayEnd.StopsByTurns | edge_ops/gateway_translator/src/main.py:80-122 | it stops within as many steps when entries do arrive |
| GatewayEnd.LostIff | edge_ops/gateway_translator/src/main.py:108-122 | in every run entries are lost if and only if the final insert fails |
| GatewayOrder.StepKeepsOrderIff | edge_ops/gateway_translator/src/main.py:80-122 | a step keeps the entries inserted and still to be inserted in the order they arrived if and only if it is neither a failed insert after newer entries arrived nor an arrival while a failed batch is not yet all put back |
| GatewayOrder.EntriesStayInOrderIff | edge_ops/gateway_translator/src/main.py:80-122 | in every run of distinct entries from the start, they are in order in every state if and only if no step is one of those two, whatever else failed and whatever was dropped |
| GatewayOrder.EntriesStayInOrder | edge_ops/gateway_translator/src/main.py:80-122 | then entries are inserted in the order they arrived, and if none was dropped or lost they stand exactly as they arrived |
| GatewayOrder.OldestIsNext | edge_ops/gateway_translator/src/mqtt_worker.py:194-212 | while the entries are in order, the next to be evicted is older than every other that waits |
| GatewayOrder.RequeueDropsOldestIff | edge_ops/gateway_translator/src/main.py:97-104 | putting a failed batch back drops only entries older than those it keeps if and only if the batch and the entries that arrived meanwhile fit the buffer together |
| GatewayOrder.NewerOvertakes | edge_ops/gateway_translator/src/main.py:80-104 | a run from the start, for any two entries: the second arrives while the first is being inserted, that insert fails, and the second is inserted first, or dropped when the buffer holds one entry only |
| NorviSpool.FlushPass | edge_nodes/norvi_monitor/src/main.cpp:189-224 | a pass sends up to ten records from the start of the file and removes the file only if it got to its end |
| NorviSpool.OnlineIff | edge_nodes/norvi_monitor/src/main.cpp:89-181 | a turn ends online if and only if it finds Wi-Fi and is still connected to the broker or just now; a broker that refuses leaves the node offline |
| NorviSpool.OfflineIff | edge_nodes/norvi_monitor/src/main.cpp:89-181 | which of the other states a turn ends in, by the state it began in and what it found |
| NorviSpool.ClockSetIff | edge_nodes/norvi_monitor/src/main.cpp:126-160 | the clock is set exactly by a turn that waits for the time and keeps Wi-Fi |
| NorviSpool.OfflineSpools | edge_nodes/norvi_monitor/src/main.cpp:253-272 | a turn that ends offline takes the oldest event off the queue, into the spool file if the clock was set and the file opens, and publishes nothing |
| NorviSpool.TurnKeepsWaiting | edge_nodes/norvi_monitor/src/main.cpp:89-275 | any turn of the loop keeps spool and queue together in event order |
| NorviSpool.TurnKeepsOrderIff | edge_nodes/norvi_monitor/src/main.cpp:181-272 | a turn keeps published, spooled and queued events in one order if and only if it is offline, or meets no spooled event, or opens the file and meets at most ten, or cannot open it and has no live event |
| NorviSpool.EventsStayInOrder | edge_nodes/norvi_monitor/src/main.cpp:58-276 | in every run from boot spool and queue are in order; all events stay in one order throughout if and only if every turn of the run is such a turn, and then they are published in order |
| NorviLosses.NoneLostIff | edge_nodes/norvi_monitor/src/main.cpp:58-276 | after a run from boot every event counted was handed to the broker or is in the spool file or the queue if and only if no pulse of the run met a full queue and no offline turn took an event with the clock never set or the file not opening |
| NorviLosses.EarlyEventIsLost | edge_nodes/norvi_monitor/src/main.cpp:253-272 | a run from boot that loses an event: whatever its first turn finds, an event counted before it is lost |
| NorviWedge.PassChangesNothing | edge_nodes/norvi_monitor/src/main.cpp:189-224 | with more than ten records a pass sends the oldest ten and leaves the file and the live queue as they are |
| NorviWedge.WedgedForGood | edge_nodes/norvi_monitor/src/main.cpp:189-247 | from then on the file never shrinks, whatever happens |
| NorviWedge.CanDrainIff | edge_nodes/norvi_monitor/src/main.cpp:189-224 | the spool file can ever be emptied again if and only if it holds at most ten records |
| NorviWedge.WedgedRepeats | edge_nodes/norvi_monitor/src/main.cpp:189-247 | as long as the file can be read, a longer one makes the node publish nothing but its ten oldest events, again and again |
| NorviWedge.TwoPassesRepeat | edge_nodes/norvi_monitor/src/main.cpp:189-217 | from any connected state with more than ten records, two passes publish an event twice |
| NorviWedge.WedgedNodePublishesTwice | edge_nodes/norvi_monitor/src/main.cpp:189-270 | a run from boot, with eleven events while offline, that publishes an event twice |
| NorviWedge.FailedOpenSwapsEvents | edge_nodes/norvi_monitor/src/main.cpp:190-247 | a run from boot, with one spooled event and one failed open, that publishes a live event ahead of it |
| MqttFraming.EncodeRemaining | edge_ops/gateway_translator/tests/mini_broker.py:19-30 | the loop writes seven bits to a byte, low ones first, the top bit set on all but the last |
| MqttFraming.DecodeRemaining | edge_ops/gateway_translator/tests/mini_broker.py:33-45 | the loop reads the number and consumes exactly its bytes, or finds the stream ended |
| MqttFraming.RoundTrip | edge_ops/gateway_translator/tests/mini_broker.py:19-45 | every number is read back from its encoding, whatever follows it |
| MqttFraming.EncodingLength | edge_ops/gateway_translator/tests/mini_broker.py:19-20 | an encoding has at most four bytes if and only if the number is at most 268 435 455 (section 2.2.3 of MQTT Version 3.1.1) |
| MqttFraming.DecodingMeans | edge_ops/gateway_translator/tests/mini_broker.py:33-45 | the bytes consumed are the encoding of the result if and only if they do not end in a zero byte of their own |
| MqttFraming.BytesDecode | edge_ops/gateway_translator/tests/mini_broker.py:371 | the bytes of a topic are its UTF-8: a decoder by section 3 of RFC 3629 reads the topic from them |
| MqttFraming.BytesLength | edge_ops/gateway_translator/tests/mini_broker.py:371 | a topic has as many bytes as characters if and only if it is ASCII |
| MqttFraming.ReadMeans | edge_ops/gateway_translator/tests/mini_broker.py:405-423 | something is read only from a stream that begins with a QoS 0 PUBLISH, whose length covers the length of the topic, its bytes and the payload, and nothing more is taken |
| MqttFraming.ForwardedIsRead | edge_ops/gateway_translator/tests/mini_broker.py:364-377 | what a reader gets from a forwarded packet for any topic and payload, and what is left on the stream |
| MqttFraming.ForwardRoundTripIff | edge_ops/gateway_translator/tests/mini_broker.py:405-423 | the bytes read back from a forwarded packet decode to its topic, with its payload and nothing else taken from the stream, if and only if the topic is ASCII |

## Left out

- MqttFraming.ForwardedIsRead: topics are compared as bytes; decoding them with replacement characters, QoS 1 and 2 handshakes and subscription matching are not modelled.
- MqttFraming.EncodeRemaining: bit masks on a byte are written as the arithmetic they amount to.
- NorviSpool.EventsStayInOrder: event numbers are unbounded and runs stay within one boot, so wrap-around of the counter and a spool file left by an earlier boot, or a record cut short by power loss, are not covered.
- NorviLosses.NoneLostIff: an event counts as published once it is handed to the MQTT client; what the client then refuses (lines 204 and 241-245 of the node's `main.cpp`), which the node does not keep either, is not modelled.
- CloudPolls.SyncedIffNotBlocked: polls follow one another, and a row is either always accepted or always refused; rows that meet 5xx answers are covered by `CloudSync` only.
- Ctc.DecodersAgree: which of several best classes the script's argmax returns is not stated in the repository; where there are several, the lemma speaks of the first.
- Ctc.GreedyDecode: a finite step whose first best class is beyond the 20 entries of the character table is excluded; the program reads outside the table there.
- ModbusRtu.ModbusRTUMaster.ReadInputRegisters: a fatal hardware error, which the port interface may throw and the poll does not catch, is not part of this model.
- ConfigText.Serialize: the text of a threshold's `float` ratio is a given string.
- ConfigUpdate.UpdateMeans: objects with nested objects or arrays, and texts that spell a key, are left to the parser's own rules; a text that does so in the printed file is covered by `ConfigRoundTrip.RoundTripIff`.
- ConfigFlush.QuietMeansFlushed: a file that is loaded at start yields an arbitrary configuration; what the parser makes of it is in `ConfigRoundTrip`. A failed flush is recorded until a later one succeeds.
- OtaUpdate.EveryRunIsCrashSafe: renames are atomic and a crash takes the process's children with it; whether bytes have reached the disk at a power loss is not modelled.
- VisionStuck.AlwaysStoppableIff: progress is the existence of a schedule from every reachable state; fairness of the operating system's scheduler is not modelled.
- VisionRuns.CleanShutdown: frames are opaque pictures; the number of sleep chunks is fixed during a run, and `start` and `stop` are called once, by `main`.
- Key rotation, signature checks, version comparison and download of the update manager: external tools, or settled by reading one branch.
- Telemetry payload formats, protobuf, JSON of results: generated code and formatting.
- Camera, RGA, NPU, GPIO, thermal, watchdog and image kernels: foreign libraries or single expressions.
- The neural network and its training loop: numeric library code; only labels and decoders matter here.
- Real sockets, HTTP, SQLite and Hasura: abstracted as answers, atomic row updates and arrivals.
- Epoch arithmetic, retry timers and other wall-clock durations: timers are inputs, pauses are counted.
