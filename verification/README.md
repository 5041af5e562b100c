# phonellm, modelled and proved

phonellm answers a phone call and joins it to a speech model. The model sends audio in bursts;
the telephone wants one 20 ms frame at every tick. Between the two sit a bounded byte buffer
that drops its oldest bytes when full, and a bridge of three goroutines: one forwards the
caller's packets to the model, one takes a frame from the buffer at every tick and writes it to
the line, one handles the model's events and, when the caller speaks, flushes the buffer and
cancels the response. This project models that machinery in Dafny and proves what it keeps, over
every interleaving of the goroutines.

| file | contents |
|---|---|
| `Basics.dfy`, `Text.dfy` | bytes, counting, flattening; white space and trimming |
| `Pacing.dfy` | the buffer as a value, and the ledger giving every byte of the stream its fate |
| `Queueing.dfy` | results about traces of writes, ticks and resets |
| `AudioBuffer.dfy` | the buffer as a Go slice over a backing array |
| `Realtime.dfy` | events, commands, the format handshake |
| `Dialogue.dfy` | what handling events one after the other comes to |
| `BridgeModel.dfy` | the running bridge: one program counter per goroutine, one atomic action per step |
| `Shutdown.dfy`, `Causes.dfy`, `AudioPath.dfy`, `Diagnostics.dfy`, `Handling.dfy`, `Outgoing.dfy` | results about every run of it |
| `Bridge.dfy` | the bridge object: event handler, tick, report |
| `ResponseProtocol.dfy` | client and model service over two FIFO channels: the cancel race |
| `Call.dfy` | an answered call from codec to wire |
| `RtpStats.dfy` | packet loss from 16-bit sequence numbers |
| `DotEnv.dfy` | the `.env` parser and loader |

**How the concurrent part is modelled.** `BridgeModel.Step` gives the effect of one action: a
buffer call (one mutex section), an atomic load, store, add or compare-and-swap, a channel
operation, a look at the context, or the return of an I/O call. What the environment decides
(which ready case a select takes, what a read returns, whether a write fails, whether the silence
limit has expired, when the parent or the call-length timer cancels) is part of the action. A run
is a sequence of actions; `Reaches(cfg, actions, s)` says that `s` is where a run has got to, and
the results quantify over all of them. Fields marked as history are never read by a step, and where a
result needs what went in or why, it is read off the actions of the run (`Handling.Received`,
`Outgoing.PacketsRead`, `Causes.Caused`). `Shutdown.EnvironmentIsFree` says that no outcome of a read,
a write or a select is ruled out.

**How the object and the steps are tied.** `Bridge.OnEvent` and `Bridge.Pace` are methods over
mutable fields, proved against `Dialogue.Handle` and `Pacing.Apply`. `Handling.HandlerAlone` and
`AudioPath.TickAlone` prove that the small steps, left alone, come to the same functions, and
`Handling.HandlerIsSequential` that interleaving with the pumps changes nothing in what the
handler leaves behind.

**Where the code and what is said about it differ.** The model follows the code.

- The buffer holds `FrameSize * (BufferDur / FrameDur)` bytes, ten seconds by default. "Two
  seconds" in README.md:160 and internal/bridge/bridge.go:361 is out of date. Every bound here is
  stated in terms of the capacity. A `BufferDur` shorter than a frame gives capacity zero, and then
  nothing is ever heard (`Bridges.ZeroCapacityIsMute`).
- A reason given after an outside cancel need not be why the call ended:
  `Shutdown.HungUpReportedAfterMaxCall` is a run in which the call-length limit ends the call and
  "caller hung up" is reported. `Causes.ReportedReason` gives the exact condition.
- The starved-frame counter is described as frames padded while speaking, but the take and the
  look at the flag are two steps, and the flag may change in between. It can miss a frame
  (`Diagnostics.StarvedFrameMissed`) or count one too many (`Diagnostics.StarvedFrameTooMany`).
  `Diagnostics.StarvedFramesExactly` gives the error and says when there is none;
  `Diagnostics.StarvedFramesErrorBound` bounds it by half the changes of the flag.
- A barge-in does not silence the line for good: nothing stops a late delta of the cancelled
  response from being queued and played (`Handling.LateDeltaIsHeard`). The line stays quiet exactly
  until audio written since the reset meets a tick before it meets another reset
  (`AudioPath.QuietExactlyUntilHeard`).
- A trailing comment in a `.env` file is meant to be dropped, but after an empty value it becomes the
  value: `KEY= # note` sets KEY to "# note". `DotEnv.CommentedRoundTrip` says exactly when it is dropped.
- A cancel names no response, so a late one can land on the next
  (`ResponseProtocol.LateCancelHitsNextResponse`); `ResponseProtocol.WhereACancelLands` says when.

## Model

| member | source | states |
|---|---|---|
| `AudioBuffers.AudioBuffer.constructor` | internal/bridge/ringbuffer.go:16-18 | a new buffer is the empty start of every trace, with the given cap |
| `AudioBuffers.AudioBuffer.Append` | internal/bridge/ringbuffer.go:26-26 | append in spare room or into a new array of any sufficient size: either way the window's old contents followed by the new bytes |
| `AudioBuffers.AudioBuffer.DropOldest` | internal/bridge/ringbuffer.go:27-30 | past the cap the window moves on over the oldest bytes and the count goes up by as many |
| `AudioBuffers.AudioBuffer.Write` | internal/bridge/ringbuffer.go:23-32 | over a shared backing array, the drop-oldest write on values, ledger included; never stale bytes, never more than the cap |
| `AudioBuffers.AudioBuffer.CopyOut` | internal/bridge/ringbuffer.go:41-42 | the destination's front gets the oldest bytes, as many as fit or there are, and the window moves past them |
| `AudioBuffers.AudioBuffer.Take` | internal/bridge/ringbuffer.go:37-47 | the caller's array holds the oldest bytes in order and then only silence; the number of real bytes is returned; the rest stays |
| `AudioBuffers.AudioBuffer.Reset` | internal/bridge/ringbuffer.go:51-55 | everything pending is flushed and counted as such; nothing else changes |
| `AudioBuffers.AudioBuffer.Len` | internal/bridge/ringbuffer.go:57-61 | the number of pending bytes, never above the cap |
| `AudioBuffers.AudioBuffer.Dropped` | internal/bridge/ringbuffer.go:63-67 | exactly the number of bytes the ledger marks as dropped |
| `Pacing.RunAgrees` | internal/bridge/ringbuffer.go:20-55 | every trace of writes, takes and resets keeps buffer and ledger in agreement: pending is the stream's tail without verdict, the counter the number of drops, the takes the played bytes in order |
| `Pacing.Conservation` | internal/bridge/ringbuffer.go:20-55 | bytes written equal bytes played, dropped, flushed and pending together |
| `Pacing.VerdictsAreFinal` | internal/bridge/ringbuffer.go:20-55 | what became of a byte never changes afterwards, and the stream and the takes only grow |
| `Queueing.DropFreeIsBacklogBounded` | internal/bridge/ringbuffer.go:23-32 | from any empty buffer, nothing more is dropped exactly when the length an unbounded buffer would have never passes the cap |
| `Queueing.DropCriterion` | internal/bridge/ringbuffer.go:20-47 | for every trace from any empty buffer: nothing more dropped if and only if no reset-free window has more bytes written than cap plus frame size times its ticks |
| `Queueing.DropCriterionAnywhere` | internal/bridge/ringbuffer.go:20-47 | the same from any buffer whatever, with what is pending counted as one write at the front |
| `Queueing.PassThrough` | internal/bridge/ringbuffer.go:20-47 | without drops and resets, everything written is played in order or still pending |
| `Queueing.PlayedIsMinimum` | internal/bridge/ringbuffer.go:37-47 | in any stretch from an empty buffer without drops and resets, bytes played are the least, over k, of what had arrived before tick k plus a full frame for each tick after it |
| `Queueing.PacingClosedForm` | internal/bridge/ringbuffer.go:37-47 | that, and total padding is the greatest shortfall of arrivals before tick k against k full frames |
| `Queueing.LatencyOfByte` | internal/bridge/ringbuffer.go:20-47 | a byte with d bytes ahead of it is gone after d / frame size + 1 ticks whatever happens, and no sooner if nothing is dropped or reset |
| `Queueing.BoundedLatency` | internal/bridge/ringbuffer.go:20-22 | with a cap of at most n frames every byte accepted has its verdict after n ticks, whatever is written or reset meanwhile |
| `Queueing.FittingReplyNeverDrops` | internal/bridge/bridge.go:97-101 | a reply that fits beside what is pending causes no drop under any burst pattern |
| `Queueing.FittingReplyIsPlayedWhole` | internal/bridge/bridge.go:97-106 | a reply that fits, arriving at an empty buffer and not interrupted, is played whole and in order once the ticks have run it out |
| `Queueing.QuietExactly` | internal/bridge/ringbuffer.go:23-55 | from an empty buffer every take is empty if and only if no audio is written that meets a tick before a reset (or the cap or the frame size is zero) |
| `Queueing.EmptyStaysSilent` | internal/bridge/ringbuffer.go:37-55 | so it is for as long as nothing is written, and the buffer stays empty |
| `Queueing.WriteWrite` | internal/bridge/ringbuffer.go:23-32 | two writes are one write of both, for buffer, counter and ledger |
| `Queueing.ChunkingIndependence` | internal/bridge/bridge.go:256-263 | traces that differ only in how audio is split between the same ticks and resets end identically |
| `Realtime.Client.Configure` | internal/realtime/client.go:83-133 | fails to send exactly when that write fails; otherwise ready exactly when the first error, echo or failed read is an echo of the asked format for both directions, and else which of the four failures; nothing after it is consumed |
| `Realtime.Client.Send` | internal/realtime/client.go:169-178 | a command is appended to those sent exactly when its write succeeds |
| `Dialogue.FlagsAreLatest` | internal/bridge/bridge.go:252-305 | for every event sequence: response active if and only if the latest of created, done and speech-started is a created; speaking if and only if nothing ended the utterance since the last decodable delta |
| `Dialogue.CancelsExactlyFirstBargeIn` | internal/bridge/bridge.go:297-305 | an event triggers a cancel if and only if it is a speech-started and the latest of the three before it is a created |
| `Dialogue.CancelsAreFirstBargeIns` | internal/bridge/bridge.go:297-305 | so cancels tried are as many as such events |
| `Dialogue.CancelsAreSeparated` | internal/bridge/bridge.go:297-305 | between two cancels a response was created |
| `Dialogue.EventsAreCounted` | internal/bridge/bridge.go:251-328 | barge-ins, logged faults (a refused cancel is none) and silence-guard resets count their events; cancels never exceed responses created |
| `Dialogue.StreamAndTurns` | internal/bridge/bridge.go:256-263 | the stream is every decodable delta and the transcript every non-blank turn with its speaker, in order |
| `Shutdown.SendFindsRoom` | internal/bridge/bridge.go:397-402 | the non-blocking send of a goroutine that has not sent before never loses its reason |
| `Causes.NoReasonIsLost` | internal/bridge/bridge.go:132-249 | each reason is on its way or sent if and only if its cause has occurred in the run: a read ended and what it returned was forwarded, a failed append or a failed frame was looked at in a live call, the silence limit was found exceeded with the guard set, the event channel closed; at most one send per goroutine, and the channel holds all of them in order |
| `Shutdown.JoinMeansCancelled` | internal/bridge/bridge.go:141-146 | once a goroutine has left the wait group the call is cancelled, and a return means all three have ended |
| `Shutdown.CancelledForACause` | internal/bridge/bridge.go:160-249 | at every moment a cancelled context was cancelled from outside or a reason has been sent |
| `Causes.ReportedReason` | internal/bridge/bridge.go:148-155 | the reason reported is the first sent and its cause occurred; it was sent while the call was live if and only if nothing outside had cancelled it; "call ended" exactly when nothing gave cause for a reason, which takes an outside cancel |
| `Causes.OutsideCancels` | internal/bridge/bridge.go:118-131 | the call counts as cancelled from outside exactly when its parent or the call-length limit cancelled it, the limit only if one is set |
| `Shutdown.HungUpReportedAfterMaxCall` | internal/bridge/bridge.go:123-185 | a run ended by the call-length limit and reported as hung up, so the condition above is needed |
| `Shutdown.NoBlameAfterCancel` | internal/bridge/bridge.go:169-213 | whatever has been sent before, a failed write or lost connection reported after the cancel comes from a goroutine that was already about to report it |
| `Shutdown.StepsRunDown` | internal/bridge/bridge.go:160-249 | in a cancelled call every step but a select that takes another ready case brings the end strictly nearer |
| `Shutdown.NeverStuck` | internal/bridge/bridge.go:146-249 | and until the return there always is such a step |
| `Shutdown.CancelledRunIsShort` | internal/bridge/bridge.go:118-249 | so after a cancel, with selects noticing it and I/O returning, a run has at most 32 more steps |
| `Shutdown.CancelledCallCanFinish` | internal/bridge/bridge.go:118-249 | from every reachable cancelled state the bridge can still return |
| `AudioPath.BridgeRunsTrace` | internal/bridge/bridge.go:190-296 | over any interleaving the buffer and its ledger go through a trace of writes, ticks and resets |
| `AudioPath.ByteLedger` | internal/bridge/bridge.go:190-296 | in every reachable state each byte the model sent is played, dropped, flushed or pending, exactly one of them; pending is the contiguous tail, played bytes left in stream order, the counts add up |
| `AudioPath.BridgeDropCriterion` | internal/bridge/bridge.go:97-106 | the exact drop criterion, of the running bridge from any moment on |
| `AudioPath.BridgeLatency` | internal/bridge/bridge.go:97-106 | the latency bound, of the running bridge, whatever its goroutines do next |
| `AudioPath.BridgePacing` | internal/bridge/bridge.go:187-207 | the closed form for audio and padding, of the running bridge from any moment with nothing pending until the next drop or reset |
| `AudioPath.BridgePlaysFittingReply` | internal/bridge/bridge.go:97-106 | a reply no longer than the buffer, begun with nothing pending and not interrupted, is on the line whole and in order after a buffer's worth of frames |
| `AudioPath.BridgeIgnoresChunking` | internal/bridge/bridge.go:256-263 | runs that differ in the chunking of the model's audio end with the same buffer and the same takes |
| `AudioPath.WireIsTakesAndSilence` | internal/bridge/bridge.go:200-208 | the i-th frame handed to the writer is the i-th take, then silence to the frame size |
| `AudioPath.FinalCounters` | internal/bridge/bridge.go:190-217 | at the return frames counted equal takes and the writes made in the run, of which at most one failed, and frames times frame size is audio plus padding |
| `AudioPath.TickAlone` | internal/bridge/bridge.go:200-208 | the steps of one tick, left alone, fill and count one frame, and count it as starved if short while speaking |
| `AudioPath.QuietExactlyUntilHeard` | internal/bridge/bridge.go:190-296 | from any moment with nothing pending no audio is taken if and only if none written since meets a tick before a reset; until then every frame written is pure silence, save at most the one in flight |
| `AudioPath.QuietAfterReset` | internal/bridge/bridge.go:272-296 | so after a barge-in every frame written is silence while the stream does not grow, save at most the one already in flight |
| `Diagnostics.StarvedFramesExactly` | internal/bridge/bridge.go:201-207 | the starved counter is off by the short takes after which the flag rose before it was looked at, less those after which it fell; it is right if and only if there are as many of each |
| `Diagnostics.StarvedFramesErrorBound` | internal/bridge/bridge.go:201-207 | in every interleaving, at every moment, the error is at most half the changes of the flag, rounded up |
| `Diagnostics.StarvedFrameMissed` | internal/bridge/bridge.go:201-207 | a run with two changes of the flag and one starved frame missed: the bound is attained |
| `Diagnostics.StarvedFrameTooMany` | internal/bridge/bridge.go:201-207 | a run with one change and one frame too many: it is attained on that side too |
| `Diagnostics.BargeInMeasurement` | internal/bridge/bridge.go:286-296 | bytes flushed never exceed those measured, differ by at most frame size times the takes in between and by exactly that unless the buffer ran dry; a barge-in not counted as self-inflicted flushes nothing |
| `Diagnostics.SelfInflicted` | internal/bridge/bridge.go:280-291 | the i-th barge-in is counted as self-inflicted if and only if an utterance was under way when its event came or audio was pending when it was measured |
| `Diagnostics.BargeInCounters` | internal/bridge/bridge.go:286-291 | self-inflicted barge-ins never exceed barge-ins; between measurements both count the completed ones |
| `Diagnostics.ReportIsFinal` | internal/bridge/bridge.go:332-351 | the report and the transcript returned are the final ones; dropped bytes are those the ledger marks dropped |
| `Handling.ReceivedAreHandled` | internal/bridge/bridge.go:240-248 | the events handled are those received in the run, all of them and in order |
| `Handling.HandlerIsSequential` | internal/bridge/bridge.go:219-328 | between events every field the handler writes is the fold of the events received, whatever the pumps did meanwhile |
| `Handling.StateFromEvents` | internal/bridge/bridge.go:219-328 | so flags, stream, turns and counters of the running bridge are what its events say |
| `Handling.HandlerAlone` | internal/bridge/bridge.go:251-328 | the handler's steps, left alone, come to the sequential meaning of the event, buffer and cancel included |
| `Handling.LateDeltaIsHeard` | internal/bridge/bridge.go:256-296 | a run in which a delta arriving after the barge-in is played, so quiet after a barge-in needs its condition |
| `Outgoing.CommandsInOrder` | internal/bridge/bridge.go:137-144 | commands sent are session.update, then response.create, then only appends and cancels |
| `Outgoing.CancelsSent` | internal/bridge/bridge.go:297-305 | between events cancels sent, and cancels whose write failed, are together exactly the first barge-ins into a response among the events received; at every moment never more than the responses created |
| `Outgoing.CallerAudioIsForwarded` | internal/bridge/bridge.go:160-185 | the packets the reads of the run returned reach the model unchanged, in order, none twice; all but the one being sent or the one whose append failed, after which none is read |
| `Bridges.CapacityIsWholeFrames` | internal/bridge/bridge.go:102-106 | the cap is the largest number of whole frames lasting no longer than the duration asked for, or than ten seconds if none was; a duration asked for gives zero only below one frame |
| `Bridges.WholeFramesIsOneCap` | internal/bridge/bridge.go:102-106 | which leaves one cap only |
| `Bridges.ZeroCapacityIsMute` | internal/bridge/bridge.go:102-106 | with capacity zero no byte is ever played |
| `Bridges.Bridge.constructor` | internal/bridge/bridge.go:93-113 | a new bridge is quiet, with an empty buffer of that cap |
| `Bridges.Bridge.OnEvent` | internal/bridge/bridge.go:251-328 | one event has its sequential meaning on every field, the buffer, the self-barge-in count and the silence clock; a cancel is tried exactly for a barge-in into an active response and sent if its write succeeds |
| `Bridges.Bridge.OnOther` | internal/bridge/bridge.go:253-327 | the events that leave the buffer alone, each with its effect; a refused cancel is not logged as a fault |
| `Bridges.Bridge.BargeIn` | internal/bridge/bridge.go:272-306 | a barge-in flushes, counts, counts as self-inflicted exactly when audio was pending or the model speaking, and tries one cancel exactly when a response is active |
| `Bridges.Bridge.Pace` | internal/bridge/bridge.go:200-207 | one tick fills the frame with audio and silence, counts it, and counts it as starved exactly when short while speaking |
| `Bridges.Bridge.ReportQuality` | internal/bridge/bridge.go:332-370 | the counters, with the three warnings given exactly above two per cent starved, on any dropped byte, on any self-interruption |
| `ResponseProtocol.EventsInOrder` | internal/realtime/client.go:138-154 | events are handled in the order emitted through socket and bounded channel, none lost or reordered on the way |
| `ResponseProtocol.CancelRaceIsBenign` | internal/realtime/events.go:27-30 | a cancel refused as not active was sent with its response announced and its done not yet handled, and the server had emitted that done before the cancel arrived |
| `ResponseProtocol.RefusalComesAfterDone` | internal/bridge/bridge.go:318-325 | when the client handles the refusal it has already handled that done |
| `ResponseProtocol.WhereACancelLands` | internal/realtime/client.go:195-198 | an accepted cancel never lands on an earlier response, and on the intended one if and only if the server had not finished it |
| `ResponseProtocol.LateCancelHitsNextResponse` | internal/realtime/client.go:195-198 | a run in which it lands on the next one |
| `ResponseProtocol.EveryCancelIsAnswered` | internal/bridge/bridge.go:297-305 | every barge-in that found a response to cancel led to a cancel sent, but for failed writes and one about to be made; every cancel sent is answered in the order sent or still waits |
| `ResponseProtocol.OneCancelPerResponse` | internal/bridge/bridge.go:297-305 | no two cancels are sent for one response |
| `ResponseProtocol.CancelledExactlyAtFirstBargeIn` | internal/bridge/bridge.go:272-305 | a response is cancelled if and only if a barge-in was handled between its created and its done, once, at the first of them |
| `Calls.AnswerCall` | internal/telephony/agent.go:257-314 | bridged only for payload types 8 and 0, and then exactly when the request goes out and the first decisive answer echoes that codec for both directions; format, silence, capacity and limits follow from the codec and the options |
| `Calls.WholeCall` | internal/telephony/agent.go:287-316 | at every moment of a call: commands in order with the negotiated format, and every frame on the wire is the model's audio in order, nothing twice, filled up with that codec's silence |
| `RtpStats.LogRtpStats` | internal/telephony/agent.go:332-362 | no report without packets; otherwise the expected count carries the first sequence number to the last within one wrap, the percentage is that of the packets not received, and the warning is given exactly from one per cent |
| `RtpStats.ExpectedIsReducedSpan` | internal/telephony/agent.go:336-343 | for any span the expected count is the true one reduced into 1..65536, and that determines it |
| `RtpStats.LossIsExactWithinOneWrap` | internal/telephony/agent.go:336-344 | packets reported lost are those missing less duplicates if and only if the span is under 65536 |
| `RtpStats.LossOfDistinctPackets` | internal/telephony/agent.go:336-344 | without duplicates it is the number missing, from 0 to expected - 1 |
| `RtpStats.DuplicatesHideLosses` | internal/telephony/agent.go:336-344 | within one wrap the figure never exceeds the number missing, and equals it exactly without duplicates |
| `Text.TrimMeaning` | internal/config/dotenv.go:48-63 | trimming takes off all white space at both ends and nothing else |
| `DotEnv.SkippedLine` | internal/config/dotenv.go:48-51 | a line is skipped if and only if it is blank or its first other character is '#' |
| `DotEnv.LineWithoutEquals` | internal/config/dotenv.go:54-57 | of the other lines exactly those without '=' are malformed for that |
| `DotEnv.LineWithEquals` | internal/config/dotenv.go:52-78 | every remaining line: malformed exactly when nothing but white space and an export word precedes the first '='; otherwise exactly which key and value it sets, quotes of either kind and comments included |
| `DotEnv.CommentedRoundTrip` | internal/config/dotenv.go:73-77 | a trailing comment is taken off a bare value if and only if the value is not empty and value and comment are not together wrapped in quotes |
| `DotEnv.BareRoundTrip` | internal/config/dotenv.go:47-78 | KEY=value reads back as written if and only if the value is trimmed, unquoted and has no " #" |
| `DotEnv.QuotedRoundTrip` | internal/config/dotenv.go:47-71 | a value in quotes of either kind reads back whatever it is, if and only if the key is non-empty, trimmed, without '=', and starts with neither '#' nor "export " |
| `DotEnv.RoundTrip` | internal/config/dotenv.go:47-78 | bare where safe and quoted elsewhere reads back for every valid key and every value |
| `DotEnv.ParsedKeyShape` | internal/config/dotenv.go:54-61 | whatever a line is, a key read from it is non-empty, trimmed and free of '=' |
| `DotEnv.LoadDotEnv` | internal/config/dotenv.go:19-45 | exactly the assignments before the first bad line are applied, in order; the count, the kind of failure and the 1-based line are right; a missing file is no error and changes nothing |
| `DotEnv.LastAssignmentWins` | internal/config/dotenv.go:10-18 | the last assignment to a key wins over earlier ones and over the environment, and no other variable changes |
| `DotEnv.FileRoundTrip` | internal/config/dotenv.go:29-44 | printing any settings to a file, with either line ending and the last line closed or not, and loading it succeeds and leaves each variable with its last setting, all others as they were, for keys and values without newline or NUL |

## Left out

- SIP, RTP transport, recording and the dialog: reads and writes of audio are environment steps.
- WebSocket, JSON and base64: events arrive decoded, and a delta that does not decode is an event of its own.
- Unconditional termination of a call: a blocking read does not watch the context and a select may prefer another ready case, so termination is stated for runs in which reads return and selects notice the cancel.
- Clocks: a tick is a step and the expiry of the silence timeout is the environment's choice in the interleaved model; `Bridge.OnEvent` says when the clock is reset.
- Goroutine scheduling and the memory model below the granularity of mutex sections and atomics.
- The goroutine loops as methods: they interleave, so they are step functions with a program counter (`BridgeModel.CallerStep`, `PacerStep`, `EventsStep`, `MainStep`); the bodies that run alone are methods.
- The context's cancel at the very end of `Run`, after the goroutines have ended.
- What the model service does is an assumption, stated in `ResponseProtocol.ServerStep`: one response at a time, announced first and ended with done, and a cancel refused only when none is active.
- `int` width: sequence numbers are 16-bit, lengths and counters are unbounded.
- Rounding of the two percentages: they are computed over the reals.
- Scanner token limits in `.env` files; other read errors are modelled.
- Strings are sequences of characters, so malformed UTF-8 is not modelled.
- Notification, summaries, transcript files, preflight, configuration defaults, secret fingerprints, file-name sanitising, registration back-off: each a single branch or a short loop, apart from the path the audio takes.
