# Packet Probe: a model and its proofs

This Dafny project models the parts of Packet Probe that decide what a user sees of captured
traffic: how byte streams are cut into frames, how the event pipeline multiplexes streams and
records which packets stand behind each frame, how two proxy threads share one latency queue, how
the engine answers commands while it owns recorder, pipeline and session, how hexadecimal text and
JSONL lines are printed and read back, and how the viewer labels its rows. Objects whose methods
update fields are classes, loops are loops, and each is proved against a specification function;
the results are theorems about those functions. What a main function itself computes is stated once
more by a theorem about inputs and outputs: fields by name, contents by place, success by condition.

`dafny verify dfyconfig.toml` checks everything.

| file | contents |
|---|---|
| `Base.dfy`, `Words.dfy`, `Decimal.dfy` | bytes, results; 64-bit shifts and ors against base-256 values; decimal text |
| `Framing.dfy` | one rule for three decoders, the reference parse, chunk independence, round trips |
| `Decoders.dfy` | the decoder classes and their factory |
| `Events.dfy`, `Pipeline.dfy` | events, stream keys, the sequence allocator, the event pipeline |
| `Provenance.dfy` | parent lists over the whole history of a stream |
| `Interleaving.dfy`, `SequenceOrder.dfy` | concurrent producers: non-interference, discipline of numbers |
| `LatencyTracking.dfy`, `Proxy.dfy` | the latency queue; the proxy's two forwarders and `stop` as steps |
| `HexText.dfy` | the hex printer, the send-input parser, the delimiter parser |
| `EngineConfig.dfy`, `ConfigReading.dfy` | configuration to and from JSON; reading as a relation, member by member |
| `Engine.dfy`, `EngineOutcomes.dfy` | the engine controller; what each command achieves |
| `Jsonl.dfy`, `EventLine.dfy`, `LogSchema.dfy` | JSON text, event lines, the schema by its names |
| `LogFile.dfy`, `LogReading.dfy` | recorder and loader; what they make of any calls and any file |
| `EventTable.dfy` | the viewer's bounded event table and its labels |

How the parts are modelled:

- A decoder is a `Rule`; `Framing.Next` is the single cut at the head of the buffer and
  `Framing.Parse` the reference parse of a whole stream. Everything about chunking follows from two
  facts: a cut that can be made is not changed by more input, and a cut frame is a frame on its own.
- Concurrency is a state machine over the accesses to shared state (taking a number, one sink call,
  the locked decoding step, one tracker observation); every enabled step may come next. The locked
  step is the method `EventPipeline.ConsumeLocked` proved against `Pipeline.Step`. What other threads
  take from the shared allocator during a call is a parameter of that call. A restart may change the
  decoder, as `configure` allows between two captures.
- What the outside does to the engine during one command (a log file that does not open, a session
  that fails to start or to stop, callbacks that arrive meanwhile) is a parameter of that command.
  `EngineController.Instant` is called between any two statements that touch a resource, and
  demands that a callback meets a live pipeline.
- 64-bit wrap-around is written out where the source can meet it: shifts, the size of a
  length-prefixed frame, the sequence counter, the event counter, integer conversions of JSON
  numbers.

What turned out not to hold as one might expect, with the exact condition:

- A stream key identifies its stream exactly when none of its texts contains `|`
  (`Events.KeyUniqueIff`; `Events.Collision` builds the other stream). Among streams whose session,
  transport and source contain none, keys are injective.
- A delimiter round trip needs the first occurrence of the delimiter in each frame plus delimiter to
  be at its end (`Framing.DelimitedFrameIff` with `Framing.RoundTrip`).
- After a length header smaller than itself the decoder keeps the bad buffer for ever, while the
  pipeline forgets the recorded parents. No frame loses a parent by this: no frame follows
  (`Framing.ThrowIsFinal`, `Provenance.ParentsAreTheRun`).
- The proxy can report a negative latency, even with a clock that only moves forward: a chunk is
  numbered and time-stamped before the tracker sees it, so a response can be matched to a request
  read after it (`Proxy.LatencyCanBeNegative`). Latencies are non-negative exactly when, at each
  response that is observed while a request is unanswered, the oldest such request is not stamped
  later (`LatencyTracking.LatencyNonNegativeIff`, and `Proxy.LatenciesNonNegativeIff` for every run
  of the proxy); with such a clock one is negative only if its response was stamped before its
  request (`Proxy.NegativeOnlyWhenOvertaken`).
- The numbers of one `consume` call are consecutive exactly when no other thread takes a number
  meanwhile, since the allocator is not under the pipeline's mutex; below 2^64 they always increase
  (`Pipeline.NumbersOfACall`, and the `Number` steps of `Interleaving`).
- Loading a list into the event table and appending it give the same labels exactly when no kept
  event shares a parent with a dropped one (`EventTable.BulkLabelsEqualIff`, with a failing list in
  `EventTable.BulkLabelsCanDiffer`). Labels of rows are
  pairwise distinct exactly when no event object is listed twice and parentless rows have distinct
  sequence numbers (`EventTable.LabelsDistinctIff`).

Two documents disagree with the code, and the code is followed: `docs/jsonl-format.md:50` describes
a separate high range of sequence numbers, where all events share one allocator; and
`tests/test_jsonl_recorder.cpp:36-39` shows lines without `parent_seqs`, which every line has.

## Model

| member | source | states |
|---|---|---|
| Words.AccumulateLittle | src/decoder/length_prefix_frame_decoder.cpp:60-63 | or-ing the shifted byte i into the length is adding the next base-256 digit: the shift loses no bit and the set bits never meet |
| Words.AccumulateBig | src/decoder/length_prefix_frame_decoder.cpp:64-67 | shifting the length by eight and or-ing a byte is multiplying by 256 and adding it |
| Words.ByteOrder | src/decoder/length_prefix_frame_decoder.cpp:58-70 | in little-endian order the first byte counts least, in big-endian order the last one |
| Framing.Search | src/decoder/delimiter_frame_decoder.cpp:26-29 | the result is an occurrence of the delimiter and no earlier position is one; the end means there is none at all |
| Framing.NextStable | src/decoder/length_prefix_frame_decoder.cpp:28-49 | a cut (or an undersized header) at the head of the buffer stays the same whatever bytes arrive later, for all three decoders |
| Framing.NextWraps | src/decoder/delimiter_frame_decoder.cpp:31-34 | the bytes erased for a frame are exactly that frame wrapped again, and the frame sent alone is cut as itself |
| Framing.ParseAppend | src/decoder/length_prefix_frame_decoder.cpp:24-53 | parsing in two instalments with the remainder carried over is parsing the concatenation |
| Framing.ThrowIsFinal | src/decoder/length_prefix_frame_decoder.cpp:31-33 | once a parse has thrown, any further input yields no frame, keeps every byte and throws again |
| Framing.FeedIsParse | src/decoder/length_prefix_frame_decoder.cpp:24-53 | after any chunking the buffer is the remainder of the reference parse, and the last call returns exactly the frames that parse gained, or throws when it throws |
| Framing.OutcomeAt | src/decoder/length_prefix_frame_decoder.cpp:24-53 | the outcome of call i depends only on the bytes up to and including chunk i |
| Framing.ChunkIndependence | src/decoder/delimiter_frame_decoder.cpp:20-40 | a stream without an undersized header gives the same frames and the same remainder under every chunking, and no call throws |
| Framing.UndersizedHeaderThrows | src/decoder/length_prefix_frame_decoder.cpp:28-33 | a stream with an undersized header makes every chunking end throwing; after the first throw every call throws; the frames before are a prefix of the reference frames |
| Framing.ResetStartsOver | src/decoder/length_prefix_frame_decoder.cpp:55 | after `reset` a decoder gives every later stream the outcomes a new decoder would give it, even after it has thrown |
| Framing.ParseIffSplits | src/decoder/delimiter_frame_decoder.cpp:20-40 | the parse is the one and only way to split a stream into wrapped frames and an uncuttable remainder; no byte is lost or invented |
| Framing.RoundTrip | src/decoder/length_prefix_frame_decoder.cpp:24-53 | encoding a list of frames and decoding it under any chunking gives back that list with nothing left over if and only if each is a frame on its own |
| Framing.DelimitedFrameIff | src/decoder/delimiter_frame_decoder.cpp:23-36 | a body is a delimiter frame exactly when the first occurrence of the delimiter in body plus delimiter is at its end |
| Framing.LengthPrefixedFrameIff | src/decoder/length_prefix_frame_decoder.cpp:28-49 | a payload under its header is a frame exactly when its declared length fits the header, for every header size, both byte orders and both conventions |
| Framing.HeaderValue | src/decoder/length_prefix_frame_decoder.cpp:58-70 | a written header reads back as the declared length exactly when that length is below 256 to the header size |
| Framing.FixedFrames | src/decoder/fixed_size_frame_decoder.cpp:19-29 | N bytes give floor(N / n) frames, the i-th being bytes i*n up to (i+1)*n, and the last N mod n bytes stay |
| Framing.DelimitedRemainder | src/decoder/delimiter_frame_decoder.cpp:26-29 | delimiter decoding never throws and what it keeps contains no delimiter |
| Decoders.LengthPrefixFrameDecoder.constructor | src/decoder/length_prefix_frame_decoder.cpp:10-20 | a decoder with a header of 1, 2 or 4 bytes starts empty |
| Decoders.LengthPrefixFrameDecoder.ReadLength | src/decoder/length_prefix_frame_decoder.cpp:58-70 | the shift-and-or loops return the base-256 value of the header in the configured byte order |
| Decoders.LengthPrefixFrameDecoder.Consume | src/decoder/length_prefix_frame_decoder.cpp:24-53 | frames, exception and new buffer are those of the reference parse of the old buffer plus the payload; frames found before a throw are lost with it |
| Decoders.HeaderBound | src/decoder/length_prefix_frame_decoder.cpp:40-48 | header size plus declared length cannot wrap around 64 bits |
| Decoders.DelimiterFrameDecoder.constructor | src/decoder/delimiter_frame_decoder.cpp:11-16 | a decoder with a non-empty delimiter starts empty |
| Decoders.DelimiterFrameDecoder.Consume | src/decoder/delimiter_frame_decoder.cpp:20-40 | the search-and-erase loop computes the reference parse of the old buffer plus the payload, delimiters across chunks included |
| Decoders.FixedSizeFrameDecoder.constructor | src/decoder/fixed_size_frame_decoder.cpp:11-15 | a decoder with a positive frame size starts empty |
| Decoders.FixedSizeFrameDecoder.Consume | src/decoder/fixed_size_frame_decoder.cpp:19-29 | the erase loop computes the reference parse of the old buffer plus the payload |
| Decoders.FrameDecoder.Consume | src/core/event_pipeline.cpp:41 | the virtual call behaves as the decoder's own rule on its own buffer |
| Decoders.ConfigurableIffValid | src/decoder/frame_decoder_factory.cpp:79-95 | a behaviour has an accepted configuration if and only if the decoder constructors accept its parameters |
| Decoders.KindOfIff | src/decoder/frame_decoder_factory.cpp:79-95 | a configuration gives a behaviour if and only if its lowercase name is that decoder's and the fields this decoder needs have its parameters; all other fields are irrelevant |
| Decoders.WhyNotDecoder | src/decoder/frame_decoder_factory.cpp:79-95 | every refusal with its text: which parameter is missing, or the unknown name as it was given |
| Decoders.CaseDoesNotMatter | src/decoder/frame_decoder_factory.cpp:79-95 | letter case changes neither whether a configuration is accepted nor what it means |
| Decoders.CreateFrameDecoder | src/decoder/frame_decoder_factory.cpp:79-95 | a new, empty decoder of the configured behaviour, or the exception of the factory or constructor, with no third case |
| Events.KeyInjective | src/core/event_pipeline.cpp:69-72 | two streams whose session, transport and source hold no bar have different keys unless they are the same stream |
| Events.KeyUniqueIff | src/core/event_pipeline.cpp:69-72 | a stream shares its key with no other stream at all exactly when none of its texts holds a bar |
| Events.Collision | src/core/event_pipeline.cpp:69-72 | for a stream with a bar in one of its texts, another stream with the same key |
| Pipeline.SequenceAllocator.Next | include/packet_probe/core/sequence_allocator.hpp:11-16 | after any number of calls by other threads, returns the counter and advances it by one modulo 2^64 |
| Pipeline.NumbersOfACall | src/core/event_pipeline.cpp:42-53 | below 2^64, the numbers one call takes increase whatever other threads take in between, and are consecutive if and only if they take none |
| Pipeline.EventPipeline.constructor | src/core/event_pipeline.cpp:11-14 | a pipeline without streams that has delivered nothing |
| Pipeline.EventPipeline.Consume | src/core/event_pipeline.cpp:16-67 | in each case (no sink; no raw bytes, no payload or no factory; factory throws; decoded) exactly what is delivered, in which order and with which numbers, other threads taking any numbers meanwhile, and that only the event's own stream moves |
| Pipeline.EventPipeline.ConsumeLocked | src/core/event_pipeline.cpp:27-62 | the critical section is one step of the stream's state and numbers its events in order; a throwing factory changes nothing |
| Pipeline.EventPipeline.FindOrCreate | src/core/event_pipeline.cpp:29-37 | a decoder is created on first use only, fresh and empty; other streams keep theirs |
| Pipeline.EventPipeline.Insert | src/core/event_pipeline.cpp:32 | the new decoder is an object no other stream uses |
| Pipeline.EventPipeline.DecodeLocked | src/core/event_pipeline.cpp:36-61 | pushing the sequence, feeding the decoder, building the events and clearing the list add up to one abstract decoding step |
| Pipeline.EventPipeline.RecordAndFeed | src/core/event_pipeline.cpp:37-41 | the sequence is recorded before the decoder runs, so it stays recorded when the decoder throws |
| Pipeline.EventPipeline.FeedDecoder | src/core/event_pipeline.cpp:41 | feeding one stream's decoder changes no other stream's buffer |
| Pipeline.EventPipeline.MakeDerived | src/core/event_pipeline.cpp:43-59 | one numbered frame event per frame, or one numbered error event |
| Pipeline.EventPipeline.MakeFrameEvent | src/core/event_pipeline.cpp:75-90 | a frame event takes one number, keeps the stream of its parent and drops its latency fields |
| Pipeline.EventPipeline.MakeFrameEvents | src/core/event_pipeline.cpp:42-45 | each frame gets the next number of the shared counter, in stream order |
| Pipeline.EventPipeline.Deliver | src/core/event_pipeline.cpp:64-66 | derived events reach the sink once each, in order |
| Provenance.StateIsHistory | src/core/event_pipeline.cpp:36-61 | the recorded sequences are the run of decoded events since the stream's buffer was last empty, and nothing once the decoder has thrown |
| Provenance.ReferenceStep | src/core/event_pipeline.cpp:41-50 | what a decoder returns for one more payload is what the reference parse of the whole history gains |
| Provenance.DerivedFields | src/core/event_pipeline.cpp:43-90 | every field of a frame or error event: stream and time of the raw event, parents, type, payload, summary with the size or the error text, and what is cleared |
| Provenance.ParentsAreTheRun | src/core/event_pipeline.cpp:36-61 | every frame lists exactly the run since the buffer was last empty; the first error lists it too; later errors list only their own event, and no frame follows an error |
| Provenance.FrameOccupies | src/decoder/length_prefix_frame_decoder.cpp:37-47 | frame m of a stream is a definite non-empty stretch of its bytes |
| Provenance.ConsumedSoFar | src/decoder/length_prefix_frame_decoder.cpp:37-51 | bytes in frames plus bytes in the buffer are the bytes received, that is the payloads of all raw events of the stream, single bytes included |
| Provenance.OwnersAreParents | src/core/event_pipeline.cpp:36-50 | every raw event that owns a byte of a frame is among that frame's parents |
| Provenance.ParentsIncrease | src/core/event_pipeline.cpp:36-61 | with one producer per stream, parent lists are strictly increasing and end with the event that completed the frame |
| Interleaving.SeparableStreamsAreValid | src/core/event_pipeline.cpp:69-72 | distinct bar-free streams never share decoder state |
| Interleaving.StepKeepsInv | src/core/event_pipeline.cpp:16-67 | every step of every thread keeps each stream in step with its own history and the lock with its holder |
| Interleaving.RunKeepsInv | src/core/event_pipeline.cpp:16-67 | that invariant holds after every possible run |
| Interleaving.NonInterference | src/core/event_pipeline.cpp:16-67 | in every interleaving, and after every restart with another decoder, what a stream has been delivered is a prefix of what a pipeline used by it alone delivers, up to own numbers, and all of it when its producer is idle |
| Interleaving.AloneIsReference | src/core/event_pipeline.cpp:40-50 | a stream's frames are the reference parse of its own bytes, or a prefix of it once the decoder threw |
| Interleaving.InterleavedFrames | src/core/event_pipeline.cpp:16-67 | in every interleaving an idle stream without error has received exactly the frames of the payloads of all its raw events, concatenated; without framing, its non-empty payloads |
| SequenceOrder.StepKeepsTokens | include/packet_probe/core/sequence_allocator.hpp:11-16 | no step uses a number twice, whether delivered or still held by a thread |
| SequenceOrder.StepKeepsOrder | src/core/event_pipeline.cpp:36-61 | no step breaks the order of a producer's numbers and of parent lists |
| SequenceOrder.SequenceDiscipline | src/core/event_pipeline.cpp:36-61 | over any interleaving and any number of restarts with any decoder each time, below 2^64 numbers: delivered numbers are distinct, each derived event is numbered above all its parents, and parent lists are strictly increasing |
| LatencyTracking.LatencyTracker.Observe | src/core/latency_tracker.cpp:7-31 | queue and measurement follow the first-in first-out rule; other events are ignored; what the rule measures is stated by MeasurementFields, RequestsIff and MeasuredIff |
| LatencyTracking.QueueLaw | src/core/latency_tracker.cpp:12-28 | measurements plus pending equal requests, and the pending ones are the latest requests in order |
| LatencyTracking.MeasurementNamesRequest | src/core/latency_tracker.cpp:17-28 | the i-th measurement matches the i-th request of the history with a response that comes after it |
| LatencyTracking.MeasurementFields | src/core/latency_tracker.cpp:17-28 | the i-th measurement carries the numbers of the request and of the later response, the difference of their times, and the sizes of their payloads, each in its own field |
| LatencyTracking.RequestsIff | src/core/latency_tracker.cpp:8-15 | the requests are exactly the raw events from the application to the device |
| LatencyTracking.MeasuredIff | src/core/latency_tracker.cpp:17-30 | an event gives a measurement if and only if it is a raw event from the device to the application and some request is unanswered |
| LatencyTracking.ResponsesAreUsedOnce | src/core/latency_tracker.cpp:17-28 | different measurements use different responses, in the same order |
| LatencyTracking.PendingIsMaxSurplus | src/core/latency_tracker.cpp:7-33 | the number pending is the maximum over all suffixes of requests minus responses |
| LatencyTracking.LatencyNonNegativeIff | src/core/latency_tracker.cpp:17-27 | the first n latencies are non-negative if and only if, whenever a response is observed while a request is unanswered, the oldest such request is not stamped later than the response |
| LatencyTracking.LatencyNonNegative | src/core/latency_tracker.cpp:24 | in particular when observation times do not go back |
| Proxy.StepKeepsFlow | src/capture/tcp_proxy_capture_session.cpp:140-158 | every step keeps recorded bytes equal to written bytes plus at most one chunk in hand, in each direction |
| Proxy.StepKeepsNotice | src/capture/tcp_proxy_capture_session.cpp:159-174 | every step keeps: whoever set the flag first owes the stop notice until it is delivered, and nobody else owes it |
| Proxy.StepKeepsLatency | src/capture/tcp_proxy_capture_session.cpp:267-278 | every step keeps the shared queue in line with the observed history and every announced latency backed by delivered events |
| Proxy.StepKeepsPlaces | src/capture/tcp_proxy_capture_session.cpp:229-233 | every step keeps the books right: each number taken is held by one thread, delivered in one event, or used outside the proxy |
| Proxy.StepKeepsShape | src/capture/tcp_proxy_capture_session.cpp:227-265 | every step keeps: each event made or delivered has session, transport, direction, endpoints and summary of its kind |
| Proxy.StepKeepsReads | src/capture/tcp_proxy_capture_session.cpp:139-148 | every step keeps recorded bytes plus the chunk not yet recorded equal to the bytes read, in each direction |
| Proxy.RunInvariant | src/capture/tcp_proxy_capture_session.cpp:137-175 | all invariants hold after every possible run, the pipeline taking numbers from the same allocator at any time |
| Proxy.WrittenFollowsRecorded | src/capture/tcp_proxy_capture_session.cpp:139-157 | in any interleaving the bytes written in a direction are a prefix of the bytes recorded, and these of the bytes read, all at most 4096 behind |
| Proxy.StoppedOnce | src/capture/tcp_proxy_capture_session.cpp:159-225 | "proxy stopped" is not delivered before the flag is set or while its setter owes it, and exactly once afterwards |
| Proxy.EventsAreShaped | src/capture/tcp_proxy_capture_session.cpp:148-265 | after every run each delivered event is a chunk with the endpoint it was read from as its source, a latency with those of the response and whole microseconds in its summary, or the notice, which shows the endpoints of the forwarder that set the flag and none when `stop` set it |
| Proxy.LatencyEventsAreBacked | src/capture/tcp_proxy_capture_session.cpp:246-278 | each latency event follows two delivered raw events, a request and a response, is numbered above them and carries their numbers, the difference of their times, both sizes and the time of the response; the i-th names the i-th observed request, so none is named twice |
| Proxy.NumbersAreUsedOnce | src/capture/tcp_proxy_capture_session.cpp:229-250 | no two events of the proxy, raw, latency or notice, share a number, and none shares one with an event the pipeline numbers |
| Proxy.LatenciesNonNegativeIff | src/capture/tcp_proxy_capture_session.cpp:267-278 | after every run the announced latencies are non-negative if and only if no announced answer was stamped before the oldest request unanswered when it was observed |
| Proxy.NegativeOnlyWhenOvertaken | src/capture/tcp_proxy_capture_session.cpp:142-151 | with a clock that never goes back, a latency is negative only if its response was stamped before its request |
| Proxy.LatencyCanBeNegative | src/capture/tcp_proxy_capture_session.cpp:148-151 | a run with a forward-moving clock whose last event is a latency of -10 ns, its response numbered before its request |
| HexText.HexDigit | src/core/hex_dump.cpp:12-17 | printed digits are uppercase hexadecimal digits of the right value |
| HexText.ReadHexByte | src/core/send_input_parser.cpp:34-46 | the byte of two hexadecimal digits, or failure when they are not there |
| HexText.PairIff | src/core/send_input_parser.cpp:11-27 | two characters stand for a byte exactly when they are the digits of its upper and lower half, of either case |
| HexText.SeparatorsAre | src/core/send_input_parser.cpp:11-13 | the separators are the six white-space characters, colon and hyphen, and no others |
| HexText.ParseHexPayloadLoop | src/core/send_input_parser.cpp:54-84 | the index loop computes the specified result, including column and message of every error |
| HexText.ParseIffSpells | src/core/send_input_parser.cpp:54-84 | from any token boundary the parser returns p exactly when the rest of the line spells p in the grammar |
| HexText.HexExactness | src/core/send_input_parser.cpp:54-84 | a line parses to p if and only if it is a sequence of separators and optionally prefixed digit pairs that spell p |
| HexText.ColumnIsLongestPrefix | src/core/send_input_parser.cpp:63-80 | the column of an error is one past the longest prefix that parses |
| HexText.MessageIff | src/core/send_input_parser.cpp:69-80 | which of the two messages an error has: the second if and only if the bad character directly follows a digit and is none |
| HexText.ParseHomomorphism | src/core/send_input_parser.cpp:54-84 | two inputs that parse, concatenated, parse to their bytes concatenated |
| HexText.ToHexLoop | src/core/hex_dump.cpp:10-20 | the stream loop prints two digits a byte, with single spaces between when asked |
| HexText.HexRoundTrip | src/core/send_input_parser.cpp:54-84 | parsing printed bytes gives them back, spaced or not |
| HexText.ParseDelimiterBytes | src/decoder/frame_decoder_factory.cpp:51-77 | the two loops drop white space and read pairs from left to right; the first bad pair is the error |
| HexText.DelimiterIff | src/decoder/frame_decoder_factory.cpp:51-77 | a delimiter argument gives these bytes if and only if it names a line feed (10) or the pair (13, 10), or its characters without white space are pairs that read as them, at least one |
| HexText.CompactRules | src/decoder/frame_decoder_factory.cpp:60-66 | exactly the six white-space characters are dropped, wherever they stand |
| HexText.FirstBadPair | src/decoder/frame_decoder_factory.cpp:37-47 | the error is that of the first pair that does not read, all pairs before it reading |
| HexText.DelimiterRoundTrip | src/decoder/frame_decoder_factory.cpp:51-77 | printed bytes read back as a delimiter, for every non-empty delimiter and both spacings |
| EngineConfig.ParseUnsignedOfText | src/core/serial_options.cpp:18-25 | every 64-bit number is read back from its decimal text |
| EngineConfig.PortIff | apps/packet-probe-cli/engine_config.cpp:20-31 | of the 64-bit integers, signed or unsigned, exactly 0 to 65535 are accepted as a port, as themselves |
| EngineConfig.SerialNumbersIff | src/core/serial_options.cpp:57-79 | of the numbers JSON can give, exactly 1 to 4000000, 5 to 8, and 1 or 2 are accepted as baud rate, data bits and stop bits, as themselves; negative ones, which turn into huge ones, never are |
| EngineConfig.SerialTextRoundTrip | src/core/serial_options.cpp:29-55 | parity and flow control are read back from their own texts |
| ConfigReading.FromJsonIff | apps/packet-probe-cli/engine_config.cpp:77-137 | a configuration object reads as these options if and only if every member reads as its option, a member that is absent or null as its default (115200 baud, 8 data bits, 1 stop bit, bind host 0.0.0.0, latency on, the raw decoder and so on), whatever else the object holds |
| ConfigReading.EmptyReadsAsDefaults | apps/packet-probe-cli/cli_options.hpp:11-37 | the empty object reads as the defaults |
| ConfigReading.TruncateIs | apps/packet-probe-cli/engine_config.cpp:90-98 | a floating-point number converts to its whole part, towards zero |
| EngineConfig.FromJsonIsRepresentable | apps/packet-probe-cli/engine_config.cpp:77-137 | whatever JSON is accepted, the options respect all ranges and carry nothing of the command line |
| EngineConfig.RoundTripIff | apps/packet-probe-cli/engine_config.cpp:42-137 | options survive the trip through JSON if and only if they are representable |
| EngineConfig.ConfigNormalForm | apps/packet-probe-cli/engine_config.cpp:42-137 | for every accepted configuration, writing the options and reading them again changes nothing |
| EngineConfig.AcceptedIffComplete | apps/packet-probe-cli/cli_options.cpp:125-192 | representable options validate if and only if they name one of the five capture modes with its required fields |
| Engine.EngineController.constructor | apps/packet-probe-cli/engine_controller.cpp:53-61 | the engine starts idle, unconfigured and consistent |
| Engine.EngineController.Instant | apps/packet-probe-cli/engine_controller.cpp:302-305 | a callback may come only while a session lives and then meets a live pipeline and recorder |
| Engine.EngineController.BuildPipeline | apps/packet-probe-cli/engine_controller.cpp:277-300 | recorder, decoder check, pipeline: reports the first failure in this order, and at no instant is there a pipeline without a recorder |
| Engine.EngineController.HandleConfigure | apps/packet-probe-cli/engine_controller.cpp:118-138 | refused while capturing or invalid, with the exact message; otherwise stores the configuration and announces it; what is stored is stated by EngineOutcomes.ConfigureOutcome |
| Engine.EngineController.StartSession | apps/packet-probe-cli/engine_controller.cpp:277-354 | reports the first failure of all; at every instant a session implies a pipeline and a pipeline implies a recorder, also while a failed start unwinds; callbacks are counted from `session->start()` on |
| Engine.EngineController.HandleStartCapture | apps/packet-probe-cli/engine_controller.cpp:140-164 | capturing with all three resources, or, after any failure, idle with none |
| Engine.EngineController.ReleaseResources | apps/packet-probe-cli/engine_controller.cpp:154-156 | teardown in the order session, pipeline, recorder is safe at every instant |
| Engine.EngineController.StopCaptureLocked | apps/packet-probe-cli/engine_controller.cpp:356-365 | callbacks during stop meet a live pipeline; a throwing stop leaves everything running |
| Engine.EngineController.HandleStopCapture | apps/packet-probe-cli/engine_controller.cpp:166-175 | refused when idle; otherwise idle with no resource, configuration kept |
| Engine.EngineController.HandleGetStatus | apps/packet-probe-cli/engine_controller.cpp:177-189 | answers with state, configuration and counter and changes nothing |
| Engine.EngineController.HandleListSerialPorts | apps/packet-probe-cli/engine_controller.cpp:191-224 | answers with the ports and changes nothing |
| Engine.EngineController.HandleSend | apps/packet-probe-cli/engine_controller.cpp:226-253 | each refusal with its message, in the order of the checks; the payload goes to the session once; state unchanged |
| Engine.EngineController.HandleCommand | apps/packet-probe-cli/engine_controller.cpp:71-116 | dispatch refines the specification from any consistent state to a consistent one |
| Engine.EngineController.BroadcastStatus | apps/packet-probe-cli/engine_controller.cpp:266-275 | the broadcast shows the state at that moment |
| Engine.EngineController.OnEvents | apps/packet-probe-cli/engine_controller.cpp:302-305 | callbacks between commands only advance the counter, modulo 2^64 |
| Engine.EngineController.ShutDown | apps/packet-probe-cli/engine_controller.cpp:63-69 | a running capture is stopped before the handler is removed |
| Engine.OneReplyPerCommand | apps/packet-probe-cli/engine_controller.cpp:71-175 | every well-formed command gets exactly one result with its id; a status broadcast follows iff a configure, start or stop succeeded; a rejected command changes nothing else; malformed lines change nothing |
| Engine.StepKeepsConsistent | apps/packet-probe-cli/engine_controller.cpp:140-175 | every input keeps: capturing iff all three resources exist, and capturing implies configured |
| Engine.HandleKeepsAgreement | apps/packet-probe-cli/engine_controller.cpp:266-275 | after every command the last broadcast shows the state and configuration the engine has |
| Engine.RunsAreConsistent | apps/packet-probe-cli/engine_controller.cpp:63-175 | both hold after every run, the second until shutdown |
| Engine.UnknownModeIsUnreachable | apps/packet-probe-cli/engine_controller.cpp:351-353 | a stored configuration always names a capture mode with its fields, so the last branch of session start is dead |
| EngineOutcomes.AnsweredIff | apps/packet-probe-cli/engine_controller.cpp:71-92 | a line is answered if and only if it is an object with a command text and no other type text; the answer goes to its client under its id, or the empty one |
| EngineOutcomes.ConfigureOutcome | apps/packet-probe-cli/engine_controller.cpp:118-138 | configure is acknowledged, and stores the configuration that was sent and nothing else, if and only if the engine is idle and the object reads and validates; otherwise nothing changes and the first obstacle is the answer |
| EngineOutcomes.StartOutcome | apps/packet-probe-cli/engine_controller.cpp:140-164 | start is acknowledged, with all three resources held, if and only if the engine is idle and configured, the log opens or none is wanted, the decoder can be built and the session starts; otherwise the first of these is the answer and an idle engine holds nothing |
| EngineOutcomes.StartCounts | apps/packet-probe-cli/engine_controller.cpp:302-305 | a start counts the callbacks of a session that started, those of one that failed to, and none before |
| EngineOutcomes.StopOutcome | apps/packet-probe-cli/engine_controller.cpp:166-175 | stop is acknowledged, with nothing held but the configuration, if and only if the engine captures and the session stops; a session that throws leaves all as it was |
| EngineOutcomes.StatusOutcome | apps/packet-probe-cli/engine_controller.cpp:177-189 | the status tells whether the engine captures, the configuration if there is one, and the events seen |
| EngineOutcomes.PortsOutcome | apps/packet-probe-cli/engine_controller.cpp:218-223 | the ports found are the answer, and nothing changes |
| EngineOutcomes.SendOutcome | apps/packet-probe-cli/engine_controller.cpp:226-253 | the session gets the bytes the payload text spells, and the answer is the session's, if and only if a session that can send runs and the text parses; otherwise it gets nothing and the first obstacle is the answer |
| EngineOutcomes.UnknownOutcome | apps/packet-probe-cli/engine_controller.cpp:108-110 | any other command is refused by name and changes nothing |
| EngineOutcomes.ShutdownOutcome | apps/packet-probe-cli/engine_controller.cpp:63-69 | the end of the engine stops a running capture and removes the handler, unless the session's stop throws, and tells no one |
| EngineOutcomes.StoredIsLastConfigured | apps/packet-probe-cli/engine_controller.cpp:118-138 | after every run the engine has a configuration if and only if some configure was acknowledged, and it is the one sent with the last of them |
| EngineOutcomes.CapturingIff | apps/packet-probe-cli/engine_controller.cpp:140-175 | after every run the engine captures if and only if some start was acknowledged and neither an acknowledged stop nor the end of the engine came after it |
| Jsonl.EscapeJson | src/core/jsonl_serializer.cpp:11-51 | the loop escapes character by character and drops or adds nothing |
| Jsonl.EscapeRoundTrip | src/core/jsonl_serializer.cpp:11-51 | a reader of section 7 of RFC 8259 gets the original string back and stops at the closing quote |
| Jsonl.EscapeInjective | src/core/jsonl_serializer.cpp:11-51 | different strings are escaped differently |
| LogSchema.EscapeForms | src/core/jsonl_serializer.cpp:14-49 | a character is escaped with a pair where JSON has one, with six characters if it is another control character, and otherwise not at all |
| Jsonl.EscapeIsClean | src/core/jsonl_serializer.cpp:11-51 | escaped text is a string body of section 7 of RFC 8259: every quote, backslash and control character is inside an escape |
| Jsonl.ObjectRoundTrip | src/core/jsonl_serializer.cpp:68-127 | printed objects read back with all members in order |
| EventLine.SerializeEventJsonl | src/core/jsonl_serializer.cpp:68-127 | the appended pieces add up to one object text of the event's fields, with decoder text spliced in before the latency fields |
| EventLine.SerializeHead | src/core/jsonl_serializer.cpp:70-83 | sequence, parents and time, the parents separated by commas |
| EventLine.ParentsText | src/core/jsonl_serializer.cpp:75-80 | the loop writes a comma-separated list without a leading comma |
| EventLine.SerializeEndpoints | src/core/jsonl_serializer.cpp:90-97 | empty endpoints are left out and the quotes still balance |
| EventLine.SerializeMetadataJsonl | src/core/jsonl_serializer.cpp:55-66 | the metadata line is the object text of its five members |
| EventLine.EventTextIsObject | src/core/jsonl_serializer.cpp:68-127 | without decoder text a line is one well-formed object |
| EventLine.FieldsRecovered | src/core/jsonl_serializer.cpp:68-127 | a reader's dictionary has exactly the event's fields, each with its value |
| LogSchema.HeadSays | src/core/jsonl_serializer.cpp:70-83 | under `seq`, `parent_seq`, `parent_seqs` and `time_ns` a reader finds exactly these of the event |
| LogSchema.StreamSays | src/core/jsonl_serializer.cpp:84-97 | the same for session, transport and direction by their names, and for the endpoints, which are there exactly when they are not empty |
| LogSchema.ContentSays | src/core/jsonl_serializer.cpp:98-108 | the same for type, size in bytes, payload in hexadecimal and summary |
| LogSchema.LatencySays | src/core/jsonl_serializer.cpp:109-124 | the six latency members are there exactly for latency events, the microseconds being the nanoseconds divided by 1000 towards zero |
| LogSchema.HexAt | src/core/hex_dump.cpp:10-20 | the i-th byte is printed as its two digits at 2i and 2i + 1, letters in upper case |
| EventLine.EventRoundTrip | viewer/packet_probe_viewer/jsonl_log_loader.py:22-31 | a line reads back as one object from which the whole event is recovered, payload included; latency fields only for latency events |
| EventLine.EventTextInjective | src/core/jsonl_serializer.cpp:68-127 | events that differ in anything a line keeps have different lines |
| EventLine.EventTextIsOneLine | src/core/jsonl_serializer.cpp:68-127 | a line contains no control character, hence no line break |
| EventLine.MetadataRoundTrip | src/core/jsonl_serializer.cpp:55-66 | the metadata line reads back as the metadata |
| LogFiles.JsonlRecorder.Open | src/recorder/jsonl_recorder.cpp:11-19 | appends one metadata line on success; a stream that is already open fails and keeps its file |
| LogFiles.JsonlRecorder.Record | src/recorder/jsonl_recorder.cpp:33-40 | appends exactly the event's line when open, nothing otherwise |
| LogFiles.JsonlRecorder.Close | src/recorder/jsonl_recorder.cpp:21-26 | afterwards nothing is written |
| LogFiles.Call | src/recorder/jsonl_recorder.cpp:11-40 | one call on a recorder adds to its file exactly what the call adds to the log |
| LogFiles.LogTextAppend | src/recorder/jsonl_recorder.cpp:11-40 | appending entries to a file is the text of all entries together |
| LogFiles.Perform | src/recorder/jsonl_recorder.cpp:7-40 | a recorder object told to open, record and close in any order leaves exactly the text of that run in the file |
| LogFiles.LoadPacketProbeJsonl | viewer/packet_probe_viewer/jsonl_log_loader.py:12-35 | the loop over lines computes the specified result, which MalformedIff, EventsInOrder and MetadataIsFirst state for every file |
| LogReading.MalformedIff | viewer/packet_probe_viewer/jsonl_log_loader.py:16-33 | for any file and any JSON parser: a pair is reported as malformed if and only if it is the number, from one, and the stripped text of a line that is not blank and gives no dictionary |
| LogReading.MalformedInOrder | viewer/packet_probe_viewer/jsonl_log_loader.py:24-33 | malformed lines are reported in order, none twice |
| LogReading.EventsInOrder | viewer/packet_probe_viewer/jsonl_log_loader.py:27-31 | the events are exactly the dictionaries of the lines that give one and do not say they are metadata, in order |
| LogReading.MetadataIsFirst | viewer/packet_probe_viewer/jsonl_log_loader.py:27-29 | the metadata are the dictionary of the first line that says so, and none exactly when there is no such line |
| LogReading.StripIff | viewer/packet_probe_viewer/jsonl_log_loader.py:17 | stripping leaves a text if and only if it stands between blanks and neither begins nor ends with one |
| LogReading.LinesAtBreak | viewer/packet_probe_viewer/jsonl_log_loader.py:15-16 | a line ends at a line feed, a carriage return or the pair of them, and a rest without one is a line |
| LogFiles.LinesOfLog | viewer/packet_probe_viewer/jsonl_log_loader.py:15-19 | the file splits into exactly one line per entry, also with universal newlines |
| LogFiles.LoadEntries | viewer/packet_probe_viewer/jsonl_log_loader.py:16-33 | metadata once, events in order, nothing malformed, for every JSON parser that understands the printed lines |
| LogFiles.RunShape | src/recorder/jsonl_recorder.cpp:11-19 | whatever is called, a non-empty log starts with a metadata line |
| LogReading.OutputIff | src/recorder/jsonl_recorder.cpp:11-31 | the stream is open exactly when it could be opened at some call and was not closed since, and takes records exactly when nothing but records came after the call that opened it |
| LogReading.EntriesInOrder | src/recorder/jsonl_recorder.cpp:11-40 | after any calls the file holds exactly one metadata line for each call that opened it and one line for each record that came while it took records, in order |
| LogFiles.LogRoundTrip | viewer/packet_probe_viewer/jsonl_log_loader.py:12-35 | after any calls of a recorder, loading its file gives the metadata, all recorded events field by field in order, and no malformed line |
| LogFiles.SessionsRoundTrip | viewer/packet_probe_viewer/jsonl_log_loader.py:12-35 | for any number of append sessions, loading gives the events of all sessions in order |
| EventTable.PacketTableModel.AppendEvent | viewer/packet_probe_viewer/packet_table_model.py:114-132 | rows, counters and labels after one append, the oldest row dropped when full; the event shows its first listed parent, or where none is listed the single one, and its number among the children, or without a parent its own number |
| EventTable.PacketTableModel.SetEvents | viewer/packet_probe_viewer/packet_table_model.py:134-149 | the bulk loop relabels the last events that fit; objects that are listed twice end with their last label; RowShows says what the labels are |
| EventTable.PacketTableModel.Clear | viewer/packet_probe_viewer/packet_table_model.py:151-155 | no rows and no counters; event objects keep their labels |
| EventTable.PacketTableModel.LabelEvent | viewer/packet_probe_viewer/packet_table_model.py:122-127 | the label and the new count in terms of the logged parent fields: the first listed parent if any is listed, else the single one, zero meaning none; no other object changes |
| EventTable.PacketTableModel.FirstColumn | viewer/packet_probe_viewer/packet_table_model.py:82-86 | a row is shown under the label the table wrote last |
| EventTable.ChildTextInjective | viewer/packet_probe_viewer/packet_table_model.py:125 | labels of children tell parent and number apart |
| EventTable.LabelsDiffer | viewer/packet_probe_viewer/packet_table_model.py:122-127 | labels at two places of a history agree only for parentless events with one sequence number |
| EventTable.RunIsHistory | viewer/packet_probe_viewer/packet_table_model.py:114-155 | after any run the rows are the last of the events since the last reset, labelled by their place among their parent's children |
| EventTable.RowShows | viewer/packet_probe_viewer/packet_table_model.py:114-149 | after any run a row whose object is not added again later shows its first logged parent, a dot, and one more than the number of events with that parent added before it since the last reset; without a parent it shows its own number |
| EventTable.HistoryAfterReset | viewer/packet_probe_viewer/packet_table_model.py:134-155 | after a clear only what was appended counts, after a load what it kept and what was appended |
| EventTable.LabelsDistinctIff | viewer/packet_probe_viewer/packet_table_model.py:114-155 | after any run of append, set and clear, row labels are pairwise distinct if and only if no object is listed twice and rows whose logged parent is zero have distinct sequence numbers |
| EventTable.RowsCanShareLabel | viewer/packet_probe_viewer/packet_table_model.py:114-132 | one event object appended twice gives two rows with one label |
| EventTable.BulkRowsEqual | viewer/packet_probe_viewer/packet_table_model.py:115-148 | appending from empty and loading at once give the same rows: the last of the list, all of it or as many as fit |
| EventTable.BulkEqualsAppends | viewer/packet_probe_viewer/packet_table_model.py:114-149 | for a list that fits, the two tables are the same, labels and counters included |
| EventTable.BulkLabelsEqualIff | viewer/packet_probe_viewer/packet_table_model.py:114-149 | for a list that does not fit, the labels agree if and only if no kept event shares a parent with a dropped one |
| EventTable.BulkLabelsCanDiffer | viewer/packet_probe_viewer/packet_table_model.py:114-149 | three events of one parent in a table for two: each kept row is labelled differently by the two ways of filling the table |

## Left out

- Sockets, serial ports, files, clocks and thread scheduling of the operating system: foreign; they appear as parameters or as free choices of a step.
- Direct TCP, UDP and serial sessions, and the directory scan behind `list_serial_ports`: thin wrappers over foreign libraries; the ports are a parameter.
- Command-line scanning, help text and the run_*.cpp programs: only one-branch facts.
- Qt widgets, signals, colours, filters and the main window: user interface.
- The JSON libraries: JSON is a datatype; the one text reader is for the lines the recorder prints, without white space between tokens, and the loader is proved for every parser that agrees with it on those.
- Member names in configurations and commands are an enumeration with one catch-all; distinct names of the source stay distinct.
- UTF-8: strings are sequences of Unicode characters and only ASCII ones are escaped; bytes that are not UTF-8, which would make the loader fail on the whole file, are not modelled.
- Event lines with decoder text: `EventLine.SerializeEventJsonl` covers them, the round trips need empty decoder text; nothing in the repository produces any.
- The one long body of `serialize_event_jsonl` is split into several methods that write the same pieces in the same order; `std::search` is a recursive function with the contract of the standard.
- EngineConfig.FromJsonIsRepresentable: the two converters are functions on values, as they only fill a local object; a floating-point number outside the integer range, undefined in C++, is reduced modulo the width.
- ConfigReading.FromJsonIff: says when reading succeeds and with what, not which of several errors in one object is reported.
- Decoders.FrameDecoder.Consume: the abstract base class is a datatype of references, one case for each decoder class.
- LogFiles.JsonlRecorder.Open: the exception text does not name the path, as files have no names here.
- LogFiles.JsonlRecorder.Record: write errors such as a full disk are not modelled.
- Proxy.StoppedOnce: starts once both forwarders run; the hand-over from the accept thread and the joins inside `stop` are not modelled, so the model allows more interleavings than the program.
- Proxy.LatencyEventsAreBacked: exceptions thrown by the event callback are swallowed by the source and do not occur in the model.
- Engine.EngineController.HandleCommand: JSON dump and the sends to clients succeed; exceptions not derived from `std::exception`, memory exhaustion, and a command in flight after shutdown are not modelled.
- Interleaving.NonInterference: one producer thread per stream; the sink does not throw.
- Pipeline.EventPipeline.Consume: the numbers other threads take during the call are fixed in advance as a function, so they do not depend on what the call does.
- HexText.ParseDelimiterBytes: `std::stoul` is modelled on two characters, where it takes digits and a sign.
- The free function `make_latency_event` of src/core/latency_tracker.cpp: the proxy does not use it.
- `format_event_line`: local time formatting.
- LogFiles.LoadPacketProbeJsonl: values other than strings, integers and lists of integers are not represented in the loaded dictionaries.
