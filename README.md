# Voice-command control pipeline of the MCV25 front-end, in Dafny

This project models the control core of `main_full.cpp`, a voice-command front-end for a small craft with a motor and a steerable tail. The program:

1. reads audio frames from the microphone and drops frames whose samples are all equal;
2. classifies a fresh frame and opens a command window when the wake word "Zenira" is heard;
3. feeds half-frame chunks to a grammar-constrained speech recognizer while fewer than 5 whole seconds have elapsed since the window opened (the chunk read after the last open test still happens);
4. routes the first parsed transcript through an exact-match command table;
5. encodes the resulting motor or tail command as a CAN payload and hands it to the CAN transport;
6. returns to listening.

The model follows the build with CAN enabled (`#if ENABLE_CAN`).

Modules, one per component:

- `FrameFilter` (`frame_filter.dfy`): `isConstantSignal` as a method with an index loop over an `array`.
- `CanProtocol` (`can_protocol.dfy`): the motor and tail payload encoders.
  - They fill a fresh `dados` array.
  - C's `<<`, `|`, `& 0xFF` and `>> 8` are written out on unbounded integers.
  - The tail clamp and the `uint16_t` two's-complement cast are explicit.
  - Decoders are the inverses the round-trip lemmas use.
  - The identifiers, lengths, byte offsets, flag bit numbers and signature come from `can_ids.h`, which is not part of this model. They form a `Protocol` value: everything is proved for every protocol whose byte offsets are distinct and inside a frame of at most 8 bytes, and whose MOTOR_ON, DMS_ON and REVERSE bit numbers are distinct and below 8.
- `CommandTable` (`command_table.dfy`):
  - the routing chain as a function;
  - the table of (phrase, action) entries it is proved against;
  - the recognizer's grammar.
- `WakeWord` (`wake_word.dfy`): the scan for "Zenira" with a confidence strictly above the single-precision constant `0.8f`, which is exactly 13421773 / 2^24.
- `Dispatch` (`dispatch.dfy`): one pass of the outer loop as pure functions of its inputs.
  - `RunWindow` is the command-window loop and `StepOutcome` the whole pass.
  - The lemmas describe both without the loop: `RecognizedAt` and `ExpiredAt` say where a window ends, and the concrete scenarios follow.
- `MainLoop` (`main_loop.dfy`): the state that `main` changes, as class `Controller`.
  - The state is the `raw_samples` array, the global `audio_frame`, the recognizer handle with its creation and freeing counts, and the log of `send_can` calls.
  - `ReadFrame` and `ReadChunk` are proved against their inputs and `Dispatch.Refill`; `DetectWakeWord`, `CommandWindow`, `Iteration` and `Run` against the functions of `Dispatch`; `SendCommandMotor`, `SendCommandTail` and `Actuate` against `MainLoop.Actuated` and the decoders of `CanProtocol`.

The collaborators are inputs:

- **Audio reads**: `Option` values.
- **Classifier**: a function of the frame it classifies.
- **Recognizer**: a function of all the audio it has been fed since it was created. It answers `Pending`, `Unparsable` (non-zero accept result whose JSON did not parse) or `Transcript(text)`.
- **Clock**: the sequence of integer-second `time(nullptr)` readings.
- **Transport**: a boolean. A failed send is logged and never retried.

Behaviour the model keeps exactly as the code has it:

- A parsed transcript with empty text ends the command window; nothing is sent.
- The motor duty cycle is sent as given; only the tail position is clamped.
- Soft start is always the constant 100.
- The frame that is classified is a second, fresh capture; the frame that passed the constancy check is not the one classified.
- The window stays open while the elapsed whole seconds are below 5, so it closes at the first clock test that reads 5 seconds or more.
- A finalized result whose JSON does not parse does not end the window.
- The threshold is compared against `0.8f`, so neither 0.8 nor `0.8f` itself triggers.

## Model

| member | source | states |
|---|---|---|
| `FrameFilter.IsConstantSignal` | main_full.cpp:105-111 | returns true iff every one of the first `size` samples equals `buffer[0]`, and false iff some sample after the first differs; needs `size >= 1` because it reads `buffer[0]` |
| `CanProtocol.MotorFlags` | main_full.cpp:228-231 | the motor state byte has the MOTOR_ON and DMS_ON bits set, the REVERSE bit clear, and no other bit set |
| `CanProtocol.BitOfOr` | main_full.cpp:229-231 | a bit of `a \| b` is set exactly when it is set in `a` or in `b` |
| `CanProtocol.BitOfPow2` | main_full.cpp:230-231 | `1 << i` has bit `k` set exactly when `k == i` |
| `CanProtocol.ClampTail` | main_full.cpp:256-258 | the result lies in [-4500, 4500]; an in-range position is unchanged; a position below or above the range becomes the nearest bound |
| `CanProtocol.ToUint16` | main_full.cpp:264 | `static_cast<uint16_t>` of an `int16_t`: a non-negative value is kept, a negative one has 65536 added |
| `CanProtocol.FromLittleEndian` | main_full.cpp:264-266 | the `uint16_t` view of the value read back is `low + 256 * high` |
| `CanProtocol.PositionLow` | main_full.cpp:265 | `pos_unsigned & 0xFF`; no ensures of its own: `LittleEndianRoundTrip` and `TailEncodingExamples` carry its contract |
| `CanProtocol.PositionHigh` | main_full.cpp:266 | `(pos_unsigned >> 8) & 0xFF`; no ensures of its own: `LittleEndianRoundTrip` and `TailEncodingExamples` carry its contract |
| `CanProtocol.LittleEndianRoundTrip` | main_full.cpp:264-266 | reading the low and high position bytes back as a signed 16-bit little-endian value gives the value that was split |
| `CanProtocol.TailEncodingExamples` | main_full.cpp:264-266 | 3000 encodes as {0xB8, 0x0B}, -3000 as {0x48, 0xF4}, 0 as {0, 0}, -4500 as {0x6C, 0xEE} |
| `CanProtocol.EncodeMotor` | main_full.cpp:223-234 | the payload has the protocol length; the signature, the flags byte, the unclamped duty and soft start 100 sit at their offsets; decoding it gives motor on, DMS on, not reversed, that duty and soft start 100 |
| `CanProtocol.EncodeTail` | main_full.cpp:254-266 | the payload has the protocol length; it carries the signature and the little-endian bytes of the clamped position; decoding it gives the clamped position |
| `CanProtocol.TailFrameInRange` | main_full.cpp:256-266 | a tail frame only ever carries positions in [-4500, 4500], and carries an in-range position unchanged |
| `CommandTable.Route` | main_full.cpp:343-405 | the routing chain; no ensures of its own: `RouteMatchesTable`, `RouteOutsideTable` and `RouteActs` carry its contract |
| `CommandTable.RouteMatchesTable` | main_full.cpp:343-402 | every phrase of the table routes to its action, e.g. "ligar motor" to motor 5, "mudar velocidade para 70" and "... setenta" to motor 70, "virar a esquerda" to tail -3000 |
| `CommandTable.RouteOutsideTable` | main_full.cpp:343-405 | a transcript that is none of the table's phrases, empty text included, routes to no action |
| `CommandTable.TablePhrasesDistinct` | main_full.cpp:343-402 | no phrase occurs twice in the table, so exact-match routing is deterministic |
| `CommandTable.RouteActs` | main_full.cpp:343-405 | a transcript drives an actuator iff it is a phrase of the table; every routed duty is at most 100 and every routed tail position lies in [-4500, 4500] |
| `CommandTable.GrammarIsRouted` | main_full.cpp:195-210 | every phrase the recognizer's grammar allows is a phrase of the table with an actuator action |
| `CommandTable.SpeedWordsAndDigitsAgree` | main_full.cpp:351-390 | for each of the ten speeds (10, 20, …, 100) the spoken and the written form select the same duty |
| `CommandTable.ExactMatchExamples` | main_full.cpp:343-405 | examples of exact matching: "Ligar motor" (other case) and "ligar motor " (trailing space) select nothing |
| `CommandTable.EmptyTranscriptRoutesNowhere` | main_full.cpp:403-405 | the empty transcript selects nothing |
| `WakeWord.ScanForWake` | main_full.cpp:174-185 | true iff some entry has label "Zenira" and a value strictly above `0.8f` |
| `WakeWord.WakeWordDetected` | main_full.cpp:166-185 | true iff the classifier succeeded and some entry of its result is the wake word above the threshold; a classifier error gives false |
| `WakeWord.ThresholdExamples` | main_full.cpp:179 | confidence 0.8 does not trigger, 0.81 does, "zenira" in lower case does not, a classifier error does not |
| `Dispatch.Refill` | main_full.cpp:332 | the unchecked chunk read: a failed read leaves the buffer as it was; a chunk replaces the front of the buffer and keeps the rest and the length |
| `Dispatch.RunWindow` | main_full.cpp:329-411 | the command-window loop; no ensures of its own: `WindowFrom` and `WindowEnds` carry its contract, `WindowEndIsUnique` the uniqueness of its end |
| `Dispatch.WakeFromCapture` | main_full.cpp:160-172 | capture, then classify: a wake iff the second capture succeeded and its classification passes `WakeWordDetected`; no ensures of its own: `StepOutcomeCases` states it as the wake condition of a pass |
| `Dispatch.WindowEndIsUnique` | main_full.cpp:329-411 | a window cannot both expire and recognize, and cannot recognize at two different polls |
| `Dispatch.WindowFrom` | main_full.cpp:331-411 | from any poll on, the loop feeds the recognizer the front half of the buffer after each chunk read; it ends at the first poll yielding a parsed transcript (`RecognizedAt`) or at the first clock test at or past the deadline (`ExpiredAt`); the back half of the buffer is untouched |
| `Dispatch.WindowEnds` | main_full.cpp:329-411 | a whole window ends exactly as `RecognizedAt` or `ExpiredAt` describes |
| `Dispatch.StepOutcome` | main_full.cpp:308-417 | one pass of `while (true)`; no ensures of its own: `StepOutcomeCases` carries its contract |
| `Dispatch.StepOutcomeCases` | main_full.cpp:308-417 | a failed read and a constant frame are the two skips; a wake cycle opens iff the frame is valid and the fresh frame is classified as the wake word; a timed-out cycle meets `ExpiredAt` and acts on nothing; a dispatched cycle routes the first transcript finalized inside the window, empty text included |
| `Dispatch.TurnRightScenario` | main_full.cpp:325-393 | wake word at 0.95, then "virar a direita" finalized on the third chunk: the pass dispatches tail +3000 |
| `Dispatch.TimeoutScenario` | main_full.cpp:329-415 | wake word, then no final result before the clock reaches start + 5: the pass times out |
| `Dispatch.EmptyTranscriptScenario` | main_full.cpp:403-408 | wake word, then an empty parsed transcript: the window ends at once with no action |
| `MainLoop.Controller.constructor` | main_full.cpp:292-306 | the controller starts listening, with a fresh sample buffer of the frame length, no recognizer and no frames sent |
| `MainLoop.Controller.ReadFrame` | main_full.cpp:309-313 | succeeds iff the read returned a frame, which then fills `raw_samples`; a failed read leaves it unchanged |
| `MainLoop.Controller.DetectWakeWord` | main_full.cpp:134-186 | captures a fresh frame into `audio_frame` and reports the wake word iff that capture succeeded and its classification passes the scan |
| `MainLoop.Controller.SendCommandMotor` | main_full.cpp:221-244 | exactly one frame more goes to the transport, with the motor id and length and a payload decoding to the motor command; the transport's answer is recorded, not acted on |
| `MainLoop.Controller.SendCommandTail` | main_full.cpp:252-276 | exactly one frame more goes to the transport, with the tail id and length and a payload decoding to the clamped position |
| `MainLoop.Controller.Actuate` | main_full.cpp:343-405 | one actuator call for a motor or tail action, none for no action |
| `MainLoop.Controller.ReadChunk` | main_full.cpp:332 | a half-frame chunk overwrites the front of `raw_samples`; a failed chunk read leaves it unchanged |
| `MainLoop.Controller.CommandWindow` | main_full.cpp:327-413 | creates exactly one recognizer and frees it before returning; its end and the buffer it leaves are those of `RunWindow`; it makes one actuator call for a routed transcript, none on timeout |
| `MainLoop.Controller.Iteration` | main_full.cpp:308-420 | the outcome is `StepOutcome`; a wake cycle creates and frees one recognizer, any other pass none; the log grows by exactly the ghost `sent`, which is the one frame carrying the outcome's action, or nothing; the new `raw_samples` and `audio_frame` after every outcome: unchanged on a failed read, the frame on a constant frame or no wake (with `audio_frame` the second capture if that read succeeded), the buffer `RunWindow` leaves after a wake cycle (with `audio_frame` the second capture) |
| `MainLoop.Controller.Run` | main_full.cpp:308-420 | every pass's outcome is its `StepOutcome`; recognizers created equal wake cycles and all are freed; frames sent equal actuating passes; the log is the earlier log followed by the ghost `perPass` slices in pass order, and pass `i`'s slice is exactly the frame carrying its action, or empty |

## Left out

- Audio device setup is not modelled (`init_audio`, main_full.cpp:42-95): device open with 10 attempts 5 s apart, hardware parameters, prepare. This is device I/O and sleeps.
- Float normalisation by 32768 (main_full.cpp:143-145, 320-322) is not modelled. `audio_frame` holds the integer samples it was computed from, and `float_samples` is unused by the classifier.
- Internals of `run_classifier`, Vosk and jsoncpp are not modelled; they are oracles.
  - `get_signal_audio_data` (main_full.cpp:121-125) is the classifier's read callback: part of the classifier.
  - An accept result of -1 (an error) is non-zero, so the source reads a result after it. The recognizer oracle's `Unparsable`/`Transcript` answers cover that case.
- The CAN socket layer is not modelled: `setup_can`, `close_can`, `receive_can` and the `write` inside `send_can` (can.cpp). The transport is a boolean answer per call.
- The standalone demo `main_wakeword.cpp` is not modelled.
- The build with `ENABLE_CAN` 0, which only logs, is not modelled. Nor are the numeric values of `can_ids.h`: they are the abstract `Protocol`.
- Logging, `usleep(10000)` and the unreachable shutdown (main_full.cpp:419-429) are not modelled.
- Setup failures that exit with 1 (model load, audio device, CAN bind) are not modelled.
- The endless `while (true)` is modelled by `MainLoop.Controller.Run` over any finite number of passes.
- A failed or short `snd_pcm_readi` is modelled as leaving the buffer unchanged. The real call may have written part of it.
- `CanProtocol.EncodeMotor` and `CanProtocol.EncodeTail`: payload bytes at offsets other than the named fields are left unspecified. The source leaves them uninitialised.
- `MainLoop.Controller.CommandWindow`, `MainLoop.Controller.Iteration` and `MainLoop.Controller.Run` require the clock readings to reach start + 5. A clock that never advances keeps the source inside the window forever, which the model does not represent.
