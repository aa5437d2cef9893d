# Audio delivery core of the GPT-4V compliments demo, in Dafny

`gpt4v-compliments.py` joins a video call and describes each participant's
first video frame with a vision model. It turns the text into speech and plays
that speech into the call through a virtual microphone. The part with real
logic is the audio path:

- **`AudioBuffer`** is a FIFO byte buffer. `add_data` appends the bytes of a
  speech fetch at the tail. `get_data` returns `None` while less than one
  100 ms frame (4800 bytes of 24 kHz mono 16-bit PCM) is buffered and the
  stream is not finished. Otherwise it removes and returns up to one frame
  from the head.
- **The startup gate** is made of `app_error`, `app_inputs_updated`,
  `app_joined` and a start event. Two setup callbacks record either success or
  an error. `maybe_start` sets the event once an error is recorded or both
  callbacks have succeeded.
- **The sender thread** (`send_raw_audio`) waits for the event. It returns at
  once if an error is recorded. Otherwise it loops until quit, writing every
  chunk `get_data` hands out to the microphone.
- **The per-participant guard** in `on_video_frame` strips leading and
  trailing `"` characters from the participant id. A frame goes on to be
  described only the first time its uuid is seen.

Every call is one atomic step, taken after `AudioApp.__init__` and `run` have
set up the gate and the buffer. Two stretches of code that take no lock are
also treated as one atomic step each: a pass of the sender loop (quit check,
`get_data`, `write_frames`) and the seen-set check and add in
`on_video_frame`; "## Left out" says what that leaves unmodelled. The state is immutable datatypes, and every
operation is a pure function.

- `AudioBuffers` (`audio_buffer.dfy`) covers the buffer. It also has traces of
  `add_data`/`get_data` calls, with the FIFO theorem over any interleaving.
- `StartupGate` (`startup_gate.dfy`) covers the gate. A callback's `error`
  follows Python truthiness: `None` and `""` count as success.
- `ParticipantDedup` (`participant_dedup.dfy`) covers `str.strip('"')` and the
  seen-set check.
- `Sender` (`sender.dfy`) covers one loop pass, the loop itself as a method
  over an arrival schedule, and the whole application as a trace of events:
  setup callbacks, fetches, sender steps and `leave`.
- `Wrappers` (`wrappers.dfy`) holds `Option`, which stands for Python's
  `None`-or-value.

Facts about the code that shape the model:

- Nothing in gpt4v-compliments.py sets `finished` to true. It stays a field so
  that `get_data`'s branch on it is specified.
- With `finished` set and an empty buffer, `get_data` returns an empty chunk,
  not `None`, and the sender would write that empty chunk.
- `leave` sets the quit flag; the loop stops at its next check and whatever is
  still buffered is dropped.
- The gate has two flags and one error slot; the last truthy error wins.

## Model

| member | source | states |
|---|---|---|
| AudioBuffers.BytesPer100ms | gpt4v-compliments.py:32 | one frame is 4800 bytes: a tenth of 24000 samples/s × 2 bytes × 1 channel |
| AudioBuffers.NewAudioBuffer | gpt4v-compliments.py:25-32 | a new buffer is empty, not finished, and uses 4800-byte frames |
| AudioBuffers.AddData | gpt4v-compliments.py:34-36 | the old contents stay as the prefix and the chunk becomes the suffix; `finished` and the frame size do not change |
| AudioBuffers.GetData | gpt4v-compliments.py:38-51 | `None` exactly when fewer than a frame of bytes are buffered and not finished, and then the buffer is unchanged; otherwise the chunk has length min(available, frame), and chunk followed by the new contents is the old contents; a short chunk happens only when finished, and it empties the buffer |
| AudioBuffers.FinishedAndEmptyYieldsEmptyChunk | gpt4v-compliments.py:42-51 | a finished, empty buffer hands out an empty chunk (not `None`) and stays empty |
| AudioBuffers.PartialFrameWaits | gpt4v-compliments.py:41-47 | after 6000 bytes arrive, the first call returns the first 4800 bytes; the next refuses and keeps the last 1200 |
| AudioBuffers.AddDataCommutesWithReadyGet | gpt4v-compliments.py:34-51 | when at least a full frame is buffered, finished or not, appending before or after taking it gives the same chunk and the same buffer |
| AudioBuffers.ApplyOp | gpt4v-compliments.py:34-51 | one call conserves bytes: the chunks handed out, then the new contents, equal the old contents plus the bytes added; no chunk is longer than a frame |
| AudioBuffers.ApplyIsFifo | gpt4v-compliments.py:34-51 | over any interleaving of calls, the chunks handed out, then what is still buffered, equal the initial contents followed by every added chunk in order |
| AudioBuffers.ApplyKeepsFrames | gpt4v-compliments.py:45-47 | over any interleaving, no chunk handed out is longer than one frame, and `finished` and the frame size never change |
| AudioBuffers.HandedOutIsPrefixOfAdded | gpt4v-compliments.py:34-51 | starting from a new buffer, the chunks handed out, concatenated, are a prefix of all bytes added |
| StartupGate.TruthyIsPythonTruthiness | gpt4v-compliments.py:95 | the `if error:` test (also at :103, :222 and :245): `None` and `""` are falsy; any other error string is truthy |
| StartupGate.InitialGate | gpt4v-compliments.py:81-86 | the gate starts with no error, neither setup step done, and the event clear |
| StartupGate.MaybeStart | gpt4v-compliments.py:221-226 | afterwards the event is set iff it was already set, or an error is recorded, or both steps succeeded; nothing else changes |
| StartupGate.OnInputsUpdated | gpt4v-compliments.py:94-100 | a truthy error overwrites the recorded one and leaves the flag alone; a falsy one sets the flag and keeps the error; the event never clears |
| StartupGate.OnJoined | gpt4v-compliments.py:102-108 | the same for the join flag |
| StartupGate.DeliverPreserves | gpt4v-compliments.py:94-108 | each callback keeps the gate invariant (released iff error or both flags; the error is absent or truthy) and never clears the event |
| StartupGate.ReplayIsConsistent | gpt4v-compliments.py:221-226 | after any sequence of callbacks, the event is set iff an error is recorded or both setup steps succeeded |
| StartupGate.ReleasedStaysReleased | gpt4v-compliments.py:221-226 | once set, the event stays set whatever callbacks follow |
| StartupGate.ReplayRecords | gpt4v-compliments.py:94-108 | the recorded error is the last truthy error delivered; each flag is set iff a successful callback of its kind was delivered |
| StartupGate.ReleaseIsOrderIndependent | gpt4v-compliments.py:94-108 | two orders of the same callbacks agree on whether the event is set |
| StartupGate.SuccessNeverClearsError | gpt4v-compliments.py:94-108 | callbacks that all succeed leave the recorded error as it was |
| StartupGate.BothSucceedReleases | gpt4v-compliments.py:221-226 | both steps succeeding, in either order, sets the event with no error |
| StartupGate.ErrorReleasesAtOnce | gpt4v-compliments.py:221-223 | one error sets the event at once, and a later success keeps that error |
| ParticipantDedup.StripQuotes | gpt4v-compliments.py:119 | the uuid is a contiguous slice of the id, every character cut off is a quote, and the uuid neither starts nor ends with one |
| ParticipantDedup.StripQuotesIdempotent | gpt4v-compliments.py:119 | stripping twice is stripping once |
| ParticipantDedup.StripUnquotedIsIdentity | gpt4v-compliments.py:119 | an id with no quote at either end is unchanged |
| ParticipantDedup.QuotedIdStripsToSame | gpt4v-compliments.py:119 | an id and the same id in quotes give the same uuid |
| ParticipantDedup.OnVideoFrame | gpt4v-compliments.py:126-128 | a frame passes iff its uuid was not seen; the uuid is seen afterwards; a dropped frame leaves the set unchanged |
| ParticipantDedup.SeenGrowsByArrivals | gpt4v-compliments.py:126-128 | after any frames, the seen set is the initial set plus every stripped id that arrived |
| ParticipantDedup.ProcessedAreTheNewlySeen | gpt4v-compliments.py:126-128 | a uuid passed the check iff it ends up seen and was not seen at the start |
| ParticipantDedup.ProcessedHasNoDuplicates | gpt4v-compliments.py:126-128 | no uuid passes the check twice |
| ParticipantDedup.ProcessedAtMostOnce | gpt4v-compliments.py:117-128 | each participant is processed at most once; exactly the distinct stripped ids not already seen are processed |
| Sender.SendStep | gpt4v-compliments.py:250-255 | one pass writes exactly the chunk `get_data` returned, or nothing on `None`; earlier frames are kept; bytes move from buffer to sink without loss or reordering |
| Sender.SendPassesConserves | gpt4v-compliments.py:249-255 | over any number of passes without an error, the frames written followed by what is left equal the old contents followed by every arrival |
| Sender.SendPassesFrames | gpt4v-compliments.py:249-255 | over any number of passes, no frame exceeds 100 ms of audio and all are full while not finished; when finished, or when every arrival fills a frame, every pass writes exactly one frame |
| Sender.SendRawAudio | gpt4v-compliments.py:242-255 | after release, for any arrival schedule: frames written plus what is left equal the old contents plus all arrivals; with an error nothing is written; without one the loop equals the pass-by-pass fold (append the arrival, then write what `get_data` returns), so a pass whose arrival fills a frame always writes one; while not finished every frame is a full frame |
| Sender.InitialApp | gpt4v-compliments.py:81-88 | the app starts with the sender waiting, no quit, nothing written, a new buffer and a new gate |
| Sender.SenderTick | gpt4v-compliments.py:243-255 | the sender leaves `wait` only when the event is set; with an error it stops, else it starts sending; on quit it stops without writing or touching the buffer; otherwise it runs exactly one pass of the loop body and keeps sending; stopped states are final |
| Sender.Step | gpt4v-compliments.py:217-240 | a setup callback changes only the gate; a fetch only appends its bytes at the tail of the buffer (:240); `leave` only sets the quit flag (:218); a sender step leaves gate and quit alone |
| Sender.RunInvariant | gpt4v-compliments.py:242-255 | over any interleaving of events, frames written plus what is buffered equal the fetched bytes in order; every frame is 4800 bytes; the sender never runs before release; a sender stopped by an error has written nothing |
| Sender.AbortedStaysSilent | gpt4v-compliments.py:245-247 | a sender that returned on an error stays stopped and writes nothing more |
| Sender.NoFramesAfterQuit | gpt4v-compliments.py:249 | no loop pass that starts after quit is set writes a frame (a pass already under way may still write one, see "## Left out"); quit stays set |
| Sender.SilentAfterAbort | gpt4v-compliments.py:243-247 | if the sender saw an error on release, the sink stays empty for the rest of any run |

## Left out

- Vision request: the OpenAI call, the prompt text, JPEG encoding and base64 (gpt4v-compliments.py:110-115, 130-178) are calls into external libraries and string assembly.
- Speech fetch: the Deepgram HTTP request in `fetch_audio` (gpt4v-compliments.py:228-240) is network I/O. Only its effect is modelled, as a `Fetched` event that appends arbitrary bytes, possibly none.
- Call SDK: device creation, `update_inputs`, subscription updates (including the unsubscribe at gpt4v-compliments.py:120-123), `join`, `set_video_renderer` and `leave` are thin vendor calls. `write_frames` is modelled as appending the frame to the sink.
- Concurrency and timing: threads, the buffer lock, `threading.Event`, the 10 ms retry sleep and the 2 s startup sleep are not modelled. Each call is one atomic step, and a run is any sequence of such steps taken once the gate fields and the buffer exist.
- Sender.SenderTick: one pass of the loop (the quit check at gpt4v-compliments.py:249, `get_data` at :251 and `write_frames` at :255) is one atomic step, but the code holds no lock across it. A pass already past the :249 check when `leave` sets quit (:218) still writes its frame; the model orders that pass before the `leave`. `leave` touches only the quit flag, so the frames written and the buffer are the same in both orders; only the claim "nothing is written after quit is set" is weaker in real time.
- ParticipantDedup.OnVideoFrame: the membership test at gpt4v-compliments.py:126 and the add at :128 take no lock and are one atomic step here. `ProcessedAtMostOnce` holds only if the call SDK delivers video frames one at a time; two concurrent frames of one participant could both pass the test.
- Early input callback: `update_inputs` registers `on_inputs_updated` (gpt4v-compliments.py:64-72) before the gate fields are set (:81-86). If it fires first, `maybe_start` reads a missing `__app_error` (:222), or a recorded success is reset by :84 and the gate never releases. If it fires first with an error, :97 records the error, `maybe_start` fails on the missing `__start_event` (:223), and :82 later resets the error to `None`, so the error is lost. Runs in which a callback precedes those assignments are not modelled; every run starts from the initialised gate.
- Startup race: the gate can release before `run` creates the buffer (gpt4v-compliments.py:186-188). The model starts with the buffer already created.
- Sink errors: a failing `write_frames` is not handled by the code and is not modelled.
- AudioBuffers.BytesPer100ms: the source computes the frame size with a float multiply by 0.1 and truncation. The model states only the integer value for the configured constants.
- Other scripts: print-transcript.py, print-transcript-async.py and minimal-cmd-line-asyncio.py are SDK glue, signal handling and printing.
- Entry point: `main` and argument parsing.
