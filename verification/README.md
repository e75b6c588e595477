# Realtime voice relay: a Dafny model

This project models the event handling of a Discord bot that relays voice
between a voice channel and a hosted streaming speech-to-speech API, in
`src/realtime/Websocket.ts`, and the slash-command dispatch in
`src/listeners/interactionCreate.ts`.

- `playback.dfy` (module `Playback`): the inbound `handleMessage` switch.
  The module-level slot `currentPassThrough` / `currentResource` is a `State`
  value. A parsed server event is a closed `ServerEvent` variant with an
  `Unknown` arm for every type the switch has no case for. `Step` is one call
  of the handler and returns the new slot plus the ordered effects: log,
  create the stream, start the resampler, create the resource, `play`, register
  the two player listeners, `write`, `end`, close the socket. `Run` folds a
  sequence of inputs from module load. The stream's `destroyed` flag is set
  by the stream machinery, outside the handler, so it enters as a separate
  `StreamDestroyed` input.
- `playback_trace.dfy` (module `PlaybackTrace`): what the effect trace of any
  run says about each output buffer. Buffer lifetimes never interleave, so at
  most one buffer is active at a time. Every buffer acted on is created, and
  its creation comes before anything else acts on it. Its resource is played
  at most once. Nothing acts on it after its `end`, so it is ended at most
  once. The payloads of the `write` calls on the active buffer, in trace
  order, are exactly what it holds.
- `send_gate.dfy` (module `SendGate`): the per-chunk `data` handler on each
  speaker's stream. It is a fold over `(chunk, readyState)` arrivals. Each
  arrival produces one `input_audio_buffer.append` message when the socket is
  `OPEN`, and otherwise only the "not open" log line.
- `capture.dfy` (module `Capture`): the speaking `start` listener. It
  subscribes again on every signal and attaches a new `data` and `end`
  listener to the stream each subscription returns.
- `dispatch.dfy` (module `Dispatch`): the `interactionCreate` listener's type
  filter, the first-match lookup by name, and the defer-then-run ordering.
  Whether the awaited `deferReply` is acknowledged or rejected is an input.
- `base.dfy` (module `Base`): bytes and `Option`.

Opus decoding, base64 encoding and base64 decoding are foreign library calls.
They enter the model as function-valued parameters, so nothing is assumed
about them. The socket's ready state is an input to the send gate. The command
registry is a parameter of the lookup.

Notes on the code as written:
- The playback slot is one global pair of variables shared by every session
  (`src/realtime/Websocket.ts:136-137`), not per-session state.
- An `error` event closes the socket but leaves the playback slot as it is
  (`src/realtime/Websocket.ts:212-215`). Nothing is ended or reset.
- `response.audio.done` ends the input side and forgets the stream at once.
  There is no separate draining state.
- Text events (`response.text.delta`, `response.text.done`) and `response.done`
  have no case in the switch, so they fall into `Unknown`.
- A speaking `start` for a speaker who is already subscribed subscribes again
  (`src/realtime/Websocket.ts:60-68`).
- The capture path has no resampling stage. The Opus decoder is built at
  24 kHz mono (`src/realtime/Websocket.ts:45`) and its output is sent as is.
- The doc comment of `handleSlashCommand` says errors are captured and logged
  (`src/listeners/interactionCreate.ts:13-15`), but the code has no `try`/`catch`.
  A rejected `deferReply` (:30) escapes the listener (:39), and `run` (:32) is
  not awaited. The model follows the code: `DeferResult.Rejected` yields the
  deferral and no command run, and no error is logged.

## Model

| member | source | states |
|---|---|---|
| Playback.Classify | src/realtime/Websocket.ts:146-216 | The switch arm chosen for a frame gives back the frame's `type`. The event is `Unknown` exactly when the switch has no case for that type. Delta and error payloads are carried over. |
| Playback.ClassifyTag | src/realtime/Websocket.ts:146-216 | Every event a frame can parse to is what its own type and payload classify to. |
| Playback.FirstDelta | src/realtime/Websocket.ts:166-194 | A delta with no active stream creates exactly one stream and its resource, with a fresh identity. It calls `play` exactly once, on that resource. It writes the decoded payload last, and the stream then holds exactly that payload. |
| Playback.LaterDelta | src/realtime/Websocket.ts:191-196 | A delta with an active stream only appends the decoded payload to it. It creates no stream and does not call `play` again. |
| Playback.DoneResets | src/realtime/Websocket.ts:200-209 | `done` clears both variables whatever their state. It emits an `end` exactly when a stream exists and is not destroyed, and only on that stream. |
| Playback.FreshAfterDone | src/realtime/Websocket.ts:166-209 | After `done`, the next delta creates a new stream, distinct from the previous one, holding only its own payload. |
| Playback.ErrorKeepsSlot | src/realtime/Websocket.ts:212-215 | `error` closes the socket. It leaves the slot unchanged and acts on no buffer. |
| Playback.QuietEvents | src/realtime/Websocket.ts:146-164 | `session.created`, `speech_started`, `speech_stopped`, `committed` and unhandled types leave the slot unchanged and at most log. Unhandled types emit nothing at all. |
| Playback.RunMatchesDeltas | src/realtime/Websocket.ts:135-217 | From module load, a stream is active exactly when a delta has arrived since the last `done`. Its bytes are the concatenation, in arrival order, of the decoded payloads of those deltas. Stream and resource are always set and cleared together. |
| Playback.TwoFragmentScenario | src/realtime/Websocket.ts:166-209 | Fragments `AA==` and `AQ==` followed by `done` write `0x00` then `0x01` to one stream, then end it once and leave the slot empty. |
| PlaybackTrace.RunLifecycle | src/realtime/Websocket.ts:135-217 | In every run's trace, buffer lifetimes never interleave. Every effect on a buffer is at or after that buffer's `NewStream`, and nothing acts on it before. Each resource is played at most once. Nothing acts on a buffer after its `end`. |
| PlaybackTrace.RunWrites | src/realtime/Websocket.ts:166-209 | The payloads of the trace's `write` calls on the active stream, joined in trace order, equal what the stream holds. That is the decoded deltas since the last `done`, in arrival order. |
| SendGate.SentMatchesOpenChunks | src/realtime/Websocket.ts:69-86 | One message is sent per chunk that arrived while the socket was open. The k-th message carries the base64 of the decoded k-th such chunk. |
| SendGate.SentConcat | src/realtime/Websocket.ts:69-86 | The messages for two runs of chunks are the first run's messages followed by the second's, so arrival order is kept. |
| SendGate.NothingSentUnlessOpen | src/realtime/Websocket.ts:76-85 | Chunks arriving while the socket is not open send nothing, whatever was sent before. |
| SendGate.Relay | src/realtime/Websocket.ts:69-86 | Driving the handler over the chunks sends exactly what the fold `Sent` sends: one append message per open-socket chunk, in order, with the encoded decoded payload. |
| SendGate.ThreeChunkScenario | src/realtime/Websocket.ts:69-86 | Three chunks on an open socket yield exactly three messages, in order, one per chunk. |
| Capture.RepeatedStartSubscribesAgain | src/realtime/Websocket.ts:60-90 | A speaking `start` adds one subscription and one `data` listener for the speaker, even one already subscribed, who then has at least two subscriptions. |
| Capture.OneSubscriptionPerStart | src/realtime/Websocket.ts:60-90 | Each `start` signal issues, in signal order, a subscription followed by a `data` and an `end` listener on it, with no deduplication. Each speaker has one subscription and one `data` listener per signal of theirs. |
| Dispatch.FindFrom | src/listeners/interactionCreate.ts:24 | The search from a position returns the first matching index at or after it, or reports that none of the rest matches. |
| Dispatch.Find | src/listeners/interactionCreate.ts:24 | The lookup succeeds exactly when some entry has the command's name, and then returns the first such entry. |
| Dispatch.HandleSlashCommand | src/listeners/interactionCreate.ts:20-33 | With no matching entry, only the error follow-up is sent. With a match, the reply is deferred. If the deferral is acknowledged, the first matching command then runs, once. If it rejects, no command runs. |
| Dispatch.OnInteraction | src/listeners/interactionCreate.ts:35-42 | Interactions that are not application commands cause no action. |
| Dispatch.DispatchOrder | src/listeners/interactionCreate.ts:20-42 | A command runs exactly when the interaction is an application command with a registered name and the deferral is acknowledged. It is the first entry of that name and runs once, after the deferral. A reply is deferred exactly for an application command with a registered name, and never together with the error follow-up. |

## Left out

- ffmpeg resampling (`resampleAudio`): an external process. It appears only as the `Resample` effect, and its output is not modelled.
- Opus decoding and base64 encoding and decoding: foreign library calls, passed in as uninterpreted functions.
- The WebSocket connection itself (URL, headers, `open` and `close` handlers): network I/O. The ready state is an input to the send gate.
- `JSON.parse`, malformed frames and missing `delta` or `error` fields: the event enters already parsed.
- `JSON.stringify` of the outbound message: it is the `InputAudioBufferAppend` value.
- Stream write semantics after `destroy`: the model records the bytes handed to `write`, not what the destroyed stream accepts.
- Audio player and voice receiver wiring (`createAudioPlayer`, `subscribe` of the connection, the speaking `end` handler, the body of the stream `end` log handler): library calls and logging. Only the effects the handlers emit are recorded.
- The exception an Opus decode failure would raise in the `data` handler: the decoder is a total parameter.
- The command's `run` body, its promise and errors, and the follow-up's behaviour on an undeferred interaction: library and command code not part of this model.
- Process bootstrap (`src/Bot.ts`), the join and leave commands, constants and the command list: glue and data with no logic beyond null checks.
- Concurrency: the callbacks are modelled as one sequential stream of inputs, which is how the single global slot sees them.
- Session identity in playback: `Step` drops the `ws` and `audioPlayer` arguments of `handleMessage`, so `Play`, `AddListener` and `CloseSocket` name no player or socket. The model therefore cannot state the cross-session effect of the global slot. A second session's deltas are written into the stream opened for the first session and play on the first session's player, and `play` is never called on the second player. The model records only that the slot is shared.
- What a repeated subscription returns: whether `receiver.subscribe` hands back the live stream for a speaker or a new one is library behaviour. The model records only the calls and listeners the source issues.
- The text of log lines: logging is recorded as an event (`Logged` in playback, `LoggedNotOpen` in the send gate), not as the printed words. The log lines of the capture listeners (the speaking `start` log at `src/realtime/Websocket.ts:61` and the stream `end` log) are not recorded at all: `Capture.Call` lists only the subscription and the listeners attached.
