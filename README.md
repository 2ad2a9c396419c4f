# ForeVoice audio core in Dafny

ForeVoice is a voice-channel bot. It links the people speaking in a voice
channel to a streaming AI voice service. This project models the audio core of
`src/index.ts` and proves properties of it:

- **Resampler** (`pcm.dfy`, module `Pcm`). `resampleAudio` converts mono
  signed 16-bit PCM between sample rates by linear interpolation. It is
  modelled as the method `ResampleAudio`, whose loop fills a new array. The
  method is proved against the function `Resample`. The lemmas about
  `Resample` cover the output length, in-bounds reads, identity at equal
  rates, and interpolation between the two neighbours (so the clamp never
  fires). For a whole-number ratio `m`, decimation keeps exactly every `m`-th
  input sample. Upsampling by `m` puts input sample `k` at output position
  `m * k`, and each sample between lies between its two input neighbours.
- **Playback scheduler** (`playback.dfy`, module `Playback`). This is the
  `audioQueue` / `isPlaying` / `playNextInQueue` state of a chat session,
  modelled as the class `Scheduler`. The audio player is a sink: each
  `player.play` call appends to the ghost log `played`. A ghost log
  `received` records every buffer ever enqueued. The invariant `Fifo` says
  that `played` is the resampled prefix of `received` and the queue is the rest.
  `Valid` adds that no buffer waits while the player is idle.
- **Capture** (`capture.dfy`, module `Capture`). The per-speaker `chunks`
  collector and its `end` handler are the class `SpeakerCapture`. The AI
  socket is the class `AiSocket`: an open flag plus the log of frames sent on
  it.
- **Inbound dispatch** (`session.dfy`, module `Session`). The socket's
  `message` handler runs over an already parsed message (the datatype
  `Response`) and feeds the scheduler. It is `ChatSession.OnMessage`.

Arithmetic is exact. The source computes `ratio = fromRate / toRate` and
`i * ratio` as doubles. Here the source position of output sample `i` is the
quotient `i * fromRate / toRate` plus the fraction
`(i * fromRate % toRate) / toRate`. `Math.round(x)` is `floor(x + 1/2)`, so a
half rounds towards +infinity. A buffer of `b` bytes is modelled as its
`b / 2` samples, and each sample has the subset type `Sample`,
[-32768, 32767].

The model follows the code on these points:

- Suppose a part has an `audio/` mime type but no payload. `Buffer.from`
  then throws. The `catch` logs the error, and the parts after it are never
  looked at. The parts before it have already been enqueued.
  `DecodablePrefix` and `Enqueued` model this.
- On an open socket, end of stream sends nothing only when no chunk arrived
  at all; on a closed socket it never sends. Chunks that
  hold fewer than three samples in all still send a frame, and its payload is
  empty (`ShortUtteranceSendsEmptyPayload`).
- An empty input needs no special case. The count formula gives zero output
  samples, so no sample is read.

## Model

| member | source | states |
|---|---|---|
| `Pcm.Clamp` | src/index.ts:60 | the result is the 16-bit sample nearest to its argument, and it equals the argument whenever the argument is already in range |
| `Pcm.RoundHalfUp` | src/index.ts:59 | `Math.round` of a rational: the result lies within one half of `num / den`, and a tie goes up |
| `Pcm.ResampleAudio` | src/index.ts:43-64 | the loop fills a new array with exactly `Resample(input, fromRate, toRate)`: output sample `i` is the clamped, rounded linear interpolation between input samples `floor(i * ratio)` and `min(floor + 1, n - 1)`, and every read of the input is in bounds |
| `Pcm.SourceInBounds` | src/index.ts:49-56 | for every output index, `srcIndexFloor` and `srcIndexCeil` satisfy `0 <= floor <= ceil <= n - 1` |
| `Pcm.OutputLength` | src/index.ts:44-49 | the output has `m = floor(n * toRate / fromRate)` samples, i.e. `m * fromRate <= n * toRate < (m + 1) * fromRate`; empty input gives empty output |
| `Pcm.InterpolationWithinNeighbours` | src/index.ts:53-60 | each interpolated value lies between `min(sample1, sample2)` and `max(sample1, sample2)`, so the output sample is the unclamped interpolation |
| `Pcm.ExactPosition` | src/index.ts:50-60 | when `i * ratio` is a whole index (fraction 0), the output sample is the input sample at that index |
| `Pcm.Identity` | src/index.ts:43-61 | with `fromRate == toRate` the output equals the input, sample for sample |
| `Pcm.Decimation` | src/index.ts:43-61 | with `fromRate == m * toRate` the output has `floor(n / m)` samples, and sample `i` is input sample `m * i` |
| `Pcm.UpsampleKeepsInput` | src/index.ts:43-61 | with `toRate == m * fromRate` the output has `m * n` samples, and sample `m * k` is input sample `k` |
| `Playback.PlaybackSamples` | src/index.ts:120-121 | 16 kHz to 48 kHz gives three times as many samples; sample `3k` is input sample `k`, and samples `3k+1` and `3k+2` lie between input `k` and its successor |
| `Playback.Scheduler.constructor` | src/index.ts:108-109 | a session starts with an empty queue, not playing, with nothing played or received |
| `Playback.Scheduler.PlayNext` | src/index.ts:111-129 | on an empty queue: not playing, nothing played. Otherwise: exactly the head is removed, `isPlaying` is set, the resampled head is played, and the rest of the queue is unchanged. The FIFO invariant holds afterwards |
| `Playback.Scheduler.OnIdle` | src/index.ts:131-133 | the Idle event advances the queue by exactly one buffer, or goes idle on an empty queue, and keeps `Valid` |
| `Playback.Scheduler.Enqueue` | src/index.ts:186-190 | the buffer is appended to what was received. While idle it is played at once; while playing it is only queued, and nothing is played. Afterwards the scheduler is playing |
| `Playback.Scheduler.Drained` | src/index.ts:108-133 | once the queue is empty, `played` is the resampled `received` sequence, in FIFO order with nothing dropped |
| `Capture.AiSocket.constructor` | src/index.ts:136 | a socket starts with the given open state and nothing sent |
| `Capture.AiSocket.Send` | src/index.ts:246-257 | sending appends exactly one frame to the socket's log and leaves its open state alone |
| `Capture.ConcatAppend` | src/index.ts:239 | `Concat`, the model of `Buffer.concat`, keeps arrival order across any split of the chunk list |
| `Capture.EndFrameCarriesUtterance` | src/index.ts:235-257 | `EndFrame` is the frame the `end` handler sends: a frame is sent if and only if at least one chunk arrived and the socket is open. The frame holds one media chunk tagged `audio/pcm;rate=16000`, with `floor(n / 3)` samples, and sample `i` of it is sample `3i` of the concatenated utterance |
| `Capture.ShortUtteranceSendsEmptyPayload` | src/index.ts:236-242 | on an open socket, one or more chunks with fewer than three samples in all still send a frame, and its payload is empty |
| `Capture.SpeakerCapture.constructor` | src/index.ts:229 | a new capture has no chunks and is bound to the session's socket |
| `Capture.SpeakerCapture.OnData` | src/index.ts:231-233 | each chunk is appended in arrival order |
| `Capture.SpeakerCapture.OnEnd` | src/index.ts:235-260 | returns and sends `EndFrame(chunks, isOpen)`. With no chunks, or a closed socket, nothing is sent; otherwise exactly one frame is appended to the socket's log |
| `Session.DecodablePrefix` | src/index.ts:180-183 | the loop handles exactly the parts before the first audio part without a payload; every part before that index is decodable, and the part at it is not |
| `Session.Enqueued` | src/index.ts:168-202 | a parse failure or a `setupComplete` message enqueues nothing. Otherwise, when every part of `Parts` (the `serverContent.modelTurn.parts` list, empty when any link is missing) is decodable, `AudioData` of those parts is enqueued |
| `Session.AudioDataAppend` | src/index.ts:180-192 | `AudioData`, the buffers enqueued for a list of parts, is that of any split of the list, joined in order |
| `Session.AudioDataExactly` | src/index.ts:179-192 | a buffer is in `AudioData` if and only if some audio part carries it (`IsAudio`: the mime type starts with `audio/`), and there is one buffer per audio part |
| `Session.AudioIndices` | src/index.ts:179-181 | the positions of exactly the parts whose mime type starts with `audio/`, every one of them, in strictly ascending order; `AudioDataExactly` counts one buffer per such position |
| `Session.TurnCompleteChangesNothing` | src/index.ts:196-198 | the `turnComplete` flag does not change what a message enqueues |
| `Session.ChatSession.constructor` | src/index.ts:104-109 | a session owns a fresh, idle scheduler with an empty queue |
| `Session.ChatSession.OnMessage` | src/index.ts:168-202 | the scheduler receives exactly `Enqueued(msg)`, in order. A message that enqueues nothing changes no state; otherwise the scheduler ends up playing. While already playing, the buffers are appended to the queue and nothing is played; while idle, the first buffer is played at once and the rest are queued. The scheduler stays `Valid` |
| `Session.ChatSession.EnqueueAudioParts` | src/index.ts:179-192 | the loop over the parts enqueues `AudioData` of the parts before the first undecodable one, one `Enqueue` per payload, with the same effect on queue and `played` as `OnMessage` states |
| `Session.ChatSession.OnSpeakingStart` | src/index.ts:208-229 | each speaking start makes a fresh capture with no chunks, bound to this session's socket |

## Left out

- Discord client setup, login, and the `!chat` channel lookup, `!leave` and `!close` commands with `process.exit`. These are I/O and process control.
- The WebSocket lifecycle: opening, the setup frame, the error and close handlers, and closing the socket when the voice connection drops. The socket's open state is a constructor argument.
- `JSON.parse`, `JSON.stringify` and base64. A message arrives already parsed, or as `None` when parsing failed. A part's payload is its decoded samples. Outbound frames carry samples rather than base64 text.
- Values of the wrong type inside a parsed message are not modelled. In JavaScript they behave in three ways. A `parts` value that cannot be iterated (an object, a number, `true`) and a mime type that is a number, boolean, array or object throw and are caught, so the rest of the message is skipped. A non-empty string `parts` is iterated character by character and enqueues nothing. A `null` field behaves like an absent one, which `None` models, and a falsy `parts` (`0`, `""`, `false`) is skipped like an absent one.
- Opus decoding and the receiver subscription with its 1000 ms silence end behaviour. The decoded chunks and the end event are the inputs of `SpeakerCapture`.
- `bufferToStream`, `createAudioResource` and `player.play`. Playing is an append to the ghost `played` log. The player's internal state and its inline volume are not modelled.
- Byte buffers and `readInt16LE` / `writeInt16LE`. Buffers are sample sequences, so an even byte length is assumed. Odd-length buffers, which give a fractional sample count, are outside the model.
- IEEE double rounding of `ratio`, `srcIndex` and `inputSamples / ratio`. Exact rationals are used instead. For the two rate pairs the program uses, 48000 to 16000 and 16000 to 48000, the double computation gives the same output samples as exact arithmetic. For other rate pairs, where `ratio` is not exact as a double, the two could differ near whole source positions.
- Logging, and the PCM stream's `error` handler.
- Interleaving of asynchronous callbacks, and several sessions at once. Each handler runs to completion. A stream that emits data after `end`, or emits `end` twice, is not modelled.
- `src/config.ts` only loads environment variables and exits when one is missing. It has no audio logic.
