/**
 * Per-speaker capture (src/index.ts): the decoded PCM chunks of one utterance
 * are collected in arrival order; when the stream ends (after a second of
 * silence) they are concatenated, resampled from 48 kHz to 16 kHz and sent to
 * the AI service as one `realtimeInput` frame, if its socket is open.
 *
 * The socket is an open flag and the log of frames sent on it. Base64 and JSON
 * encoding of the frame are not modelled: a frame carries its samples.
 */
module Capture {
  import opened Wrappers
  import opened Pcm

  /** Rate the AI service expects. */
  const AiInputRate: nat := 16000
  const CaptureMime: string := "audio/pcm;rate=16000"

  datatype MediaChunk = MediaChunk(mimeType: string, data: seq<Sample>)

  /** `{"realtimeInput": {"mediaChunks": [...]}}`. */
  datatype Frame = RealtimeInput(mediaChunks: seq<MediaChunk>)

  /** The AI service's socket, as far as capture sees it. */
  class AiSocket {
    var isOpen: bool
    var sent: seq<Frame>

    constructor (isOpen: bool)
      ensures this.isOpen == isOpen && sent == []
    {
      this.isOpen := isOpen;
      sent := [];
    }

    /** `geminiWs.send(...)`. */
    method Send(frame: Frame)
      modifies this
      ensures isOpen == old(isOpen) && sent == old(sent) + [frame]
    {
      sent := sent + [frame];
    }
  }

  /** `Buffer.concat(chunks)`. */
  function Concat(chunks: seq<seq<Sample>>): seq<Sample>
  {
    if chunks == [] then [] else Concat(chunks[..|chunks| - 1]) + chunks[|chunks| - 1]
  }

  /** Concatenation keeps arrival order across any split of the chunk list. */
  lemma {:induction false} ConcatAppend(a: seq<seq<Sample>>, b: seq<seq<Sample>>)
    ensures Concat(a + b) == Concat(a) + Concat(b)
    decreases |b|
  {
    if b == [] {
      assert a + b == a;
    } else {
      var b' := b[..|b| - 1];
      assert (a + b)[..|a + b| - 1] == a + b';
      ConcatAppend(a, b');
    }
  }

  /** The frame the `end` handler sends for the collected chunks, if any. */
  function EndFrame(chunks: seq<seq<Sample>>, socketOpen: bool): Option<Frame>
  {
    if chunks == [] then None
    else if socketOpen then Some(RealtimeInput([MediaChunk(CaptureMime, Resample(Concat(chunks), VoiceRate, AiInputRate))]))
    else None
  }

  /**
   * A frame is sent exactly when some chunk arrived and the socket is open. It
   * has one media chunk, tagged as 16 kHz PCM, that keeps every third sample of
   * the concatenated utterance: `floor(n / 3)` samples for `n` captured ones.
   */
  lemma {:induction false} EndFrameCarriesUtterance(chunks: seq<seq<Sample>>, socketOpen: bool)
    ensures EndFrame(chunks, socketOpen).Some? <==> chunks != [] && socketOpen
    ensures EndFrame(chunks, socketOpen).Some? ==>
      var utterance := Concat(chunks);
      var f := EndFrame(chunks, socketOpen).value;
      |f.mediaChunks| == 1 && f.mediaChunks[0].mimeType == CaptureMime &&
      |f.mediaChunks[0].data| == |utterance| / 3 &&
      forall i :: 0 <= i < |f.mediaChunks[0].data| ==>
        3 * i < |utterance| && f.mediaChunks[0].data[i] == utterance[3 * i]
  {
    if chunks != [] && socketOpen {
      Decimation(Concat(chunks), 3, AiInputRate);
    }
  }

  /**
   * The guard is on the number of chunks, not samples: chunks holding fewer
   * than three samples in all still send a frame, with an empty payload.
   */
  lemma ShortUtteranceSendsEmptyPayload(chunks: seq<seq<Sample>>)
    requires chunks != [] && |Concat(chunks)| < 3
    ensures EndFrame(chunks, true) == Some(RealtimeInput([MediaChunk(CaptureMime, [])]))
  {
    EndFrameCarriesUtterance(chunks, true);
  }

  /** The capture of one utterance of one speaker. */
  class SpeakerCapture {
    const ws: AiSocket
    var chunks: seq<seq<Sample>>

    constructor (ws: AiSocket)
      ensures this.ws == ws && chunks == []
    {
      this.ws := ws;
      chunks := [];
    }

    /** The PCM stream's `data` handler. */
    method OnData(chunk: seq<Sample>)
      modifies this
      ensures chunks == old(chunks) + [chunk]
    {
      chunks := chunks + [chunk];
    }

    /** The PCM stream's `end` handler: returns the frame it sent, if any. */
    method OnEnd() returns (frame: Option<Frame>)
      modifies ws
      ensures frame == EndFrame(chunks, old(ws.isOpen))
      ensures ws.isOpen == old(ws.isOpen)
      ensures ws.sent == old(ws.sent) + (if frame.Some? then [frame.value] else [])
    {
      if |chunks| == 0 {
        return None;
      }
      var fullBuffer := Concat(chunks);
      var resampled := ResampleAudio(fullBuffer, VoiceRate, AiInputRate);
      if ws.isOpen {
        var f := RealtimeInput([MediaChunk(CaptureMime, resampled[..])]);
        ws.Send(f);
        return Some(f);
      }
      return None;
    }
  }

  /**
   * Chunks `c1, c2, c3` and then the end of the stream, on an open socket: one
   * frame goes out, carrying the resampled concatenation in arrival order.
   */
  method CaptureScenario(ws: AiSocket, c1: seq<Sample>, c2: seq<Sample>, c3: seq<Sample>)
    requires ws.isOpen
    modifies ws
  {
    var sentBefore := ws.sent;
    var capture := new SpeakerCapture(ws);
    capture.OnData(c1);
    capture.OnData(c2);
    capture.OnData(c3);
    var frame := capture.OnEnd();
    assert capture.chunks == [c1, c2] + [c3];
    assert [c1, c2] == [c1] + [c2];
    ConcatAppend([c1, c2], [c3]);
    ConcatAppend([c1], [c2]);
    assert Concat([c1]) == c1;
    assert Concat(capture.chunks) == c1 + c2 + c3;
    assert ws.sent == sentBefore + [RealtimeInput([MediaChunk(CaptureMime, Resample(c1 + c2 + c3, VoiceRate, AiInputRate))])];
  }
}
