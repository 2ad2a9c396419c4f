/**
 * A chat session (src/index.ts, the `!chat` handler): the handler for messages
 * from the AI service, which feeds the playback scheduler, and the creation of
 * a capture for each speaker who starts speaking.
 *
 * A message arrives already parsed: `None` stands for a frame that
 * `JSON.parse` rejected, and a part's `data` is its payload after base64
 * decoding, `None` when the part has no payload to decode.
 */
module Session {
  import opened Wrappers
  import opened Pcm
  import opened Playback
  import opened Capture

  datatype InlineData = InlineData(mimeType: Option<string>, data: Option<seq<Sample>>)
  datatype Part = Part(inlineData: Option<InlineData>)
  datatype ModelTurn = ModelTurn(parts: Option<seq<Part>>)
  datatype ServerContent = ServerContent(modelTurn: Option<ModelTurn>, turnComplete: bool)
  datatype Response = Response(setupComplete: bool, serverContent: Option<ServerContent>)

  predicate StartsWith(s: string, prefix: string)
  {
    |prefix| <= |s| && s[..|prefix|] == prefix
  }

  /** `part.inlineData?.mimeType?.startsWith('audio/')`. */
  predicate IsAudio(part: Part)
  {
    part.inlineData.Some? && part.inlineData.value.mimeType.Some? &&
    StartsWith(part.inlineData.value.mimeType.value, "audio/")
  }

  /**
   * An audio part without a payload: `Buffer.from` throws on it, and the
   * exception ends the handling of the message.
   */
  predicate Undecodable(part: Part)
  {
    IsAudio(part) && part.inlineData.value.data.None?
  }

  predicate AllDecodable(parts: seq<Part>)
  {
    forall j :: 0 <= j < |parts| ==> !Undecodable(parts[j])
  }

  /** What one part adds to the playback queue. */
  function Payload(part: Part): seq<seq<Sample>>
  {
    if IsAudio(part) && part.inlineData.value.data.Some? then [part.inlineData.value.data.value] else []
  }

  /** The payloads of the audio parts, in part order. */
  function AudioData(parts: seq<Part>): seq<seq<Sample>>
  {
    if parts == [] then [] else AudioData(parts[..|parts| - 1]) + Payload(parts[|parts| - 1])
  }

  /** How many parts are handled before the first undecodable one stops the loop. */
  function DecodablePrefix(parts: seq<Part>): (k: nat)
    ensures k <= |parts|
    ensures forall j :: 0 <= j < k ==> !Undecodable(parts[j])
    ensures k < |parts| ==> Undecodable(parts[k])
  {
    if parts == [] || Undecodable(parts[0]) then 0 else 1 + DecodablePrefix(parts[1..])
  }

  /** `response.serverContent?.modelTurn?.parts`, or none. */
  function Parts(response: Response): seq<Part>
  {
    match response.serverContent
    case None => []
    case Some(content) =>
      match content.modelTurn
      case None => []
      case Some(turn) => if turn.parts.Some? then turn.parts.value else []
  }

  /** The buffers the message handler enqueues for `msg`, in order. */
  function Enqueued(msg: Option<Response>): (r: seq<seq<Sample>>)
    ensures msg.None? || msg.value.setupComplete ==> r == []
    ensures msg.Some? && !msg.value.setupComplete && AllDecodable(Parts(msg.value)) ==>
      r == AudioData(Parts(msg.value))
  {
    if msg.None? || msg.value.setupComplete then []
    else
      var parts := Parts(msg.value);
      assert parts[..|parts|] == parts;
      AudioData(parts[..DecodablePrefix(parts)])
  }

  /** The audio data of a list of parts is that of any split of it, joined. */
  lemma {:induction false} AudioDataAppend(a: seq<Part>, b: seq<Part>)
    ensures AudioData(a + b) == AudioData(a) + AudioData(b)
    decreases |b|
  {
    if b == [] {
      assert a + b == a;
    } else {
      var b' := b[..|b| - 1];
      assert (a + b)[..|a + b| - 1] == a + b';
      AudioDataAppend(a, b');
    }
  }

  /**
   * Exactly the audio parts are enqueued: a buffer is in the audio data of
   * decodable parts if and only if some audio part carries it, and there is
   * one buffer per audio part.
   */
  lemma {:induction false} AudioDataExactly(parts: seq<Part>)
    requires AllDecodable(parts)
    ensures forall b :: b in AudioData(parts) <==>
      exists j :: 0 <= j < |parts| && IsAudio(parts[j]) && parts[j].inlineData.value.data == Some(b)
    ensures |AudioData(parts)| == |AudioIndices(parts)|
  {
    if parts != [] {
      var init := parts[..|parts| - 1];
      AudioDataExactly(init);
      assert forall j :: 0 <= j < |init| ==> init[j] == parts[j];
    }
  }

  /** The positions of the audio parts, ascending. */
  function AudioIndices(parts: seq<Part>): (r: seq<nat>)
    ensures forall k :: 0 <= k < |r| ==> r[k] < |parts| && IsAudio(parts[r[k]])
    ensures forall j :: 0 <= j < |parts| && IsAudio(parts[j]) ==> j in r
    ensures forall k, l :: 0 <= k < l < |r| ==> r[k] < r[l]
  {
    if parts == [] then []
    else AudioIndices(parts[..|parts| - 1]) + (if IsAudio(parts[|parts| - 1]) then [|parts| - 1] else [])
  }

  /** `turnComplete` is only logged: it changes nothing that is enqueued. */
  lemma TurnCompleteChangesNothing(response: Response, turnComplete: bool)
    requires response.serverContent.Some?
    ensures Enqueued(Some(response.(serverContent := Some(response.serverContent.value.(turnComplete := turnComplete)))))
      == Enqueued(Some(response))
  {
  }

  class ChatSession {
    const scheduler: Scheduler
    const ws: AiSocket

    constructor (ws: AiSocket)
      ensures this.ws == ws && fresh(scheduler) && scheduler.Valid()
      ensures scheduler.queue == [] && !scheduler.isPlaying
      ensures scheduler.played == [] && scheduler.received == []
    {
      this.ws := ws;
      scheduler := new Scheduler();
    }

    /** The socket's `message` handler. */
    method OnMessage(msg: Option<Response>)
      requires scheduler.Valid()
      modifies scheduler
      ensures scheduler.Valid()
      ensures scheduler.received == old(scheduler.received) + Enqueued(msg)
      ensures Enqueued(msg) == [] ==> unchanged(scheduler)
      ensures Enqueued(msg) != [] ==> scheduler.isPlaying
      ensures old(scheduler.isPlaying) ==>
        scheduler.queue == old(scheduler.queue) + Enqueued(msg) && scheduler.played == old(scheduler.played)
      ensures !old(scheduler.isPlaying) && Enqueued(msg) != [] ==>
        scheduler.queue == Enqueued(msg)[1..] &&
        scheduler.played == old(scheduler.played) + [ForPlayback(Enqueued(msg)[0])]
    {
      if msg.None? {
        return;  // JSON.parse threw; the error is logged
      }
      var response := msg.value;
      if response.setupComplete {
        return;
      }
      EnqueueAudioParts(Parts(response));
      // turnComplete is only logged
    }

    /**
     * The loop over `serverContent.modelTurn.parts`: each audio payload is
     * enqueued, until an audio part without a payload makes `Buffer.from`
     * throw.
     */
    method EnqueueAudioParts(parts: seq<Part>)
      requires scheduler.Valid()
      modifies scheduler
      ensures var enq := AudioData(parts[..DecodablePrefix(parts)]);
        scheduler.Valid() &&
        scheduler.received == old(scheduler.received) + enq &&
        (enq == [] ==> unchanged(scheduler)) &&
        (enq != [] ==> scheduler.isPlaying) &&
        (old(scheduler.isPlaying) ==>
          scheduler.queue == old(scheduler.queue) + enq && scheduler.played == old(scheduler.played)) &&
        (!old(scheduler.isPlaying) && enq != [] ==>
          scheduler.queue == enq[1..] && scheduler.played == old(scheduler.played) + [ForPlayback(enq[0])])
    {
      ghost var enq: seq<seq<Sample>> := [];  // what the loop has enqueued so far
      var i := 0;
      while i < |parts|
        invariant i <= |parts|
        invariant forall j :: 0 <= j < i ==> !Undecodable(parts[j])
        invariant enq == AudioData(parts[..i])
        invariant scheduler.Valid()
        invariant scheduler.received == old(scheduler.received) + enq
        invariant enq == [] ==> unchanged(scheduler)
        invariant enq != [] ==> scheduler.isPlaying
        invariant old(scheduler.isPlaying) ==>
          scheduler.queue == old(scheduler.queue) + enq && scheduler.played == old(scheduler.played)
        invariant !old(scheduler.isPlaying) && enq != [] ==>
          scheduler.queue == enq[1..] && scheduler.played == old(scheduler.played) + [ForPlayback(enq[0])]
      {
        var part := parts[i];
        if IsAudio(part) {
          if part.inlineData.value.data.None? {
            break;  // Buffer.from throws; the error is logged
          }
          var audioBuffer := part.inlineData.value.data.value;
          scheduler.Enqueue(audioBuffer);
          enq := enq + [audioBuffer];
        }
        assert parts[..i + 1] == parts[..i] + [part];
        i := i + 1;
      }
      assert i == DecodablePrefix(parts);
    }

    /** A speaker starts speaking: a new capture, sending on this session's socket. */
    method OnSpeakingStart() returns (capture: SpeakerCapture)
      ensures fresh(capture) && capture.ws == ws && capture.chunks == []
    {
      capture := new SpeakerCapture(ws);
    }
  }
}
