/**
 * The playback scheduler of a chat session (src/index.ts): a FIFO of audio
 * buffers received from the AI service, an `isPlaying` flag, and
 * `playNextInQueue`, which hands the head of the queue, resampled from
 * 16 kHz to 48 kHz, to the voice channel's audio player.
 *
 * The player itself is an external sink: `player.play(resource)` is modelled
 * as an append to the ghost log `played`. The ghost log `received` records
 * every buffer ever enqueued, so that FIFO order can be stated.
 */
module Playback {
  import opened Pcm

  /** Rate of the audio the AI service sends. */
  const AiOutputRate: nat := 16000

  /** What the player is given for one received buffer. */
  function ForPlayback(buffer: seq<Sample>): seq<Sample>
  {
    Resample(buffer, AiOutputRate, VoiceRate)
  }

  function AllForPlayback(buffers: seq<seq<Sample>>): seq<seq<Sample>>
  {
    seq(|buffers|, k requires 0 <= k < |buffers| => ForPlayback(buffers[k]))
  }

  /**
   * Played sample `3 * k + j` (for `j` of 1 and 2) lies between received
   * sample `k` and its successor (sample `k` itself at the end of the buffer).
   */
  predicate BetweenNeighbours(played: seq<Sample>, buffer: seq<Sample>, k: nat, j: nat)
    requires k < |buffer| && 3 * k + j < |played|
  {
    var next := buffer[Min(k + 1, |buffer| - 1)];
    Min(buffer[k], next) <= played[3 * k + j] <= Max(buffer[k], next)
  }

  /**
   * A played buffer is three times as long as the received one; every third
   * played sample is a received sample, and the two between are interpolated
   * between that sample and its successor.
   */
  lemma {:induction false} PlaybackSamples(buffer: seq<Sample>)
    ensures var r := ForPlayback(buffer);
      |r| == 3 * |buffer| &&
      forall k :: 0 <= k < |buffer| ==>
        r[3 * k] == buffer[k] && BetweenNeighbours(r, buffer, k, 1) && BetweenNeighbours(r, buffer, k, 2)
  {
    UpsampleKeepsInput(buffer, 3, AiOutputRate);
    var r := ForPlayback(buffer);
    forall k | 0 <= k < |buffer|
      ensures BetweenNeighbours(r, buffer, k, 1) && BetweenNeighbours(r, buffer, k, 2)
    {
      Between(buffer, k, 1);
      Between(buffer, k, 2);
    }
  }

  lemma Between(buffer: seq<Sample>, k: nat, j: nat)
    requires k < |buffer| && 0 < j < 3
    ensures 3 * k + j < |ForPlayback(buffer)| && BetweenNeighbours(ForPlayback(buffer), buffer, k, j)
  {
    var n := |buffer|;
    DivModUnique(n * VoiceRate, AiOutputRate, 3 * n, 0);
    var i := 3 * k + j;
    DivModUnique(i * AiOutputRate, VoiceRate, k, j * AiOutputRate);
    InterpolationWithinNeighbours(buffer, AiOutputRate, VoiceRate, i);
  }

  class Scheduler {
    var queue: seq<seq<Sample>>
    var isPlaying: bool
    ghost var played: seq<seq<Sample>>
    ghost var received: seq<seq<Sample>>

    /**
     * FIFO: what was played is the resampled prefix of what was received, and
     * the queue holds exactly the rest, in order.
     */
    ghost predicate Fifo()
      reads this
    {
      |played| <= |received| &&
      played == AllForPlayback(received[..|played|]) &&
      queue == received[|played|..]
    }

    /** Between events: FIFO, and no buffer waits while the player is idle. */
    ghost predicate Valid()
      reads this
    {
      Fifo() && (!isPlaying ==> queue == [])
    }

    constructor ()
      ensures Valid()
      ensures queue == [] && !isPlaying && played == [] && received == []
    {
      queue := [];
      isPlaying := false;
      played := [];
      received := [];
    }

    /** `playNextInQueue`. */
    method PlayNext()
      requires Fifo()
      modifies this
      ensures Valid()
      ensures received == old(received)
      ensures old(queue) == [] ==> !isPlaying && queue == [] && played == old(played)
      ensures old(queue) != [] ==>
        isPlaying && queue == old(queue)[1..] &&
        played == old(played) + [ForPlayback(old(queue)[0])]
    {
      if |queue| == 0 {
        isPlaying := false;
        return;
      }
      isPlaying := true;
      var audioBuffer := queue[0];
      queue := queue[1..];
      var resampled := ResampleAudio(audioBuffer, AiOutputRate, VoiceRate);
      played := played + [resampled[..]];
      assert received[..|played|] == old(received[..|played|]) + [audioBuffer];
    }

    /** The player's Idle event handler. */
    method OnIdle()
      requires Valid()
      modifies this
      ensures Valid()
      ensures received == old(received)
      ensures old(queue) == [] ==> !isPlaying && played == old(played)
      ensures old(queue) != [] ==>
        isPlaying && queue == old(queue)[1..] &&
        played == old(played) + [ForPlayback(old(queue)[0])]
    {
      PlayNext();
    }

    /** `audioQueue.push(audioBuffer)`, then `playNextInQueue()` unless already playing. */
    method Enqueue(buffer: seq<Sample>)
      requires Valid()
      modifies this
      ensures Valid()
      ensures received == old(received) + [buffer]
      ensures isPlaying
      ensures old(isPlaying) ==> queue == old(queue) + [buffer] && played == old(played)
      ensures !old(isPlaying) ==> queue == [] && played == old(played) + [ForPlayback(buffer)]
    {
      queue := queue + [buffer];
      received := received + [buffer];
      assert received[..|played|] == old(received)[..|played|];
      if !isPlaying {
        PlayNext();
      }
    }

    /** Once the queue has drained, every received buffer has been played, in order. */
    lemma Drained()
      requires Fifo() && queue == []
      ensures played == AllForPlayback(received)
    {
      assert received[..|played|] == received;
    }
  }

  /**
   * Three buffers arrive while the player is idle; each Idle event plays the
   * next, in arrival order, and the last leaves the scheduler idle.
   */
  method FifoScenario(a: seq<Sample>, b: seq<Sample>, c: seq<Sample>)
  {
    var s := new Scheduler();
    s.Enqueue(a);
    assert s.played == [ForPlayback(a)];
    s.Enqueue(b);
    s.Enqueue(c);
    assert s.queue == [b, c];
    s.OnIdle();
    s.OnIdle();
    assert s.played == [ForPlayback(a), ForPlayback(b), ForPlayback(c)];
    s.OnIdle();
    assert !s.isPlaying && s.played == AllForPlayback([a, b, c]);
  }
}
