/**
 * The browser's audio worklet (frontend/public/audio-processor.js): it copies
 * the first channel of every render quantum into a fixed buffer of 4096
 * samples and posts a copy of the buffer to the main thread each time it
 * fills up.
 */
module AudioWorklet {
  import Seqs

  /** Samples per posted frame. */
  const BufferSize: nat := 4096

  /** One frame sent over the worklet's message port. */
  type Frame = seq<real>

  /** Each sample taken in advances the fill level by one; a full buffer is posted and the level restarts at 0. */
  lemma FillStep(x: nat)
    ensures (x + 1) / BufferSize == if x % BufferSize == BufferSize - 1 then x / BufferSize + 1 else x / BufferSize
    ensures (x + 1) % BufferSize == if x % BufferSize == BufferSize - 1 then 0 else x % BufferSize + 1
  {
  }

  class AudioProcessor {
    const buffer: array<real>
    var bufferIndex: nat
    /** The frames posted so far, in order. */
    var posted: seq<Frame>
    /** Every sample of channel 0 taken in so far. */
    ghost var received: seq<real>

    /**
     * Every posted frame is full, the fill level is below the buffer size, and
     * the posted frames followed by the buffered samples are exactly the
     * samples received, in order: nothing is lost or duplicated.
     */
    ghost predicate Valid()
      reads this, buffer
    {
      && buffer.Length == BufferSize
      && bufferIndex < BufferSize
      && (forall i :: 0 <= i < |posted| ==> |posted[i]| == BufferSize)
      && Seqs.Flatten(posted) + buffer[..bufferIndex] == received
    }

    constructor()
      ensures Valid() && fresh(buffer)
      ensures bufferIndex == 0 && posted == [] && received == []
    {
      buffer := new real[BufferSize];
      bufferIndex := 0;
      posted := [];
      received := [];
    }

    /**
     * `process`: without an input or with an input that has no channel nothing
     * changes; otherwise every sample of channel 0 is taken in, one full frame
     * is posted per `BufferSize` samples reached, and the fill level advances
     * modulo `BufferSize`. The processor always asks to be kept alive.
     */
    method Process(inputs: seq<seq<seq<real>>>) returns (alive: bool)
      requires Valid()
      modifies this, buffer
      ensures Valid() && alive
      ensures inputs == [] || inputs[0] == [] ==>
        && posted == old(posted) && bufferIndex == old(bufferIndex) && received == old(received)
        && buffer[..] == old(buffer[..])
      ensures inputs != [] && inputs[0] != [] ==>
        && received == old(received) + inputs[0][0]
        && |posted| == |old(posted)| + (old(bufferIndex) + |inputs[0][0]|) / BufferSize
        && posted[..|old(posted)|] == old(posted)
        && bufferIndex == (old(bufferIndex) + |inputs[0][0]|) % BufferSize
    {
      if inputs == [] || inputs[0] == [] {
        return true;
      }
      var channelData := inputs[0][0];
      ghost var before := received;
      ghost var start := bufferIndex;
      ghost var postedBefore := posted;
      var i := 0;
      while i < |channelData|
        invariant 0 <= i <= |channelData|
        invariant Valid()
        invariant received == before + channelData[..i]
        invariant |posted| == |postedBefore| + (start + i) / BufferSize
        invariant bufferIndex == (start + i) % BufferSize
        invariant posted[..|postedBefore|] == postedBefore
      {
        FillStep(start + i);
        Take(channelData[i]);
        assert channelData[..i + 1] == channelData[..i] + [channelData[i]];
        i := i + 1;
      }
      assert channelData[..i] == channelData;
      return true;
    }

    /** One iteration of `process`: store the sample, and post the buffer once it is full. */
    method Take(sample: real)
      requires Valid()
      modifies this, buffer
      ensures Valid()
      ensures received == old(received) + [sample]
      ensures old(bufferIndex) + 1 == BufferSize ==> posted == old(posted) + [buffer[..]] && bufferIndex == 0
      ensures old(bufferIndex) + 1 < BufferSize ==> posted == old(posted) && bufferIndex == old(bufferIndex) + 1
    {
      ghost var held := buffer[..bufferIndex];
      buffer[bufferIndex] := sample;
      assert buffer[..bufferIndex + 1] == held + [sample];
      bufferIndex := bufferIndex + 1;
      received := received + [sample];
      if bufferIndex >= BufferSize {
        assert buffer[..] == buffer[..bufferIndex];
        Seqs.FlattenAppend(posted, buffer[..]);
        posted := posted + [buffer[..]];
        bufferIndex := 0;
        assert Seqs.Flatten(posted) + buffer[..bufferIndex] == Seqs.Flatten(posted);
      }
    }
  }
}
