/**
 * The streaming speech recogniser (backend/src/audio/streaming_asr.py).
 * Incoming byte chunks of float32 audio are kept in a bounded buffer of the
 * most recent 300 chunks; about once a second a pass transcribes everything
 * buffered and hands each non-blank segment to the registered callback.
 * The recognition model is abstract: a function from the buffered audio to
 * the segments it yields.
 */
module StreamingAsr {
  import opened Wrappers
  import Text
  import Seqs

  type Byte = bv8

  const MaxChunks := 300
  const SampleRate := 16000
  const BytesPerSample := 4
  /** Half a second of audio, the shortest stretch a pass transcribes. */
  const MinSamples := 8000
  /** One second, in milliseconds. */
  const ProcessIntervalMs := 1000

  /** The registered callback, identified by the client session it reports to. */
  datatype Callback = Callback(sid: string)

  /**
   * What transcription yields: the segment texts produced, in order, and
   * whether the model raised after producing them.
   */
  datatype Recognition = Recognition(segments: seq<string>, raised: bool)

  type Recognizer = seq<Byte> -> Recognition

  /** Number of float32 samples in the buffered audio. */
  function SampleCount(chunks: seq<seq<Byte>>): nat {
    |Seqs.Flatten(chunks)| / BytesPerSample
  }

  /**
   * `deque.append` on a deque with `maxlen=300`: the chunk goes last, after
   * the 299 most recent chunks already held, so a full buffer drops exactly
   * its oldest chunk.
   */
  function Pushed(buffer: seq<seq<Byte>>, chunk: seq<Byte>): (r: seq<seq<Byte>>)
    ensures |buffer| <= MaxChunks ==> |r| <= MaxChunks
    ensures |r| > 0 && r[|r| - 1] == chunk
    ensures |buffer| <= MaxChunks ==> r[..|r| - 1] == Recent(buffer, MaxChunks - 1)
  {
    if |buffer| < MaxChunks then buffer + [chunk] else buffer[1..] + [chunk]
  }

  /** The last `n` elements of `s` (all of `s` when it is shorter). */
  function Recent<T>(s: seq<T>, n: nat): (r: seq<T>)
    ensures |r| == if |s| <= n then |s| else n
  {
    if |s| <= n then s else s[|s| - n..]
  }

  /**
   * The buffer always holds exactly the 300 most recent chunks appended since
   * it was last cleared: appending to the recent window of a history gives
   * the recent window of the extended history.
   */
  lemma PushedKeepsRecent(history: seq<seq<Byte>>, chunk: seq<Byte>)
    ensures Pushed(Recent(history, MaxChunks), chunk) == Recent(history + [chunk], MaxChunks)
  {
    var h := history + [chunk];
    if |history| >= MaxChunks {
      var w := Recent(history, MaxChunks);
      assert w[1..] + [chunk] == h[|h| - MaxChunks..];
    }
  }

  /** Whole float32 samples only: every buffered chunk has a length divisible by four. */
  predicate WholeSamples(chunks: seq<seq<Byte>>) {
    forall i :: 0 <= i < |chunks| ==> |chunks[i]| % BytesPerSample == 0
  }

  /** Concatenating whole-sample chunks gives whole samples, so the sample count is exact. */
  lemma {:induction false} FlattenWholeSamples(chunks: seq<seq<Byte>>)
    requires WholeSamples(chunks)
    ensures |Seqs.Flatten(chunks)| % BytesPerSample == 0
    ensures SampleCount(chunks) * BytesPerSample == |Seqs.Flatten(chunks)|
  {
    if chunks != [] {
      FlattenWholeSamples(chunks[..|chunks| - 1]);
    }
  }

  /** Appending a whole-sample chunk keeps the buffer within 300 whole-sample chunks. */
  lemma PushedKeepsShape(buffer: seq<seq<Byte>>, chunk: seq<Byte>)
    requires |buffer| <= MaxChunks && WholeSamples(buffer) && |chunk| % BytesPerSample == 0
    ensures |Pushed(buffer, chunk)| <= MaxChunks && WholeSamples(Pushed(buffer, chunk))
    ensures Pushed(buffer, chunk)[|Pushed(buffer, chunk)| - 1] == chunk
  {
  }

  /** The texts a pass hands to the callback: each segment stripped, blank ones skipped, in order. */
  function Deliverable(segments: seq<string>): seq<string> {
    if segments == [] then []
    else
      var text := Text.Strip(segments[|segments| - 1]);
      Deliverable(segments[..|segments| - 1]) + (if text != "" then [text] else [])
  }

  /** Every delivered text is the non-empty stripped form of some segment. */
  lemma {:induction false} DeliveredComesFromSegment(segments: seq<string>, t: string) returns (i: nat)
    requires t in Deliverable(segments)
    ensures i < |segments| && Text.Strip(segments[i]) == t && t != ""
  {
    var init := segments[..|segments| - 1];
    var last := Text.Strip(segments[|segments| - 1]);
    assert Deliverable(segments) == Deliverable(init) + (if last != "" then [last] else []);
    if t in Deliverable(init) {
      i := DeliveredComesFromSegment(init, t);
      assert segments[i] == init[i];
    } else {
      i := |segments| - 1;
    }
  }

  /** Every segment that is not blank is delivered. */
  lemma {:induction false} SegmentIsDelivered(segments: seq<string>, i: nat)
    requires i < |segments| && Text.Strip(segments[i]) != ""
    ensures Text.Strip(segments[i]) in Deliverable(segments)
  {
    var init := segments[..|segments| - 1];
    if i < |init| {
      assert init[i] == segments[i];
      SegmentIsDelivered(init, i);
    }
  }

  /**
   * A text is delivered exactly when it is the non-empty stripped form of
   * some segment, and every delivered text has no surrounding whitespace.
   */
  lemma DeliverableIsStrippedSegments(segments: seq<string>)
    ensures forall t :: t in Deliverable(segments) <==>
      t != "" && exists i :: 0 <= i < |segments| && Text.Strip(segments[i]) == t
    ensures forall t :: t in Deliverable(segments) ==> !Text.IsSpace(t[0]) && !Text.IsSpace(t[|t| - 1])
  {
    forall t | t in Deliverable(segments)
      ensures t != "" && !Text.IsSpace(t[0]) && !Text.IsSpace(t[|t| - 1])
      ensures exists i :: 0 <= i < |segments| && Text.Strip(segments[i]) == t
    {
      var i := DeliveredComesFromSegment(segments, t);
    }
    forall i | 0 <= i < |segments| && Text.Strip(segments[i]) != ""
      ensures Text.Strip(segments[i]) in Deliverable(segments)
    {
      SegmentIsDelivered(segments, i);
    }
  }

  /** A pass delivers at most one text per segment. */
  lemma {:induction false} DeliverableNoLonger(segments: seq<string>)
    ensures |Deliverable(segments)| <= |segments|
  {
    if segments != [] {
      DeliverableNoLonger(segments[..|segments| - 1]);
    }
  }

  /** A recording whose segments are all blank delivers nothing. */
  lemma {:induction false} BlankSegmentsDeliverNothing(segments: seq<string>)
    ensures Deliverable(segments) == [] <==> forall i :: 0 <= i < |segments| ==> Text.Strip(segments[i]) == ""
  {
    DeliverableIsStrippedSegments(segments);
    if Deliverable(segments) != [] {
      assert Deliverable(segments)[0] in Deliverable(segments);
    }
    if exists i :: 0 <= i < |segments| && Text.Strip(segments[i]) != "" {
      var i :| 0 <= i < |segments| && Text.Strip(segments[i]) != "";
      assert Text.Strip(segments[i]) in Deliverable(segments);
    }
  }

  class StreamingASREngine {
    const modelPath: string
    var modelLoaded: bool
    var onTextCallback: Option<Callback>
    var audioBuffer: seq<seq<Byte>>
    var isProcessing: bool
    var lastProcessTime: int

    /** The buffer holds at most 300 chunks, each of whole float32 samples. */
    ghost predicate Valid()
      reads this
    {
      |audioBuffer| <= MaxChunks && WholeSamples(audioBuffer)
    }

    /** A fresh engine; the eager model load either succeeds or leaves no model. */
    constructor (loadSucceeds: bool)
      ensures Valid()
      ensures modelPath == "large-v3" && modelLoaded == loadSucceeds
      ensures onTextCallback == None && audioBuffer == []
      ensures !isProcessing && lastProcessTime == 0
    {
      modelPath := "large-v3";
      modelLoaded := loadSucceeds;
      onTextCallback := None;
      audioBuffer := [];
      isProcessing := false;
      lastProcessTime := 0;
    }

    /** Registers (or, with `None`, removes) the transcription callback. */
    method SetCallback(callback: Option<Callback>)
      modifies this
      ensures onTextCallback == callback
      ensures modelLoaded == old(modelLoaded) && audioBuffer == old(audioBuffer)
      ensures isProcessing == old(isProcessing) && lastProcessTime == old(lastProcessTime)
    {
      onTextCallback := callback;
    }

    /** Empties the buffer, as on a new connection. */
    method ClearBuffer()
      modifies this
      ensures audioBuffer == []
      ensures modelLoaded == old(modelLoaded) && onTextCallback == old(onTextCallback)
      ensures isProcessing == old(isProcessing) && lastProcessTime == old(lastProcessTime)
      ensures Valid()
    {
      audioBuffer := [];
    }

    /** Empties the buffer and drops the latch; the callback is kept. */
    method Reset()
      modifies this
      ensures audioBuffer == [] && !isProcessing
      ensures modelLoaded == old(modelLoaded) && onTextCallback == old(onTextCallback)
      ensures lastProcessTime == old(lastProcessTime)
      ensures Valid()
    {
      audioBuffer := [];
      isProcessing := false;
    }

    /**
     * `process_audio` at time `now` (milliseconds): without a model, or for a chunk
     * that is not whole float32 samples (the conversion raises and the error
     * is logged), nothing changes; otherwise the chunk is appended, and a pass
     * is scheduled when at least a second has gone by since the last one was.
     */
    method ProcessAudio(chunk: seq<Byte>, now: int) returns (scheduled: bool)
      requires Valid()
      modifies this
      ensures Valid()
      ensures !modelLoaded || |chunk| % BytesPerSample != 0 ==> !scheduled && unchanged(this)
      ensures modelLoaded && |chunk| % BytesPerSample == 0 ==>
        && audioBuffer == Pushed(old(audioBuffer), chunk)
        && scheduled == (now - old(lastProcessTime) >= ProcessIntervalMs)
        && lastProcessTime == (if scheduled then now else old(lastProcessTime))
      ensures modelLoaded == old(modelLoaded) && onTextCallback == old(onTextCallback)
      ensures isProcessing == old(isProcessing)
    {
      scheduled := false;
      if !modelLoaded {
        return;
      }
      if |chunk| % BytesPerSample != 0 {
        return;
      }
      PushedKeepsShape(audioBuffer, chunk);
      audioBuffer := Pushed(audioBuffer, chunk);
      if now - lastProcessTime >= ProcessIntervalMs {
        lastProcessTime := now;
        scheduled := true;
      }
    }

    /**
     * `_process_buffer`: one transcription pass, returning the texts handed to
     * the callback. Nothing is delivered when a pass is already running, there
     * is no model, less than half a second is buffered or no callback is set;
     * otherwise every non-blank segment is delivered, stripped, in order.
     * When the model raises part-way (`raised`), the segments it produced
     * before that are still delivered, since each was handed over as it was
     * produced. The buffer is not drained, and
     * the latch is released, so the engine is left as it was.
     */
    method ProcessBuffer(recognize: Recognizer) returns (delivered: seq<string>)
      requires Valid()
      modifies this
      ensures unchanged(this)
      ensures isProcessing || !modelLoaded || SampleCount(audioBuffer) < MinSamples || onTextCallback.None? ==>
        delivered == []
      ensures !isProcessing && modelLoaded && SampleCount(audioBuffer) >= MinSamples && onTextCallback.Some? ==>
        delivered == Deliverable(recognize(Seqs.Flatten(audioBuffer)).segments)
    {
      delivered := [];
      if isProcessing || !modelLoaded {
        return;
      }
      isProcessing := true;
      if audioBuffer == [] {
        isProcessing := false;
        return;
      }
      var audioData := Seqs.Flatten(audioBuffer);
      if |audioData| / BytesPerSample < MinSamples {
        isProcessing := false;
        return;
      }
      var segments := recognize(audioData).segments;
      var segmentCount := 0;
      while segmentCount < |segments|
        invariant 0 <= segmentCount <= |segments|
        invariant delivered == if onTextCallback.Some? then Deliverable(segments[..segmentCount]) else []
      {
        var text := Text.Strip(segments[segmentCount]);
        assert segments[..segmentCount + 1][..segmentCount] == segments[..segmentCount];
        if text != "" && onTextCallback.Some? {
          delivered := delivered + [text];
        }
        segmentCount := segmentCount + 1;
      }
      assert segments[..segmentCount] == segments;
      isProcessing := false;
    }
  }
}
