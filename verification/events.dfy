/**
 * The Socket.IO event handlers (backend/src/api/events.py): connection
 * management for the shared recogniser and the per-transcript pipeline that
 * emits the transcript, its translation and any cultural insight to the
 * client's room. Identifiers, timestamps and the measured latency come from
 * the clock and the uuid generator, so they are parameters here.
 */
module Events {
  import opened Wrappers
  import Text
  import Lora
  import Exa
  import Insight
  import Translator
  import StreamingAsr
  import Seqs

  const TargetLang := "zh-TW"
  const TranscriptConfidence: real := 0.9

  /** The three events the server emits, with their payload fields. */
  datatype Event =
    | TranscriptPartial(id: string, text: string, isFinal: bool, timestamp: string, confidence: real)
    | TranslationFinal(chunkId: string, targetLang: string, translatedText: string, latencyMs: nat)
    | CulturalInsightEvent(insight: Insight.InsightSummary)

  /** One `sio.emit(event, payload, room=sid)`. */
  datatype Emission = Emission(room: string, event: Event)

  /** The Socket.IO server, reduced to the log of what it has emitted. */
  class SocketServer {
    var emitted: seq<Emission>

    constructor ()
      ensures emitted == []
    {
      emitted := [];
    }

    method Emit(room: string, event: Event)
      modifies this
      ensures emitted == old(emitted) + [Emission(room, event)]
    {
      emitted := emitted + [Emission(room, event)];
    }
  }

  /** Everything that `process_transcript` needs besides the transcript itself. */
  datatype Services = Services(
    lora: Lora.LoRAManager, exa: Exa.ExaClient, llm: Lora.Generator, search: Exa.SearchService)

  /** The values the uuid generator and the clock supply to one run. */
  datatype RunValues = RunValues(transcriptId: string, insightId: string, timestamp: string, latencyMs: nat)

  /** Whether a transcript goes on to translation: it is final and not blank. */
  predicate Translatable(text: string, isFinal: bool) {
    isFinal && Text.Strip(text) != ""
  }

  /** The insight the pipeline computes for a translatable transcript. */
  function InsightFor(svc: Services, text: string, v: RunValues): Option<Insight.CulturalInsight>
    reads svc.lora
  {
    Insight.Process(svc.lora, svc.exa, text, v.insightId, svc.llm, svc.search)
  }

  /** The translation the pipeline computes, with the insight's context when there is one. */
  function TranslationFor(svc: Services, text: string, v: RunValues): string
    reads svc.lora
  {
    Translator.Translate(svc.lora, text, TargetLang, Insight.TranslationContext(InsightFor(svc, text, v)), svc.llm)
  }

  /**
   * What a translatable transcript adds after itself: its translation, then
   * the insight when there is one.
   */
  function Outcome(sid: string, v: RunValues, insight: Option<Insight.CulturalInsight>, translation: string): (r: seq<Emission>)
    ensures |r| == if insight.Some? then 2 else 1
  {
    [Emission(sid, TranslationFinal(v.transcriptId, TargetLang, translation, v.latencyMs))] +
    (if insight.Some? then [Emission(sid, CulturalInsightEvent(Insight.Summary(insight.value)))] else [])
  }

  /**
   * The emissions of one `process_transcript` run, in order, given the
   * insight and the translation computed for it: the transcript, then for a
   * translatable transcript its translation, then the insight when there is one.
   */
  function RunEmissions(
    sid: string, text: string, isFinal: bool, v: RunValues,
    insight: Option<Insight.CulturalInsight>, translation: string): (r: seq<Emission>)
    ensures 1 <= |r| <= 3
    ensures forall i :: 0 <= i < |r| ==> r[i].room == sid
    ensures r[0].event == TranscriptPartial(v.transcriptId, text, isFinal, v.timestamp, TranscriptConfidence)
    ensures |r| >= 2 <==> Translatable(text, isFinal)
    ensures |r| >= 2 ==> r[1].event == TranslationFinal(v.transcriptId, TargetLang, translation, v.latencyMs)
    ensures |r| == 3 <==> Translatable(text, isFinal) && insight.Some?
    ensures |r| == 3 ==> r[2].event == CulturalInsightEvent(Insight.Summary(insight.value))
  {
    [Emission(sid, TranscriptPartial(v.transcriptId, text, isFinal, v.timestamp, TranscriptConfidence))] +
    (if Translatable(text, isFinal) then Outcome(sid, v, insight, translation) else [])
  }

  /** The emissions of one run with the insight and translation the services produce. */
  function TranscriptEmissions(svc: Services, sid: string, text: string, isFinal: bool, v: RunValues): seq<Emission>
    reads svc.lora
  {
    RunEmissions(sid, text, isFinal, v, InsightFor(svc, text, v), TranslationFor(svc, text, v))
  }

  /**
   * Whenever an insight is emitted, the translation before it was made with
   * that insight's search context, and the insight's phrase is the transcript.
   */
  lemma InsightEmittedAfterContextualTranslation(svc: Services, sid: string, text: string, isFinal: bool, v: RunValues)
    ensures var r := TranscriptEmissions(svc, sid, text, isFinal, v);
      |r| == 3 ==>
        var insight := InsightFor(svc, text, v).value;
        && r[1].event.translatedText ==
           Translator.Translate(svc.lora, text, TargetLang, Some(insight.searchContext), svc.llm)
        && r[2].event.insight.phrase == text
        && insight.searchContext != ""
  {
    Insight.InsightCarriesContext(svc.lora, svc.exa, text, v.insightId, svc.llm, svc.search);
  }

  /**
   * Without a loaded model a translatable transcript is echoed back as its
   * own translation, and no insight is emitted.
   */
  lemma NotReadyEchoesTranscript(svc: Services, sid: string, text: string, v: RunValues)
    requires !svc.lora.IsModelReady() && Text.Strip(text) != ""
    ensures var r := TranscriptEmissions(svc, sid, text, true, v);
      |r| == 2 && r[1].event.translatedText == text
  {
    Insight.NotReadyNoInsight(svc.lora, svc.exa, text, v.insightId, svc.llm, svc.search);
  }

  /**
   * Steps 1 and 2 of `process_transcript`: the insight, then the translation,
   * with the insight's search context when the insight has a non-empty one.
   */
  method InsightAndTranslation(svc: Services, text: string, v: RunValues)
    returns (insight: Option<Insight.CulturalInsight>, translation: string)
    ensures insight == InsightFor(svc, text, v)
    ensures translation == TranslationFor(svc, text, v)
  {
    insight := Insight.Process(svc.lora, svc.exa, text, v.insightId, svc.llm, svc.search);
    if insight.Some? && insight.value.searchContext != "" {
      translation := Translator.Translate(svc.lora, text, TargetLang, Some(insight.value.searchContext), svc.llm);
    } else {
      translation := Translator.Translate(svc.lora, text, TargetLang, None, svc.llm);
    }
  }

  /** Step 3 of `process_transcript`: emit the translation, then the insight if there is one. */
  method EmitOutcome(sio: SocketServer, sid: string, v: RunValues, insight: Option<Insight.CulturalInsight>, translation: string)
    modifies sio
    ensures sio.emitted == old(sio.emitted) + Outcome(sid, v, insight, translation)
  {
    sio.Emit(sid, TranslationFinal(v.transcriptId, TargetLang, translation, v.latencyMs));
    if insight.Some? {
      sio.Emit(sid, CulturalInsightEvent(Insight.Summary(insight.value)));
    }
  }

  /** `process_transcript`: emits to the client's room exactly what `TranscriptEmissions` lists. */
  method ProcessTranscript(sio: SocketServer, svc: Services, sid: string, text: string, isFinal: bool, v: RunValues)
    modifies sio
    ensures sio.emitted == old(sio.emitted) + TranscriptEmissions(svc, sid, text, isFinal, v)
  {
    var partial := TranscriptPartial(v.transcriptId, text, isFinal, v.timestamp, TranscriptConfidence);
    sio.Emit(sid, partial);
    ghost var rest: seq<Emission> := [];
    if isFinal && Text.Strip(text) != "" {
      var insight, translation := InsightAndTranslation(svc, text, v);
      EmitOutcome(sio, sid, v, insight, translation);
      rest := Outcome(sid, v, insight, translation);
    }
    RunLog(old(sio.emitted), rest, sid, text, isFinal, v, InsightFor(svc, text, v), TranslationFor(svc, text, v));
  }

  /** The log after a run: what was there, the transcript event, then the outcome of a translatable transcript. */
  lemma RunLog(
    log: seq<Emission>, rest: seq<Emission>, sid: string, text: string, isFinal: bool, v: RunValues,
    insight: Option<Insight.CulturalInsight>, translation: string)
    requires rest == if Translatable(text, isFinal) then Outcome(sid, v, insight, translation) else []
    ensures log + [Emission(sid, TranscriptPartial(v.transcriptId, text, isFinal, v.timestamp, TranscriptConfidence))] + rest ==
      log + RunEmissions(sid, text, isFinal, v, insight, translation)
  {
    var first := Emission(sid, TranscriptPartial(v.transcriptId, text, isFinal, v.timestamp, TranscriptConfidence));
    assert RunEmissions(sid, text, isFinal, v, insight, translation) == [first] + rest;
    assert log + [first] + rest == log + ([first] + rest);
  }

  /** `connect`: a new session empties the buffer and routes transcripts to this client. */
  method Connect(engine: StreamingAsr.StreamingASREngine, sid: string)
    modifies engine
    ensures engine.audioBuffer == [] && engine.onTextCallback == Some(StreamingAsr.Callback(sid))
    ensures engine.modelLoaded == old(engine.modelLoaded) && engine.isProcessing == old(engine.isProcessing)
    ensures engine.lastProcessTime == old(engine.lastProcessTime)
    ensures engine.Valid()
  {
    engine.ClearBuffer();
    engine.SetCallback(Some(StreamingAsr.Callback(sid)));
  }

  /** `disconnect`: the engine is reset; the callback stays registered. */
  method Disconnect(engine: StreamingAsr.StreamingASREngine, sid: string)
    modifies engine
    ensures engine.audioBuffer == [] && !engine.isProcessing
    ensures engine.onTextCallback == old(engine.onTextCallback) && engine.modelLoaded == old(engine.modelLoaded)
    ensures engine.lastProcessTime == old(engine.lastProcessTime)
    ensures engine.Valid()
  {
    engine.Reset();
  }

  /** `audio_chunk` at time `now`: an empty payload is ignored; anything else goes to the recogniser. */
  method AudioChunk(engine: StreamingAsr.StreamingASREngine, data: seq<StreamingAsr.Byte>, now: int)
    returns (scheduled: bool)
    requires engine.Valid()
    modifies engine
    ensures engine.Valid()
    ensures data == [] ==> !scheduled && unchanged(engine)
    ensures data != [] && engine.modelLoaded && |data| % StreamingAsr.BytesPerSample == 0 ==>
      && engine.audioBuffer == StreamingAsr.Pushed(old(engine.audioBuffer), data)
      && scheduled == (now - old(engine.lastProcessTime) >= StreamingAsr.ProcessIntervalMs)
      && engine.lastProcessTime == (if scheduled then now else old(engine.lastProcessTime))
    ensures engine.modelLoaded == old(engine.modelLoaded) && engine.onTextCallback == old(engine.onTextCallback)
    ensures engine.isProcessing == old(engine.isProcessing)
    ensures !engine.modelLoaded || |data| % StreamingAsr.BytesPerSample != 0 ==> !scheduled && unchanged(engine)
  {
    if data == [] {
      return false;
    }
    scheduled := engine.ProcessAudio(data, now);
  }

  /** A `process_transcript` run the transcription callback schedules. */
  datatype Job = Job(sid: string, text: string, isFinal: bool)

  /**
   * A scheduled transcription pass followed by the callback: each delivered
   * text becomes a final-transcript job for the session the callback was
   * registered by, in delivery order.
   */
  method TranscriptionPass(engine: StreamingAsr.StreamingASREngine, recognize: StreamingAsr.Recognizer)
    returns (jobs: seq<Job>)
    requires engine.Valid()
    modifies engine
    ensures unchanged(engine)
    ensures engine.onTextCallback.None? ==> jobs == []
    ensures engine.onTextCallback.Some? ==>
      var delivered := if !engine.isProcessing && engine.modelLoaded &&
          StreamingAsr.SampleCount(engine.audioBuffer) >= StreamingAsr.MinSamples
        then StreamingAsr.Deliverable(recognize(Seqs.Flatten(engine.audioBuffer)).segments)
        else [];
      |jobs| == |delivered| &&
      forall i :: 0 <= i < |jobs| ==> jobs[i] == Job(engine.onTextCallback.value.sid, delivered[i], true)
  {
    var delivered := engine.ProcessBuffer(recognize);
    jobs := [];
    if engine.onTextCallback.Some? {
      var sid := engine.onTextCallback.value.sid;
      var i := 0;
      while i < |delivered|
        invariant 0 <= i <= |delivered| && |jobs| == i
        invariant forall k :: 0 <= k < i ==> jobs[k] == Job(sid, delivered[k], true)
      {
        jobs := jobs + [Job(sid, delivered[i], true)];
        i := i + 1;
      }
    }
  }
}
