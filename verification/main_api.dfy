/**
 * The HTTP endpoints of the backend (backend/src/main.py) that carry logic:
 * the text test endpoint, which runs the same insight-then-translate steps
 * as the socket pipeline and answers with one response, and the health check.
 */
module Api {
  import opened Wrappers
  import Lora
  import Exa
  import Insight
  import Translator
  import Events

  /** The JSON body of a successful `/api/test-text` call. */
  datatype TextResponse = TextResponse(
    sourceText: string,
    targetLang: string,
    translatedText: string,
    culturalInsight: Option<Insight.InsightSummary>)

  /** FastAPI's `HTTPException`: a status code and a detail message. */
  datatype HttpError = HttpError(statusCode: int, detail: string)

  const InternalServerError := 500

  /**
   * `test_text`. The only step that can raise is the lookup of connected
   * clients for the log line; `participantsFailure` is the message it raises
   * with, if it does. Otherwise the response carries the text, "zh-TW", the
   * translation (with the insight's search context when it has one) and,
   * exactly when an insight was produced, that insight.
   */
  method TestText(svc: Events.Services, text: string, insightId: string, participantsFailure: Option<string>)
    returns (r: Result<TextResponse, HttpError>)
    ensures r.Failure? <==> participantsFailure.Some?
    ensures r.Failure? ==> r.error == HttpError(InternalServerError, participantsFailure.value)
    ensures r.Success? ==>
      var v := Events.RunValues("", insightId, "", 0);
      && r.value.sourceText == text
      && r.value.targetLang == Events.TargetLang
      && r.value.translatedText == Events.TranslationFor(svc, text, v)
      && (r.value.culturalInsight.Some? <==> Events.InsightFor(svc, text, v).Some?)
      && (r.value.culturalInsight.Some? ==>
            r.value.culturalInsight.value == Insight.Summary(Events.InsightFor(svc, text, v).value))
  {
    if participantsFailure.Some? {
      return Failure(HttpError(InternalServerError, participantsFailure.value));
    }
    // `test_text` makes no transcript and measures no latency: of the run's
    // values only the insight's id is real, and the others are left empty.
    var v := Events.RunValues("", insightId, "", 0);
    var insight, translation := Events.InsightAndTranslation(svc, text, v);
    var response := TextResponse(text, Events.TargetLang, translation, None);
    if insight.Some? {
      response := response.(culturalInsight := Some(Insight.Summary(insight.value)));
    }
    r := Success(response);
  }

  /** The `/health` body. */
  datatype Health = Health(
    status: string, modelLoaded: bool, modelLoading: bool, modelPath: string, modelError: Option<string>)

  /** `health_check`: a snapshot of the model manager's state. */
  function HealthCheck(lora: Lora.LoRAManager): (h: Health)
    reads lora
    ensures h.status == "ok"
    ensures h.modelLoaded <==> lora.model.Some? && lora.tokenizer.Some?
    ensures h.modelLoading == lora.isLoading && h.modelError == lora.loadError
    ensures h.modelPath == lora.modelPath
  {
    Health("ok", lora.IsModelReady(), lora.isLoading, lora.modelPath, lora.loadError)
  }

  /**
   * What the health check reports about generation: while it reports the
   * model as not loaded every generation is the sentinel, and while it reports
   * it as loaded every generation that does not raise is the model's output.
   */
  lemma HealthPredictsGeneration(lora: Lora.LoRAManager, prompt: Lora.Prompt, maxTokens: nat, llm: Lora.Generator)
    ensures !HealthCheck(lora).modelLoaded ==> lora.Generate(prompt, maxTokens, llm) == Lora.MockedResponse
    ensures HealthCheck(lora).modelLoaded && llm(prompt, maxTokens).Generated? ==>
      lora.Generate(prompt, maxTokens, llm) == llm(prompt, maxTokens).text
  {
  }
}
