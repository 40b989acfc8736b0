/**
 * The process-wide language-model manager (backend/src/agents/lora.py).
 * Loading is a sequence of field updates across two attempts; readiness
 * and generation read those fields. The model library itself is abstract:
 * a load is a given outcome and generation is a given function of the prompt.
 */
module Lora {
  import opened Wrappers

  /** The text `generate` returns whenever it has no real output. */
  const MockedResponse := "MOCKED_LLM_RESPONSE"

  /** An opaque loaded object (model or tokenizer). */
  type Handle = nat

  /** The prompts the backend sends: which template, and the values filled into it. */
  datatype Prompt =
    | DetectionPrompt(text: string)
    | ExplanationPrompt(text: string, context: string)
    | TranslationPrompt(text: string)
    | ContextTranslationPrompt(text: string, context: string)

  /** What one call into the generation library does. */
  datatype Generation = Generated(text: string) | GenerationRaised(message: string)

  /** The generation library: prompt and token budget to outcome. */
  type Generator = (Prompt, nat) -> Generation

  /** What one call into the model loader does. */
  datatype LoadOutcome = Loaded(model: Handle, tokenizer: Handle) | LoadRaised(message: string)

  class LoRAManager {
    const modelPath: string
    var model: Option<Handle>
    var tokenizer: Option<Handle>
    var isLoading: bool
    var loadError: Option<string>

    /** The state before the background load has run. */
    constructor (modelPath: string)
      ensures this.modelPath == modelPath
      ensures model == None && tokenizer == None
      ensures !isLoading && loadError == None
    {
      this.modelPath := modelPath;
      model, tokenizer := None, None;
      isLoading, loadError := false, None;
    }

    /** Ready exactly when both the model and the tokenizer are loaded. */
    predicate IsModelReady()
      reads this
    {
      model.Some? && tokenizer.Some?
    }

    /**
     * The background load: first with the fine-tuned adapter, and if that
     * raises, the base model alone; if that raises too, the error is kept.
     */
    method LoadModel(withAdapter: LoadOutcome, baseOnly: LoadOutcome)
      modifies this
      ensures !isLoading
      ensures withAdapter.Loaded? ==>
        model == Some(withAdapter.model) && tokenizer == Some(withAdapter.tokenizer) &&
        loadError == old(loadError)
      ensures withAdapter.LoadRaised? && baseOnly.Loaded? ==>
        model == Some(baseOnly.model) && tokenizer == Some(baseOnly.tokenizer) &&
        loadError == old(loadError)
      ensures withAdapter.LoadRaised? && baseOnly.LoadRaised? ==>
        model == None && tokenizer == None && loadError == Some(baseOnly.message)
      ensures IsModelReady() <==> withAdapter.Loaded? || baseOnly.Loaded?
    {
      isLoading := true;
      match withAdapter {
        case Loaded(m, t) =>
          model, tokenizer := Some(m), Some(t);
          isLoading := false;
        case LoadRaised(_) =>
          match baseOnly {
            case Loaded(m, t) =>
              model, tokenizer := Some(m), Some(t);
              isLoading := false;
            case LoadRaised(message) =>
              loadError := Some(message);
              isLoading := false;
              model := None;
              tokenizer := None;
          }
      }
    }

    /** Registering an adapter is logged and otherwise does nothing. */
    method LoadAdapter(adapterName: string, adapterPath: string)
      ensures unchanged(this)
    {
    }

    /**
     * Text generation: the library's output when the manager is ready and the
     * library returns; the sentinel when not ready or when the library raises.
     */
    function Generate(prompt: Prompt, maxTokens: nat, llm: Generator): (r: string)
      reads this
      ensures !IsModelReady() ==> r == MockedResponse
      ensures llm(prompt, maxTokens).GenerationRaised? ==> r == MockedResponse
      ensures r != MockedResponse ==> IsModelReady() && llm(prompt, maxTokens) == Generated(r)
    {
      if model.None? || tokenizer.None? then MockedResponse
      else match llm(prompt, maxTokens)
        case Generated(text) => text
        case GenerationRaised(_) => MockedResponse
    }
  }
}
