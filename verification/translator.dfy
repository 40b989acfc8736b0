/**
 * The translation service (backend/src/services/translator.py). It asks the
 * shared model for a translation and falls back to the source text whenever
 * there is no usable reply.
 */
module Translator {
  import opened Wrappers
  import Text
  import Lora

  const TranslationTokens := 50

  /** `lang_map`: language codes the service names in full. */
  const LanguageNames: map<string, string> := map[
    "zh-TW" := "Traditional Chinese (繁體中文)",
    "zh" := "Chinese",
    "es" := "Spanish",
    "fr" := "French",
    "de" := "German",
    "ja" := "Japanese",
    "ko" := "Korean"
  ]

  /** `lang_map.get(code, code)`: a known code's name, otherwise the code itself. */
  function LanguageName(code: string): (name: string)
    ensures code in LanguageNames ==> name == LanguageNames[code]
    ensures code !in LanguageNames ==> name == code
  {
    if code in LanguageNames then LanguageNames[code] else code
  }

  /** A known code never names itself, so the lookup returns the code exactly for unknown codes. */
  lemma LanguageNameIsIdentityOnlyOnUnknown(code: string)
    ensures LanguageName(code) == code <==> code !in LanguageNames
  {
    if code in LanguageNames {
      assert code in {"zh-TW", "zh", "es", "fr", "de", "ja", "ko"};
      assert |LanguageNames[code]| > |code|;
    }
  }

  /** The context-bearing prompt is used exactly when a truthy context is given. */
  function PromptFor(text: string, culturalContext: Option<string>): (p: Lora.Prompt)
    ensures p.ContextTranslationPrompt? <==> Truthy(culturalContext)
    ensures p.TranslationPrompt? <==> !Truthy(culturalContext)
    ensures p.text == text
    ensures p.ContextTranslationPrompt? ==> p.context == culturalContext.value
  {
    if Truthy(culturalContext) then Lora.ContextTranslationPrompt(text, culturalContext.value)
    else Lora.TranslationPrompt(text)
  }

  /**
   * The line a reply is cut down to: the first line of the stripped reply,
   * stripped again. It is a single line with no surrounding whitespace,
   * taken from the reply, and all of the stripped reply when that has one line.
   */
  function ReplyLine(reply: string): (line: string)
    ensures '\n' !in line
    ensures line == [] || (!Text.IsSpace(line[0]) && !Text.IsSpace(line[|line| - 1]))
    ensures Text.Contains(reply, line)
    ensures '\n' !in reply ==> line == Text.Strip(reply)
  {
    var stripped := Text.Strip(reply);
    var first := Text.FirstLine(stripped);
    var line := Text.Strip(first);
    Text.StripKeepsAbsence(first, '\n');
    Text.ContainsStrip(first);
    Text.ContainsFirstLine(stripped);
    Text.ContainsStrip(reply);
    Text.ContainsTransitive(stripped, first, line);
    Text.ContainsTransitive(reply, stripped, line);
    assert '\n' !in reply ==> line == Text.Strip(reply) by {
      if '\n' !in reply {
        Text.StripKeepsAbsence(reply, '\n');
        Text.ContainsFirstLine(stripped);
        Text.StripIdempotent(reply);
      }
    }
    line
  }

  /**
   * `translate`: the source text unchanged unless the model is ready and its
   * reply yields a non-empty line other than the sentinel; then that line.
   * The target language is looked up but neither prompt uses it.
   */
  function Translate(
    lora: Lora.LoRAManager, text: string, targetLang: string, culturalContext: Option<string>,
    llm: Lora.Generator): (r: string)
    reads lora
    ensures !lora.IsModelReady() ==> r == text
    ensures lora.IsModelReady() ==>
      var line := ReplyLine(lora.Generate(PromptFor(text, culturalContext), TranslationTokens, llm));
      r == if line == Lora.MockedResponse || line == "" then text else line
    ensures r == text ||
      (r != "" && r != Lora.MockedResponse && '\n' !in r &&
       Text.Contains(lora.Generate(PromptFor(text, culturalContext), TranslationTokens, llm), r))
  {
    if !lora.IsModelReady() then text
    else
      var targetLanguage := LanguageName(targetLang);
      var reply := lora.Generate(PromptFor(text, culturalContext), TranslationTokens, llm);
      var line := ReplyLine(reply);
      if line == Lora.MockedResponse || line == "" then text else line
  }
}
