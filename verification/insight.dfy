/**
 * Cultural-insight detection and assembly (backend/src/services/insight.py).
 * The language model and the search client are the collaborators; what they
 * return is given, and everything built from it here is exact.
 */
module Insight {
  import opened Wrappers
  import Text
  import Lora
  import Exa

  const QuerySuffix := " meaning slang idiom cultural explanation"
  const DetectionTokens := 5
  const ExplanationTokens := 150
  const CitationCount := 3
  const ContextCount := 2
  const CitationSnippetLimit := 200
  const ExplanationSnippetLimit := 500
  const FallbackSnippetLimit := 100
  const FallbackLead := " 的文化背景："

  /** The insight record the generator produces. */
  datatype CulturalInsight = CulturalInsight(
    id: string,
    sourceText: string,
    explanation: string,
    contextType: string,
    sources: seq<Exa.Record>,
    searchContext: string,
    relevanceScore: real)

  /** The part of an insight sent to clients: phrase, explanation, type and sources. */
  datatype InsightSummary = InsightSummary(
    phrase: string, explanation: string, kind: string, sources: seq<Exa.Record>)

  function Summary(i: CulturalInsight): InsightSummary {
    InsightSummary(i.sourceText, i.explanation, i.contextType, i.sources)
  }

  /**
   * `_should_search`: the model is asked for YES or NO, and the answer counts
   * as yes when "YES" occurs anywhere in it, ignoring case of ASCII letters.
   * Surrounding whitespace, which the source strips, cannot matter.
   */
  function ShouldSearch(lora: Lora.LoRAManager, text: string, llm: Lora.Generator): (b: bool)
    reads lora
    ensures b <==> Text.Contains(Text.Upper(lora.Generate(Lora.DetectionPrompt(text), DetectionTokens, llm)), "YES")
  {
    var response := lora.Generate(Lora.DetectionPrompt(text), DetectionTokens, llm);
    assert Text.NoSpace("YES");
    Text.ContainsUpperStripped(response, "YES");
    Text.Contains(Text.Upper(Text.Strip(response)), "YES")
  }

  /** A text without the letter y in either case, upper-cased, does not contain "YES". */
  lemma NoYesWithoutY(s: string)
    requires forall k :: 0 <= k < |s| ==> s[k] != 'Y' && s[k] != 'y'
    ensures !Text.Contains(Text.Upper(s), "YES")
  {
    var u := Text.Upper(s);
    forall i | 0 <= i && i + 3 <= |u| ensures !Text.OccursAt(u, "YES", i) {
      assert u[i..i + 3][0] == u[i] == Text.UpperChar(s[i]);
    }
    Text.ContainsIff(u, "YES");
  }

  /** While the model is not loaded the detector always answers no. */
  lemma NotReadyNeverSearches(lora: Lora.LoRAManager, text: string, llm: Lora.Generator)
    requires !lora.IsModelReady()
    ensures !ShouldSearch(lora, text, llm)
  {
    var m := Lora.MockedResponse;
    assert forall k :: 0 <= k < |m| ==> m[k] != 'Y' && m[k] != 'y';
    NoYesWithoutY(m);
  }

  /** The search query: the text followed by fixed qualifying words. */
  function Query(text: string): (q: string)
    ensures Text.StartsWith(q, text) && q[|text|..] == QuerySuffix
  {
    text + QuerySuffix
  }

  /** `r.get('snippet', r.get('text', absent))`. */
  function SnippetOf(r: Exa.Record, absent: string): string {
    Exa.Get(r, "snippet", Exa.Get(r, "text", absent))
  }

  /** One context block of the explanation prompt. */
  function ExplanationBlock(n: nat, r: Exa.Record): string {
    "Source " + Text.DecimalString(n) + ": " + Exa.Get(r, "title", "Unknown") + "\n"
      + Text.Take(SnippetOf(r, "No content"), ExplanationSnippetLimit)
  }

  /** The explanation prompt's context: the top three results, numbered from 1. */
  function ExplanationContext(results: seq<Exa.Record>): string {
    var top := Text.Take(results, CitationCount);
    Text.Join("\n\n", seq(|top|, i requires 0 <= i < |top| => ExplanationBlock(i + 1, top[i])))
  }

  /**
   * `_generate_explanation`: the stripped reply to the explanation prompt,
   * which is the sentinel while the model is not loaded.
   */
  function GenerateExplanation(
    lora: Lora.LoRAManager, text: string, results: seq<Exa.Record>, llm: Lora.Generator): (e: string)
    reads lora
    ensures e == [] || (!Text.IsSpace(e[0]) && !Text.IsSpace(e[|e| - 1]))
    ensures !lora.IsModelReady() ==> e == Lora.MockedResponse
  {
    var reply := lora.Generate(Lora.ExplanationPrompt(text, ExplanationContext(results)), ExplanationTokens, llm);
    MockedResponseIsStripped();
    Text.Strip(reply)
  }

  lemma MockedResponseIsStripped()
    ensures Text.Strip(Lora.MockedResponse) == Lora.MockedResponse
  {
    var m := Lora.MockedResponse;
    assert m[0] == 'M' && m[|m| - 1] == 'E';
    Text.StripUnpadded(m);
  }

  /**
   * The explanation `_generate_explanation` falls back to when generation
   * raises: the text, a fixed lead, and the first 100 characters of the top
   * two snippets separated by a space.
   */
  function FallbackExplanation(text: string, results: seq<Exa.Record>): (e: string)
    ensures Text.StartsWith(e, text + FallbackLead)
    ensures results == [] ==> e == text + FallbackLead
    ensures |e| <= |text| + |FallbackLead| + 2 * FallbackSnippetLimit + 1
  {
    var top := Text.Take(results, ContextCount);
    var parts := seq(|top|, i requires 0 <= i < |top| => Text.Take(Exa.Get(top[i], "snippet", ""), FallbackSnippetLimit));
    assert |parts| == 2 ==> Text.Join(" ", parts) == parts[0] + " " + parts[1];
    text + FallbackLead + Text.Join(" ", parts)
  }

  /** One block of the translation context: `Source: {title}\nContext: {snippet}`. */
  function ContextBlock(r: Exa.Record): (b: string)
    ensures Text.StartsWith(b, "Source: ")
  {
    "Source: " + Exa.Get(r, "title", "Unknown") + "\nContext: " + SnippetOf(r, "")
  }

  /** The raw context handed to the translator: the top two results' blocks, blank-line separated. */
  function SearchContextOf(results: seq<Exa.Record>): (c: string)
    ensures |results| == 0 ==> c == ""
    ensures |results| == 1 ==> c == ContextBlock(results[0])
    ensures |results| >= 2 ==> c == ContextBlock(results[0]) + "\n\n" + ContextBlock(results[1])
  {
    var top := Text.Take(results, ContextCount);
    var blocks := seq(|top|, i requires 0 <= i < |top| => ContextBlock(top[i]));
    assert |blocks| == 2 ==> Text.Join("\n\n", blocks) == blocks[0] + "\n\n" + Text.Join("\n\n", blocks[1..]);
    Text.Join("\n\n", blocks)
  }

  /** A citation: url and title (default ""), and the snippet cut to 200 characters. */
  function Citation(r: Exa.Record): (c: Exa.Record)
    ensures c.Keys == {"url", "title", "snippet"}
    ensures c["url"] == Exa.Get(r, "url", "") && c["title"] == Exa.Get(r, "title", "")
    ensures |c["snippet"]| <= CitationSnippetLimit
    ensures Text.StartsWith(SnippetOf(r, ""), c["snippet"])
  {
    map["url" := Exa.Get(r, "url", ""),
        "title" := Exa.Get(r, "title", ""),
        "snippet" := Text.Take(SnippetOf(r, ""), CitationSnippetLimit)]
  }

  /** The results the generator works from for a given text. */
  function ResultsFor(exa: Exa.ExaClient, text: string, search: Exa.SearchService): seq<Exa.Record> {
    Exa.SearchContext(exa, Query(text), search)
  }

  /**
   * `process`: no insight unless the detector says yes and the search finds
   * something; otherwise an insight about the whole text, citing the top
   * three results and carrying the top two as translation context.
   */
  function Process(
    lora: Lora.LoRAManager, exa: Exa.ExaClient, text: string, id: string,
    llm: Lora.Generator, search: Exa.SearchService): (r: Option<CulturalInsight>)
    reads lora
    ensures !ShouldSearch(lora, text, llm) ==> r == None
    ensures ShouldSearch(lora, text, llm) ==> (r.Some? <==> ResultsFor(exa, text, search) != [])
    ensures r.Some? ==>
      var results := ResultsFor(exa, text, search);
      && r.value.id == id
      && r.value.sourceText == text
      && r.value.contextType == "slang"
      && r.value.relevanceScore == 0.9
      && r.value.explanation == GenerateExplanation(lora, text, results, llm)
      && |r.value.sources| == (if |results| < CitationCount then |results| else CitationCount)
      && (forall i :: 0 <= i < |r.value.sources| ==> r.value.sources[i] == Citation(results[i]))
      && r.value.searchContext == SearchContextOf(results)
  {
    if !ShouldSearch(lora, text, llm) then None
    else
      var results := ResultsFor(exa, text, search);
      if |results| == 0 then None
      else Some(InsightOf(lora, text, id, results, llm))
  }

  /** The insight built from a non-empty list of search results. */
  function InsightOf(
    lora: Lora.LoRAManager, text: string, id: string, results: seq<Exa.Record>, llm: Lora.Generator): (c: CulturalInsight)
    reads lora
    ensures && c.id == id
            && c.sourceText == text
            && c.contextType == "slang"
            && c.relevanceScore == 0.9
            && c.explanation == GenerateExplanation(lora, text, results, llm)
            && |c.sources| == (if |results| < CitationCount then |results| else CitationCount)
            && (forall i :: 0 <= i < |c.sources| ==> c.sources[i] == Citation(results[i]))
            && c.searchContext == SearchContextOf(results)
  {
    var top := Text.Take(results, CitationCount);
    CulturalInsight(
      id := id,
      sourceText := text,
      explanation := GenerateExplanation(lora, text, results, llm),
      contextType := "slang",
      sources := seq(|top|, i requires 0 <= i < |top| => Citation(top[i])),
      searchContext := SearchContextOf(results),
      relevanceScore := 0.9)
  }

  /** Without a loaded model no insight is ever produced. */
  lemma NotReadyNoInsight(
    lora: Lora.LoRAManager, exa: Exa.ExaClient, text: string, id: string,
    llm: Lora.Generator, search: Exa.SearchService)
    requires !lora.IsModelReady()
    ensures Process(lora, exa, text, id, llm, search) == None
  {
    NotReadyNeverSearches(lora, text, llm);
  }

  /** The context the translator receives: the insight's search context, when one exists and is non-empty. */
  function TranslationContext(insight: Option<CulturalInsight>): (c: Option<string>)
    ensures Truthy(c) <==> insight.Some? && insight.value.searchContext != ""
    ensures c.Some? ==> insight.Some? && c.value == insight.value.searchContext
  {
    if insight.Some? && insight.value.searchContext != "" then Some(insight.value.searchContext) else None
  }

  /** Every insight `Process` produces carries a non-empty search context, so it is translated with context. */
  lemma InsightCarriesContext(
    lora: Lora.LoRAManager, exa: Exa.ExaClient, text: string, id: string,
    llm: Lora.Generator, search: Exa.SearchService)
    ensures var insight := Process(lora, exa, text, id, llm, search);
      Truthy(TranslationContext(insight)) <==> insight.Some?
  {
    var insight := Process(lora, exa, text, id, llm, search);
    if insight.Some? {
      var results := ResultsFor(exa, text, search);
      assert results != [];
      var block := ContextBlock(results[0]);
      assert |block| >= 8;
      assert |SearchContextOf(results)| >= |block|;
    }
  }
}
