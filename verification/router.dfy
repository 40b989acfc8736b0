/**
 * The idiom router (backend/src/agents/router.py): a search of the
 * lower-cased text for the first listed idiom it contains.
 */
module Router {
  import opened Wrappers
  import Text

  /** `IDIOM_PHRASES`, in list order. */
  const IdiomPhrases: seq<string> := [
    "break a leg", "knock them dead", "knock 'em dead",
    "raining cats and dogs", "it's raining cats and dogs",
    "under the weather", "feeling under the weather",
    "on the fence", "on cloud nine", "feeling blue",
    "let the cat out of the bag", "spill the beans",
    "piece of cake", "when life gives you lemons",
    "burning the midnight oil", "hit the nail on the head",
    "bite the bullet", "cost an arm and a leg",
    "the early bird catches the worm", "better late than never",
    "back to square one", "beat around the bush",
    "once in a blue moon", "the ball is in your court",
    "barking up the wrong tree", "cutting corners",
    "cold feet", "chip on", "last straw", "cry over spilled milk",
    "rage bait", "no cap", "bussin", "salty", "vibe check",
    "gaslighting", "lowkey", "capping", "mid", "touch grass"
  ]

  /** The dict `analyze` returns when it finds an idiom. */
  datatype Detection = Detection(detected: bool, phrase: string, kind: string, reasoning: string)

  /** Index of the first of `phrases` that occurs in `s`, or -1 when none does. */
  function FirstMatch(phrases: seq<string>, s: string): (k: int)
    ensures -1 <= k < |phrases|
    ensures k >= 0 ==> Text.Contains(s, phrases[k])
    ensures k >= 0 ==> forall j :: 0 <= j < k ==> !Text.Contains(s, phrases[j])
    ensures k == -1 ==> forall j :: 0 <= j < |phrases| ==> !Text.Contains(s, phrases[j])
  {
    if |phrases| == 0 then -1
    else if Text.Contains(s, phrases[0]) then 0
    else
      var k := FirstMatch(phrases[1..], s);
      if k == -1 then -1 else k + 1
  }

  /** Entry `k` occurs in `s` and no entry listed before it does. */
  predicate ListedFirst(s: string, k: int) {
    && 0 <= k < |IdiomPhrases|
    && Text.Contains(s, IdiomPhrases[k])
    && forall j :: 0 <= j < k ==> !Text.Contains(s, IdiomPhrases[j])
  }

  /**
   * `analyze`: nothing when no listed idiom occurs in the lower-cased text;
   * otherwise the first listed idiom that does, reported as detected and of
   * type "idiom".
   */
  function Analyze(text: string): (r: Option<Detection>)
    ensures r.None? <==> forall j :: 0 <= j < |IdiomPhrases| ==> !Text.Contains(Text.Lower(text), IdiomPhrases[j])
    ensures r.Some? ==> r.value.detected && r.value.kind == "idiom"
    ensures r.Some? ==> Text.Contains(Text.Lower(text), r.value.phrase)
    ensures r.Some? ==> exists k :: ListedFirst(Text.Lower(text), k) && IdiomPhrases[k] == r.value.phrase
  {
    var k := FirstMatch(IdiomPhrases, Text.Lower(text));
    if k == -1 then None
    else
      var idiom := IdiomPhrases[k];
      Some(Detection(
        detected := true,
        phrase := idiom,
        kind := "idiom",
        reasoning := "The phrase '" + idiom + "' is a common English idiom with cultural meaning."))
  }

  /** Upper-casing or lower-casing the ASCII letters of the input does not change the result. */
  lemma AnalyzeIgnoresCase(text: string)
    ensures Analyze(Text.Upper(text)) == Analyze(text)
    ensures Analyze(Text.Lower(text)) == Analyze(text)
  {
    assert Text.Lower(Text.Upper(text)) == Text.Lower(text);
    assert Text.Lower(Text.Lower(text)) == Text.Lower(text);
  }

  /** Entries 4 and 6 are the only places the two longer entries are listed. */
  lemma LongerEntriesListedOnce(k: int)
    requires 0 <= k < |IdiomPhrases|
    ensures IdiomPhrases[k] == "it's raining cats and dogs" ==> k == 4
    ensures IdiomPhrases[k] == "feeling under the weather" ==> k == 6
  {
  }

  /** When a text contains a longer string holding entry `i`, the first match is at or before `i`. */
  lemma MatchNoLaterThan(phrases: seq<string>, s: string, i: nat, longer: string, offset: nat)
    requires i < |phrases| && Text.OccursAt(longer, phrases[i], offset)
    requires Text.Contains(s, longer)
    ensures 0 <= FirstMatch(phrases, s) <= i
  {
    Text.ContainsFromOccurrence(longer, phrases[i], offset);
    Text.ContainsTransitive(s, longer, phrases[i]);
  }

  /** "it's raining cats and dogs" (entry 4) holds entry 3, so it is never the first match. */
  lemma RainShadowed(s: string)
    ensures FirstMatch(IdiomPhrases, s) != 4
  {
    var rain, longRain := "raining cats and dogs", "it's raining cats and dogs";
    assert IdiomPhrases[3] == rain && IdiomPhrases[4] == longRain;
    assert longRain[5..] == rain;
    if Text.Contains(s, longRain) {
      MatchNoLaterThan(IdiomPhrases, s, 3, longRain, 5);
    }
  }

  /** "feeling under the weather" (entry 6) holds entry 5, so it is never the first match. */
  lemma WeatherShadowed(s: string)
    ensures FirstMatch(IdiomPhrases, s) != 6
  {
    var weather, longWeather := "under the weather", "feeling under the weather";
    assert IdiomPhrases[5] == weather && IdiomPhrases[6] == longWeather;
    assert longWeather[8..] == weather;
    if Text.Contains(s, longWeather) {
      MatchNoLaterThan(IdiomPhrases, s, 5, longWeather, 8);
    }
  }

  /**
   * Two entries can never be reported: each contains an entry listed before
   * it, which matches first.
   */
  lemma ShadowedPhrasesNeverReported(text: string)
    ensures var r := Analyze(text);
      r.Some? ==> r.value.phrase != "it's raining cats and dogs" && r.value.phrase != "feeling under the weather"
  {
    var s := Text.Lower(text);
    var k := FirstMatch(IdiomPhrases, s);
    RainShadowed(s);
    WeatherShadowed(s);
    if k >= 0 {
      LongerEntriesListedOnce(k);
    }
  }
}
