/**
 * The frontend's application store (frontend/src/store/useAppStore.ts).
 * Every action computes a new state from the old one, so each is a function
 * from state to state; fields an action does not name are kept, as the
 * store's shallow merge keeps them.
 */
module AppStore {
  import Text

  datatype Status = Idle | Listening | Processing | Error

  datatype TranscriptChunk = TranscriptChunk(
    id: string, text: string, isFinal: bool, timestamp: int, confidence: real)

  datatype Translation = Translation(
    chunkId: string, targetLang: string, translatedText: string, latencyMs: int)

  datatype Source = Source(url: string, title: string, snippet: string)

  /** A cultural insight as the client stores it; `phrase` and `sourceText` are aliases, as are `contextType` and `kind`. */
  datatype CulturalInsight = CulturalInsight(
    sourceText: string, phrase: string, explanation: string, contextType: string, kind: string,
    sources: seq<Source>)

  datatype AppState = AppState(
    status: Status,
    transcript: seq<TranscriptChunk>,
    translations: map<string, Translation>,
    insights: seq<CulturalInsight>)

  /** The store's initial value. */
  const Initial := AppState(Idle, [], map[], [])

  function SetStatus(s: AppState, status: Status): (r: AppState)
    ensures r.status == status
    ensures r.transcript == s.transcript && r.translations == s.translations && r.insights == s.insights
  {
    s.(status := status)
  }

  /** `findIndex(c => c.id === id)`: the first chunk with that id, or -1. */
  function FindChunk(transcript: seq<TranscriptChunk>, id: string): (k: int)
    ensures -1 <= k < |transcript|
    ensures k >= 0 ==> transcript[k].id == id && forall j :: 0 <= j < k ==> transcript[j].id != id
    ensures k == -1 ==> forall j :: 0 <= j < |transcript| ==> transcript[j].id != id
  {
    if |transcript| == 0 then -1
    else if transcript[0].id == id then 0
    else
      var k := FindChunk(transcript[1..], id);
      if k == -1 then -1 else k + 1
  }

  /**
   * `addTranscriptChunk`: a chunk whose id is already present replaces the
   * first chunk with that id, in place; a chunk with a new id is appended.
   */
  function AddTranscriptChunk(s: AppState, chunk: TranscriptChunk): (r: AppState)
    ensures r.status == s.status && r.translations == s.translations && r.insights == s.insights
    ensures (exists j :: 0 <= j < |s.transcript| && s.transcript[j].id == chunk.id) ==>
      && |r.transcript| == |s.transcript|
      && var k := FindChunk(s.transcript, chunk.id);
         r.transcript[k] == chunk && forall j :: 0 <= j < |s.transcript| && j != k ==> r.transcript[j] == s.transcript[j]
    ensures (forall j :: 0 <= j < |s.transcript| ==> s.transcript[j].id != chunk.id) ==>
      r.transcript == s.transcript + [chunk]
  {
    var k := FindChunk(s.transcript, chunk.id);
    if k != -1 then s.(transcript := s.transcript[k := chunk])
    else s.(transcript := s.transcript + [chunk])
  }

  /** No two chunks share an id. */
  predicate UniqueIds(transcript: seq<TranscriptChunk>) {
    forall i, j :: 0 <= i < j < |transcript| ==> transcript[i].id != transcript[j].id
  }

  /** Adding a chunk keeps chunk ids unique, and the added chunk is then present. */
  lemma AddTranscriptChunkKeepsIdsUnique(s: AppState, chunk: TranscriptChunk)
    requires UniqueIds(s.transcript)
    ensures UniqueIds(AddTranscriptChunk(s, chunk).transcript)
    ensures chunk in AddTranscriptChunk(s, chunk).transcript
  {
    var r := AddTranscriptChunk(s, chunk).transcript;
    var k := FindChunk(s.transcript, chunk.id);
    if k != -1 {
      forall i, j | 0 <= i < j < |r| ensures r[i].id != r[j].id {
        if i != k && j != k {
          assert r[i] == s.transcript[i] && r[j] == s.transcript[j];
        } else if i == k {
          assert r[j] == s.transcript[j];
          assert s.transcript[k].id == chunk.id;
        } else {
          assert r[i] == s.transcript[i];
          assert s.transcript[k].id == chunk.id;
        }
      }
      assert r[k] == chunk;
    } else {
      assert r[|r| - 1] == chunk;
    }
  }

  /** `updateTranslation`: the entry for the translation's chunk is set; every other entry is kept. */
  function UpdateTranslation(s: AppState, t: Translation): (r: AppState)
    ensures r.status == s.status && r.transcript == s.transcript && r.insights == s.insights
    ensures r.translations.Keys == s.translations.Keys + {t.chunkId}
    ensures r.translations[t.chunkId] == t
    ensures forall id :: id in s.translations && id != t.chunkId ==> r.translations[id] == s.translations[id]
  {
    s.(translations := s.translations[t.chunkId := t])
  }

  /** The dedup key: the phrase (or, when empty, the source text), lower-cased. */
  function InsightKey(i: CulturalInsight): string {
    Text.Lower(if i.phrase != "" then i.phrase else i.sourceText)
  }

  /** The first stored insight with the given key, or -1. */
  function FindInsight(insights: seq<CulturalInsight>, key: string): (k: int)
    ensures -1 <= k < |insights|
    ensures k >= 0 ==> InsightKey(insights[k]) == key && forall j :: 0 <= j < k ==> InsightKey(insights[j]) != key
    ensures k == -1 ==> forall j :: 0 <= j < |insights| ==> InsightKey(insights[j]) != key
  {
    if |insights| == 0 then -1
    else if InsightKey(insights[0]) == key then 0
    else
      var k := FindInsight(insights[1..], key);
      if k == -1 then -1 else k + 1
  }

  /** `insights` with its element `k` moved to the front. */
  function MoveToFront<T>(s: seq<T>, k: nat): (r: seq<T>)
    requires k < |s|
    ensures |r| == |s| && r[0] == s[k]
    ensures forall j :: 0 <= j < k ==> r[j + 1] == s[j]
    ensures forall j :: k < j < |s| ==> r[j] == s[j]
  {
    [s[k]] + s[..k] + s[k + 1..]
  }

  /** Moving an element to the front only reorders the sequence. */
  lemma MoveToFrontIsPermutation<T>(s: seq<T>, k: nat)
    requires k < |s|
    ensures multiset(MoveToFront(s, k)) == multiset(s)
  {
    assert s == s[..k] + [s[k]] + s[k + 1..];
  }

  /**
   * `addInsight`: when an insight with the same key is stored, that stored
   * insight moves to the front and the new one is dropped; otherwise the new
   * insight is put at the front.
   */
  function AddInsight(s: AppState, insight: CulturalInsight): (r: AppState)
    ensures r.status == s.status && r.transcript == s.transcript && r.translations == s.translations
    ensures (exists j :: 0 <= j < |s.insights| && InsightKey(s.insights[j]) == InsightKey(insight)) ==>
      var k := FindInsight(s.insights, InsightKey(insight));
      r.insights == MoveToFront(s.insights, k) && multiset(r.insights) == multiset(s.insights)
    ensures (forall j :: 0 <= j < |s.insights| ==> InsightKey(s.insights[j]) != InsightKey(insight)) ==>
      r.insights == [insight] + s.insights
    ensures |r.insights| >= 1 && InsightKey(r.insights[0]) == InsightKey(insight)
  {
    var k := FindInsight(s.insights, InsightKey(insight));
    if k != -1 then
      MoveToFrontIsPermutation(s.insights, k);
      s.(insights := MoveToFront(s.insights, k))
    else s.(insights := [insight] + s.insights)
  }

  /** No element occurs twice. */
  predicate Distinct<T(==)>(s: seq<T>) {
    forall i, j :: 0 <= i < j < |s| ==> s[i] != s[j]
  }

  /** Moving an element to the front keeps the elements distinct. */
  lemma MoveToFrontKeepsDistinct<T>(s: seq<T>, k: nat)
    requires k < |s| && Distinct(s)
    ensures Distinct(MoveToFront(s, k))
  {
    var r := MoveToFront(s, k);
    forall i, j | 0 <= i < j < |r| ensures r[i] != r[j] {
      var pi := if i == 0 then k else if i <= k then i - 1 else i;
      var pj := if j <= k then j - 1 else j;
      assert r[i] == s[pi] && r[j] == s[pj] && pi != pj;
    }
  }

  /** The keys of the stored insights, in order. */
  function Keys(insights: seq<CulturalInsight>): (ks: seq<string>)
    ensures |ks| == |insights| && forall i :: 0 <= i < |insights| ==> ks[i] == InsightKey(insights[i])
  {
    seq(|insights|, i requires 0 <= i < |insights| => InsightKey(insights[i]))
  }

  /** No two stored insights share a key. */
  predicate UniqueKeys(insights: seq<CulturalInsight>) {
    Distinct(Keys(insights))
  }

  /** Adding an insight keeps the stored keys unique. */
  lemma AddInsightKeepsKeysUnique(s: AppState, insight: CulturalInsight)
    requires UniqueKeys(s.insights)
    ensures UniqueKeys(AddInsight(s, insight).insights)
  {
    var r := AddInsight(s, insight).insights;
    var k := FindInsight(s.insights, InsightKey(insight));
    if k == -1 {
      assert Keys(r) == [InsightKey(insight)] + Keys(s.insights);
    } else {
      KeysOfMoveToFront(s.insights, k);
      MoveToFrontKeepsDistinct(Keys(s.insights), k);
    }
  }

  /** The keys of the reordered insights are the reordered keys. */
  lemma KeysOfMoveToFront(insights: seq<CulturalInsight>, k: nat)
    requires k < |insights|
    ensures Keys(MoveToFront(insights, k)) == MoveToFront(Keys(insights), k)
  {
  }

  /** `clearTranscript`: transcript and translations emptied; insights and status kept. */
  function ClearTranscript(s: AppState): (r: AppState)
    ensures r.transcript == [] && r.translations == map[]
    ensures r.status == s.status && r.insights == s.insights
  {
    s.(transcript := [], translations := map[])
  }

  /** `reset`: every field back to its initial value, whatever the state was. */
  function Reset(s: AppState): (r: AppState)
    ensures r == Initial
    ensures r.status == Idle && r.transcript == [] && r.translations == map[] && r.insights == []
  {
    AppState(Idle, [], map[], [])
  }

  /** Resetting twice is resetting once, and clearing a reset store changes nothing. */
  lemma ResetIdempotent(s: AppState)
    ensures Reset(Reset(s)) == Reset(s)
    ensures ClearTranscript(Reset(s)) == Reset(s)
  {
  }
}
