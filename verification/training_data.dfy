/**
 * Preparation of the translation fine-tuning data
 * (backend/prepare_training_data.py): a length filter over English/Chinese
 * pairs, a capped pass that writes training lines, and a window near the end
 * of the dataset that writes validation items. The dataset is a sequence of
 * pairs and each output file the sequence of items written to it.
 */
module TrainingData {
  import Text

  /** One dataset row's `translation` dict. */
  datatype Pair = Pair(en: string, zh: string)

  /** The length filter, on the stripped texts: English 5 to 200 characters, Chinese 2 to 200. */
  predicate Keeps(en: string, zh: string) {
    5 <= |en| <= 200 && 2 <= |zh| <= 200
  }

  /** The pair passes the length filter once both sides are stripped. */
  predicate Kept(p: Pair) {
    Keeps(Text.Strip(p.en), Text.Strip(p.zh))
  }

  /** The `text` field written for a kept pair. */
  function TrainingLine(p: Pair): string {
    Text.Strip(p.en) + " => " + Text.Strip(p.zh)
  }

  /** What one row adds to the training file: its line when it is kept, nothing otherwise. */
  function Contribution(p: Pair): seq<string> {
    if Kept(p) then [TrainingLine(p)] else []
  }

  /** `f` applied to each of the first `n` rows, results concatenated in row order. */
  function Collect<T, U>(rows: seq<T>, n: nat, f: T -> seq<U>): seq<U>
    requires n <= |rows|
  {
    if n == 0 then [] else Collect(rows, n - 1, f) + f(rows[n - 1])
  }

  /** The training lines of the kept pairs among the first `n` rows, in dataset order, with no cap. */
  function Accepted(dataset: seq<Pair>, n: nat): seq<string>
    requires n <= |dataset|
  {
    Collect(dataset, n, Contribution)
  }

  /** The source's two length checks on the stripped texts are the filter, and what it writes is the row's line or item. */
  lemma FilterOnStripped(p: Pair, en: string, zh: string)
    requires en == Text.Strip(p.en) && zh == Text.Strip(p.zh)
    ensures Kept(p) <==> !(|en| < 5 || |en| > 200) && !(|zh| < 2 || |zh| > 200)
    ensures Kept(p) ==> Contribution(p) == [en + " => " + zh]
    ensures !Kept(p) ==> Contribution(p) == []
    ensures Kept(p) ==> ItemsOf(p) == [ValidationItem(ValidationPrompt(en), zh)]
    ensures !Kept(p) ==> ItemsOf(p) == []
  {
  }

  /** What is collected from fewer rows is a prefix of what is collected from more. */
  lemma {:induction false} CollectPrefix<T, U>(rows: seq<T>, n: nat, m: nat, f: T -> seq<U>)
    requires n <= m <= |rows|
    ensures |Collect(rows, n, f)| <= |Collect(rows, m, f)|
    ensures Collect(rows, m, f)[..|Collect(rows, n, f)|] == Collect(rows, n, f)
    decreases m
  {
    if n < m {
      CollectPrefix(rows, n, m - 1, f);
      var shorter, longer := Collect(rows, m - 1, f), Collect(rows, m, f);
      assert longer[..|shorter|] == shorter;
      assert longer[..|shorter|][..|Collect(rows, n, f)|] == longer[..|Collect(rows, n, f)|];
    }
  }

  function Min(a: int, b: int): int { if a <= b then a else b }
  function Max(a: int, b: int): int { if a >= b then a else b }

  /**
   * `prepare_training_data`: the lines written are the first
   * `max(0, maxSamples)` lines accepted from the whole dataset, or all of
   * them when there are fewer; rejected pairs do not count toward the cap.
   */
  method PrepareTrainingData(dataset: seq<Pair>, maxSamples: int) returns (lines: seq<string>)
    ensures |lines| == Min(Max(0, maxSamples), |Accepted(dataset, |dataset|)|)
    ensures lines == Accepted(dataset, |dataset|)[..|lines|]
  {
    lines := [];
    var count := 0;
    var i := 0;
    while i < |dataset|
      invariant 0 <= i <= |dataset|
      invariant count == |lines| <= Max(0, maxSamples)
      invariant lines == Accepted(dataset, i)
    {
      if count >= maxSamples {
        break;
      }
      var written := TrainingRow(dataset[i]);
      AcceptedStep(dataset, i);
      assert count + |written| <= Max(0, maxSamples);
      lines := lines + written;
      count := count + |written|;
      i := i + 1;
    }
    CappedPrefix(dataset, i, maxSamples);
  }

  /**
   * One pass of the training loop past the cap check: the row's texts are
   * stripped and length-checked, and the line written, if any, is returned.
   */
  method TrainingRow(p: Pair) returns (written: seq<string>)
    ensures written == Contribution(p)
    ensures |written| <= 1
  {
    var en := Text.Strip(p.en);
    var zh := Text.Strip(p.zh);
    FilterOnStripped(p, en, zh);
    if |en| < 5 || |en| > 200 {
      return [];
    }
    if |zh| < 2 || |zh| > 200 {
      return [];
    }
    return [en + " => " + zh];
  }

  /** One more row adds that row's contribution. */
  lemma AcceptedStep(dataset: seq<Pair>, i: nat)
    requires i < |dataset|
    ensures Accepted(dataset, i + 1) == Accepted(dataset, i) + Contribution(dataset[i])
  {
  }

  /** Stopping after `i` rows, at the end or with the cap reached, leaves the capped prefix of what the whole dataset yields. */
  lemma CappedPrefix(dataset: seq<Pair>, i: nat, maxSamples: int)
    requires i <= |dataset| && |Accepted(dataset, i)| <= Max(0, maxSamples)
    requires i == |dataset| || |Accepted(dataset, i)| >= maxSamples
    ensures var lines := Accepted(dataset, i);
      && |lines| == Min(Max(0, maxSamples), |Accepted(dataset, |dataset|)|)
      && lines == Accepted(dataset, |dataset|)[..|lines|]
  {
    CollectPrefix(dataset, i, |dataset|, Contribution);
  }

  /**
   * When each row yields at most one result, every collected result comes
   * from a row that yields one, results follow row order, and every row that
   * yields one contributes it: `idx[k]` is the row of result `k`.
   */
  lemma {:induction false} CollectRows<T, U>(rows: seq<T>, n: nat, f: T -> seq<U>) returns (idx: seq<nat>)
    requires n <= |rows|
    requires forall i :: 0 <= i < n ==> |f(rows[i])| <= 1
    ensures |idx| == |Collect(rows, n, f)|
    ensures forall k :: 0 <= k < |idx| ==>
      idx[k] < n && f(rows[idx[k]]) == [Collect(rows, n, f)[k]]
    ensures forall k, l :: 0 <= k < l < |idx| ==> idx[k] < idx[l]
    ensures forall i :: 0 <= i < n && f(rows[i]) != [] ==> i in idx
  {
    if n == 0 {
      idx := [];
    } else {
      var rest := CollectRows(rows, n - 1, f);
      var before, last := Collect(rows, n - 1, f), f(rows[n - 1]);
      assert Collect(rows, n, f) == before + last;
      if last != [] {
        idx := rest + [n - 1];
        assert last == [Collect(rows, n, f)[|before|]];
      } else {
        idx := rest;
      }
      forall k | 0 <= k < |rest|
        ensures Collect(rows, n, f)[k] == before[k]
      {
      }
    }
  }

  /**
   * Every line accepted from the first `n` rows comes from a kept row, the
   * lines follow dataset order, and every kept row contributes its line:
   * `idx[k]` is the row of line `k`.
   */
  lemma AcceptedRows(dataset: seq<Pair>, n: nat) returns (idx: seq<nat>)
    requires n <= |dataset|
    ensures |idx| == |Accepted(dataset, n)|
    ensures forall k :: 0 <= k < |idx| ==>
      idx[k] < n && Kept(dataset[idx[k]]) && Accepted(dataset, n)[k] == TrainingLine(dataset[idx[k]])
    ensures forall k, l :: 0 <= k < l < |idx| ==> idx[k] < idx[l]
    ensures forall i :: 0 <= i < n && Kept(dataset[i]) ==> i in idx
  {
    idx := CollectRows(dataset, n, Contribution);
  }

  /** A validation item: the translation instruction with the English text, and the Chinese text. */
  datatype ValidationItem = ValidationItem(prompt: string, completion: string)

  const PromptHead := "Translate this English text to Traditional Chinese (繁體中文). Output ONLY the translation, nothing else.\n\nEnglish: "
  const PromptTail := "\nTraditional Chinese (繁體中文):"

  /** The validation prompt around an English text. */
  function ValidationPrompt(en: string): string {
    PromptHead + en + PromptTail
  }

  /** The item written for a kept pair. */
  function ItemOf(p: Pair): ValidationItem {
    ValidationItem(ValidationPrompt(Text.Strip(p.en)), Text.Strip(p.zh))
  }

  /** Python's `dataset[i]`: a negative index counts from the end, and one out of range raises `IndexError`. */
  function Resolve(i: int, len: nat): (r: int)
    ensures -1 <= r < len
    ensures r >= 0 ==> r == (if i >= 0 then i else len + i)
    ensures r == -1 <==> i >= len || i + len < 0
  {
    if 0 <= i < len then i
    else if 0 <= i + len && i < 0 then len + i
    else -1
  }

  /** What a pass over an index range leaves behind: the items written, and whether it stopped on `IndexError`. */
  datatype Pass<U> = Pass(items: seq<U>, indexError: bool)

  /**
   * Visiting the indices `lo` up to `hi - 1` of `rows` with Python indexing,
   * writing `f` of each row reached and stopping at the first index error.
   */
  function Scan<T, U>(rows: seq<T>, lo: int, hi: int, f: T -> seq<U>): Pass<U>
    decreases hi - lo
  {
    if hi <= lo then Pass([], false)
    else
      var before := Scan(rows, lo, hi - 1, f);
      var p := Resolve(hi - 1, |rows|);
      if before.indexError then before
      else if p == -1 then before.(indexError := true)
      else before.(items := before.items + f(rows[p]))
  }

  /** Visiting one more index that resolves, before any index error, adds what that row yields. */
  lemma ScanStep<T, U>(rows: seq<T>, lo: int, i: int, f: T -> seq<U>)
    requires lo <= i && !Scan(rows, lo, i, f).indexError && Resolve(i, |rows|) != -1
    ensures Scan(rows, lo, i + 1, f) == Scan(rows, lo, i, f).(items := Scan(rows, lo, i, f).items + f(rows[Resolve(i, |rows|)]))
  {
  }

  /** Once an index error has stopped the pass, visiting more indices changes nothing. */
  lemma {:induction false} ScanStops<T, U>(rows: seq<T>, lo: int, hi: int, later: int, f: T -> seq<U>)
    requires hi <= later && Scan(rows, lo, hi, f).indexError
    ensures Scan(rows, lo, later, f) == Scan(rows, lo, hi, f)
    decreases later - hi
  {
    if hi < later {
      ScanStops(rows, lo, hi, later - 1, f);
    }
  }

  /**
   * Over a non-empty range that stays below the length, the pass stops on
   * `IndexError` exactly when its first index lies before `-len(rows)`.
   */
  lemma {:induction false} ScanFailsIff<T, U>(rows: seq<T>, lo: int, hi: int, f: T -> seq<U>)
    requires lo < hi <= |rows|
    ensures Scan(rows, lo, hi, f).indexError <==> lo + |rows| < 0
    decreases hi - lo
  {
    if lo < hi - 1 {
      ScanFailsIff(rows, lo, hi - 1, f);
    }
  }

  /**
   * When each row yields at most one item, every item written comes from a
   * visited index that resolves to a row yielding it, in index order:
   * `idx[k]` is the index item `k` was written at.
   */
  lemma {:induction false} ScanRows<T, U>(rows: seq<T>, lo: int, hi: int, f: T -> seq<U>) returns (idx: seq<int>)
    requires forall i :: 0 <= i < |rows| ==> |f(rows[i])| <= 1
    ensures |idx| == |Scan(rows, lo, hi, f).items|
    ensures forall k :: 0 <= k < |idx| ==>
      && lo <= idx[k] < hi && Resolve(idx[k], |rows|) != -1
      && f(rows[Resolve(idx[k], |rows|)]) == [Scan(rows, lo, hi, f).items[k]]
    ensures forall k, l :: 0 <= k < l < |idx| ==> idx[k] < idx[l]
    decreases hi - lo
  {
    if hi <= lo {
      idx := [];
    } else {
      var rest := ScanRows(rows, lo, hi - 1, f);
      var before := Scan(rows, lo, hi - 1, f);
      var p := Resolve(hi - 1, |rows|);
      if before.indexError || p == -1 || f(rows[p]) == [] {
        idx := rest;
      } else {
        idx := rest + [hi - 1];
        var items := before.items + f(rows[p]);
        assert Scan(rows, lo, hi, f).items == items;
        assert f(rows[p]) == [items[|before.items|]];
        forall k | 0 <= k < |rest| ensures items[k] == before.items[k] {
        }
      }
    }
  }

  /** What one resolved row adds to the validation file. */
  function ItemsOf(p: Pair): seq<ValidationItem> {
    if Kept(p) then [ItemOf(p)] else []
  }

  /** `start_idx`: the window ends 100 rows before the end of the dataset. */
  function WindowStart(len: nat, numSamples: int): int {
    len - numSamples - 100
  }

  /** What the validation pass writes over the window, as a function of the dataset and `num_samples`. */
  function Validation(dataset: seq<Pair>, numSamples: int): Pass<ValidationItem> {
    var start := WindowStart(|dataset|, numSamples);
    Scan(dataset, start, start + numSamples, ItemsOf)
  }

  /** One pass of the validation loop on a resolved row: the item written, if any. */
  method ValidationRow(p: Pair) returns (written: seq<ValidationItem>)
    ensures written == ItemsOf(p)
  {
    var en := Text.Strip(p.en);
    var zh := Text.Strip(p.zh);
    FilterOnStripped(p, en, zh);
    if |en| < 5 || |en| > 200 {
      return [];
    }
    if |zh| < 2 || |zh| > 200 {
      return [];
    }
    return [ValidationItem(ValidationPrompt(en), zh)];
  }

  /**
   * `create_validation_data`: the items written are those of the window
   * `start .. start + numSamples - 1`, up to the first index Python cannot
   * resolve. No visited index reaches the length of the dataset, so the
   * `break` on such an index never happens.
   */
  method CreateValidationData(dataset: seq<Pair>, numSamples: int) returns (v: Pass<ValidationItem>)
    ensures v == Validation(dataset, numSamples)
  {
    var start := |dataset| - numSamples - 100;
    var stop := start + numSamples;
    var items := [];
    var i := start;
    while i < stop
      invariant start <= i && (i <= stop || i == start)
      invariant !Scan(dataset, start, i, ItemsOf).indexError && items == Scan(dataset, start, i, ItemsOf).items
    {
      assert i < |dataset|;
      var p := Resolve(i, |dataset|);
      if p == -1 {
        ScanStops(dataset, start, i + 1, stop, ItemsOf);
        return Pass(items, true);
      }
      ScanStep(dataset, start, i, ItemsOf);
      var written := ValidationRow(dataset[p]);
      items := items + written;
      i := i + 1;
    }
    return Pass(items, false);
  }

  /**
   * Every validation item comes from a row of the window that passes the
   * filter: its completion is that row's stripped Chinese text and its prompt
   * embeds the row's stripped English text. Items follow window order.
   */
  lemma ValidationRows(dataset: seq<Pair>, numSamples: int) returns (idx: seq<int>)
    ensures |idx| == |Validation(dataset, numSamples).items|
    ensures forall k :: 0 <= k < |idx| ==>
      && WindowStart(|dataset|, numSamples) <= idx[k] < WindowStart(|dataset|, numSamples) + numSamples
      && Resolve(idx[k], |dataset|) != -1
      && Kept(dataset[Resolve(idx[k], |dataset|)])
      && Validation(dataset, numSamples).items[k] == ItemOf(dataset[Resolve(idx[k], |dataset|)])
    ensures forall k, l :: 0 <= k < l < |idx| ==> idx[k] < idx[l]
  {
    var start := WindowStart(|dataset|, numSamples);
    ItemsOfAtMostOne(dataset);
    idx := ScanRows(dataset, start, start + numSamples, ItemsOf);
    var items := Scan(dataset, start, start + numSamples, ItemsOf).items;
    assert items == Validation(dataset, numSamples).items;
    forall k | 0 <= k < |idx|
      ensures Kept(dataset[Resolve(idx[k], |dataset|)])
      ensures items[k] == ItemOf(dataset[Resolve(idx[k], |dataset|)])
    {
      ItemsOfSingle(dataset[Resolve(idx[k], |dataset|)], items[k]);
    }
  }

  /** Every row yields at most one validation item. */
  lemma ItemsOfAtMostOne(dataset: seq<Pair>)
    ensures forall i :: 0 <= i < |dataset| ==> |ItemsOf(dataset[i])| <= 1
  {
  }

  /** A row that yields exactly one item is kept, and the item is its own. */
  lemma ItemsOfSingle(p: Pair, item: ValidationItem)
    requires ItemsOf(p) == [item]
    ensures Kept(p) && item == ItemOf(p)
  {
  }

  /**
   * With a positive `num_samples`, the validation pass fails with
   * `IndexError` exactly when the dataset has fewer rows than
   * `(num_samples + 100) / 2`: the window then starts before `-len(dataset)`.
   */
  lemma ValidationFailsIff(dataset: seq<Pair>, numSamples: int)
    requires numSamples > 0
    ensures Validation(dataset, numSamples).indexError <==> 2 * |dataset| < numSamples + 100
  {
    var start := WindowStart(|dataset|, numSamples);
    ScanFailsIff(dataset, start, start + numSamples, ItemsOf);
  }
}
