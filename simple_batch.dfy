/** src/translate_jar_simple.py, the translating half: `translate_batch`
    with the process-wide `TRANSLATION_CACHE`, `translate_to` with its
    `lru_cache`, and `translate_json_file`, which runs batches of five over
    the strings of one JSON document. */
module SimpleBatch {
  import opened Base
  import opened Strings
  import opened JsonTree
  import opened SimpleJar

  /** The separator the strings of one request are joined with. */
  const Sep: string := " |SEP| "

  /** The warning derived from the lower-cased exception message. */
  datatype ApiWarning =
    | RateLimited
    | Blocked
    | NetworkError
    | QuotaExhausted
    | ApiFailure(message: string)

  function Warning(message: string): ApiWarning
  {
    var m := Lower(message);
    if Contains(m, "rate limit") || Contains(m, "too many requests") then RateLimited
    else if Contains(m, "blocked") || Contains(m, "forbidden") then Blocked
    else if Contains(m, "timeout") || Contains(m, "connection") then NetworkError
    else if Contains(m, "quota") || Contains(m, "limit exceeded") then QuotaExhausted
    else ApiFailure(message)
  }

  lemma LowerUpper(m: string)
    ensures Lower(Upper(m)) == Lower(m)
  {
  }

  /** The classification ignores the case of ASCII letters: only the text
      carried by `ApiFailure` differs between a message and its
      upper-cased form. */
  lemma WarningIgnoresCase(m: string)
    ensures Warning(m).ApiFailure? <==> Warning(Upper(m)).ApiFailure?
    ensures !Warning(m).ApiFailure? ==> Warning(Upper(m)) == Warning(m)
    ensures Warning(m).ApiFailure? ==> Warning(m).message == m && Warning(Upper(m)).message == Upper(m)
  {
    LowerUpper(m);
  }

  /** The statistics dict of `translate_batch` (the response time is not
      modelled). */
  datatype BatchStats = BatchStats(
    cacheHits: nat,
    newTranslations: nat,
    totalStrings: nat,
    warning: Option<ApiWarning>,
    apiError: bool)

  // ---------------------------------------------------------------------
  // The scan over the input

  /** What the scan decides for one string: handed back as it is
      (`Pass`), answered from the cache (`Hit`), or sent to the service
      (`Miss`). */
  datatype Kind = Pass | Hit(value: string) | Miss

  function KindOf(md5: string -> string, c: map<string, string>, t: string, lang: string): (k: Kind)
    ensures k.Pass? <==> Skipped(t)
    ensures k.Hit? <==> !Skipped(t) && CacheKey(md5, t, lang) in c
    ensures k.Hit? ==> k.value == c[CacheKey(md5, t, lang)]
  {
    if Skipped(t) then Pass
    else if CacheKey(md5, t, lang) in c then Hit(c[CacheKey(md5, t, lang)])
    else Miss
  }

  function Kinds(md5: string -> string, c: map<string, string>, ts: seq<string>, lang: string): seq<Kind>
  {
    seq(|ts|, k requires 0 <= k < |ts| => KindOf(md5, c, ts[k], lang))
  }

  /** Only non-blank strings are hits or misses. */
  lemma KindsNonBlank(md5: string -> string, c: map<string, string>, ts: seq<string>, lang: string)
    ensures forall k :: 0 <= k < |ts| && !Kinds(md5, c, ts, lang)[k].Pass? ==> !IsBlank(ts[k])
  {
  }

  /** The result list after the scan: the cached value on a hit, and the
      string itself otherwise (on a miss it stands in for the `None`
      placeholder, which both outcomes overwrite). */
  function Pre(ts: seq<string>, ks: seq<Kind>): (r: seq<string>)
    requires |ks| == |ts|
    ensures |r| == |ts|
    ensures forall k :: 0 <= k < |ts| ==> r[k] == (if ks[k].Hit? then ks[k].value else ts[k])
  {
    if ts == [] then []
    else
      var n := |ts| - 1;
      Pre(ts[..n], ks[..n]) + [if ks[n].Hit? then ks[n].value else ts[n]]
  }

  /** `uncached_indices` after the scan. */
  function Misses(ks: seq<Kind>): (idx: seq<nat>)
    ensures Increasing(idx) && Below(idx, |ks|)
    ensures forall j :: 0 <= j < |idx| ==> ks[idx[j]].Miss?
  {
    if ks == [] then []
    else
      var n := |ks| - 1;
      if ks[n].Miss? then Misses(ks[..n]) + [n] else Misses(ks[..n])
  }

  /** `uncached_texts` after the scan. */
  function MissTexts(ts: seq<string>, ks: seq<Kind>): (r: seq<string>)
    requires |ks| == |ts|
    ensures |r| == |Misses(ks)|
    ensures forall j :: 0 <= j < |r| ==> r[j] == ts[Misses(ks)[j]]
  {
    if ts == [] then []
    else
      var n := |ts| - 1;
      if ks[n].Miss? then MissTexts(ts[..n], ks[..n]) + [ts[n]] else MissTexts(ts[..n], ks[..n])
  }

  /** `cache_hits` after the scan. */
  function HitCount(ks: seq<Kind>): nat {
    if ks == [] then 0
    else HitCount(ks[..|ks| - 1]) + (if ks[|ks| - 1].Hit? then 1 else 0)
  }

  /** `len([t for t in texts if t and t.strip()])` */
  function NonBlankCount(ts: seq<string>): nat {
    if ts == [] then 0
    else NonBlankCount(ts[..|ts| - 1]) + (if IsBlank(ts[|ts| - 1]) then 0 else 1)
  }

  /** One more string of the scan. */
  lemma ScanStep(ts: seq<string>, ks: seq<Kind>, i: nat)
    requires |ks| == |ts| && i < |ts|
    ensures Pre(ts[..i + 1], ks[..i + 1]) == Pre(ts[..i], ks[..i]) + [if ks[i].Hit? then ks[i].value else ts[i]]
    ensures Misses(ks[..i + 1]) == Misses(ks[..i]) + (if ks[i].Miss? then [i] else [])
    ensures MissTexts(ts[..i + 1], ks[..i + 1]) == MissTexts(ts[..i], ks[..i]) + (if ks[i].Miss? then [ts[i]] else [])
    ensures HitCount(ks[..i + 1]) == HitCount(ks[..i]) + (if ks[i].Hit? then 1 else 0)
  {
    assert ts[..i + 1][..i] == ts[..i] && ks[..i + 1][..i] == ks[..i];
  }

  /** Every miss position is recorded, and nothing else is. */
  lemma {:induction false} MissesExactly(ks: seq<Kind>, k: nat)
    requires k < |ks|
    ensures k in Misses(ks) <==> ks[k].Miss?
  {
    var n := |ks| - 1;
    if k < n {
      MissesExactly(ks[..n], k);
    } else {
      assert k !in Misses(ks[..n]);
    }
  }

  /** Hits and misses are disjoint kinds of non-blank string. */
  lemma {:induction false} CountsBounded(ts: seq<string>, ks: seq<Kind>)
    requires |ks| == |ts|
    requires forall k :: 0 <= k < |ts| && !ks[k].Pass? ==> !IsBlank(ts[k])
    ensures HitCount(ks) + |Misses(ks)| <= NonBlankCount(ts)
  {
    if ts != [] {
      var n := |ts| - 1;
      CountsBounded(ts[..n], ks[..n]);
    }
  }

  // ---------------------------------------------------------------------
  // The request to the service

  /** The fallback of one string: its translation, or the string itself
      when the call raises. */
  function TranslateOrKeep(provider: Provider, t: string, lang: string): string {
    match provider(t, lang)
    case Translated(u) => u
    case Failed(_) => t
  }

  /** The per-string fallback over a list of strings. */
  function PerString(provider: Provider, ts: seq<string>, lang: string): (r: seq<string>)
    ensures |r| == |ts|
    ensures forall k :: 0 <= k < |ts| ==> r[k] == TranslateOrKeep(provider, ts[k], lang)
  {
    if ts == [] then []
    else PerString(provider, ts[..|ts| - 1], lang) + [TranslateOrKeep(provider, ts[|ts| - 1], lang)]
  }

  datatype BatchAnswer = Answered(parts: seq<string>) | Raised(message: string)

  /** One joined request; when the answer does not split back into as many
      pieces as were sent, every string is requested on its own. */
  function AskBatch(provider: Provider, ts: seq<string>, sep: string, lang: string): (a: BatchAnswer)
    requires |sep| > 0
    ensures a.Answered? ==> |a.parts| == |ts|
  {
    match provider(Join(ts, sep), lang)
    case Failed(m) => Raised(m)
    case Translated(t) =>
      if |Split(t, sep)| == |ts| then Answered(Split(t, sep)) else Answered(PerString(provider, ts, lang))
  }

  /** The joined request, with the per-string fallback when the answer
      does not split into as many pieces as were sent. */
  method Request(translator: Provider, uncached: seq<string>, sep: string, lang: string) returns (answer: BatchAnswer)
    requires |sep| > 0
    ensures answer == AskBatch(translator, uncached, sep, lang)
  {
    var reply := translator(Join(uncached, sep), lang);
    if reply.Failed? {
      return Raised(reply.message);
    }
    var parts := Split(reply.text, sep);
    if |parts| != |uncached| {
      parts := [];
      for j := 0 to |uncached|
        invariant parts == PerString(translator, uncached[..j], lang)
      {
        assert uncached[..j + 1][..j] == uncached[..j];
        var one := translator(uncached[j], lang);
        match one
        case Translated(u) => parts := parts + [u];
        case Failed(_) => parts := parts + [uncached[j]];
      }
      assert uncached[..|uncached|] == uncached;
    }
    answer := Answered(parts);
  }

  function CleanAll(ts: seq<string>): seq<string>
  {
    seq(|ts|, k requires 0 <= k < |ts| => Clean(ts[k]))
  }

  function Keys(md5: string -> string, ts: seq<string>, lang: string): seq<string>
  {
    seq(|ts|, k requires 0 <= k < |ts| => CacheKey(md5, ts[k], lang))
  }

  lemma KeysCleanAt(md5: string -> string, ts: seq<string>, parts: seq<string>, lang: string, j: nat)
    requires j < |ts| == |parts|
    ensures |Keys(md5, ts, lang)| == |CleanAll(parts)| == |ts|
    ensures Keys(md5, ts, lang)[j] == CacheKey(md5, ts[j], lang) && CleanAll(parts)[j] == Clean(parts[j])
  {
  }

  // ---------------------------------------------------------------------
  // translate_batch as a whole

  datatype BatchRun = BatchRun(results: seq<string>, cache: map<string, string>, stats: BatchStats)

  /** The results, the new cache and the statistics of `translate_batch`. */
  function RunBatch(md5: string -> string, provider: Provider, c: map<string, string>, texts: seq<string>, lang: string): (run: BatchRun)
    ensures |run.results| == |texts|
  {
    var ks := Kinds(md5, c, texts, lang);
    var pre := Pre(texts, ks);
    var miss := MissTexts(texts, ks);
    var hits := HitCount(ks);
    var total := NonBlankCount(texts);
    if miss == [] then BatchRun(pre, c, BatchStats(hits, 0, total, None, false))
    else
      match AskBatch(provider, miss, Sep, lang)
      case Raised(m) => BatchRun(pre, c, BatchStats(hits, 0, total, Some(Warning(m)), true))
      case Answered(parts) =>
        BatchRun(Scatter(pre, Misses(ks), CleanAll(parts)), StoreAll(c, Keys(md5, miss, lang), CleanAll(parts)),
                 BatchStats(hits, |miss|, total, None, false))
  }

  /** A position that is not a miss keeps what the scan wrote there. */
  lemma NonMissKeepsScan(md5: string -> string, provider: Provider, c: map<string, string>, texts: seq<string>, lang: string, k: nat)
    requires k < |texts| && !Kinds(md5, c, texts, lang)[k].Miss?
    ensures RunBatch(md5, provider, c, texts, lang).results[k] == Pre(texts, Kinds(md5, c, texts, lang))[k]
  {
    var ks := Kinds(md5, c, texts, lang);
    var miss := MissTexts(texts, ks);
    MissesExactly(ks, k);
    if miss != [] && AskBatch(provider, miss, Sep, lang).Answered? {
      RunBatchAnswered(md5, provider, c, texts, lang);
      ScatterElsewhere(Pre(texts, ks), Misses(ks), CleanAll(AskBatch(provider, miss, Sep, lang).parts), k);
    }
  }

  /** Blank, Cyrillic and technical strings come back unchanged. */
  lemma SkippedUnchanged(md5: string -> string, provider: Provider, c: map<string, string>, texts: seq<string>, lang: string, k: nat)
    requires k < |texts| && Skipped(texts[k])
    ensures RunBatch(md5, provider, c, texts, lang).results[k] == texts[k]
  {
    NonMissKeepsScan(md5, provider, c, texts, lang, k);
  }

  /** A cache hit yields exactly the stored value. */
  lemma HitFromCache(md5: string -> string, provider: Provider, c: map<string, string>, texts: seq<string>, lang: string, k: nat)
    requires k < |texts| && !Skipped(texts[k]) && CacheKey(md5, texts[k], lang) in c
    ensures RunBatch(md5, provider, c, texts, lang).results[k] == c[CacheKey(md5, texts[k], lang)]
  {
    NonMissKeepsScan(md5, provider, c, texts, lang, k);
  }

  /** After an answered request, the j-th miss receives the cleaned j-th
      answer, which holds no `"`. */
  lemma MissFilled(md5: string -> string, provider: Provider, c: map<string, string>, texts: seq<string>, lang: string, j: nat)
    requires var miss := MissTexts(texts, Kinds(md5, c, texts, lang));
             j < |miss| && AskBatch(provider, miss, Sep, lang).Answered?
    ensures var ks := Kinds(md5, c, texts, lang);
            var out := Clean(AskBatch(provider, MissTexts(texts, ks), Sep, lang).parts[j]);
            RunBatch(md5, provider, c, texts, lang).results[Misses(ks)[j]] == out && '"' !in out
  {
    var ks := Kinds(md5, c, texts, lang);
    var miss := MissTexts(texts, ks);
    var outs := CleanAll(AskBatch(provider, miss, Sep, lang).parts);
    RunBatchAnswered(md5, provider, c, texts, lang);
    ScatterAt(Pre(texts, ks), Misses(ks), outs, j);
  }

  /** After an answered request, the cache maps the key of the j-th miss
      to its cleaned answer, unless a later miss has the same key. */
  lemma MissCached(md5: string -> string, provider: Provider, c: map<string, string>, texts: seq<string>, lang: string, j: nat)
    requires var miss := MissTexts(texts, Kinds(md5, c, texts, lang));
             j < |miss| && AskBatch(provider, miss, Sep, lang).Answered? &&
             forall j' :: j < j' < |miss| ==> CacheKey(md5, miss[j'], lang) != CacheKey(md5, miss[j], lang)
    ensures var miss := MissTexts(texts, Kinds(md5, c, texts, lang));
            var cache := RunBatch(md5, provider, c, texts, lang).cache;
            CacheKey(md5, miss[j], lang) in cache &&
            cache[CacheKey(md5, miss[j], lang)] == Clean(AskBatch(provider, miss, Sep, lang).parts[j])
  {
    var ks := Kinds(md5, c, texts, lang);
    var miss := MissTexts(texts, ks);
    var outs := CleanAll(AskBatch(provider, miss, Sep, lang).parts);
    var keys := Keys(md5, miss, lang);
    KeysCleanAt(md5, miss, AskBatch(provider, miss, Sep, lang).parts, lang, j);
    RunBatchAnswered(md5, provider, c, texts, lang);
    StoreAllLast(c, keys, outs, j);
  }

  /** The outcome of a batch whose request is answered. */
  lemma RunBatchAnswered(md5: string -> string, provider: Provider, c: map<string, string>, texts: seq<string>, lang: string)
    requires var miss := MissTexts(texts, Kinds(md5, c, texts, lang));
             miss != [] && AskBatch(provider, miss, Sep, lang).Answered?
    ensures var ks := Kinds(md5, c, texts, lang);
            var miss := MissTexts(texts, ks);
            var outs := CleanAll(AskBatch(provider, miss, Sep, lang).parts);
            var run := RunBatch(md5, provider, c, texts, lang);
            run.results == Scatter(Pre(texts, ks), Misses(ks), outs) &&
            run.cache == StoreAll(c, Keys(md5, miss, lang), outs) &&
            run.stats == BatchStats(HitCount(ks), |miss|, NonBlankCount(texts), None, false)
  {
  }

  /** The outcome of a batch whose request raises. */
  lemma RunBatchRaised(md5: string -> string, provider: Provider, c: map<string, string>, texts: seq<string>, lang: string)
    requires var miss := MissTexts(texts, Kinds(md5, c, texts, lang));
             miss != [] && AskBatch(provider, miss, Sep, lang).Raised?
    ensures var ks := Kinds(md5, c, texts, lang);
            var m := AskBatch(provider, MissTexts(texts, ks), Sep, lang).message;
            RunBatch(md5, provider, c, texts, lang)
              == BatchRun(Pre(texts, ks), c, BatchStats(HitCount(ks), 0, NonBlankCount(texts), Some(Warning(m)), true))
  {
  }

  /** When the request raises, every string whose key is not cached comes
      back as it was (skipped strings always do, see `SkippedUnchanged`),
      nothing is cached and the error is reported. */
  lemma FailureKeepsOriginals(md5: string -> string, provider: Provider, c: map<string, string>, texts: seq<string>, lang: string, k: nat)
    requires var miss := MissTexts(texts, Kinds(md5, c, texts, lang));
             miss != [] && AskBatch(provider, miss, Sep, lang).Raised?
    requires k < |texts| && CacheKey(md5, texts[k], lang) !in c
    ensures var run := RunBatch(md5, provider, c, texts, lang);
            run.results[k] == texts[k] && run.cache == c &&
            run.stats.apiError && run.stats.newTranslations == 0 && run.stats.warning.Some?
  {
    var ks := Kinds(md5, c, texts, lang);
    var miss := MissTexts(texts, ks);
    RunBatchRaised(md5, provider, c, texts, lang);
    assert !ks[k].Hit?;
  }

  /** `cache_hits + new_translations <= total_strings`, and the total is
      the number of non-blank inputs on both outcomes. */
  lemma StatsBounded(md5: string -> string, provider: Provider, c: map<string, string>, texts: seq<string>, lang: string)
    ensures var st := RunBatch(md5, provider, c, texts, lang).stats;
            st.totalStrings == NonBlankCount(texts) &&
            st.cacheHits + st.newTranslations <= st.totalStrings &&
            (st.apiError <==> st.warning.Some?)
  {
    KindsNonBlank(md5, c, texts, lang);
    CountsBounded(texts, Kinds(md5, c, texts, lang));
  }

  /** No miss key is already cached. */
  lemma MissKeysFresh(md5: string -> string, c: map<string, string>, texts: seq<string>, lang: string, key: string)
    requires key in Keys(md5, MissTexts(texts, Kinds(md5, c, texts, lang)), lang)
    ensures key !in c
  {
    var ks := Kinds(md5, c, texts, lang);
    var keys := Keys(md5, MissTexts(texts, ks), lang);
    var j :| 0 <= j < |keys| && keys[j] == key;
    assert ks[Misses(ks)[j]].Miss?;
  }

  /** A batch only adds keys: every entry cached before keeps its value. */
  lemma CacheOnlyGrows(md5: string -> string, provider: Provider, c: map<string, string>, texts: seq<string>, lang: string, key: string)
    requires key in c
    ensures var run := RunBatch(md5, provider, c, texts, lang);
            key in run.cache && run.cache[key] == c[key]
  {
    var miss := MissTexts(texts, Kinds(md5, c, texts, lang));
    var keys := Keys(md5, miss, lang);
    if miss != [] && AskBatch(provider, miss, Sep, lang).Answered? {
      RunBatchAnswered(md5, provider, c, texts, lang);
      if key in keys {
        MissKeysFresh(md5, c, texts, lang, key);
      }
      StoreAllOther(c, keys, CleanAll(AskBatch(provider, miss, Sep, lang).parts), key);
    }
  }

  /** After an answered request, the same batch again needs no request:
      every string is skipped or a hit. */
  lemma RepeatNeedsNoRequest(md5: string -> string, provider: Provider, c: map<string, string>, texts: seq<string>, lang: string)
    requires var miss := MissTexts(texts, Kinds(md5, c, texts, lang));
             miss == [] || AskBatch(provider, miss, Sep, lang).Answered?
    ensures var c' := RunBatch(md5, provider, c, texts, lang).cache;
            Misses(Kinds(md5, c', texts, lang)) == []
  {
    var ks := Kinds(md5, c, texts, lang);
    var miss := MissTexts(texts, ks);
    var c' := RunBatch(md5, provider, c, texts, lang).cache;
    var ks' := Kinds(md5, c', texts, lang);
    forall k | 0 <= k < |texts| ensures !ks'[k].Miss? {
      var key := CacheKey(md5, texts[k], lang);
      if ks[k].Miss? {
        MissesExactly(ks, k);
        var j :| 0 <= j < |Misses(ks)| && Misses(ks)[j] == k;
        RunBatchAnswered(md5, provider, c, texts, lang);
        assert Keys(md5, miss, lang)[j] == key;
      } else if ks[k].Hit? {
        CacheOnlyGrows(md5, provider, c, texts, lang, key);
      }
    }
    NoMissesIffNoneMissing(ks');
  }

  /** The scan sends nothing exactly when no string is a miss. */
  lemma NoMissesIffNoneMissing(ks: seq<Kind>)
    ensures Misses(ks) == [] <==> forall k :: 0 <= k < |ks| ==> !ks[k].Miss?
  {
    if Misses(ks) != [] {
      assert ks[Misses(ks)[0]].Miss?;
    } else {
      forall k | 0 <= k < |ks| ensures !ks[k].Miss? {
        MissesExactly(ks, k);
      }
    }
  }

  // ---------------------------------------------------------------------
  // translate_to

  /** `any(char in string for char in 'абв…я')`: lower-case Russian letters
      (а to я and ё). */
  predicate HasRussianLower(s: string) {
    exists i :: 0 <= i < |s| && ('\U{430}' <= s[i] <= '\U{44F}' || s[i] == '\U{451}')
  }

  /** The strings `translate_to` returns unchanged without a lookup. */
  predicate TranslateToSkips(s: string) {
    IsBlank(s) || HasRussianLower(s) || (':' in s && |s| < 50 && ' ' !in s)
    || '{' in s || '}' in s || |s| < 3
  }

  /** The answer and new cache of one `translate_to` body. */
  function TranslateOne(md5: string -> string, provider: Provider, c: map<string, string>, s: string, lang: string): (string, map<string, string>)
  {
    var key := CacheKey(md5, s, lang);
    if TranslateToSkips(s) then (s, c)
    else if key in c then (c[key], c)
    else match provider(s, lang)
      case Translated(t) => (Clean(t), c[key := Clean(t)])
      case Failed(_) => (s, c)
  }

  /** `translate_to` answers the string itself, a cached value, or a fresh
      translation without `"` that it then caches under a key that was
      free; nothing else in the cache changes. */
  lemma TranslateOneOutcomes(md5: string -> string, provider: Provider, c: map<string, string>, s: string, lang: string)
    ensures var (r, c') := TranslateOne(md5, provider, c, s, lang);
            var key := CacheKey(md5, s, lang);
            (TranslateToSkips(s) ==> r == s && c' == c) &&
            (!TranslateToSkips(s) && key in c ==> r == c[key] && c' == c) &&
            (c' == c || (key !in c && c' == c[key := r] && '"' !in r))
  {
  }

  // ---------------------------------------------------------------------
  // translate_json_file

  datatype FileStats = FileStats(cacheHits: nat, newTranslations: nat, totalStrings: nat)

  function AddStats(st: FileStats, b: BatchStats): FileStats {
    FileStats(st.cacheHits + b.cacheHits, st.newTranslations + b.newTranslations, st.totalStrings + b.totalStrings)
  }

  function Min(a: int, b: int): int { if a < b then a else b }

  datatype FileRun = FileRun(outs: seq<string>, cache: map<string, string>, stats: FileStats)

  /** One batch as the file loop sees it: from the cache and the strings
      of the batch to the batch's results, new cache and statistics. */
  type Step = (map<string, string>, seq<string>) -> BatchRun

  /** `translate_batch` into one language as a step of the file loop. */
  function Batches(md5: string -> string, provider: Provider, lang: string): Step {
    (c: map<string, string>, b: seq<string>) => RunBatch(md5, provider, c, b, lang)
  }

  /** A step that answers one output per input. */
  ghost predicate KeepsLength(step: Step) {
    forall c: map<string, string>, b: seq<string> :: |step(c, b).results| == |b|
  }

  /** A step that hands skipped strings back unchanged. */
  ghost predicate KeepsSkipped(step: Step)
    requires KeepsLength(step)
  {
    forall c: map<string, string>, b: seq<string>, q :: 0 <= q < |b| && Skipped(b[q]) ==> step(c, b).results[q] == b[q]
  }

  lemma BatchesKeep(md5: string -> string, provider: Provider, lang: string)
    ensures KeepsLength(Batches(md5, provider, lang)) && KeepsSkipped(Batches(md5, provider, lang))
  {
    var step := Batches(md5, provider, lang);
    forall c: map<string, string>, b: seq<string>, q | 0 <= q < |b| && Skipped(b[q])
      ensures step(c, b).results[q] == b[q]
    {
      SkippedUnchanged(md5, provider, c, b, lang, q);
    }
  }

  /** The batch loop from position `i` on, with the outputs `acc` and the
      totals `st` gathered so far; `stop(k)` is the answer of the stop
      callback before batch `k`. */
  function RunFile(step: Step, c: map<string, string>, all: seq<string>, stop: nat -> bool,
                   i: nat, acc: seq<string>, st: FileStats): FileRun
    decreases |all| - i
  {
    if i >= |all| || stop(i / 5) then FileRun(acc, c, st)
    else
      var run := step(c, all[i..Min(i + 5, |all|)]);
      RunFile(step, run.cache, all, stop, i + 5, acc + run.results, AddStats(st, run.stats))
  }

  /** The outputs extend what was gathered, one per input at most, and one
      per input exactly when no stop is requested. */
  lemma {:induction false} RunFileLength(step: Step, c: map<string, string>, all: seq<string>, stop: nat -> bool,
                                         i: nat, acc: seq<string>, st: FileStats)
    requires KeepsLength(step) && |acc| == Min(i, |all|)
    ensures var outs := RunFile(step, c, all, stop, i, acc, st).outs;
            |acc| <= |outs| <= |all| && outs[..|acc|] == acc &&
            ((forall k :: !stop(k)) ==> |outs| == |all|)
    decreases |all| - i
  {
    if !(i >= |all| || stop(i / 5)) {
      var run := step(c, all[i..Min(i + 5, |all|)]);
      assert |acc + run.results| == Min(i + 5, |all|);
      RunFileLength(step, run.cache, all, stop, i + 5, acc + run.results, AddStats(st, run.stats));
      var outs := RunFile(step, run.cache, all, stop, i + 5, acc + run.results, AddStats(st, run.stats)).outs;
      assert outs[..|acc|] == (outs[..|acc + run.results|])[..|acc|];
    }
  }

  /** Skipped strings come out of the loop unchanged. */
  lemma {:induction false} RunFileSkipped(step: Step, c: map<string, string>, all: seq<string>, stop: nat -> bool,
                                          i: nat, acc: seq<string>, st: FileStats, k: nat)
    requires KeepsLength(step) && KeepsSkipped(step)
    requires |acc| == Min(i, |all|)
    requires forall q :: 0 <= q < |acc| && Skipped(all[q]) ==> acc[q] == all[q]
    requires k < |all| && Skipped(all[k]) && k < |RunFile(step, c, all, stop, i, acc, st).outs|
    ensures RunFile(step, c, all, stop, i, acc, st).outs[k] == all[k]
    decreases |all| - i
  {
    RunFileLength(step, c, all, stop, i, acc, st);
    if !(i >= |all| || stop(i / 5)) {
      var batch := all[i..Min(i + 5, |all|)];
      var run := step(c, batch);
      var acc' := acc + run.results;
      forall q | 0 <= q < |acc'| && Skipped(all[q])
        ensures acc'[q] == all[q]
      {
        if q >= |acc| {
          assert batch[q - i] == all[q];
        }
      }
      RunFileSkipped(step, run.cache, all, stop, i + 5, acc', AddStats(st, run.stats), k);
    }
  }

  /** Blank, Cyrillic and technical strings come out of
      `translate_json_file`'s batch loop unchanged, whether or not it was
      stopped. */
  lemma FileSkippedUnchanged(md5: string -> string, provider: Provider, c: map<string, string>, all: seq<string>,
                             lang: string, stop: nat -> bool, k: nat)
    requires k < |all| && Skipped(all[k])
    requires k < |RunFile(Batches(md5, provider, lang), c, all, stop, 0, [], FileStats(0, 0, 0)).outs|
    ensures RunFile(Batches(md5, provider, lang), c, all, stop, 0, [], FileStats(0, 0, 0)).outs[k] == all[k]
  {
    BatchesKeep(md5, provider, lang);
    RunFileSkipped(Batches(md5, provider, lang), c, all, stop, 0, [], FileStats(0, 0, 0), k);
  }

  /** The loop answers one output per input unless it was stopped. */
  lemma FileOutputsFit(md5: string -> string, provider: Provider, c: map<string, string>, all: seq<string>,
                       lang: string, stop: nat -> bool)
    ensures var outs := RunFile(Batches(md5, provider, lang), c, all, stop, 0, [], FileStats(0, 0, 0)).outs;
            |outs| <= |all| && ((forall k :: !stop(k)) ==> |outs| == |all|)
  {
    BatchesKeep(md5, provider, lang);
    RunFileLength(Batches(md5, provider, lang), c, all, stop, 0, [], FileStats(0, 0, 0));
  }

  // ---------------------------------------------------------------------
  // The translator object: `TRANSLATION_CACHE`, the `lru_cache` of
  // `translate_to`, and the service and digest the module works with.

  /** The contents of the pickle file at start-up. */
  datatype CacheFile = NoFile | Pickled(entries: map<string, string>) | Unreadable

  class SimpleTranslator {
    var cache: map<string, string>
    var memo: map<(string, string), string>
    const md5: string -> string
    const translator: Provider

    constructor(md5: string -> string, translator: Provider)
      ensures cache == map[] && memo == map[]
      ensures this.md5 == md5 && this.translator == translator
    {
      this.md5 := md5;
      this.translator := translator;
      cache := map[];
      memo := map[];
    }

    /** `load_translation_cache`: merge a readable file over the cache,
        keep the cache when there is no file, empty it when reading fails. */
    method LoadCache(file: CacheFile)
      modifies this
      ensures file.NoFile? ==> cache == old(cache)
      ensures file.Pickled? ==> cache == old(cache) + file.entries
      ensures file.Unreadable? ==> cache == map[]
      ensures memo == old(memo)
    {
      match file
      case NoFile =>
      case Pickled(entries) => cache := cache + entries;
      case Unreadable => cache := map[];
    }

    /** The scan of `translate_batch`: skipped strings and cache hits go
        straight into the results, the rest is set aside for one request. */
    method Scan(texts: seq<string>, lang: string) returns (results: seq<string>, uncached: seq<string>, indices: seq<nat>, hits: nat)
      ensures var ks := Kinds(md5, cache, texts, lang);
              results == Pre(texts, ks) && uncached == MissTexts(texts, ks) &&
              indices == Misses(ks) && hits == HitCount(ks)
    {
      ghost var ks := Kinds(md5, cache, texts, lang);
      results := [];
      uncached := [];
      indices := [];
      hits := 0;
      for i := 0 to |texts|
        invariant results == Pre(texts[..i], ks[..i])
        invariant indices == Misses(ks[..i])
        invariant uncached == MissTexts(texts[..i], ks[..i])
        invariant hits == HitCount(ks[..i])
      {
        ScanStep(texts, ks, i);
        var text := texts[i];
        var key := CacheKey(md5, text, lang);
        assert ks[i] == KindOf(md5, cache, text, lang);
        if Skipped(text) {
          results := results + [text];
        } else if key in cache {
          results := results + [cache[key]];
          hits := hits + 1;
        } else {
          results := results + [text];
          uncached := uncached + [text];
          indices := indices + [i];
        }
      }
      assert texts[..|texts|] == texts && ks[..|texts|] == ks;
    }

    /** The store loop: each cleaned answer is cached under its key and
        written at its index. */
    method Store(pre: seq<string>, indices: seq<nat>, uncached: seq<string>, parts: seq<string>, lang: string)
      returns (results: seq<string>)
      modifies this
      requires |indices| == |uncached| == |parts| && Below(indices, |pre|)
      ensures cache == StoreAll(old(cache), Keys(md5, uncached, lang), CleanAll(parts))
      ensures results == Scatter(pre, indices, CleanAll(parts))
      ensures memo == old(memo)
    {
      ghost var c := cache;
      var keys := Keys(md5, uncached, lang);
      var outs := CleanAll(parts);
      results := pre;
      assert |keys| == |outs| == |uncached| by {
        if uncached != [] { KeysCleanAt(md5, uncached, parts, lang, 0); }
      }
      for j := 0 to |uncached|
        invariant cache == StoreAll(c, keys[..j], outs[..j])
        invariant results == Scatter(pre, indices[..j], outs[..j])
        invariant memo == old(memo)
      {
        assert keys[..j + 1] == keys[..j] + [keys[j]];
        assert indices[..j + 1] == indices[..j] + [indices[j]] && outs[..j + 1] == outs[..j] + [outs[j]];
        var key := CacheKey(md5, uncached[j], lang);
        var cleaned := Clean(parts[j]);
        KeysCleanAt(md5, uncached, parts, lang, j);
        ScatterSnoc(pre, indices[..j], outs[..j], indices[j], cleaned);
        cache := cache[key := cleaned];
        results := results[indices[j] := cleaned];
      }
      assert keys[..|uncached|] == keys && outs[..|uncached|] == outs && indices[..|uncached|] == indices;
    }

    /** `translate_batch(texts, lang_to)` */
    method TranslateBatch(texts: seq<string>, lang: string) returns (results: seq<string>, stats: BatchStats)
      modifies this
      ensures var run := RunBatch(md5, translator, old(cache), texts, lang);
              results == run.results && cache == run.cache && stats == run.stats
      ensures memo == old(memo)
    {
      var pre, uncached, indices, hits := Scan(texts, lang);
      var total := NonBlankCount(texts);
      if uncached == [] {
        return pre, BatchStats(hits, 0, total, None, false);
      }
      var answer := Request(translator, uncached, Sep, lang);
      match answer
      case Raised(m) =>
        RunBatchRaised(md5, translator, cache, texts, lang);
        results, stats := pre, BatchStats(hits, 0, total, Some(Warning(m)), true);
      case Answered(parts) =>
        RunBatchAnswered(md5, translator, cache, texts, lang);
        results := Store(pre, indices, uncached, parts, lang);
        stats := BatchStats(hits, |uncached|, total, None, false);
    }

    /** `translate_to(string, lang_to)`: a pair seen before is answered
        from the `lru_cache` with no other effect; otherwise the answer is
        remembered there. */
    method TranslateTo(s: string, lang: string) returns (r: string)
      modifies this
      ensures (s, lang) in old(memo) ==> r == old(memo)[(s, lang)] && cache == old(cache) && memo == old(memo)
      ensures (s, lang) !in old(memo) ==>
                (r, cache) == TranslateOne(md5, translator, old(cache), s, lang) &&
                memo == old(memo)[(s, lang) := r]
    {
      if (s, lang) in memo {
        return memo[(s, lang)];
      }
      var key := CacheKey(md5, s, lang);
      if TranslateToSkips(s) {
        r := s;
      } else if key in cache {
        r := cache[key];
      } else {
        var reply := translator(s, lang);
        match reply
        case Translated(t) =>
          r := Clean(t);
          cache := cache[key := r];
        case Failed(_) =>
          r := s;
      }
      memo := memo[(s, lang) := r];
    }

    /** `translate_json_file(content, lang_to, …, stop_callback)` */
    method TranslateJsonFile(content: Json, lang: string, stop: nat -> bool) returns (out: Json, changed: nat, stats: FileStats)
      modifies this
      ensures var ls := Collect(content, "");
              !content.JObject? || ls == [] ==>
                out == content && changed == 0 && stats == FileStats(0, 0, 0) && cache == old(cache)
      ensures var ls := Collect(content, "");
              var run := RunFile(Batches(md5, translator, lang), old(cache), Texts(ls), stop, 0, [], FileStats(0, 0, 0));
              content.JObject? && ls != [] ==>
                |run.outs| <= |ls| &&
                out == Apply(content, "", Paths(ls), run.outs) && cache == run.cache && stats == run.stats &&
                changed == ChangedCount(Texts(ls), run.outs)
      ensures memo == old(memo)
    {
      if !content.JObject? {
        return content, 0, FileStats(0, 0, 0);
      }
      var ls := Collect(content, "");
      var all := Texts(ls);
      var paths := Paths(ls);
      if |all| == 0 {
        return content, 0, FileStats(0, 0, 0);
      }
      ghost var c0 := cache;
      ghost var whole := RunFile(Batches(md5, translator, lang), c0, all, stop, 0, [], FileStats(0, 0, 0));
      var translated: seq<string> := [];
      stats := FileStats(0, 0, 0);
      var i: nat := 0;
      while i < |all|
        invariant |translated| == Min(i, |all|)
        invariant RunFile(Batches(md5, translator, lang), cache, all, stop, i, translated, stats) == whole
        invariant memo == old(memo)
        decreases |all| - i
      {
        if stop(i / 5) {
          break;
        }
        var batch := all[i..Min(i + 5, |all|)];
        var res, bstats := TranslateBatch(batch, lang);
        translated := translated + res;
        stats := AddStats(stats, bstats);
        i := i + 5;
      }
      out := Apply(content, "", paths, translated);
      changed := ChangedCount(all, translated);
    }
  }
}
