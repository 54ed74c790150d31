/** The optimized translator of `translate_jar_optimized.py`: a fast
    prefilter, batches packed by length, a two-level cache (a dict in
    memory over an SQLite table), the batch translation that ties them
    together, and the dictionary translation of lang and patchouli files
    with their target paths. */
module OptimizedJar {
  import opened Base
  import opened Strings
  import opened JsonTree
  import opened SimpleJar
  import SimpleBatch

  // ---------------------------------------------------------------------
  // should_translate

  /** `[a-z_]` */
  predicate IsIdentChar(c: char) {
    'a' <= c <= 'z' || c == '_'
  }

  /** The whole of `t` matches `[a-z_]+:[a-z_]+`: one colon, not first and
      not last, and only identifier characters around it. */
  predicate IsNamespacedId(t: string) {
    exists i :: 0 < i < |t| - 1 && t[i] == ':' &&
      (forall k :: 0 <= k < i ==> IsIdentChar(t[k])) &&
      (forall k :: i < k < |t| ==> IsIdentChar(t[k]))
  }

  /** `TECHNICAL_PATTERN.match(t)` for `^[a-z_]+:[a-z_]+$`: Python's `$`
      also matches just before a final newline. */
  predicate IsTechnicalId(t: string) {
    IsNamespacedId(t) || (|t| > 0 && t[|t| - 1] == '\n' && IsNamespacedId(t[..|t| - 1]))
  }

  /** `PLACEHOLDER_PATTERN.search(t)` for `[{}%]` */
  predicate HasPlaceholder(t: string) {
    '{' in t || '}' in t || '%' in t
  }

  /** `[0-9a-fk-or]` */
  predicate IsFormatCode(c: char) {
    '0' <= c <= '9' || 'a' <= c <= 'f' || 'k' <= c <= 'o' || c == 'r'
  }

  /** `FORMATTING_PATTERN.search(t)` for `[§&][0-9a-fk-or]` */
  predicate HasFormatting(t: string) {
    exists i :: 0 <= i < |t| - 1 && (t[i] == '§' || t[i] == '&') && IsFormatCode(t[i + 1])
  }

  /** The prefilter of `batch_translate_optimized`. */
  predicate ShouldTranslate(t: string) {
    |t| >= 3 && !IsBlank(t)
    && !IsTechnicalId(t) && !HasPlaceholder(t) && !HasCyrillic(t) && !HasFormatting(t)
  }

  /** A registry id such as `minecraft:stone`, with or without one trailing
      newline, is never sent for translation. */
  lemma NamespacedIdRejected(ns: string, name: string)
    requires |ns| > 0 && |name| > 0
    requires forall k :: 0 <= k < |ns| ==> IsIdentChar(ns[k])
    requires forall k :: 0 <= k < |name| ==> IsIdentChar(name[k])
    ensures !ShouldTranslate(ns + ":" + name)
    ensures !ShouldTranslate(ns + ":" + name + "\n")
  {
    var t := ns + ":" + name;
    assert t[|ns|] == ':';
    assert forall k :: |ns| < k < |t| ==> t[k] == name[k - |ns| - 1];
    assert IsNamespacedId(t);
    var u := t + "\n";
    assert u[..|u| - 1] == t;
  }

  /** Text already holding Cyrillic, such as an earlier Russian output, is
      never sent again. */
  lemma CyrillicRejected(t: string)
    requires HasCyrillic(t)
    ensures !ShouldTranslate(t)
  {
  }

  /** Ordinary English text, such as `Iron Sword`: ASCII letters and
      spaces, at least three characters, at least one of them a letter. */
  predicate IsPlainText(t: string) {
    |t| >= 3 && (exists j :: 0 <= j < |t| && IsAsciiLetter(t[j]))
    && forall k :: 0 <= k < |t| ==> IsAsciiLetter(t[k]) || t[k] == ' '
  }

  /** Ordinary English text is sent. */
  lemma PlainTextAccepted(t: string)
    requires IsPlainText(t)
    ensures ShouldTranslate(t)
  {
    var j :| 0 <= j < |t| && IsAsciiLetter(t[j]);
    assert !IsSpace(t[j]);
    assert forall k :: 0 <= k < |t| ==> t[k] != ':' && t[k] != '\n' && !IsCyrillic(t[k]) && t[k] != '§' && t[k] != '&';
    assert t[|t| - 1] != '\n';
  }

  // ---------------------------------------------------------------------
  // create_smart_batches

  const MaxBatchLength: int := 4000

  /** The length a text adds to a batch: its own and 15 for the separator. */
  function Cost(t: string): nat {
    |t| + 15
  }

  function Weight(batch: seq<string>): nat {
    if batch == [] then 0 else Weight(batch[..|batch| - 1]) + Cost(batch[|batch| - 1])
  }

  /** The batches laid end to end. */
  function Concat(batches: seq<seq<string>>): seq<string> {
    if batches == [] then [] else Concat(batches[..|batches| - 1]) + batches[|batches| - 1]
  }

  /** The loop state of `create_smart_batches`: the batches closed so far,
      the current batch and its length. */
  datatype Packing = Packing(closed: seq<seq<string>>, open: seq<string>, length: int)

  /** One turn of the loop: the current batch is closed when it is not
      empty and `t` would take it over `max`; `t` then starts the next. */
  function Step(p: Packing, t: string, max: int): Packing {
    if p.length + Cost(t) > max && p.open != [] then Packing(p.closed + [p.open], [t], Cost(t))
    else Packing(p.closed, p.open + [t], p.length + Cost(t))
  }

  /** The state after the texts `texts`, one text at a time. */
  function Pack(texts: seq<string>, max: int): Packing {
    if texts == [] then Packing([], [], 0)
    else Step(Pack(texts[..|texts| - 1], max), texts[|texts| - 1], max)
  }

  /** `create_smart_batches(texts, max)` */
  function SmartBatches(texts: seq<string>, max: int): seq<seq<string>> {
    if texts == [] then []
    else
      var p := Pack(texts, max);
      if p.open != [] then p.closed + [p.open] else p.closed
  }

  lemma ConcatSnoc(batches: seq<seq<string>>, b: seq<string>)
    ensures Concat(batches + [b]) == Concat(batches) + b
  {
    assert (batches + [b])[..|batches|] == batches;
  }

  lemma StepConcat(p: Packing, t: string, max: int)
    ensures Concat(Step(p, t, max).closed) + Step(p, t, max).open == Concat(p.closed) + p.open + [t]
  {
    if p.length + Cost(t) > max && p.open != [] {
      ConcatSnoc(p.closed, p.open);
    }
  }

  /** The closed batches and the current one hold the texts in order. */
  lemma {:induction false} PackConcat(texts: seq<string>, max: int)
    ensures Concat(Pack(texts, max).closed) + Pack(texts, max).open == texts
  {
    if texts != [] {
      var n := |texts| - 1;
      var p := Pack(texts[..n], max);
      var q := Pack(texts, max);
      assert q == Step(p, texts[n], max);
      PackConcat(texts[..n], max);
      StepConcat(p, texts[n], max);
      InitLast(texts);
    }
  }

  /** The current batch is not empty once a text was read, and no batch is
      closed before. */
  lemma PackOpen(texts: seq<string>, max: int)
    ensures texts != [] ==> Pack(texts, max).open != []
    ensures Pack(texts, max).open == [] ==> Pack(texts, max).closed == []
  {
  }

  /** The running length is the weight of the current batch. */
  lemma {:induction false} PackLength(texts: seq<string>, max: int)
    ensures Pack(texts, max).length == Weight(Pack(texts, max).open)
  {
    if texts != [] {
      var n := |texts| - 1;
      PackLength(texts[..n], max);
      var p := Pack(texts[..n], max);
      if !(p.length + Cost(texts[n]) > max && p.open != []) {
        assert (p.open + [texts[n]])[..|p.open|] == p.open;
      } else {
        assert [texts[n]][..0] == [];
      }
    }
  }

  /** No closed batch is empty. */
  lemma {:induction false} PackNonEmpty(texts: seq<string>, max: int)
    ensures forall k :: 0 <= k < |Pack(texts, max).closed| ==> Pack(texts, max).closed[k] != []
  {
    if texts != [] {
      PackNonEmpty(texts[..|texts| - 1], max);
    }
  }

  /** A batch of more than one text stays within `max`. */
  lemma {:induction false} PackWithin(texts: seq<string>, max: int)
    ensures var p := Pack(texts, max);
            (|p.open| > 1 ==> Weight(p.open) <= max) &&
            (forall k :: 0 <= k < |p.closed| && |p.closed[k]| > 1 ==> Weight(p.closed[k]) <= max)
  {
    if texts != [] {
      var n := |texts| - 1;
      PackWithin(texts[..n], max);
      PackLength(texts[..n], max);
      var p := Pack(texts[..n], max);
      if !(p.length + Cost(texts[n]) > max && p.open != []) {
        assert (p.open + [texts[n]])[..|p.open|] == p.open;
      }
    }
  }

  /** The batch that follows the `k`-th closed one. */
  function Next(p: Packing, k: nat): seq<string>
    requires k <= |p.closed|
  {
    if k < |p.closed| then p.closed[k] else p.open
  }

  /** A batch is closed only when the first text of the next batch would
      take it over `max`. */
  lemma {:induction false} PackGreedy(texts: seq<string>, max: int)
    ensures var p := Pack(texts, max);
            forall k :: 0 < k <= |p.closed| ==> Next(p, k) != [] && Weight(p.closed[k - 1]) + Cost(Next(p, k)[0]) > max
  {
    if texts != [] {
      var n := |texts| - 1;
      PackGreedy(texts[..n], max);
      var p := Pack(texts[..n], max);
      var q := Pack(texts, max);
      if p.length + Cost(texts[n]) > max && p.open != [] {
        PackLength(texts[..n], max);
        forall k | 0 < k <= |q.closed|
          ensures Next(q, k) != [] && Weight(q.closed[k - 1]) + Cost(Next(q, k)[0]) > max
        {
          if k <= |p.closed| {
            assert Next(q, k) == Next(p, k);
          }
        }
      } else if p.open == [] {
        PackOpen(texts[..n], max);
        assert q.closed == [];
      } else {
        forall k | 0 < k <= |q.closed|
          ensures Next(q, k) != [] && Weight(q.closed[k - 1]) + Cost(Next(q, k)[0]) > max
        {
          assert Next(q, k)[0] == Next(p, k)[0];
        }
      }
    }
  }

  /** No batch is empty, empty input gives no batch, and the batches laid
      end to end give back the texts in order. */
  lemma SmartBatchesCover(texts: seq<string>, max: int)
    ensures var bs := SmartBatches(texts, max);
            (bs == [] <==> texts == []) && Concat(bs) == texts &&
            forall k :: 0 <= k < |bs| ==> bs[k] != []
  {
    PackConcat(texts, max);
    PackOpen(texts, max);
    PackNonEmpty(texts, max);
    var p := Pack(texts, max);
    if texts != [] {
      ConcatSnoc(p.closed, p.open);
    }
  }

  /** Every batch of more than one text stays within `max`, and every batch
      but the first follows one that was closed only because this batch's
      first text did not fit. */
  lemma SmartBatchesFit(texts: seq<string>, max: int)
    ensures var bs := SmartBatches(texts, max);
            (forall k :: 0 <= k < |bs| && |bs[k]| > 1 ==> Weight(bs[k]) <= max) &&
            (forall k :: 0 < k < |bs| ==> bs[k] != [] && Weight(bs[k - 1]) + Cost(bs[k][0]) > max)
  {
    PackOpen(texts, max);
    PackWithin(texts, max);
    PackGreedy(texts, max);
    var p := Pack(texts, max);
    var bs := SmartBatches(texts, max);
    if texts != [] {
      forall k | 0 < k < |bs| ensures bs[k] != [] && Weight(bs[k - 1]) + Cost(bs[k][0]) > max {
        assert bs[k] == Next(p, k);
      }
    }
  }

  /** `create_smart_batches`: the loop over the texts. */
  method CreateSmartBatches(texts: seq<string>, max: int) returns (batches: seq<seq<string>>)
    ensures batches == SmartBatches(texts, max)
    ensures Concat(batches) == texts && (batches == [] <==> texts == [])
    ensures forall k :: 0 <= k < |batches| ==> batches[k] != []
    ensures forall k :: 0 <= k < |batches| && |batches[k]| > 1 ==> Weight(batches[k]) <= max
  {
    if texts == [] {
      SmartBatchesCover(texts, max);
      return [];
    }
    batches := [];
    var current: seq<string> := [];
    var length := 0;
    for i := 0 to |texts|
      invariant Pack(texts[..i], max) == Packing(batches, current, length)
    {
      assert texts[..i + 1][..i] == texts[..i];
      assert Pack(texts[..i + 1], max) == Step(Packing(batches, current, length), texts[i], max);
      var cost := |texts[i]| + 15;
      if length + cost > max && current != [] {
        batches := batches + [current];
        current := [texts[i]];
        length := cost;
      } else {
        current := current + [texts[i]];
        length := length + cost;
      }
    }
    assert texts[..|texts|] == texts;
    if current != [] {
      batches := batches + [current];
    }
    SmartBatchesCover(texts, max);
    SmartBatchesFit(texts, max);
  }

  // ---------------------------------------------------------------------
  // OptimizedTranslationCache

  /** The cached translation of a key: the memory entry first, then the
      table's. */
  function Cached(memory: map<string, string>, table: map<string, string>, key: string): (r: Option<string>)
    ensures r.Some? <==> key in memory || key in table
    ensures key in memory ==> r == Some(memory[key])
    ensures key !in memory && key in table ==> r == Some(table[key])
  {
    if key in memory then Some(memory[key]) else if key in table then Some(table[key]) else None
  }

  /** What `get_batch` finds for each key, in order. */
  function Fetched(memory: map<string, string>, table: map<string, string>, keys: seq<string>): seq<Option<string>>
  {
    seq(|keys|, i requires 0 <= i < |keys| => Cached(memory, table, keys[i]))
  }

  /** The memory after `get_batch`: every queried key that memory lacks and
      the table holds is copied in. */
  function Promote(memory: map<string, string>, table: map<string, string>, keys: seq<string>): map<string, string> {
    if keys == [] then memory
    else
      var m := Promote(memory, table, keys[..|keys| - 1]);
      var k := keys[|keys| - 1];
      if k !in memory && k in table then m[k := table[k]] else m
  }

  /** Promotion adds exactly the table hits among the queried keys that
      memory lacked, each with the table's value, and changes nothing
      else. */
  lemma {:induction false} PromoteAdds(memory: map<string, string>, table: map<string, string>, keys: seq<string>)
    ensures forall k :: k in Promote(memory, table, keys) <==> k in memory || (k in table && k in keys)
    ensures forall k :: k in Promote(memory, table, keys) ==> Promote(memory, table, keys)[k] == Cached(memory, table, k).value
  {
    if keys != [] {
      var n := |keys| - 1;
      PromoteAdds(memory, table, keys[..n]);
      assert keys == keys[..n] + [keys[n]];
    }
  }

  lemma PromoteSnoc(memory: map<string, string>, table: map<string, string>, keys: seq<string>, k: string)
    ensures Promote(memory, table, keys + [k]) ==
            if k !in memory && k in table then Promote(memory, table, keys)[k := table[k]] else Promote(memory, table, keys)
  {
    assert (keys + [k])[..|keys|] == keys;
  }

  /** The keys memory lacks, in order: what `get_batch` asks the table. */
  function Unheld(memory: map<string, string>, keys: seq<string>): seq<string> {
    if keys == [] then []
    else Unheld(memory, keys[..|keys| - 1]) + (if keys[|keys| - 1] in memory then [] else [keys[|keys| - 1]])
  }

  /** Keys memory already holds promote nothing. */
  lemma {:induction false} PromoteSkipsHeld(memory: map<string, string>, table: map<string, string>, keys: seq<string>)
    ensures Promote(memory, table, Unheld(memory, keys)) == Promote(memory, table, keys)
  {
    if keys != [] {
      var n := |keys| - 1;
      PromoteSkipsHeld(memory, table, keys[..n]);
      var q := Unheld(memory, keys[..n]);
      if keys[n] !in memory {
        assert (q + [keys[n]])[..|q|] == q;
      } else {
        assert Unheld(memory, keys) == q by { assert q + [] == q; }
      }
    }
  }

  /** A text saved by `save_batch` is found by the next `get_batch` with
      its last saved translation. */
  lemma SavedThenFound(memory: map<string, string>, table: map<string, string>, keys: seq<string>, vals: seq<string>, i: nat)
    requires |keys| == |vals| && i < |keys|
    requires forall j :: i < j < |keys| ==> keys[j] != keys[i]
    ensures Cached(StoreAll(memory, keys, vals), StoreAll(table, keys, vals), keys[i]) == Some(vals[i])
  {
    StoreAllLast(memory, keys, vals, i);
  }

  /** What the memory pass of `get_batch` leaves for the table pass: the
      results so far (memory hits), the ascending positions memory lacked,
      and their keys. */
  ghost predicate Scanned(memory: map<string, string>, keys: seq<string>, scanned: seq<Option<string>>, pending: seq<nat>, queries: seq<string>) {
    |scanned| == |keys| &&
    (forall p :: 0 <= p < |keys| ==> scanned[p] == (if keys[p] in memory then Some(memory[keys[p]]) else None)) &&
    Increasing(pending) && Below(pending, |keys|) &&
    (forall p :: 0 <= p < |keys| ==> (p in pending <==> keys[p] !in memory)) &&
    |queries| == |pending| && (forall j :: 0 <= j < |pending| ==> queries[j] == keys[pending[j]])
  }

  /** Each pending position is a key memory lacks, queried under that key. */
  ghost predicate Queued(memory: map<string, string>, keys: seq<string>, pending: seq<nat>, queries: seq<string>) {
    |queries| == |pending| &&
    forall t :: 0 <= t < |pending| ==> pending[t] < |keys| && queries[t] == keys[pending[t]] && keys[pending[t]] !in memory
  }

  /** The state of the table pass: results, positions still missing, and
      memory. */
  datatype Resolved = Resolved(results: seq<Option<string>>, missed: seq<nat>, memory: map<string, string>)

  /** The table pass over the first pending positions and their keys. */
  function Resolve(memory: map<string, string>, table: map<string, string>, scanned: seq<Option<string>>,
                   pending: seq<nat>, queries: seq<string>): Resolved
    requires |pending| == |queries|
  {
    if pending == [] then Resolved(scanned, [], memory)
    else
      var r := Resolve(memory, table, scanned, pending[..|pending| - 1], queries[..|queries| - 1]);
      var i, h := pending[|pending| - 1], queries[|queries| - 1];
      if h in table then
        Resolved(if i < |r.results| then r.results[i := Some(table[h])] else r.results, r.missed, r.memory[h := table[h]])
      else Resolved(r.results, r.missed + [i], r.memory)
  }

  /** One more turn of the table pass. */
  lemma ResolveSnoc(memory: map<string, string>, table: map<string, string>, scanned: seq<Option<string>>,
                    pending: seq<nat>, queries: seq<string>, j: nat)
    requires |pending| == |queries| && j < |pending|
    ensures var r := Resolve(memory, table, scanned, pending[..j], queries[..j]);
            var i, h := pending[j], queries[j];
            Resolve(memory, table, scanned, pending[..j + 1], queries[..j + 1]) ==
            if h in table then
              Resolved(if i < |r.results| then r.results[i := Some(table[h])] else r.results, r.missed, r.memory[h := table[h]])
            else Resolved(r.results, r.missed + [i], r.memory)
  {
    assert pending[..j + 1][..j] == pending[..j] && queries[..j + 1][..j] == queries[..j];
  }

  /** After `j` turns, the first `j` pending positions hold what the cache
      finds for them and the others are as the memory pass left them. */
  lemma {:induction false} ResolveResults(memory: map<string, string>, table: map<string, string>, keys: seq<string>,
                                          scanned: seq<Option<string>>, pending: seq<nat>, queries: seq<string>, j: nat)
    requires Queued(memory, keys, pending, queries) && |scanned| == |keys| && j <= |pending|
    requires forall t :: 0 <= t < |pending| ==> scanned[pending[t]] == None
    ensures var r := Resolve(memory, table, scanned, pending[..j], queries[..j]);
            |r.results| == |keys| &&
            forall p :: 0 <= p < |keys| ==> r.results[p] == if p in pending[..j] then Cached(memory, table, keys[p]) else scanned[p]
  {
    if j > 0 {
      ResolveResults(memory, table, keys, scanned, pending, queries, j - 1);
      assert pending[..j][..j - 1] == pending[..j - 1] && queries[..j][..j - 1] == queries[..j - 1];
      assert pending[..j] == pending[..j - 1] + [pending[j - 1]];
      var i := pending[j - 1];
      assert i < |keys| && queries[j - 1] == keys[i] && keys[i] !in memory;
      var prev := Resolve(memory, table, scanned, pending[..j - 1], queries[..j - 1]).results;
      var r := Resolve(memory, table, scanned, pending[..j], queries[..j]).results;
      forall p | 0 <= p < |keys|
        ensures r[p] == if p in pending[..j] then Cached(memory, table, keys[p]) else scanned[p]
      {
        if p == i {
          assert scanned[pending[j - 1]] == None;
        } else {
          assert r[p] == prev[p];
          assert p in pending[..j] <==> p in pending[..j - 1];
        }
      }
    }
  }

  /** The table pass never changes how many results there are. */
  lemma {:induction false} ResolveKeepsLength(memory: map<string, string>, table: map<string, string>, scanned: seq<Option<string>>,
                                              pending: seq<nat>, queries: seq<string>)
    requires |pending| == |queries|
    ensures |Resolve(memory, table, scanned, pending, queries).results| == |scanned|
  {
    if pending != [] {
      ResolveKeepsLength(memory, table, scanned, pending[..|pending| - 1], queries[..|queries| - 1]);
    }
  }

  /** The positions still missing are ascending and none lies beyond the
      last pending position handled. */
  lemma {:induction false} ResolveMissedOrder(memory: map<string, string>, table: map<string, string>, scanned: seq<Option<string>>,
                                              pending: seq<nat>, queries: seq<string>, j: nat)
    requires Increasing(pending) && |queries| == |pending| && j <= |pending|
    ensures var r := Resolve(memory, table, scanned, pending[..j], queries[..j]);
            Increasing(r.missed) && (if j == 0 then r.missed == [] else Below(r.missed, pending[j - 1] + 1))
  {
    if j > 0 {
      ResolveMissedOrder(memory, table, scanned, pending, queries, j - 1);
      assert pending[..j][..j - 1] == pending[..j - 1] && queries[..j][..j - 1] == queries[..j - 1];
      if j > 1 {
        assert pending[j - 2] < pending[j - 1];
      }
    }
  }

  /** The positions still missing are exactly the pending positions handled
      so far that the cache does not hold. */
  lemma {:induction false} ResolveMissed(memory: map<string, string>, table: map<string, string>, keys: seq<string>,
                                         scanned: seq<Option<string>>, pending: seq<nat>, queries: seq<string>, j: nat)
    requires Queued(memory, keys, pending, queries) && j <= |pending|
    ensures var r := Resolve(memory, table, scanned, pending[..j], queries[..j]);
            forall x :: x in r.missed <==> x in pending[..j] && Cached(memory, table, keys[x]).None?
  {
    if j > 0 {
      ResolveMissed(memory, table, keys, scanned, pending, queries, j - 1);
      assert pending[..j][..j - 1] == pending[..j - 1] && queries[..j][..j - 1] == queries[..j - 1];
      assert pending[..j] == pending[..j - 1] + [pending[j - 1]];
    }
  }

  /** The memory after the table pass is the promotion of the queried keys. */
  lemma {:induction false} ResolveMemory(memory: map<string, string>, table: map<string, string>, keys: seq<string>,
                                         scanned: seq<Option<string>>, pending: seq<nat>, queries: seq<string>, j: nat)
    requires Queued(memory, keys, pending, queries) && j <= |pending|
    ensures Resolve(memory, table, scanned, pending[..j], queries[..j]).memory == Promote(memory, table, queries[..j])
  {
    if j > 0 {
      ResolveMemory(memory, table, keys, scanned, pending, queries, j - 1);
      assert pending[..j][..j - 1] == pending[..j - 1] && queries[..j][..j - 1] == queries[..j - 1];
    }
  }

  /** The whole table pass: every key gets what the cache holds for it,
      memory gains the table hits, and the positions left missing are
      ascending and exactly those nothing holds. */
  lemma ResolveAll(memory: map<string, string>, table: map<string, string>, keys: seq<string>,
                   scanned: seq<Option<string>>, pending: seq<nat>, queries: seq<string>)
    requires Scanned(memory, keys, scanned, pending, queries)
    ensures var r := Resolve(memory, table, scanned, pending, queries);
            r.results == Fetched(memory, table, keys) && r.memory == Promote(memory, table, queries) &&
            Increasing(r.missed) && forall i :: i in r.missed <==> 0 <= i < |keys| && r.results[i].None?
  {
    var n := |pending|;
    assert pending[..n] == pending && queries[..n] == queries;
    ScannedQueued(memory, keys, scanned, pending, queries);
    ResolveMissedOrder(memory, table, scanned, pending, queries, n);
    ResolveMemory(memory, table, keys, scanned, pending, queries, n);
    ResolveFetched(memory, table, keys, scanned, pending, queries);
    ResolveMissed(memory, table, keys, scanned, pending, queries, n);
  }

  /** The memory pass hands over only positions memory lacks, each still
      empty. */
  lemma ScannedQueued(memory: map<string, string>, keys: seq<string>,
                      scanned: seq<Option<string>>, pending: seq<nat>, queries: seq<string>)
    requires Scanned(memory, keys, scanned, pending, queries)
    ensures Queued(memory, keys, pending, queries)
    ensures forall t :: 0 <= t < |pending| ==> scanned[pending[t]] == None
  {
    forall t | 0 <= t < |pending| ensures keys[pending[t]] !in memory && scanned[pending[t]] == None {
      assert pending[t] in pending;
    }
  }

  /** After the whole table pass every position holds what the cache
      finds for its key. */
  lemma ResolveFetched(memory: map<string, string>, table: map<string, string>, keys: seq<string>,
                       scanned: seq<Option<string>>, pending: seq<nat>, queries: seq<string>)
    requires Scanned(memory, keys, scanned, pending, queries)
    requires Queued(memory, keys, pending, queries)
    requires forall t :: 0 <= t < |pending| ==> scanned[pending[t]] == None
    ensures Resolve(memory, table, scanned, pending, queries).results == Fetched(memory, table, keys)
  {
    var n := |pending|;
    assert pending[..n] == pending && queries[..n] == queries;
    ResolveResults(memory, table, keys, scanned, pending, queries, n);
    var r := Resolve(memory, table, scanned, pending, queries);
    forall p | 0 <= p < |keys| ensures r.results[p] == Cached(memory, table, keys[p]) {
      if p in pending {
        var t :| 0 <= t < n && pending[t] == p;
      }
    }
  }

  /** What memory alone answers for each key. */
  function Hits(memory: map<string, string>, keys: seq<string>): (r: seq<Option<string>>)
    ensures |r| == |keys| && forall p :: 0 <= p < |keys| ==> r[p] == (if keys[p] in memory then Some(memory[keys[p]]) else None)
  {
    seq(|keys|, p requires 0 <= p < |keys| => if keys[p] in memory then Some(memory[keys[p]]) else None)
  }

  lemma HitsSnoc(memory: map<string, string>, keys: seq<string>, i: nat)
    requires i < |keys|
    ensures Hits(memory, keys[..i + 1]) ==
            Hits(memory, keys[..i]) + [if keys[i] in memory then Some(memory[keys[i]]) else None]
  {
  }

  /** The filter of the keys memory lacks. */
  function Lacks(memory: map<string, string>): string -> bool {
    k => k !in memory
  }

  /** The memory pass's three lists are in the relation the table pass
      needs. */
  lemma HitsScanned(memory: map<string, string>, keys: seq<string>)
    ensures var pending := Where(keys, Lacks(memory));
            Scanned(memory, keys, Hits(memory, keys), pending, Picked(keys, pending))
  {
    var pending := Where(keys, Lacks(memory));
    forall p | 0 <= p < |keys| ensures p in pending <==> keys[p] !in memory {
      assert Lacks(memory)(keys[p]) <==> keys[p] !in memory;
    }
  }

  /** `OptimizedTranslationCache`: a dict in memory over the SQLite table
      `translations`; both map the MD5 of `text:lang` to a translation. */
  class TranslationCache {
    var memory: map<string, string>
    var table: map<string, string>
    const md5: string -> string

    /** A new cache over the table already on disk; memory starts empty. */
    constructor(md5: string -> string, stored: map<string, string>)
      ensures memory == map[] && table == stored && this.md5 == md5
    {
      this.md5 := md5;
      memory := map[];
      table := stored;
    }

    /** `get_batch`: look each text up in memory, then ask the table for
        the rest in one query and copy its hits into memory. The misses
        are the ascending positions found in neither. */
    method GetBatch(texts: seq<string>, lang: string) returns (results: seq<Option<string>>, uncached: seq<nat>)
      modifies this
      ensures var keys := SimpleBatch.Keys(md5, texts, lang);
              results == Fetched(old(memory), old(table), keys) &&
              memory == Promote(old(memory), old(table), keys)
      ensures Increasing(uncached)
      ensures forall i :: i in uncached <==> 0 <= i < |texts| && results[i].None?
      ensures uncached == Where(results, Missing)
      ensures table == old(table)
    {
      var keys := SimpleBatch.Keys(md5, texts, lang);
      if texts == [] {
        return [], [];
      }
      var pending, queries;
      results, pending, queries := ScanMemory(keys);
      HitsScanned(memory, keys);
      PromoteSkipsHeld(memory, table, keys);
      if queries != [] {
        ghost var scanned := results;
        results, uncached := QueryTable(keys, results, pending, queries);
        ResolveAll(old(memory), table, keys, scanned, pending, queries);
      } else {
        forall p | 0 <= p < |keys| ensures results[p] == Cached(old(memory), table, keys[p]) {
          assert p !in pending;
        }
        uncached := pending;
      }
      IncreasingUnique(uncached, Where(results, Missing));
    }

    /** The memory pass of `get_batch`: memory hits filled in, the other
        positions and their keys set aside in order. */
    method ScanMemory(keys: seq<string>) returns (results: seq<Option<string>>, pending: seq<nat>, queries: seq<string>)
      ensures results == Hits(memory, keys)
      ensures pending == Where(keys, Lacks(memory))
      ensures queries == Picked(keys, pending) && queries == Unheld(memory, keys)
    {
      ghost var held := memory;
      ghost var lacks := Lacks(held);
      results, pending, queries := [], [], [];
      for i := 0 to |keys|
        invariant memory == held
        invariant results == Hits(held, keys[..i])
        invariant pending == Where(keys[..i], lacks) && Below(pending, |keys|)
        invariant queries == Picked(keys, pending) && queries == Unheld(held, keys[..i])
      {
        WhereSnoc(keys, i, lacks);
        HitsSnoc(held, keys, i);
        assert keys[..i + 1][..i] == keys[..i];
        assert lacks(keys[i]) <==> keys[i] !in memory;
        if keys[i] in memory {
          results := results + [Some(memory[keys[i]])];
        } else {
          PickedSnoc(keys, pending, i);
          results := results + [None];
          pending := pending + [i];
          queries := queries + [keys[i]];
        }
      }
      assert keys[..|keys|] == keys;
    }

    /** The table pass of `get_batch`: one query for the keys memory
        lacked; each hit fills its position and is copied into memory, the
        rest stay missing. */
    method QueryTable(keys: seq<string>, scanned: seq<Option<string>>, pending: seq<nat>, queries: seq<string>)
      returns (results: seq<Option<string>>, missed: seq<nat>)
      requires Scanned(memory, keys, scanned, pending, queries)
      modifies this
      ensures Resolved(results, missed, memory) == Resolve(old(memory), table, scanned, pending, queries)
      ensures table == old(table)
    {
      ghost var m0 := memory;
      var fromDb := map k | k in table && k in queries :: table[k];
      results, missed := scanned, [];
      for j := 0 to |pending|
        invariant Resolved(results, missed, memory) == Resolve(m0, table, scanned, pending[..j], queries[..j])
        invariant table == old(table)
      {
        ResolveKeepsLength(m0, table, scanned, pending[..j], queries[..j]);
        ResolveSnoc(m0, table, scanned, pending, queries, j);
        var i, h := pending[j], queries[j];
        assert i < |results|;
        assert h in fromDb <==> h in table by { assert h in queries; }
        if h in fromDb {
          results := results[i := Some(fromDb[h])];
          memory := memory[h := fromDb[h]];
        } else {
          missed := missed + [i];
        }
      }
      assert pending[..|pending|] == pending && queries[..|pending|] == queries;
    }

    /** `save_batch`: nothing unless both lists are non-empty and of equal
        length; otherwise each pair is stored in memory and in the table
        (`INSERT OR REPLACE`), a later duplicate overwriting an earlier. */
    method SaveBatch(texts: seq<string>, translations: seq<string>, lang: string)
      modifies this
      ensures texts == [] || translations == [] || |texts| != |translations| ==>
                memory == old(memory) && table == old(table)
      ensures texts != [] && translations != [] && |texts| == |translations| ==>
                var keys := SimpleBatch.Keys(md5, texts, lang);
                memory == StoreAll(old(memory), keys, translations) &&
                table == StoreAll(old(table), keys, translations)
    {
      if texts == [] || translations == [] || |texts| != |translations| {
        return;
      }
      var keys := SimpleBatch.Keys(md5, texts, lang);
      ghost var m0 := memory;
      for i := 0 to |texts|
        invariant memory == StoreAll(m0, keys[..i], translations[..i])
        invariant table == old(table)
      {
        assert keys[..i + 1] == keys[..i] + [keys[i]] && translations[..i + 1] == translations[..i] + [translations[i]];
        memory := memory[keys[i] := translations[i]];
      }
      assert keys[..|texts|] == keys && translations[..|texts|] == translations;
      table := StoreAll(table, keys, translations);
    }
  }

  // ---------------------------------------------------------------------
  // batch_translate_optimized

  /** The separator the smart batches are joined with. */
  const Separator: string := " |SEPARATOR| "

  /** A key the cache does not hold. */
  predicate Missing(found: Option<string>) {
    found.None?
  }

  /** `sum(1 for r in cached_results if r is not None)` */
  function HitCount(found: seq<Option<string>>): (n: nat)
    ensures n + |Where(found, Missing)| == |found|
  {
    if found == [] then 0
    else HitCount(found[..|found| - 1]) + (if found[|found| - 1].Some? then 1 else 0)
  }

  /** Each filtered text with its cached translation where there is one. */
  function Filled(found: seq<Option<string>>, filtered: seq<string>): (r: seq<string>)
    requires |found| == |filtered|
    ensures |r| == |found|
  {
    seq(|found|, k requires 0 <= k < |found| => if found[k].Some? then found[k].value else filtered[k])
  }

  /** What one smart batch contributes: the originals, uncleaned, when the
      joined request raises; otherwise the cleaned pieces of the answer, or
      of one request per text when the answer does not split back. */
  function BatchOutput(translator: Provider, batch: seq<string>, lang: string): (r: seq<string>)
    ensures |r| == |batch|
  {
    match SimpleBatch.AskBatch(translator, batch, Separator, lang)
    case Raised(_) => batch
    case Answered(parts) => SimpleBatch.CleanAll(parts)
  }

  /** `translated_texts`: the outputs of the batches, laid end to end. */
  function Translations(translator: Provider, batches: seq<seq<string>>, lang: string): (r: seq<string>)
    ensures |r| == |Concat(batches)|
  {
    if batches == [] then []
    else Translations(translator, batches[..|batches| - 1], lang) + BatchOutput(translator, batches[|batches| - 1], lang)
  }

  /** When every request raises, each text comes back as it was sent. */
  lemma {:induction false} TranslationsAllFailed(translator: Provider, batches: seq<seq<string>>, lang: string)
    requires forall s :: translator(s, lang).Failed?
    ensures Translations(translator, batches, lang) == Concat(batches)
  {
    if batches != [] {
      TranslationsAllFailed(translator, batches[..|batches| - 1], lang);
      var b := batches[|batches| - 1];
      assert SimpleBatch.AskBatch(translator, b, Separator, lang).Raised?;
    }
  }

  /** `uncached_texts`: the texts worth translating that the cache does not
      hold, in order. */
  function Uncached(md5: string -> string, memory: map<string, string>, table: map<string, string>,
                    texts: seq<string>, lang: string): seq<string>
  {
    var filtered := Picked(texts, Where(texts, ShouldTranslate));
    Picked(filtered, Where(Fetched(memory, table, SimpleBatch.Keys(md5, filtered, lang)), Missing))
  }

  /** The statistics dictionary; the two entries the early returns leave
      out are `None` there. */
  datatype Stats = Stats(cacheHits: nat, newTranslations: nat, totalStrings: nat,
                         filteredStrings: Option<nat>, apiBatches: Option<nat>)

  /** The translations made for the uncached texts, one per text. */
  function NewTranslations(md5: string -> string, translator: Provider, memory: map<string, string>, table: map<string, string>,
                           texts: seq<string>, lang: string): (r: seq<string>)
    ensures |r| == |Uncached(md5, memory, table, texts, lang)|
  {
    var uncached := Uncached(md5, memory, table, texts, lang);
    SmartBatchesCover(uncached, MaxBatchLength);
    Translations(translator, SmartBatches(uncached, MaxBatchLength), lang)
  }

  /** The results of `batch_translate_optimized(texts, lang_to)` over a
      cache in the given state: every text to start with, the cache hits
      written over the filtered texts, then the new translations over the
      uncached ones. */
  function OptimizedResults(md5: string -> string, translator: Provider, memory: map<string, string>, table: map<string, string>,
                            texts: seq<string>, lang: string): seq<string>
  {
    var sel := Where(texts, ShouldTranslate);
    if sel == [] then texts
    else
      var filtered := Picked(texts, sel);
      var found := Fetched(memory, table, SimpleBatch.Keys(md5, filtered, lang));
      var withHits := Scatter(texts, sel, Filled(found, filtered));
      if Uncached(md5, memory, table, texts, lang) == [] then withHits
      else Scatter(withHits, Picked(sel, Where(found, Missing)), NewTranslations(md5, translator, memory, table, texts, lang))
  }

  /** The memory after the call: `get_batch` promotes the table hits, then
      `save_batch` stores the new translations. */
  function OptimizedMemory(md5: string -> string, translator: Provider, memory: map<string, string>, table: map<string, string>,
                           texts: seq<string>, lang: string): map<string, string>
  {
    var sel := Where(texts, ShouldTranslate);
    if sel == [] then memory
    else
      var filtered := Picked(texts, sel);
      var promoted := Promote(memory, table, SimpleBatch.Keys(md5, filtered, lang));
      var uncached := Uncached(md5, memory, table, texts, lang);
      if uncached == [] then promoted
      else StoreAll(promoted, SimpleBatch.Keys(md5, uncached, lang), NewTranslations(md5, translator, memory, table, texts, lang))
  }

  /** The table after the call: `save_batch` stores the new translations. */
  function OptimizedTable(md5: string -> string, translator: Provider, memory: map<string, string>, table: map<string, string>,
                          texts: seq<string>, lang: string): map<string, string>
  {
    var uncached := Uncached(md5, memory, table, texts, lang);
    if Where(texts, ShouldTranslate) == [] || uncached == [] then table
    else StoreAll(table, SimpleBatch.Keys(md5, uncached, lang), NewTranslations(md5, translator, memory, table, texts, lang))
  }

  /** The statistics of the call. */
  function OptimizedStats(md5: string -> string, memory: map<string, string>, table: map<string, string>,
                          texts: seq<string>, lang: string): Stats
  {
    var sel := Where(texts, ShouldTranslate);
    if texts == [] then Stats(0, 0, 0, None, None)
    else if sel == [] then Stats(0, 0, |texts|, None, None)
    else
      var filtered := Picked(texts, sel);
      var found := Fetched(memory, table, SimpleBatch.Keys(md5, filtered, lang));
      var uncached := Uncached(md5, memory, table, texts, lang);
      Stats(HitCount(found), |uncached|, |texts|, Some(|filtered|),
            Some(if uncached == [] then 0 else |SmartBatches(uncached, MaxBatchLength)|))
  }

  /** The filtering loop: the texts worth translating and their positions. */
  method FilterTexts(texts: seq<string>) returns (filtered: seq<string>, indices: seq<nat>)
    ensures indices == Where(texts, ShouldTranslate) && filtered == Picked(texts, indices)
  {
    filtered, indices := [], [];
    for i := 0 to |texts|
      invariant indices == Where(texts[..i], ShouldTranslate)
      invariant Below(indices, |texts|) && filtered == Picked(texts, indices)
    {
      WhereSnoc(texts, i, ShouldTranslate);
      if ShouldTranslate(texts[i]) {
        PickedSnoc(texts, indices, i);
        filtered := filtered + [texts[i]];
        indices := indices + [i];
      }
    }
    assert texts[..|texts|] == texts;
  }

  /** The loop that writes each cache hit at its text's position. */
  method ApplyHits(texts: seq<string>, sel: seq<nat>, filtered: seq<string>, found: seq<Option<string>>)
    returns (results: seq<string>)
    requires Increasing(sel) && Below(sel, |texts|) && |filtered| == |sel| == |found|
    requires forall k :: 0 <= k < |sel| ==> filtered[k] == texts[sel[k]]
    ensures results == Scatter(texts, sel, Filled(found, filtered))
  {
    var fill := Filled(found, filtered);
    results := texts;
    for i := 0 to |found|
      invariant results == Scatter(texts, sel[..i], fill[..i])
    {
      assert sel[..i + 1] == sel[..i] + [sel[i]] && fill[..i + 1] == fill[..i] + [fill[i]];
      ScatterSnoc(texts, sel[..i], fill[..i], sel[i], fill[i]);
      if found[i].Some? {
        results := results[sel[i] := found[i].value];
      } else {
        ScatterElsewhere(texts, sel[..i], fill[..i], sel[i]);
        assert results[sel[i] := fill[i]] == results;
      }
    }
    assert sel[..|found|] == sel && fill[..|found|] == fill;
  }

  /** The batch loop: one joined request per smart batch, with the
      per-text fallback, the cleaning, and the originals on failure. */
  method TranslateBatches(translator: Provider, batches: seq<seq<string>>, lang: string) returns (translated: seq<string>)
    ensures translated == Translations(translator, batches, lang)
  {
    translated := [];
    for n := 0 to |batches|
      invariant translated == Translations(translator, batches[..n], lang)
    {
      assert batches[..n + 1][..n] == batches[..n];
      var answer := SimpleBatch.Request(translator, batches[n], Separator, lang);
      match answer
      case Raised(_) =>
        translated := translated + batches[n];
      case Answered(parts) =>
        translated := translated + SimpleBatch.CleanAll(parts);
    }
    assert batches[..|batches|] == batches;
  }

  /** The loop that writes each new translation at its text's position. */
  method ApplyTranslations(results: seq<string>, targets: seq<nat>, translated: seq<string>) returns (out: seq<string>)
    requires Below(targets, |results|) && |translated| == |targets|
    ensures out == Scatter(results, targets, translated)
  {
    out := results;
    for i := 0 to |translated|
      invariant out == Scatter(results, targets[..i], translated[..i])
    {
      if i < |targets| {
        assert targets[..i + 1] == targets[..i] + [targets[i]] && translated[..i + 1] == translated[..i] + [translated[i]];
        ScatterSnoc(results, targets[..i], translated[..i], targets[i], translated[i]);
        out := out[targets[i] := translated[i]];
      }
    }
    assert targets[..|translated|] == targets && translated[..|translated|] == translated;
  }

  /** `batch_translate_optimized(texts, lang_to)` against the module's
      cache. */
  method BatchTranslateOptimized(cache: TranslationCache, translator: Provider, texts: seq<string>, lang: string)
    returns (results: seq<string>, stats: Stats)
    modifies cache
    ensures results == OptimizedResults(cache.md5, translator, old(cache.memory), old(cache.table), texts, lang)
    ensures cache.memory == OptimizedMemory(cache.md5, translator, old(cache.memory), old(cache.table), texts, lang)
    ensures cache.table == OptimizedTable(cache.md5, translator, old(cache.memory), old(cache.table), texts, lang)
    ensures stats == OptimizedStats(cache.md5, old(cache.memory), old(cache.table), texts, lang)
  {
    if texts == [] {
      return [], Stats(0, 0, 0, None, None);
    }
    var filtered, sel := FilterTexts(texts);
    results := texts;
    if filtered == [] {
      return results, Stats(0, 0, |texts|, None, None);
    }
    var found, miss := cache.GetBatch(filtered, lang);
    var hits := HitCount(found);
    results := ApplyHits(texts, sel, filtered, found);
    var uncached := Picked(filtered, miss);
    var batchCount := 0;
    if uncached != [] {
      var translated;
      translated, batchCount := TranslateNew(cache, translator, uncached, lang);
      var targets := Picked(sel, miss);
      assert Below(targets, |results|);
      results := ApplyTranslations(results, targets, translated);
    }
    stats := Stats(hits, |uncached|, |texts|, Some(|filtered|), Some(batchCount));
  }

  /** The part of `batch_translate_optimized` that runs when some texts were
      not cached: smart batches, their requests, and `save_batch`. */
  method TranslateNew(cache: TranslationCache, translator: Provider, uncached: seq<string>, lang: string)
    returns (translated: seq<string>, batchCount: nat)
    requires uncached != []
    modifies cache
    ensures var batches := SmartBatches(uncached, MaxBatchLength);
            translated == Translations(translator, batches, lang) && |translated| == |uncached| &&
            batchCount == |batches|
    ensures var keys := SimpleBatch.Keys(cache.md5, uncached, lang);
            cache.memory == StoreAll(old(cache.memory), keys, translated) &&
            cache.table == StoreAll(old(cache.table), keys, translated)
  {
    var batches := CreateSmartBatches(uncached, MaxBatchLength);
    translated := TranslateBatches(translator, batches, lang);
    if |translated| == |uncached| {
      cache.SaveBatch(uncached, translated, lang);
    }
    batchCount := |batches|;
  }

  // ---------------------------------------------------------------------
  // What batch_translate_optimized promises

  /** Positions picked in order from an ascending list stay ascending. */
  lemma PickedIncreasing(sel: seq<nat>, miss: seq<nat>)
    requires Increasing(sel) && Increasing(miss) && Below(miss, |sel|)
    ensures Increasing(Picked(sel, miss))
  {
    var t := Picked(sel, miss);
    forall a, b | 0 <= a < b < |t| ensures t[a] < t[b] {
      assert miss[a] < miss[b];
    }
  }

  /** Writing through positions picked from an ascending list puts each
      value at its own position. */
  lemma ScatterPicked(base: seq<string>, sel: seq<nat>, miss: seq<nat>, vals: seq<string>, j: nat)
    requires Increasing(sel) && Below(sel, |base|) && Increasing(miss) && Below(miss, |sel|)
    requires |vals| == |miss| && j < |miss|
    ensures Scatter(base, Picked(sel, miss), vals)[sel[miss[j]]] == vals[j]
  {
    PickedIncreasing(sel, miss);
    ScatterAt(base, Picked(sel, miss), vals, j);
  }

  /** One result per text; the statistics count every text, and every
      filtered text either came from the cache or was newly translated. */
  lemma OptimizedCounts(md5: string -> string, translator: Provider, memory: map<string, string>, table: map<string, string>,
                        texts: seq<string>, lang: string)
    ensures |OptimizedResults(md5, translator, memory, table, texts, lang)| == |texts|
    ensures var stats := OptimizedStats(md5, memory, table, texts, lang);
            var sel := Where(texts, ShouldTranslate);
            stats.totalStrings == |texts| &&
            (sel != [] ==> stats.filteredStrings == Some(|sel|) && stats.cacheHits + stats.newTranslations == |sel|)
  {
  }

  /** A text the filter rejects is returned as it was. */
  lemma OptimizedSkipsRejected(md5: string -> string, translator: Provider, memory: map<string, string>, table: map<string, string>,
                               texts: seq<string>, lang: string, i: nat)
    requires i < |texts| && !ShouldTranslate(texts[i])
    ensures OptimizedResults(md5, translator, memory, table, texts, lang)[i] == texts[i]
  {
    var sel := Where(texts, ShouldTranslate);
    if sel != [] {
      var filtered := Picked(texts, sel);
      var found := Fetched(memory, table, SimpleBatch.Keys(md5, filtered, lang));
      var miss := Where(found, Missing);
      var withHits := Scatter(texts, sel, Filled(found, filtered));
      ScatterElsewhere(texts, sel, Filled(found, filtered), i);
      if Uncached(md5, memory, table, texts, lang) != [] {
        assert i !in Picked(sel, miss);
        ScatterElsewhere(withHits, Picked(sel, miss), NewTranslations(md5, translator, memory, table, texts, lang), i);
      }
    }
  }

  /** The position of a text the filter accepts among the filtered texts,
      and what `get_batch` finds for it there. */
  lemma SelectedAt(md5: string -> string, memory: map<string, string>, table: map<string, string>,
                   texts: seq<string>, lang: string, i: nat) returns (k: nat)
    requires i < |texts| && ShouldTranslate(texts[i])
    ensures var sel := Where(texts, ShouldTranslate);
            var filtered := Picked(texts, sel);
            var found := Fetched(memory, table, SimpleBatch.Keys(md5, filtered, lang));
            k < |sel| && sel[k] == i && filtered[k] == texts[i] &&
            found[k] == Cached(memory, table, CacheKey(md5, texts[i], lang))
  {
    var sel := Where(texts, ShouldTranslate);
    assert i in sel;
    k :| 0 <= k < |sel| && sel[k] == i;
  }

  /** A text the cache holds is answered from the cache. */
  lemma OptimizedUsesCache(md5: string -> string, translator: Provider, memory: map<string, string>, table: map<string, string>,
                           texts: seq<string>, lang: string, i: nat)
    requires i < |texts| && ShouldTranslate(texts[i])
    requires Cached(memory, table, CacheKey(md5, texts[i], lang)).Some?
    ensures OptimizedResults(md5, translator, memory, table, texts, lang)[i] == Cached(memory, table, CacheKey(md5, texts[i], lang)).value
  {
    var sel := Where(texts, ShouldTranslate);
    var k := SelectedAt(md5, memory, table, texts, lang, i);
    var filtered := Picked(texts, sel);
    var found := Fetched(memory, table, SimpleBatch.Keys(md5, filtered, lang));
    var miss := Where(found, Missing);
    var withHits := Scatter(texts, sel, Filled(found, filtered));
    ScatterAt(texts, sel, Filled(found, filtered), k);
    if Uncached(md5, memory, table, texts, lang) != [] {
      assert i !in Picked(sel, miss) by {
        forall j | 0 <= j < |miss| ensures sel[miss[j]] != i {
          assert Missing(found[miss[j]]) by { assert miss[j] in miss; }
          assert miss[j] != k;
          if miss[j] < k { assert sel[miss[j]] < sel[k]; } else { assert sel[k] < sel[miss[j]]; }
        }
      }
      ScatterElsewhere(withHits, Picked(sel, miss), NewTranslations(md5, translator, memory, table, texts, lang), i);
    }
  }

  /** A text worth translating that the cache lacks gets the translation
      made for it in the smart batches. */
  lemma OptimizedTranslatesNew(md5: string -> string, translator: Provider, memory: map<string, string>, table: map<string, string>,
                               texts: seq<string>, lang: string, i: nat)
    requires i < |texts| && ShouldTranslate(texts[i])
    requires Cached(memory, table, CacheKey(md5, texts[i], lang)).None?
    ensures var uncached := Uncached(md5, memory, table, texts, lang);
            var translated := NewTranslations(md5, translator, memory, table, texts, lang);
            exists j :: 0 <= j < |uncached| && uncached[j] == texts[i] &&
              OptimizedResults(md5, translator, memory, table, texts, lang)[i] == translated[j]
  {
    var sel := Where(texts, ShouldTranslate);
    var k := SelectedAt(md5, memory, table, texts, lang, i);
    var filtered := Picked(texts, sel);
    var found := Fetched(memory, table, SimpleBatch.Keys(md5, filtered, lang));
    var miss := Where(found, Missing);
    assert k in miss;
    var j :| 0 <= j < |miss| && miss[j] == k;
    var translated := NewTranslations(md5, translator, memory, table, texts, lang);
    var uncached := Uncached(md5, memory, table, texts, lang);
    assert uncached == Picked(filtered, miss);
    assert uncached[j] == texts[i];
    var withHits := Scatter(texts, sel, Filled(found, filtered));
    assert OptimizedResults(md5, translator, memory, table, texts, lang) == Scatter(withHits, Picked(sel, miss), translated);
    ScatterPicked(withHits, sel, miss, translated, j);
  }

  /** After the call every text worth translating is cached. */
  lemma OptimizedCachesAll(md5: string -> string, translator: Provider, memory: map<string, string>, table: map<string, string>,
                           texts: seq<string>, lang: string, i: nat)
    requires i < |texts| && ShouldTranslate(texts[i])
    ensures Cached(OptimizedMemory(md5, translator, memory, table, texts, lang),
                   OptimizedTable(md5, translator, memory, table, texts, lang), CacheKey(md5, texts[i], lang)).Some?
  {
    var sel := Where(texts, ShouldTranslate);
    var k := SelectedAt(md5, memory, table, texts, lang, i);
    var filtered := Picked(texts, sel);
    var keys := SimpleBatch.Keys(md5, filtered, lang);
    var found := Fetched(memory, table, keys);
    var miss := Where(found, Missing);
    var key := CacheKey(md5, texts[i], lang);
    assert keys[k] == key;
    PromoteAdds(memory, table, keys);
    var uncached := Uncached(md5, memory, table, texts, lang);
    if found[k].None? {
      assert k in miss;
      var j :| 0 <= j < |miss| && miss[j] == k;
      assert SimpleBatch.Keys(md5, uncached, lang)[j] == key;
    }
  }

  /** Asking again for the same texts needs no request: everything is a
      cache hit. */
  lemma OptimizedRepeatIsCached(md5: string -> string, translator: Provider, memory: map<string, string>, table: map<string, string>,
                                texts: seq<string>, lang: string)
    ensures Uncached(md5, OptimizedMemory(md5, translator, memory, table, texts, lang),
                     OptimizedTable(md5, translator, memory, table, texts, lang), texts, lang) == []
  {
    var memory', table' := OptimizedMemory(md5, translator, memory, table, texts, lang), OptimizedTable(md5, translator, memory, table, texts, lang);
    var sel := Where(texts, ShouldTranslate);
    var filtered := Picked(texts, sel);
    var keys := SimpleBatch.Keys(md5, filtered, lang);
    var found := Fetched(memory', table', keys);
    forall k | 0 <= k < |found| ensures !Missing(found[k]) {
      OptimizedCachesAll(md5, translator, memory, table, texts, lang, sel[k]);
      assert keys[k] == CacheKey(md5, texts[sel[k]], lang);
    }
    WhereNone(found, Missing);
  }

  /** With nothing uncached, no text is sent for translation: there are no
      new translations, `api_batches` is 0 or absent, and the results do
      not depend on the translation service at all. */
  lemma OptimizedNothingNew(md5: string -> string, translator: Provider, other: Provider,
                            memory: map<string, string>, table: map<string, string>, texts: seq<string>, lang: string)
    requires Uncached(md5, memory, table, texts, lang) == []
    ensures NewTranslations(md5, translator, memory, table, texts, lang) == []
    ensures var stats := OptimizedStats(md5, memory, table, texts, lang);
            stats.newTranslations == 0 && (stats.apiBatches == None || stats.apiBatches == Some(0))
    ensures OptimizedResults(md5, translator, memory, table, texts, lang)
            == OptimizedResults(md5, other, memory, table, texts, lang)
  {
  }

  /** When every request raises, each text comes back as it was sent. */
  lemma OptimizedAllFailedTranslations(md5: string -> string, translator: Provider, memory: map<string, string>,
                                       table: map<string, string>, texts: seq<string>, lang: string)
    requires forall s :: translator(s, lang).Failed?
    ensures NewTranslations(md5, translator, memory, table, texts, lang) == Uncached(md5, memory, table, texts, lang)
  {
    var uncached := Uncached(md5, memory, table, texts, lang);
    SmartBatchesCover(uncached, MaxBatchLength);
    TranslationsAllFailed(translator, SmartBatches(uncached, MaxBatchLength), lang);
  }

  /** When every request raises, the texts the cache lacked come back
      unchanged. */
  lemma OptimizedAllFailedKeeps(md5: string -> string, translator: Provider, memory: map<string, string>, table: map<string, string>,
                                texts: seq<string>, lang: string, i: nat)
    requires forall s :: translator(s, lang).Failed?
    requires i < |texts| && Cached(memory, table, CacheKey(md5, texts[i], lang)).None?
    ensures OptimizedResults(md5, translator, memory, table, texts, lang)[i] == texts[i]
  {
    if ShouldTranslate(texts[i]) {
      OptimizedAllFailedTranslations(md5, translator, memory, table, texts, lang);
      OptimizedTranslatesNew(md5, translator, memory, table, texts, lang, i);
    } else {
      OptimizedSkipsRejected(md5, translator, memory, table, texts, lang, i);
    }
  }

  /** When every request raises, `save_batch` still stores each untranslated
      text as its own translation. */
  lemma OptimizedAllFailedSaves(md5: string -> string, translator: Provider, memory: map<string, string>, table: map<string, string>,
                                texts: seq<string>, lang: string)
    requires forall s :: translator(s, lang).Failed?
    ensures var uncached := Uncached(md5, memory, table, texts, lang);
            uncached != [] ==>
              OptimizedTable(md5, translator, memory, table, texts, lang) == StoreAll(table, SimpleBatch.Keys(md5, uncached, lang), uncached)
  {
    var uncached := Uncached(md5, memory, table, texts, lang);
    var sel := Where(texts, ShouldTranslate);
    if sel == [] {
      var filtered := Picked(texts, sel);
      assert filtered == [];
      assert SimpleBatch.Keys(md5, filtered, lang) == [];
    }
    OptimizedAllFailedTranslations(md5, translator, memory, table, texts, lang);
  }
}
