/** src/translate_jar_simple.py, the JSON side of `translate_json_file`:
    which strings are sent for translation, the counting of
    `count_strings_in_json`, the walk that collects strings with their
    paths and the walk that writes the translations back. */
module SimpleJar {
  import opened Base
  import opened Strings
  import opened JsonTree

  // ---------------------------------------------------------------------
  // Which strings are sent for translation

  predicate IsCyrillic(c: char) {
    '\U{400}' <= c <= '\U{4FF}'
  }

  /** `any('Ѐ' <= ch <= 'ӿ' for ch in t)` */
  predicate HasCyrillic(t: string) {
    exists i :: 0 <= i < |t| && IsCyrillic(t[i])
  }

  /** The technical-string test of `translate_batch`. Python's `and` binds
      tighter than `or`, so the last line is one conjunct of its own. */
  predicate IsTechnical(t: string) {
    || (':' in t && |t| < 50 && ' ' !in t)
    || '{' in t || '}' in t || |t| < 3
    || StartsWith(t, "#") || StartsWith(t, "//")
    || IsDigits(t) || IsDigits(Replace(Replace(t, ".", ""), ",", ""))
    || (WordCount(t) == 1 && |t| < 10)
  }

  /** The strings `translate_batch` hands back unchanged without consulting
      the cache: blank, already Cyrillic, or technical. */
  predicate Skipped(t: string) {
    IsBlank(t) || HasCyrillic(t) || IsTechnical(t)
  }

  /** The key of `TRANSLATION_CACHE`: md5 of `"text:lang"`. The digest is
      an uninterpreted function handed in by the caller. */
  function CacheKey(md5: string -> string, text: string, lang: string): string {
    md5(text + ":" + lang)
  }

  /** `translated.replace('"', "''")` */
  function Clean(t: string): (r: string)
    ensures '"' !in r
  {
    ReplaceCharRemoves(t, '"', "''");
    Replace(t, "\"", "''")
  }

  // ---------------------------------------------------------------------
  // count_strings_in_json

  /** `count_strings_in_json`: 0 for anything but an object; string values
      count 1, objects are counted recursively, arrays count their string
      items and the objects among their items, and an array directly
      inside an array is not looked at. */
  function CountStrings(v: Json): nat
  {
    match v
    case JObject(ms) => CountMembers(ms)
    case _ => 0
  }

  function CountMembers(ms: seq<Member>): nat
  {
    if ms == [] then 0
    else
      (match ms[0].value
       case JString(_) => 1
       case JObject(_) => CountStrings(ms[0].value)
       case JArray(items) => CountListItems(items)
       case _ => 0)
      + CountMembers(ms[1..])
  }

  function CountListItems(items: seq<Json>): nat
  {
    if items == [] then 0
    else
      (match items[0]
       case JString(_) => 1
       case JObject(_) => CountStrings(items[0])
       case _ => 0)
      + CountListItems(items[1..])
  }

  /** No array sits directly inside an array, anywhere in the value. */
  predicate NoNestedArrays(v: Json) {
    match v
    case JObject(ms) => MembersNoNestedArrays(ms)
    case JArray(items) => ItemsNoNestedArrays(items)
    case _ => true
  }

  predicate MembersNoNestedArrays(ms: seq<Member>) {
    ms != [] ==> NoNestedArrays(ms[0].value) && MembersNoNestedArrays(ms[1..])
  }

  predicate ItemsNoNestedArrays(items: seq<Json>) {
    items != [] ==> !items[0].JArray? && NoNestedArrays(items[0]) && ItemsNoNestedArrays(items[1..])
  }

  /** The count never exceeds the number of string leaves, and for an
      object without arrays in arrays it is exactly that number. */
  lemma {:induction false} CountStringsBound(v: Json)
    requires v.JObject?
    ensures CountStrings(v) <= |Leaves(v)|
    ensures NoNestedArrays(v) ==> CountStrings(v) == |Leaves(v)|
  {
    CountMembersBound(v.members);
  }

  lemma {:induction false} CountMembersBound(ms: seq<Member>)
    ensures CountMembers(ms) <= |MemberLeaves(ms)|
    ensures MembersNoNestedArrays(ms) ==> CountMembers(ms) == |MemberLeaves(ms)|
  {
    if ms != [] {
      CountMembersBound(ms[1..]);
      assert MemberLeaves(ms) == Leaves(ms[0].value) + MemberLeaves(ms[1..]);
      match ms[0].value
      case JObject(_) => CountStringsBound(ms[0].value);
      case JArray(items) =>
        CountListItemsBound(items);
        assert Leaves(ms[0].value) == ItemLeaves(items);
        assert CountMembers(ms) == CountListItems(items) + CountMembers(ms[1..]);
        if MembersNoNestedArrays(ms) {
          assert NoNestedArrays(ms[0].value);
          assert ms[0].value == JArray(items);
        }
      case _ =>
    }
  }

  lemma {:induction false} CountListItemsBound(items: seq<Json>)
    ensures CountListItems(items) <= |ItemLeaves(items)|
    ensures ItemsNoNestedArrays(items) ==> CountListItems(items) == |ItemLeaves(items)|
  {
    if items != [] {
      CountListItemsBound(items[1..]);
      match items[0]
      case JObject(_) => CountStringsBound(items[0]);
      case _ =>
    }
  }

  /** Strings in an array that sits inside an array are not counted. */
  lemma NestedArrayIgnored()
    ensures CountStrings(JObject([Member("a", JArray([JArray([JString("x")])]))])) == 0
    ensures |Leaves(JObject([Member("a", JArray([JArray([JString("x")])]))]))| == 1
  {
    var inner := JArray([JString("x")]);
    assert CountListItems([inner]) == 0;
    assert ItemLeaves([inner]) == ["x"];
  }

  // ---------------------------------------------------------------------
  // translate_json_file: collect_strings / apply_translations

  /** A collected string and the path `collect_strings` records for it. */
  datatype Leaf = Leaf(text: string, path: string)

  /** `f"{path}.{key}" if path else key` */
  function ChildPath(path: string, key: string): string {
    if path == "" then key else path + "." + key
  }

  /** `f"{path}[{i}]"` */
  function IndexPath(path: string, i: nat): string {
    path + "[" + NatToString(i) + "]"
  }

  /** `collect_strings(obj, path)`: the string values of objects and
      arrays, at any depth, in document order, with their paths. */
  function Collect(v: Json, path: string): seq<Leaf>
  {
    match v
    case JObject(ms) => CollectMembers(ms, path)
    case JArray(items) => CollectItems(items, path, 0)
    case _ => []
  }

  function CollectMembers(ms: seq<Member>, path: string): seq<Leaf>
  {
    if ms == [] then []
    else
      var p := ChildPath(path, ms[0].key);
      (match ms[0].value
       case JString(s) => [Leaf(s, p)]
       case _ => Collect(ms[0].value, p))
      + CollectMembers(ms[1..], path)
  }

  function CollectItems(items: seq<Json>, path: string, i: nat): seq<Leaf>
  {
    if items == [] then []
    else
      var p := IndexPath(path, i);
      (match items[0]
       case JString(s) => [Leaf(s, p)]
       case _ => Collect(items[0], p))
      + CollectItems(items[1..], path, i + 1)
  }

  function Texts(ls: seq<Leaf>): (r: seq<string>)
    ensures |r| == |ls| && forall k :: 0 <= k < |ls| ==> r[k] == ls[k].text
  {
    seq(|ls|, k requires 0 <= k < |ls| => ls[k].text)
  }

  function Paths(ls: seq<Leaf>): (r: seq<string>)
    ensures |r| == |ls| && forall k :: 0 <= k < |ls| ==> r[k] == ls[k].path
  {
    seq(|ls|, k requires 0 <= k < |ls| => ls[k].path)
  }

  /** The collected strings are exactly the string leaves. */
  lemma {:induction false} CollectTextsAreLeaves(v: Json, path: string)
    requires v.IsContainer()
    ensures Texts(Collect(v, path)) == Leaves(v)
  {
    match v
    case JObject(ms) => CollectMembersTexts(ms, path);
    case JArray(items) => CollectItemsTexts(items, path, 0);
  }

  lemma TextsAppend(a: seq<Leaf>, b: seq<Leaf>)
    ensures Texts(a + b) == Texts(a) + Texts(b)
  {
  }

  lemma {:induction false} CollectMembersTexts(ms: seq<Member>, path: string)
    ensures Texts(CollectMembers(ms, path)) == MemberLeaves(ms)
  {
    if ms != [] {
      var p := ChildPath(path, ms[0].key);
      CollectMembersTexts(ms[1..], path);
      var head := match ms[0].value case JString(s) => [Leaf(s, p)] case _ => Collect(ms[0].value, p);
      TextsAppend(head, CollectMembers(ms[1..], path));
      if ms[0].value.IsContainer() {
        CollectTextsAreLeaves(ms[0].value, p);
      }
    }
  }

  lemma {:induction false} CollectItemsTexts(items: seq<Json>, path: string, i: nat)
    ensures Texts(CollectItems(items, path, i)) == ItemLeaves(items)
  {
    if items != [] {
      var p := IndexPath(path, i);
      CollectItemsTexts(items[1..], path, i + 1);
      var head := match items[0] case JString(s) => [Leaf(s, p)] case _ => Collect(items[0], p);
      TextsAppend(head, CollectItems(items[1..], path, i + 1));
      if items[0].IsContainer() {
        CollectTextsAreLeaves(items[0], p);
      }
    }
  }

  /** `string_paths.index(p)`: the first position holding `p`. */
  function FirstIndex(ps: seq<string>, p: string): (r: nat)
    requires p in ps
    ensures r < |ps| && ps[r] == p && forall j :: 0 <= j < r ==> ps[j] != p
  {
    if ps[0] == p then 0 else 1 + FirstIndex(ps[1..], p)
  }

  /** The translation written for a string leaf at path `p`: the output at
      the first collected position with that path, or the leaf itself when
      the path was never collected (ValueError) or when no output exists
      for that position because a stop cut the run short. */
  function Lookup(ps: seq<string>, outs: seq<string>, p: string, orig: string): (r: string)
    ensures p !in ps ==> r == orig
    ensures p in ps && FirstIndex(ps, p) < |outs| ==> r == outs[FirstIndex(ps, p)]
  {
    if p in ps && FirstIndex(ps, p) < |outs| then outs[FirstIndex(ps, p)] else orig
  }

  /** `apply_translations(obj, path)`, where a string leaf whose output is
      missing keeps its text. */
  function Apply(v: Json, path: string, ps: seq<string>, outs: seq<string>): Json
  {
    match v
    case JObject(ms) => JObject(ApplyMembers(ms, path, ps, outs))
    case JArray(items) => JArray(ApplyItems(items, path, 0, ps, outs))
    case _ => v
  }

  function ApplyMembers(ms: seq<Member>, path: string, ps: seq<string>, outs: seq<string>): (r: seq<Member>)
    ensures |r| == |ms|
  {
    if ms == [] then []
    else
      var p := ChildPath(path, ms[0].key);
      var value := match ms[0].value
        case JString(s) => JString(Lookup(ps, outs, p, s))
        case _ => Apply(ms[0].value, p, ps, outs);
      [Member(ms[0].key, value)] + ApplyMembers(ms[1..], path, ps, outs)
  }

  function ApplyItems(items: seq<Json>, path: string, i: nat, ps: seq<string>, outs: seq<string>): (r: seq<Json>)
    ensures |r| == |items|
  {
    if items == [] then []
    else
      var p := IndexPath(path, i);
      var item := match items[0]
        case JString(s) => JString(Lookup(ps, outs, p, s))
        case _ => Apply(items[0], p, ps, outs);
      [item] + ApplyItems(items[1..], path, i + 1, ps, outs)
  }

  /** Applying translations keeps the shape: same keys, same array
      lengths, non-string leaves unchanged. */
  lemma {:induction false} ApplySameShape(v: Json, path: string, ps: seq<string>, outs: seq<string>)
    ensures SameShape(v, Apply(v, path, ps, outs))
  {
    match v
    case JObject(ms) => ApplyMembersSameShape(ms, path, ps, outs);
    case JArray(items) => ApplyItemsSameShape(items, path, 0, ps, outs);
    case _ =>
  }

  lemma {:induction false} ApplyMembersSameShape(ms: seq<Member>, path: string, ps: seq<string>, outs: seq<string>)
    ensures SameMembers(ms, ApplyMembers(ms, path, ps, outs))
  {
    if ms != [] {
      ApplyMembersSameShape(ms[1..], path, ps, outs);
      ApplySameShape(ms[0].value, ChildPath(path, ms[0].key), ps, outs);
    }
  }

  lemma {:induction false} ApplyItemsSameShape(items: seq<Json>, path: string, i: nat, ps: seq<string>, outs: seq<string>)
    ensures SameItems(items, ApplyItems(items, path, i, ps, outs))
  {
    if items != [] {
      ApplyItemsSameShape(items[1..], path, i + 1, ps, outs);
      ApplySameShape(items[0], IndexPath(path, i), ps, outs);
    }
  }

  /** Every collected leaf, relabelled with the translation `Lookup`
      chooses for its path. */
  function Relabel(ls: seq<Leaf>, ps: seq<string>, outs: seq<string>): seq<Leaf>
  {
    seq(|ls|, k requires 0 <= k < |ls| => Leaf(Lookup(ps, outs, ls[k].path, ls[k].text), ls[k].path))
  }

  /** After `apply_translations`, walking the result finds the same paths
      in the same order, and each string leaf holds the output chosen for
      its path. */
  lemma {:induction false} ApplyCollect(v: Json, path: string, ps: seq<string>, outs: seq<string>)
    ensures Collect(Apply(v, path, ps, outs), path) == Relabel(Collect(v, path), ps, outs)
  {
    match v
    case JObject(ms) => ApplyMembersCollect(ms, path, ps, outs);
    case JArray(items) => ApplyItemsCollect(items, path, 0, ps, outs);
    case _ =>
  }

  lemma {:induction false} ApplyMembersCollect(ms: seq<Member>, path: string, ps: seq<string>, outs: seq<string>)
    ensures CollectMembers(ApplyMembers(ms, path, ps, outs), path) == Relabel(CollectMembers(ms, path), ps, outs)
  {
    if ms != [] {
      var p := ChildPath(path, ms[0].key);
      var v := ms[0].value;
      ApplyMembersCollect(ms[1..], path, ps, outs);
      if !v.JString? {
        ApplyCollect(v, p, ps, outs);
      }
      var applied := ApplyMembers(ms, path, ps, outs);
      assert applied[0] == Member(ms[0].key, Applied(v, p, ps, outs));
      assert applied[1..] == ApplyMembers(ms[1..], path, ps, outs);
      LeavesApplied(v, p, ps, outs);
      assert CollectMembers(ms, path) == ValueLeaves(v, p) + CollectMembers(ms[1..], path);
      assert CollectMembers(applied, path) == ValueLeaves(applied[0].value, p) + CollectMembers(applied[1..], path);
      RelabelAppend(ValueLeaves(v, p), CollectMembers(ms[1..], path), ps, outs);
    }
  }

  lemma {:induction false} ApplyItemsCollect(items: seq<Json>, path: string, i: nat, ps: seq<string>, outs: seq<string>)
    ensures CollectItems(ApplyItems(items, path, i, ps, outs), path, i) == Relabel(CollectItems(items, path, i), ps, outs)
  {
    if items != [] {
      var p := IndexPath(path, i);
      var v := items[0];
      ApplyItemsCollect(items[1..], path, i + 1, ps, outs);
      if !v.JString? {
        ApplyCollect(v, p, ps, outs);
      }
      var applied := ApplyItems(items, path, i, ps, outs);
      assert applied[0] == Applied(v, p, ps, outs);
      assert applied[1..] == ApplyItems(items[1..], path, i + 1, ps, outs);
      LeavesApplied(v, p, ps, outs);
      assert CollectItems(items, path, i) == ValueLeaves(v, p) + CollectItems(items[1..], path, i + 1);
      assert CollectItems(applied, path, i) == ValueLeaves(applied[0], p) + CollectItems(applied[1..], path, i + 1);
      RelabelAppend(ValueLeaves(v, p), CollectItems(items[1..], path, i + 1), ps, outs);
    }
  }

  /** The leaves one member value or array item contributes at path `p`. */
  function ValueLeaves(v: Json, p: string): seq<Leaf> {
    match v
    case JString(s) => [Leaf(s, p)]
    case _ => Collect(v, p)
  }

  /** What `apply_translations` makes of one member value or array item. */
  function Applied(v: Json, p: string, ps: seq<string>, outs: seq<string>): Json {
    match v
    case JString(s) => JString(Lookup(ps, outs, p, s))
    case _ => Apply(v, p, ps, outs)
  }

  lemma LeavesApplied(v: Json, p: string, ps: seq<string>, outs: seq<string>)
    requires !v.JString? ==> Collect(Apply(v, p, ps, outs), p) == Relabel(Collect(v, p), ps, outs)
    ensures ValueLeaves(Applied(v, p, ps, outs), p) == Relabel(ValueLeaves(v, p), ps, outs)
  {
    if v.JString? {
      assert Relabel(ValueLeaves(v, p), ps, outs)[0] == Leaf(Lookup(ps, outs, p, v.text), p);
    }
  }

  lemma RelabelAppend(a: seq<Leaf>, b: seq<Leaf>, ps: seq<string>, outs: seq<string>)
    ensures Relabel(a + b, ps, outs) == Relabel(a, ps, outs) + Relabel(b, ps, outs)
  {
  }

  /** When no two collected strings share a path, the k-th string leaf of
      the result is the k-th output, or keeps its text when the run stopped
      before producing it. */
  lemma DistinctPathsOwnOutput(v: Json, outs: seq<string>, k: nat)
    requires |outs| <= |Collect(v, "")| && k < |Collect(v, "")|
    requires forall a, b :: 0 <= a < b < |Collect(v, "")| ==> Collect(v, "")[a].path != Collect(v, "")[b].path
    ensures var r := Collect(Apply(v, "", Paths(Collect(v, "")), outs), "");
            |r| == |Collect(v, "")| &&
            r[k].text == (if k < |outs| then outs[k] else Collect(v, "")[k].text)
  {
    var ls := Collect(v, "");
    var ps := Paths(ls);
    ApplyCollect(v, "", ps, outs);
    assert FirstIndex(ps, ls[k].path) == k;
  }

  /** Two strings whose dotted paths coincide both receive the output of
      the first: key `"a.b"` and key `"b"` inside object `"a"`. */
  lemma CollidingPathsShareOutput()
    ensures var v := JObject([Member("a.b", JString("x")), Member("a", JObject([Member("b", JString("y"))]))]);
            var ls := Collect(v, "");
            var r := Collect(Apply(v, "", Paths(ls), ["X", "Y"]), "");
            |ls| == 2 && ls[0].path == ls[1].path && |r| == 2 && r[1].text == "X"
  {
    var v := JObject([Member("a.b", JString("x")), Member("a", JObject([Member("b", JString("y"))]))]);
    var inner := [Member("b", JString("y"))];
    assert ChildPath("a", "b") == "a.b";
    assert ChildPath("", "a.b") == "a.b";
    assert ChildPath("", "a") == "a";
    assert CollectMembers(inner, "a") == [Leaf("y", "a.b")];
    assert Collect(v, "") == [Leaf("x", "a.b"), Leaf("y", "a.b")];
    var ps := Paths(Collect(v, ""));
    assert ps == ["a.b", "a.b"];
    assert FirstIndex(ps, "a.b") == 0;
    ApplyCollect(v, "", ps, ["X", "Y"]);
    assert Relabel(Collect(v, ""), ps, ["X", "Y"])[1] == Leaf("X", "a.b");
  }

  // `apply_translations` as written: a string leaf whose first collected
  // position has no output raises IndexError, which is not caught.

  function LookupAsWritten(ps: seq<string>, outs: seq<string>, p: string, orig: string): (r: Option<string>)
    ensures r.None? <==> p in ps && FirstIndex(ps, p) >= |outs|
  {
    if p !in ps then Some(orig)
    else if FirstIndex(ps, p) < |outs| then Some(outs[FirstIndex(ps, p)])
    else None
  }

  function ApplyAsWritten(v: Json, path: string, ps: seq<string>, outs: seq<string>): Option<Json>
  {
    match v
    case JObject(ms) =>
      (match ApplyMembersAsWritten(ms, path, ps, outs)
       case None => None
       case Some(ns) => Some(JObject(ns)))
    case JArray(items) =>
      (match ApplyItemsAsWritten(items, path, 0, ps, outs)
       case None => None
       case Some(ys) => Some(JArray(ys)))
    case _ => Some(v)
  }

  function ApplyMembersAsWritten(ms: seq<Member>, path: string, ps: seq<string>, outs: seq<string>): Option<seq<Member>>
  {
    if ms == [] then Some([])
    else
      var p := ChildPath(path, ms[0].key);
      var value := match ms[0].value
        case JString(s) => (match LookupAsWritten(ps, outs, p, s) case None => None case Some(t) => Some(JString(t)))
        case _ => ApplyAsWritten(ms[0].value, p, ps, outs);
      match value
      case None => None
      case Some(x) =>
        match ApplyMembersAsWritten(ms[1..], path, ps, outs)
        case None => None
        case Some(rest) => Some([Member(ms[0].key, x)] + rest)
  }

  function ApplyItemsAsWritten(items: seq<Json>, path: string, i: nat, ps: seq<string>, outs: seq<string>): Option<seq<Json>>
  {
    if items == [] then Some([])
    else
      var p := IndexPath(path, i);
      var item := match items[0]
        case JString(s) => (match LookupAsWritten(ps, outs, p, s) case None => None case Some(t) => Some(JString(t)))
        case _ => ApplyAsWritten(items[0], p, ps, outs);
      match item
      case None => None
      case Some(x) =>
        match ApplyItemsAsWritten(items[1..], path, i + 1, ps, outs)
        case None => None
        case Some(rest) => Some([x] + rest)
  }

  /** With an output for every collected path, the code as written and the
      corrected one agree. */
  lemma {:induction false} AsWrittenAgrees(v: Json, path: string, ps: seq<string>, outs: seq<string>)
    requires |outs| >= |ps|
    ensures ApplyAsWritten(v, path, ps, outs) == Some(Apply(v, path, ps, outs))
  {
    match v
    case JObject(ms) => MembersAsWrittenAgree(ms, path, ps, outs);
    case JArray(items) => ItemsAsWrittenAgree(items, path, 0, ps, outs);
    case _ =>
  }

  lemma {:induction false} MembersAsWrittenAgree(ms: seq<Member>, path: string, ps: seq<string>, outs: seq<string>)
    requires |outs| >= |ps|
    ensures ApplyMembersAsWritten(ms, path, ps, outs) == Some(ApplyMembers(ms, path, ps, outs))
  {
    if ms != [] {
      MembersAsWrittenAgree(ms[1..], path, ps, outs);
      AsWrittenAgrees(ms[0].value, ChildPath(path, ms[0].key), ps, outs);
    }
  }

  lemma {:induction false} ItemsAsWrittenAgree(items: seq<Json>, path: string, i: nat, ps: seq<string>, outs: seq<string>)
    requires |outs| >= |ps|
    ensures ApplyItemsAsWritten(items, path, i, ps, outs) == Some(ApplyItems(items, path, i, ps, outs))
  {
    if items != [] {
      ItemsAsWrittenAgree(items[1..], path, i + 1, ps, outs);
      AsWrittenAgrees(items[0], IndexPath(path, i), ps, outs);
    }
  }

  /** A stop requested before the first batch leaves no outputs, and then
      the first string leaf already raises instead of being kept. */
  lemma StopBeforeFirstBatchRaises()
    ensures ApplyAsWritten(JObject([Member("a", JString("hello world"))]), "", ["a"], []) == None
    ensures Apply(JObject([Member("a", JString("hello world"))]), "", ["a"], []) == JObject([Member("a", JString("hello world"))])
  {
    assert ChildPath("", "a") == "a";
    assert FirstIndex(["a"], "a") == 0;
  }

  /** `sum(1 for orig, trans in zip(all_strings, translated_strings) if orig != trans)`:
      `zip` stops at the shorter list, so a stopped run compares only the
      strings it produced. */
  function ChangedCount(origs: seq<string>, outs: seq<string>): (n: nat)
    ensures n <= |origs| && n <= |outs|
    ensures var m := if |origs| <= |outs| then |origs| else |outs|;
            n == 0 <==> origs[..m] == outs[..m]
  {
    if origs == [] || outs == [] then 0
    else
      var rest := ChangedCount(origs[1..], outs[1..]);
      var m := if |origs| <= |outs| then |origs| else |outs|;
      assert origs[..m] == [origs[0]] + origs[1..][..m - 1];
      assert outs[..m] == [outs[0]] + outs[1..][..m - 1];
      (if origs[0] != outs[0] then 1 else 0) + rest
  }
}
