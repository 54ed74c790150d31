/** src/translate_jar_optimized.py, the file side: the string sweep
    `extract_strings_from_json`, the dictionary translation of lang and
    Patchouli files once every string has been translated up front, and
    the paths the Russian files are written to. */
module OptimizedJson {
  import opened Base
  import opened Strings
  import opened JsonTree

  // ---------------------------------------------------------------------
  // extract_strings_from_json

  /** The strings the sweep adds: every string leaf at any depth of a dict
      or a list; a bare string or other scalar adds nothing. */
  function Extracted(v: Json): set<string> {
    if v.IsContainer() then set s | s in Leaves(v) else {}
  }

  /** `extract_strings_from_json(obj, strings)`: adds to the set every
      string value or item, recursing into dicts and lists. */
  method ExtractStrings(obj: Json, strings: set<string>) returns (out: set<string>)
    ensures out == strings + Extracted(obj)
    decreases obj
  {
    out := strings;
    match obj
    case JObject(ms) =>
      for j := 0 to |ms|
        invariant out == strings + set s | s in MemberLeaves(ms[..j])
      {
        MemberLeavesAppend(ms[..j], [ms[j]]);
        assert ms[..j + 1] == ms[..j] + [ms[j]];
        assert MemberLeaves([ms[j]]) == Leaves(ms[j].value) + [];
        var value := ms[j].value;
        if value.JString? {
          out := out + {value.text};
        } else if value.IsContainer() {
          out := ExtractStrings(value, out);
        }
      }
      assert ms[..|ms|] == ms;
    case JArray(items) =>
      for j := 0 to |items|
        invariant out == strings + set s | s in ItemLeaves(items[..j])
      {
        ItemLeavesAppend(items[..j], [items[j]]);
        assert items[..j + 1] == items[..j] + [items[j]];
        assert ItemLeaves([items[j]]) == Leaves(items[j]) + [];
        var item := items[j];
        if item.JString? {
          out := out + {item.text};
        } else if item.IsContainer() {
          out := ExtractStrings(item, out);
        }
      }
      assert items[..|items|] == items;
    case _ =>
  }

  // ---------------------------------------------------------------------
  // Translation through a prepared dictionary

  /** `translation_dict.get(s, s)` */
  function DictGet(d: map<string, string>, s: string): string {
    if s in d then d[s] else s
  }

  /** Every string of a list through the dictionary. */
  function DictAll(d: map<string, string>, ss: seq<string>): seq<string>
  {
    seq(|ss|, k requires 0 <= k < |ss| => DictGet(d, ss[k]))
  }

  /** `translate_json_recursive`: dicts and lists rebuilt, every string
      through the dictionary, every other scalar kept. */
  function DictTranslate(v: Json, d: map<string, string>): Json {
    match v
    case JObject(ms) => JObject(DictMembers(ms, d))
    case JArray(items) => JArray(DictItems(items, d))
    case JString(s) => JString(DictGet(d, s))
    case _ => v
  }

  function DictMembers(ms: seq<Member>, d: map<string, string>): seq<Member> {
    if ms == [] then [] else [Member(ms[0].key, DictTranslate(ms[0].value, d))] + DictMembers(ms[1..], d)
  }

  function DictItems(items: seq<Json>, d: map<string, string>): seq<Json> {
    if items == [] then [] else [DictTranslate(items[0], d)] + DictItems(items[1..], d)
  }

  /** Dictionary translation keeps the shape of the tree and maps its
      string leaves one by one, in order. */
  lemma {:induction false} DictTranslateShape(v: Json, d: map<string, string>)
    ensures SameShape(v, DictTranslate(v, d)) && Leaves(DictTranslate(v, d)) == DictAll(d, Leaves(v))
    decreases v, 1
  {
    match v
    case JObject(ms) => DictMembersShape(ms, d);
    case JArray(items) => DictItemsShape(items, d);
    case _ =>
  }

  lemma {:induction false} DictMembersShape(ms: seq<Member>, d: map<string, string>)
    ensures SameMembers(ms, DictMembers(ms, d)) && MemberLeaves(DictMembers(ms, d)) == DictAll(d, MemberLeaves(ms))
    decreases ms, 0
  {
    if ms != [] {
      DictTranslateShape(ms[0].value, d);
      DictMembersShape(ms[1..], d);
      var r := DictMembers(ms, d);
      assert r[0].value == DictTranslate(ms[0].value, d) && r[1..] == DictMembers(ms[1..], d);
      assert DictAll(d, Leaves(ms[0].value) + MemberLeaves(ms[1..])) == DictAll(d, Leaves(ms[0].value)) + DictAll(d, MemberLeaves(ms[1..]));
    }
  }

  lemma {:induction false} DictItemsShape(items: seq<Json>, d: map<string, string>)
    ensures SameItems(items, DictItems(items, d)) && ItemLeaves(DictItems(items, d)) == DictAll(d, ItemLeaves(items))
    decreases items, 0
  {
    if items != [] {
      DictTranslateShape(items[0], d);
      DictItemsShape(items[1..], d);
      var r := DictItems(items, d);
      assert r[0] == DictTranslate(items[0], d) && r[1..] == DictItems(items[1..], d);
      assert DictAll(d, Leaves(items[0]) + ItemLeaves(items[1..])) == DictAll(d, Leaves(items[0])) + DictAll(d, ItemLeaves(items[1..]));
    }
  }

  /** The number of strings of a list that the dictionary changes. */
  function Moved(d: map<string, string>, ss: seq<string>): (n: nat)
    ensures n <= |ss|
  {
    if ss == [] then 0 else (if DictGet(d, ss[0]) != ss[0] then 1 else 0) + Moved(d, ss[1..])
  }

  /** Nothing is counted exactly when the dictionary leaves every string
      as it was. */
  lemma MovedNone(d: map<string, string>, ss: seq<string>)
    ensures Moved(d, ss) == 0 <==> DictAll(d, ss) == ss
  {
    MovedZero(d, ss);
    if Kept(d, ss) {
      assert DictAll(d, ss) == ss;
    }
  }

  /** The dictionary leaves every string of the list as it was. */
  predicate Kept(d: map<string, string>, ss: seq<string>) {
    forall k :: 0 <= k < |ss| ==> DictGet(d, ss[k]) == ss[k]
  }

  lemma {:induction false} MovedZero(d: map<string, string>, ss: seq<string>)
    ensures Moved(d, ss) == 0 <==> Kept(d, ss)
  {
    if ss != [] {
      MovedZero(d, ss[1..]);
      assert forall k :: 1 <= k < |ss| ==> ss[k] == ss[1..][k - 1];
    }
  }

  lemma {:induction false} MovedAppend(d: map<string, string>, a: seq<string>, b: seq<string>)
    ensures Moved(d, a + b) == Moved(d, a) + Moved(d, b)
  {
    if a != [] {
      MovedAppend(d, a[1..], b);
      assert (a + b)[0] == a[0] && (a + b)[1..] == a[1..] + b;
    } else {
      assert a + b == b;
    }
  }

  lemma {:induction false} DictMembersAppend(a: seq<Member>, b: seq<Member>, d: map<string, string>)
    ensures DictMembers(a + b, d) == DictMembers(a, d) + DictMembers(b, d)
  {
    if a != [] {
      DictMembersAppend(a[1..], b, d);
      assert (a + b)[0] == a[0] && (a + b)[1..] == a[1..] + b;
    } else {
      assert a + b == b;
    }
  }

  /** The position of the first dict or list value, or the number of
      members when there is none. */
  function FirstContainer(ms: seq<Member>): (n: nat)
    ensures n <= |ms| && (forall k :: 0 <= k < n ==> !ms[k].value.IsContainer())
    ensures n < |ms| ==> ms[n].value.IsContainer()
  {
    if ms == [] then 0
    else if ms[0].value.IsContainer() then 0
    else 1 + FirstContainer(ms[1..])
  }

  /** The dictionary branch of `process_lang_files_optimized` for one
      loaded file: a file that is not a dict is passed over; otherwise each
      value becomes `translation_dict.get(value, value)` and every value
      that changes is counted. A dict or list value cannot be looked up
      (it is unhashable): the file is abandoned there, and the values
      counted before it stay counted. An empty dictionary selects the
      other branch. */
  method TranslateLangFile(content: Json, d: map<string, string>) returns (out: Option<Json>, changed: nat)
    requires |d| > 0
    ensures !content.JObject? ==> out == None && changed == 0
    ensures content.JObject? ==>
              var ms := content.members;
              var n := FirstContainer(ms);
              changed == Moved(d, MemberLeaves(ms[..n])) && (out.Some? <==> n == |ms|) &&
              (out.Some? ==> out.value == DictTranslate(content, d))
  {
    if !content.JObject? {
      return None, 0;
    }
    var ms := content.members;
    var translated: seq<Member> := [];
    changed := 0;
    for j := 0 to |ms|
      invariant forall k :: 0 <= k < j ==> !ms[k].value.IsContainer()
      invariant translated == DictMembers(ms[..j], d)
      invariant changed == Moved(d, MemberLeaves(ms[..j]))
    {
      var value := ms[j].value;
      if value.IsContainer() {
        assert FirstContainer(ms) == j by { FirstContainerAt(ms, j); }
        return None, changed;
      }
      var v := if value.JString? then JString(DictGet(d, value.text)) else value;
      LangStep(ms, j, d);
      translated := translated + [Member(ms[j].key, v)];
      if v != value {
        changed := changed + 1;
      }
    }
    assert ms[..|ms|] == ms;
    FirstContainerAt(ms, |ms|);
    out := Some(JObject(translated));
  }

  /** One more scalar member: one more translated member, counted when
      the dictionary changes it. */
  lemma LangStep(ms: seq<Member>, j: nat, d: map<string, string>)
    requires j < |ms| && !ms[j].value.IsContainer()
    ensures DictMembers(ms[..j + 1], d) == DictMembers(ms[..j], d) + [Member(ms[j].key, DictTranslate(ms[j].value, d))]
    ensures Moved(d, MemberLeaves(ms[..j + 1])) ==
            Moved(d, MemberLeaves(ms[..j])) + (if DictTranslate(ms[j].value, d) != ms[j].value then 1 else 0)
  {
    assert ms[..j + 1] == ms[..j] + [ms[j]];
    DictMembersAppend(ms[..j], [ms[j]], d);
    MemberLeavesAppend(ms[..j], [ms[j]]);
    MovedAppend(d, MemberLeaves(ms[..j]), MemberLeaves([ms[j]]));
    assert MemberLeaves([ms[j]]) == Leaves(ms[j].value) + [];
  }

  /** The first container is where no earlier value is one and this one
      is, or the end. */
  lemma {:induction false} FirstContainerAt(ms: seq<Member>, j: nat)
    requires j <= |ms| && forall k :: 0 <= k < j ==> !ms[k].value.IsContainer()
    requires j < |ms| ==> ms[j].value.IsContainer()
    ensures FirstContainer(ms) == j
  {
    if j > 0 {
      FirstContainerAt(ms[1..], j - 1);
    }
  }

  // ---------------------------------------------------------------------
  // Where the Russian files go

  // The lang files `process_lang_files_optimized` searches for,
  // rglob('**/lang/*.json') narrowed to en_us.json, over the components
  // of a path.
  predicate IsLangSource(p: seq<string>) {
    |p| >= 2 && p[|p| - 2] == "lang" && p[|p| - 1] == "en_us.json"
  }

  // The Patchouli files `process_patchouli_files_optimized` searches for,
  // rglob('**/patchouli_books/**/en_us/*.json').
  predicate IsPatchouliFile(p: seq<string>) {
    |p| >= 3 && (exists k :: 0 <= k < |p| - 2 && p[k] == "patchouli_books") &&
    p[|p| - 2] == "en_us" && EndsWith(p[|p| - 1], ".json")
  }

  /** `lang_file.parent / 'ru_ru.json'`: the sibling of the English file,
      which the search for English files never picks up again. */
  function RuLangFile(p: seq<string>): (r: seq<string>)
    requires |p| >= 1
    ensures |r| == |p| && r[..|r| - 1] == p[..|p| - 1] && r[|r| - 1] == "ru_ru.json"
    ensures !IsLangSource(r)
  {
    p[..|p| - 1] + ["ru_ru.json"]
  }

  /** `patchouli_file.parent.parent / 'ru_ru' / patchouli_file.name`: the
      same path with the `en_us` directory swapped for `ru_ru`, which the
      search for English files never picks up again. */
  function RuPatchouliFile(p: seq<string>): (r: seq<string>)
    requires |p| >= 2
    ensures |r| == |p| && r[|p| - 2] == "ru_ru" && forall k :: 0 <= k < |p| && k != |p| - 2 ==> r[k] == p[k]
    ensures !IsPatchouliFile(r)
  {
    p[..|p| - 2] + ["ru_ru", p[|p| - 1]]
  }

  /** One Patchouli file in the dictionary run: where its Russian copy
      goes, the copy (the file itself when the dictionary is empty), and
      how many distinct strings it counts. */
  method ProcessPatchouliFile(path: seq<string>, content: Json, d: map<string, string>)
    returns (target: seq<string>, out: Json, count: nat)
    requires IsPatchouliFile(path)
    ensures target == RuPatchouliFile(path)
    ensures out == if |d| > 0 then DictTranslate(content, d) else content
    ensures |d| > 0 ==> SameShape(content, out) && Leaves(out) == DictAll(d, Leaves(content))
    ensures count == |Extracted(content)|
  {
    var strings := ExtractStrings(content, {});
    if |d| > 0 {
      out := DictTranslate(content, d);
      DictTranslateShape(content, d);
    } else {
      out := content;
    }
    target := RuPatchouliFile(path);
    count := |strings|;
  }
}
