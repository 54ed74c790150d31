/** src/translate_jar_simple.py, the archive side: `analyze_jar_files`,
    which sorts mod archives before a run, the entry-name tests it and
    `translate_jar` use, and the names `translate_jar` writes to. */
module SimpleArchive {
  import opened Base
  import opened Strings
  import opened JsonTree
  import opened SimpleJar

  // ---------------------------------------------------------------------
  // Counting strings that are already Russian

  /** `count_translated_strings` as written: the Cyrillic string values and
      items of a dict or list, recursing into every dict and every list,
      lists directly inside lists as well. */
  function CountCyrillic(v: Json): nat
  {
    match v
    case JObject(ms) => CyrillicMembers(ms)
    case JArray(items) => CyrillicItems(items)
    case _ => 0
  }

  function CyrillicMembers(ms: seq<Member>): nat
  {
    if ms == [] then 0
    else
      (match ms[0].value
       case JString(s) => if HasCyrillic(s) then 1 else 0
       case JObject(_) => CountCyrillic(ms[0].value)
       case JArray(_) => CountCyrillic(ms[0].value)
       case _ => 0)
      + CyrillicMembers(ms[1..])
  }

  function CyrillicItems(items: seq<Json>): nat
  {
    if items == [] then 0
    else
      (match items[0]
       case JString(s) => if HasCyrillic(s) then 1 else 0
       case JObject(_) => CountCyrillic(items[0])
       case JArray(_) => CountCyrillic(items[0])
       case _ => 0)
      + CyrillicItems(items[1..])
  }

  /** How many strings of a list contain Cyrillic. */
  function CyrillicCount(ss: seq<string>): (n: nat)
    ensures n <= |ss|
  {
    if ss == [] then 0 else (if HasCyrillic(ss[0]) then 1 else 0) + CyrillicCount(ss[1..])
  }

  lemma {:induction false} CyrillicCountAppend(a: seq<string>, b: seq<string>)
    ensures CyrillicCount(a + b) == CyrillicCount(a) + CyrillicCount(b)
  {
    if a != [] {
      assert (a + b)[1..] == a[1..] + b;
      CyrillicCountAppend(a[1..], b);
    } else {
      assert a + b == b;
    }
  }

  /** The count is the length exactly when every string contains Cyrillic. */
  lemma {:induction false} CyrillicCountFull(ss: seq<string>)
    ensures CyrillicCount(ss) == |ss| <==> forall k :: 0 <= k < |ss| ==> HasCyrillic(ss[k])
  {
    if ss != [] {
      CyrillicCountFull(ss[1..]);
      if forall k :: 0 <= k < |ss| ==> HasCyrillic(ss[k]) {
        forall k | 0 <= k < |ss| - 1 ensures HasCyrillic(ss[1..][k]) {
          assert ss[1..][k] == ss[k + 1];
        }
      } else if HasCyrillic(ss[0]) {
        var k :| 0 <= k < |ss| && !HasCyrillic(ss[k]);
        assert ss[1..][k - 1] == ss[k];
      }
    }
  }

  /** As written, the count covers every string leaf of a dict or list. */
  lemma {:induction false} CountCyrillicIsLeaves(v: Json)
    requires v.IsContainer()
    ensures CountCyrillic(v) == CyrillicCount(Leaves(v))
  {
    match v
    case JObject(ms) => CyrillicMembersAreLeaves(ms);
    case JArray(items) => CyrillicItemsAreLeaves(items);
  }

  lemma {:induction false} CyrillicMembersAreLeaves(ms: seq<Member>)
    ensures CyrillicMembers(ms) == CyrillicCount(MemberLeaves(ms))
  {
    if ms != [] {
      CyrillicMembersAreLeaves(ms[1..]);
      CyrillicCountAppend(Leaves(ms[0].value), MemberLeaves(ms[1..]));
      if ms[0].value.IsContainer() {
        CountCyrillicIsLeaves(ms[0].value);
      }
    }
  }

  lemma {:induction false} CyrillicItemsAreLeaves(items: seq<Json>)
    ensures CyrillicItems(items) == CyrillicCount(ItemLeaves(items))
  {
    if items != [] {
      CyrillicItemsAreLeaves(items[1..]);
      CyrillicCountAppend(Leaves(items[0]), ItemLeaves(items[1..]));
      if items[0].IsContainer() {
        CountCyrillicIsLeaves(items[0]);
      }
    }
  }

  /** The strings `count_strings_in_json` counts, in document order. */
  function Counted(v: Json): seq<string>
  {
    match v
    case JObject(ms) => CountedMembers(ms)
    case _ => []
  }

  function CountedMembers(ms: seq<Member>): seq<string>
  {
    if ms == [] then []
    else
      (match ms[0].value
       case JString(s) => [s]
       case JObject(_) => Counted(ms[0].value)
       case JArray(items) => CountedItems(items)
       case _ => [])
      + CountedMembers(ms[1..])
  }

  function CountedItems(items: seq<Json>): seq<string>
  {
    if items == [] then []
    else
      (match items[0]
       case JString(s) => [s]
       case JObject(_) => Counted(items[0])
       case _ => [])
      + CountedItems(items[1..])
  }

  lemma {:induction false} CountedIsCount(v: Json)
    ensures |Counted(v)| == CountStrings(v)
  {
    if v.JObject? {
      CountedMembersIsCount(v.members);
    }
  }

  lemma {:induction false} CountedMembersIsCount(ms: seq<Member>)
    ensures |CountedMembers(ms)| == CountMembers(ms)
  {
    if ms != [] {
      CountedMembersIsCount(ms[1..]);
      match ms[0].value
      case JObject(_) => CountedIsCount(ms[0].value);
      case JArray(items) => CountedItemsIsCount(items);
      case _ =>
    }
  }

  lemma {:induction false} CountedItemsIsCount(items: seq<Json>)
    ensures |CountedItems(items)| == CountListItems(items)
  {
    if items != [] {
      CountedItemsIsCount(items[1..]);
      if items[0].JObject? {
        CountedIsCount(items[0]);
      }
    }
  }

  /** The count the classification evidently intends: the Cyrillic strings
      among those `count_strings_in_json` counts, so never more than it. */
  function CountTranslated(v: Json): (n: nat)
    ensures n <= CountStrings(v)
  {
    CountedIsCount(v);
    CyrillicCount(Counted(v))
  }

  /** In an object without lists directly inside lists, both counts visit
      the same strings. */
  lemma CountsAgreeWithoutNestedLists(v: Json)
    requires v.JObject? && NoNestedArrays(v)
    ensures CountCyrillic(v) == CountTranslated(v)
  {
    CountedIsLeaves(v);
    CountCyrillicIsLeaves(v);
  }

  lemma {:induction false} CountedIsLeaves(v: Json)
    requires v.JObject? && NoNestedArrays(v)
    ensures Counted(v) == Leaves(v)
  {
    CountedMembersAreLeaves(v.members);
  }

  lemma {:induction false} CountedMembersAreLeaves(ms: seq<Member>)
    requires MembersNoNestedArrays(ms)
    ensures CountedMembers(ms) == MemberLeaves(ms)
  {
    if ms != [] {
      CountedMembersAreLeaves(ms[1..]);
      match ms[0].value
      case JObject(_) => CountedIsLeaves(ms[0].value);
      case JArray(items) => CountedItemsAreLeaves(items);
      case _ =>
    }
  }

  lemma {:induction false} CountedItemsAreLeaves(items: seq<Json>)
    requires ItemsNoNestedArrays(items)
    ensures CountedItems(items) == ItemLeaves(items)
  {
    if items != [] {
      CountedItemsAreLeaves(items[1..]);
      if items[0].JObject? {
        CountedIsLeaves(items[0]);
      }
    }
  }

  // ---------------------------------------------------------------------
  // Archive entries

  /** An archive entry: its name, whether it is a directory, and its
      contents as `json.load` reads them (`None` when that raises). */
  datatype Entry = Entry(name: string, isDir: bool, json: Option<Json>)

  /** A mod archive as `zipfile` lists it, or the message of the exception
      that opening it raises. */
  datatype Archive = Readable(entries: seq<Entry>) | Unreadable(message: string)

  datatype Jar = Jar(name: string, archive: Archive)

  /** `find_lang_files`: `'/lang/' in path and path.endswith('.json')` */
  predicate IsLangFile(e: Entry) {
    Contains(e.name, "/lang/") && EndsWith(e.name, ".json")
  }

  /** The filter `'en_us.json' in f` applied to the lang files. */
  predicate IsEnUsName(e: Entry) {
    Contains(e.name, "en_us.json")
  }

  /** `find_patchouli_files`: a file under `assets/`, inside a
      `/patchouli_books/` tree, inside an `/en_us/` directory, ending in
      `.json`. */
  predicate IsPatchouliSource(e: Entry) {
    StartsWith(e.name, "assets/") && Contains(e.name, "/patchouli_books/") && Contains(e.name, "/en_us/")
    && EndsWith(e.name, ".json") && !e.isDir
  }

  /** `has_russian_lang` looks for this name. */
  predicate IsRuLangName(name: string) {
    Contains(name, "/lang/ru_ru.json")
  }

  /** `has_russian_patchouli` looks for this name (directories too). */
  predicate IsRuPatchouliName(name: string) {
    StartsWith(name, "assets/") && Contains(name, "/patchouli_books/") && Contains(name, "/ru_ru/")
    && EndsWith(name, ".json")
  }

  predicate HasRuLang(es: seq<Entry>) {
    exists k :: 0 <= k < |es| && IsRuLangName(es[k].name)
  }

  predicate HasRuPatchouli(es: seq<Entry>) {
    exists k :: 0 <= k < |es| && IsRuPatchouliName(es[k].name)
  }

  /** The en_us lang files of an archive. */
  function LangSources(es: seq<Entry>): seq<Entry> {
    Filter(Filter(es, IsLangFile), IsEnUsName)
  }

  function PatchouliSources(es: seq<Entry>): seq<Entry> {
    Filter(es, IsPatchouliSource)
  }

  /** The sum of `count` over the files whose JSON loads; a file whose load
      raises is passed over. */
  function Tally(files: seq<Entry>, count: Json -> nat): nat {
    if files == [] then 0
    else
      Tally(files[..|files| - 1], count)
      + (match files[|files| - 1].json case Some(v) => count(v) case None => 0)
  }

  /** The strings `count_strings_in_json` counts in the files that load. */
  function CountedIn(files: seq<Entry>): seq<string> {
    if files == [] then []
    else
      CountedIn(files[..|files| - 1])
      + (match files[|files| - 1].json case Some(v) => Counted(v) case None => [])
  }

  lemma {:induction false} TallyCounted(files: seq<Entry>)
    ensures Tally(files, CountStrings) == |CountedIn(files)|
    ensures Tally(files, CountTranslated) == CyrillicCount(CountedIn(files))
  {
    if files != [] {
      var n := |files| - 1;
      TallyCounted(files[..n]);
      match files[n].json
      case Some(v) =>
        CountedIsCount(v);
        CyrillicCountAppend(CountedIn(files[..n]), Counted(v));
      case None =>
        assert CountedIn(files[..n]) + [] == CountedIn(files[..n]);
    }
  }

  // ---------------------------------------------------------------------
  // analyze_jar_files

  datatype Status = NeedTranslation | AlreadyTranslated | NoFiles | NoStrings | Broken(error: string)

  /** The `jar_info` dict of one archive. */
  datatype JarInfo = JarInfo(
    name: string,
    langFiles: nat,
    patchouliFiles: nat,
    strings: nat,
    already: nat,
    hasLang: bool,
    hasPatchouli: bool,
    hasRuLang: bool,
    hasRuPatchouli: bool,
    status: Status)

  /** The status chosen for an archive with files: nothing to count, every
      counted string already Russian, or nothing Russian yet but a ru_ru
      counterpart for every kind of file present. */
  function Verdict(strings: nat, already: nat, hasLang: bool, hasPatchouli: bool, ruLang: bool, ruPatchouli: bool): Status {
    if strings == 0 then NoStrings
    else if already == strings && already > 0 then AlreadyTranslated
    else if already == 0 && (hasLang ==> ruLang) && (hasPatchouli ==> ruPatchouli) && (ruLang || ruPatchouli) then AlreadyTranslated
    else NeedTranslation
  }

  /** The body of the loop of `analyze_jar_files` for one archive, with
      `count` the count of already translated strings of one file. */
  function Classify(jar: Jar, count: Json -> nat): JarInfo {
    match jar.archive
    case Unreadable(m) => JarInfo(jar.name, 0, 0, 0, 0, false, false, false, false, Broken(m))
    case Readable(es) =>
      var en := LangSources(es);
      var pf := PatchouliSources(es);
      var hasLang := |en| > 0;
      var hasPatchouli := |pf| > 0;
      var ruLang := HasRuLang(es);
      var ruPatchouli := HasRuPatchouli(es);
      if !hasLang && !hasPatchouli then
        JarInfo(jar.name, 0, 0, 0, 0, hasLang, hasPatchouli, ruLang, ruPatchouli, NoFiles)
      else
        var strings := Tally(en, CountStrings) + Tally(pf, CountStrings);
        var already := Tally(en, count) + Tally(pf, count);
        JarInfo(jar.name, |en|, |pf|, strings, already, hasLang, hasPatchouli, ruLang, ruPatchouli,
                Verdict(strings, already, hasLang, hasPatchouli, ruLang, ruPatchouli))
  }

  /** The result dict: the four lists and the totals over the archives that
      need translation. */
  datatype Analysis = Analysis(
    totalFiles: nat,
    need: seq<JarInfo>,
    already: seq<JarInfo>,
    noFiles: seq<JarInfo>,
    noStrings: seq<JarInfo>,
    langFiles: nat,
    patchouliFiles: nat,
    strings: int)

  /** Filing one archive: appended to the list of its status, and for an
      archive that needs translation its files and its strings not yet
      Russian added to the totals. An unreadable archive is filed with
      those that have no files. */
  function Record(a: Analysis, info: JarInfo): Analysis {
    match info.status
    case NoFiles => a.(noFiles := a.noFiles + [info])
    case Broken(_) => a.(noFiles := a.noFiles + [info])
    case NoStrings => a.(noStrings := a.noStrings + [info])
    case AlreadyTranslated => a.(already := a.already + [info])
    case NeedTranslation =>
      a.(need := a.need + [info], langFiles := a.langFiles + info.langFiles,
         patchouliFiles := a.patchouliFiles + info.patchouliFiles,
         strings := a.strings + (info.strings - info.already))
  }

  /** Filing the classified archives in order, starting from empty lists
      and zero totals. */
  function Sorted(infos: seq<JarInfo>, total: nat): Analysis {
    if infos == [] then Analysis(total, [], [], [], [], 0, 0, 0)
    else Record(Sorted(infos[..|infos| - 1], total), infos[|infos| - 1])
  }

  /** The classified archives, in input order. */
  function Infos(jars: seq<Jar>, count: Json -> nat): seq<JarInfo>
  {
    seq(|jars|, k requires 0 <= k < |jars| => Classify(jars[k], count))
  }

  /** `analyze_jar_files(jar_files)` with the count of already translated
      strings `count`. */
  function Analyze(jars: seq<Jar>, count: Json -> nat): Analysis {
    Sorted(Infos(jars, count), |jars|)
  }

  predicate IsNeed(info: JarInfo) { info.status.NeedTranslation? }
  predicate IsAlready(info: JarInfo) { info.status.AlreadyTranslated? }
  predicate IsNoStrings(info: JarInfo) { info.status.NoStrings? }
  predicate IsNoFiles(info: JarInfo) { info.status.NoFiles? || info.status.Broken? }

  /** Every archive lands in exactly one list. */
  lemma {:induction false} SortedSizes(infos: seq<JarInfo>, total: nat)
    ensures var a := Sorted(infos, total);
            a.totalFiles == total && |a.need| + |a.already| + |a.noStrings| + |a.noFiles| == |infos|
  {
    if infos != [] {
      SortedSizes(infos[..|infos| - 1], total);
    }
  }

  /** Each list holds exactly the archives of its status, in input order. */
  lemma {:induction false} SortedLists(infos: seq<JarInfo>, total: nat)
    ensures var a := Sorted(infos, total);
            a.need == Filter(infos, IsNeed) && a.already == Filter(infos, IsAlready) &&
            a.noStrings == Filter(infos, IsNoStrings) && a.noFiles == Filter(infos, IsNoFiles)
  {
    if infos != [] {
      SortedLists(infos[..|infos| - 1], total);
    }
  }

  /** An archive is in the list of its status and in no other. */
  lemma AnalyzePartition(jars: seq<Jar>, count: Json -> nat, k: nat)
    requires k < |jars|
    ensures var a := Analyze(jars, count);
            var info := Classify(jars[k], count);
            a.totalFiles == |jars| &&
            |a.need| + |a.already| + |a.noStrings| + |a.noFiles| == |jars| &&
            (info in a.need <==> IsNeed(info)) && (info in a.already <==> IsAlready(info)) &&
            (info in a.noStrings <==> IsNoStrings(info)) && (info in a.noFiles <==> IsNoFiles(info))
  {
    var infos := Infos(jars, count);
    SortedSizes(infos, |jars|);
    SortedLists(infos, |jars|);
    assert infos[k] == Classify(jars[k], count);
    FilterMembers(infos, IsNeed);
    FilterMembers(infos, IsAlready);
    FilterMembers(infos, IsNoStrings);
    FilterMembers(infos, IsNoFiles);
  }

  /** A classified archive's already-translated count never exceeds its
      string count, once both count the same strings. */
  lemma ClassifyBounded(jar: Jar)
    ensures Classify(jar, CountTranslated).already <= Classify(jar, CountTranslated).strings
  {
    if jar.archive.Readable? {
      var es := jar.archive.entries;
      TallyCounted(LangSources(es));
      TallyCounted(PatchouliSources(es));
    }
  }

  lemma {:induction false} SortedPendingNonNegative(infos: seq<JarInfo>, total: nat)
    requires forall k :: 0 <= k < |infos| ==> infos[k].already <= infos[k].strings
    ensures Sorted(infos, total).strings >= 0
  {
    if infos != [] {
      SortedPendingNonNegative(infos[..|infos| - 1], total);
    }
  }

  /** The total of strings still to translate is never negative. */
  lemma PendingNonNegative(jars: seq<Jar>)
    ensures Analyze(jars, CountTranslated).strings >= 0
  {
    var infos := Infos(jars, CountTranslated);
    forall k | 0 <= k < |infos| ensures infos[k].already <= infos[k].strings {
      ClassifyBounded(jars[k]);
    }
    SortedPendingNonNegative(infos, |jars|);
  }

  /** An archive is reported as translated only when every string counted
      in its source files is Cyrillic, or when none is and every kind of
      source file present has its ru_ru counterpart in the archive. */
  lemma AlreadyMeansTranslated(jar: Jar)
    requires jar.archive.Readable?
    requires Classify(jar, CountTranslated).status == AlreadyTranslated
    ensures var es := jar.archive.entries;
            var counted := CountedIn(LangSources(es)) + CountedIn(PatchouliSources(es));
            (|counted| > 0 && forall k :: 0 <= k < |counted| ==> HasCyrillic(counted[k]))
            || ((forall k :: 0 <= k < |counted| ==> !HasCyrillic(counted[k]))
                && (|LangSources(es)| > 0 ==> HasRuLang(es))
                && (|PatchouliSources(es)| > 0 ==> HasRuPatchouli(es))
                && (HasRuLang(es) || HasRuPatchouli(es)))
  {
    var es := jar.archive.entries;
    var en, pf := LangSources(es), PatchouliSources(es);
    var counted := CountedIn(en) + CountedIn(pf);
    TallyCounted(en);
    TallyCounted(pf);
    CyrillicCountAppend(CountedIn(en), CountedIn(pf));
    var strings := Tally(en, CountStrings) + Tally(pf, CountStrings);
    var already := Tally(en, CountTranslated) + Tally(pf, CountTranslated);
    assert |en| > 0 || |pf| > 0;
    assert Verdict(strings, already, |en| > 0, |pf| > 0, HasRuLang(es), HasRuPatchouli(es)) == AlreadyTranslated;
    assert strings == |counted| && already == CyrillicCount(counted);
    CyrillicCountFull(counted);
    CyrillicCountNone(counted);
  }

  /** No string is Cyrillic exactly when the count is zero. */
  lemma {:induction false} CyrillicCountNone(ss: seq<string>)
    ensures CyrillicCount(ss) == 0 <==> forall k :: 0 <= k < |ss| ==> !HasCyrillic(ss[k])
  {
    if ss != [] {
      CyrillicCountNone(ss[1..]);
      CyrillicCountAppend([ss[0]], ss[1..]);
      assert ss == [ss[0]] + ss[1..];
      if CyrillicCount(ss[1..]) == 0 {
        forall k | 0 <= k < |ss| && !HasCyrillic(ss[0]) ensures !HasCyrillic(ss[k]) {
          if k > 0 { assert ss[k] == ss[1..][k - 1]; }
        }
      }
    }
  }

  // ---------------------------------------------------------------------
  // The scans of the archive listing

  /** `find_lang_files`: the lang files, in archive order. */
  method FindLangFiles(es: seq<Entry>) returns (files: seq<Entry>)
    ensures files == Filter(es, IsLangFile)
  {
    files := [];
    for i := 0 to |es|
      invariant files == Filter(es[..i], IsLangFile)
    {
      assert es[..i + 1][..i] == es[..i];
      if IsLangFile(es[i]) {
        files := files + [es[i]];
      }
    }
    assert es[..|es|] == es;
  }

  /** `find_patchouli_files`: the patchouli source files, in archive order. */
  method FindPatchouliFiles(es: seq<Entry>) returns (files: seq<Entry>)
    ensures files == PatchouliSources(es)
  {
    files := [];
    for i := 0 to |es|
      invariant files == Filter(es[..i], IsPatchouliSource)
    {
      assert es[..i + 1][..i] == es[..i];
      if IsPatchouliSource(es[i]) {
        files := files + [es[i]];
      }
    }
    assert es[..|es|] == es;
  }

  /** `has_russian_lang`: stops at the first ru_ru lang file. */
  method HasRussianLang(es: seq<Entry>) returns (found: bool)
    ensures found == HasRuLang(es)
  {
    for i := 0 to |es|
      invariant forall k :: 0 <= k < i ==> !IsRuLangName(es[k].name)
    {
      if IsRuLangName(es[i].name) {
        return true;
      }
    }
    return false;
  }

  /** `has_russian_patchouli`: stops at the first ru_ru patchouli file. */
  method HasRussianPatchouli(es: seq<Entry>) returns (found: bool)
    ensures found == HasRuPatchouli(es)
  {
    for i := 0 to |es|
      invariant forall k :: 0 <= k < i ==> !IsRuPatchouliName(es[k].name)
    {
      if IsRuPatchouliName(es[i].name) {
        return true;
      }
    }
    return false;
  }

  /** The per-file loop of `analyze_jar_files`: the strings of every file
      that loads and the already translated ones among them. */
  method CountFiles(files: seq<Entry>) returns (strings: nat, already: nat)
    ensures strings == Tally(files, CountStrings)
    ensures already == Tally(files, CountTranslated)
    ensures already <= strings
  {
    strings, already := 0, 0;
    for i := 0 to |files|
      invariant strings == Tally(files[..i], CountStrings)
      invariant already == Tally(files[..i], CountTranslated)
    {
      assert files[..i + 1][..i] == files[..i];
      match files[i].json
      case Some(v) =>
        strings := strings + CountStrings(v);
        already := already + CountTranslated(v);
      case None =>
    }
    assert files[..|files|] == files;
    TallyCounted(files);
  }

  /** One archive as `analyze_jar_files` classifies it. */
  method InspectJar(jar: Jar) returns (info: JarInfo)
    ensures info == Classify(jar, CountTranslated)
  {
    match jar.archive
    case Unreadable(m) =>
      info := JarInfo(jar.name, 0, 0, 0, 0, false, false, false, false, Broken(m));
    case Readable(es) =>
      var langs := FindLangFiles(es);
      var en := Filter(langs, IsEnUsName);
      var pf := FindPatchouliFiles(es);
      var ruLang := HasRussianLang(es);
      var ruPatchouli := HasRussianPatchouli(es);
      var hasLang, hasPatchouli := |en| > 0, |pf| > 0;
      if !hasLang && !hasPatchouli {
        info := JarInfo(jar.name, 0, 0, 0, 0, hasLang, hasPatchouli, ruLang, ruPatchouli, NoFiles);
      } else {
        var s1, a1 := CountFiles(en);
        var s2, a2 := CountFiles(pf);
        var status := Verdict(s1 + s2, a1 + a2, hasLang, hasPatchouli, ruLang, ruPatchouli);
        info := JarInfo(jar.name, |en|, |pf|, s1 + s2, a1 + a2, hasLang, hasPatchouli, ruLang, ruPatchouli, status);
      }
  }

  /** `analyze_jar_files`: every archive classified and filed in turn. */
  method AnalyzeJarFiles(jars: seq<Jar>) returns (a: Analysis)
    ensures a == Analyze(jars, CountTranslated)
  {
    a := Analysis(|jars|, [], [], [], [], 0, 0, 0);
    for i := 0 to |jars|
      invariant a == Sorted(Infos(jars[..i], CountTranslated), |jars|)
    {
      var info := InspectJar(jars[i]);
      assert Infos(jars[..i + 1], CountTranslated)[..i] == Infos(jars[..i], CountTranslated);
      a := Record(a, info);
    }
    assert jars[..|jars|] == jars;
  }

  // ---------------------------------------------------------------------
  // The nested-list miscount, as written

  /** A Russian word: "да". */
  const Da: string := "\U{434}\U{430}"

  /** A lang file holding one English string and, inside a list nested in a
      list, the items `inner`. */
  function NestedSample(inner: seq<Json>): Json {
    JObject([Member("a", JString("hi")), Member("b", JArray([JArray(inner)]))])
  }

  const SampleName: string := "x/lang/en_us.json"

  function SampleJar(inner: seq<Json>): Jar {
    Jar("m.jar", Readable([Entry(SampleName, false, Some(NestedSample(inner)))]))
  }

  /** `count_strings_in_json` sees only "hi"; the nested list is skipped. */
  lemma SampleCounted(inner: seq<Json>)
    ensures Counted(NestedSample(inner)) == ["hi"]
    ensures CountStrings(NestedSample(inner)) == 1
    ensures CountTranslated(NestedSample(inner)) == 0
  {
    var ms := NestedSample(inner).members;
    assert ms[1..] == [ms[1]] && ms[1..][1..] == [];
    assert CountedItems([JArray(inner)]) == [] by {
      assert [JArray(inner)][1..] == [];
    }
    assert CountedMembers(ms[1..]) == [];
    CountedIsCount(NestedSample(inner));
    assert !HasCyrillic("hi") by {
      assert !IsCyrillic("hi"[0]) && !IsCyrillic("hi"[1]);
    }
    assert ["hi"][1..] == [];
  }

  /** `count_translated_strings` counts every Cyrillic string of the nested
      list. */
  lemma SampleCyrillic(inner: seq<Json>)
    requires forall k :: 0 <= k < |inner| ==> inner[k] == JString(Da)
    ensures CountCyrillic(NestedSample(inner)) == |inner|
  {
    var ms := NestedSample(inner).members;
    assert HasCyrillic(Da) by { assert IsCyrillic(Da[0]); }
    CyrillicItemsAll(inner);
    assert [JArray(inner)][1..] == [];
    assert CountCyrillic(JArray(inner)) == |inner|;
    assert CyrillicItems([JArray(inner)]) == |inner|;
    assert CountCyrillic(JArray([JArray(inner)])) == |inner|;
    assert ms[1..] == [ms[1]] && ms[1..][1..] == [];
    assert CyrillicMembers(ms[1..]) == |inner|;
    assert !HasCyrillic("hi") by {
      assert !IsCyrillic("hi"[0]) && !IsCyrillic("hi"[1]);
    }
  }

  /** The sample archive's one entry is an en_us lang file, and the archive
      has no patchouli file and no ru_ru file. */
  lemma SampleListing(v: Json)
    ensures var es := [Entry(SampleName, false, Some(v))];
            LangSources(es) == es && PatchouliSources(es) == [] && !HasRuLang(es) && !HasRuPatchouli(es)
  {
    var e := Entry(SampleName, false, Some(v));
    SampleNameFacts();
    assert Filter([e], IsLangFile) == [e] by { assert [e][..0] == []; }
    assert Filter([e], IsPatchouliSource) == [] by { assert [e][..0] == []; }
    assert Filter([e], IsEnUsName) == [e] by { assert [e][..0] == []; }
  }

  lemma SampleNameFacts()
    ensures Contains(SampleName, "/lang/") && EndsWith(SampleName, ".json")
    ensures Contains(SampleName, "en_us.json")
    ensures !StartsWith(SampleName, "assets/") && !IsRuLangName(SampleName)
  {
    assert OccursAt(SampleName, "/lang/", 1) by { assert SampleName[1..7] == "/lang/"; }
    assert OccursAt(SampleName, "en_us.json", 7) by { assert SampleName[7..17] == "en_us.json"; }
    assert SampleName[12..] == ".json";
    assert SampleName[0] != 'a';
    SampleNotRu();
  }

  lemma SampleNotRu()
    ensures !Contains(SampleName, "/lang/ru_ru.json")
  {
    var p := "/lang/ru_ru.json";
    forall i | 0 <= i <= |SampleName| - |p| ensures !OccursAt(SampleName, p, i) {
      if i == 0 {
        assert SampleName[0..16][0] != p[0];
      } else {
        assert SampleName[1..17][6] != p[6];
      }
    }
  }

  /** Every item of the list is a Cyrillic string. */
  lemma {:induction false} CyrillicItemsAll(items: seq<Json>)
    requires forall k :: 0 <= k < |items| ==> items[k] == JString(Da)
    requires HasCyrillic(Da)
    ensures CyrillicItems(items) == |items|
  {
    if items != [] {
      CyrillicItemsAll(items[1..]);
    }
  }

  /** The tallies of the sample archive. */
  lemma SampleTallies(inner: seq<Json>, count: Json -> nat)
    ensures var es := SampleJar(inner).archive.entries;
            Tally(LangSources(es), count) == count(NestedSample(inner))
            && Tally(PatchouliSources(es), count) == 0
  {
    var es := SampleJar(inner).archive.entries;
    SampleListing(NestedSample(inner));
    assert es[..0] == [];
  }

  /** The sample archive classified with a count that gives `n` for its
      file: one string counted, `n` of them already translated, one lang
      file and no ru_ru file. */
  lemma SampleInfo(inner: seq<Json>, count: Json -> nat, n: nat)
    requires count(NestedSample(inner)) == n
    ensures Classify(SampleJar(inner), count)
            == JarInfo("m.jar", 1, 0, 1, n, true, false, false, false, Verdict(1, n, true, false, false, false))
  {
    SampleListing(NestedSample(inner));
    SampleCounted(inner);
    SampleTallies(inner, CountStrings);
    SampleTallies(inner, count);
  }

  /** With the count of `count_translated_strings`, an archive whose one
      lang file still holds an English string is reported as already
      translated, where counting only the strings `count_strings_in_json`
      counts reports that it needs translation. */
  lemma NestedListMisjudged()
    ensures Classify(SampleJar([JString(Da)]), CountCyrillic).status == AlreadyTranslated
    ensures Classify(SampleJar([JString(Da)]), CountTranslated).status == NeedTranslation
  {
    var inner := [JString(Da)];
    SampleCounted(inner);
    SampleCyrillic(inner);
    SampleInfo(inner, CountCyrillic, 1);
    SampleInfo(inner, CountTranslated, 0);
  }

  /** With the count of `count_translated_strings`, the total of strings
      still to translate goes negative, where counting only the strings
      `count_strings_in_json` counts leaves the one English string. */
  lemma NestedListNegativeTotal()
    ensures Analyze([SampleJar([JString(Da), JString(Da)])], CountCyrillic).strings == -1
    ensures Analyze([SampleJar([JString(Da), JString(Da)])], CountTranslated).strings == 1
  {
    var inner := [JString(Da), JString(Da)];
    SampleCounted(inner);
    SampleCyrillic(inner);
    SampleClassified(inner, CountCyrillic, 2);
    SampleClassified(inner, CountTranslated, 0);
  }

  /** The sample archive, classified with a count that gives `n` for its
      file, and filed alone. */
  lemma SampleClassified(inner: seq<Json>, count: Json -> nat, n: nat)
    requires count(NestedSample(inner)) == n && n != 1
    ensures Analyze([SampleJar(inner)], count).strings == 1 - n
  {
    SampleInfo(inner, count, n);
    var info := Classify(SampleJar(inner), count);
    assert info.status == NeedTranslation;
    var infos := Infos([SampleJar(inner)], count);
    assert infos[..0] == [];
    assert Sorted(infos[..0], 1).strings == 0;
    assert Sorted(infos, 1) == Record(Sorted(infos[..0], 1), info);
  }

  // ---------------------------------------------------------------------
  // Output names and target paths of translate_jar

  /** `Path(name).stem`: the name without its last suffix, where a suffix
      is a final `.` with at least one character after it, not at the start
      of the name. */
  function Stem(name: string): (r: string)
    ensures |r| <= |name| && r == name[..|r|]
    ensures r == name || (0 < |r| < |name| - 1 && name[|r|] == '.' && '.' !in name[|r| + 1..])
  {
    var i := RFind(name, '.');
    if 0 < i < |name| - 1 then name[..i] else name
  }

  /** The stem of `x.jar` is `x`. */
  lemma StemOfJar(s: string)
    requires |s| > 0
    ensures Stem(s + ".jar") == s
  {
    var name := s + ".jar";
    var i := RFind(name, '.');
    assert name[|s|] == '.' && name[|s| + 1] == 'j' && name[|s| + 2] == 'a' && name[|s| + 3] == 'r';
  }

  /** The output archive's name: the input's name when replacing the
      original, `<stem>_ru.jar` otherwise. */
  function OutputJarName(name: string, replaceOriginal: bool): (r: string)
    ensures replaceOriginal ==> r == name
    ensures !replaceOriginal ==> EndsWith(r, "_ru.jar") && StartsWith(r, Stem(name))
  {
    if replaceOriginal then name else Stem(name) + "_ru.jar"
  }

  /** A translated copy never takes the original's name, and the copy of
      `x.jar` is `x_ru.jar`. */
  lemma OutputJarNameFresh(name: string)
    ensures OutputJarName(name, false) != name
    ensures |name| > 4 && EndsWith(name, ".jar") ==>
              OutputJarName(name, false) == name[..|name| - 4] + "_ru.jar"
  {
    var stem := Stem(name);
    var r := OutputJarName(name, false);
    if stem != name {
      assert r[|stem|] == '_';
    }
    if |name| > 4 && EndsWith(name, ".jar") {
      var s := name[..|name| - 4];
      assert name == s + ".jar";
      StemOfJar(s);
    }
  }

  /** The ru_ru file written next to a lang file: its directory with
      `ru_ru.json` in it. */
  function RuLangPath(path: string): (r: string)
    ensures EndsWith(r, "ru_ru.json")
  {
    var i := RFind(path, '/');
    if i < 0 then "ru_ru.json" else path[..i] + "/ru_ru.json"
  }

  /** The ru_ru file written for `<dir>/lang/<file>` is `<dir>/lang/ru_ru.json`,
      which `has_russian_lang` then finds. */
  lemma RuLangPathSibling(dir: string, file: string)
    requires '/' !in file
    ensures RuLangPath(dir + "/lang/" + file) == dir + "/lang/ru_ru.json"
    ensures IsRuLangName(RuLangPath(dir + "/lang/" + file))
  {
    var lang := dir + "/lang";
    var p := dir + "/lang/" + file;
    LangLiterals();
    assert p == lang + "/" + file;
    var j := |lang|;
    forall k | j < k < |p| ensures p[k] != '/' {
      assert p[k] == file[k - j - 1];
    }
    RFindAt(p, '/', j);
    assert p[..j] == lang;
    assert lang + "/ru_ru.json" == dir + "/lang/ru_ru.json";
    ContainsSuffix(dir, "/lang/ru_ru.json");
  }

  lemma LangLiterals()
    ensures "/lang" + "/" == "/lang/" && "/lang" + "/ru_ru.json" == "/lang/ru_ru.json"
  {
  }

  /** The ru_ru file written for a patchouli file: every `/en_us/` becomes
      `/ru_ru/`. */
  function RuPatchouliPath(path: string): string {
    Replace(path, "/en_us/", "/ru_ru/")
  }

  /** The rewrite keeps the length, leaves a path without `/en_us/` alone,
      and puts `/ru_ru/` where the first `/en_us/` was, keeping the text
      before it. */
  lemma RuPatchouliPathRewrites(path: string)
    ensures |RuPatchouliPath(path)| == |path|
    ensures !Contains(path, "/en_us/") ==> RuPatchouliPath(path) == path
    ensures Contains(path, "/en_us/") ==> Find(path, "/en_us/").Some?
    ensures Find(path, "/en_us/").Some? ==>
              var i := Find(path, "/en_us/").value;
              OccursAt(RuPatchouliPath(path), "/ru_ru/", i) && RuPatchouliPath(path)[..i] == path[..i]
  {
    ReplaceKeepsLength(path, "/en_us/", "/ru_ru/");
    FindIsLeftmost(path, "/en_us/");
    if Contains(path, "/en_us/") {
      var i := Find(path, "/en_us/").value;
      ReplaceFirst(path, "/en_us/", "/ru_ru/", i);
      ReplaceUnfold(path, "/en_us/", "/ru_ru/", i);
    } else {
      ReplaceAbsent(path, "/en_us/", "/ru_ru/");
    }
  }

  /** The ru_ru file written for a Patchouli source is one that
      `has_russian_patchouli` then finds. */
  lemma RuPatchouliFound(e: Entry)
    requires IsPatchouliSource(e)
    ensures IsRuPatchouliName(RuPatchouliPath(e.name))
  {
    var s := e.name;
    RuPatchouliPathRewrites(s);
    FindIsLeftmost(s, "/en_us/");
    ReplaceFirst(s, "/en_us/", "/ru_ru/", Find(s, "/en_us/").value);
    AssetsKept(s);
    JsonKept(s);
    var p :| 0 <= p <= |s| - 17 && OccursAt(s, "/patchouli_books/", p);
    BooksKept(s, p);
  }

  lemma AssetsKept(s: string)
    requires StartsWith(s, "assets/")
    ensures StartsWith(RuPatchouliPath(s), "assets/")
  {
    var r := RuPatchouliPath(s);
    ReplaceKeepsLength(s, "/en_us/", "/ru_ru/");
    forall k | 0 <= k < 7 ensures r[k] == s[k] {
      ReplaceCharAt(s, "/en_us/", "/ru_ru/", k);
      if r[k] != s[k] {
        var j :| 0 <= j <= k < j + 7 && OccursAt(s, "/en_us/", j) && r[k] == "/ru_ru/"[k - j];
        EnUsAfterAssets(s, j);
      }
    }
    assert r[..7] == s[..7];
  }

  lemma JsonKept(s: string)
    requires EndsWith(s, ".json")
    ensures EndsWith(RuPatchouliPath(s), ".json")
  {
    var r := RuPatchouliPath(s);
    ReplaceKeepsLength(s, "/en_us/", "/ru_ru/");
    var n := |s| - 5;
    forall k | n <= k < |s| ensures r[k] == s[k] {
      ReplaceCharAt(s, "/en_us/", "/ru_ru/", k);
      if r[k] != s[k] {
        var j :| 0 <= j <= k < j + 7 && OccursAt(s, "/en_us/", j) && r[k] == "/ru_ru/"[k - j];
        EnUsBeforeJson(s, j);
      }
    }
    assert r[n..] == s[n..];
  }

  lemma BooksKept(s: string, p: int)
    requires OccursAt(s, "/patchouli_books/", p)
    ensures OccursAt(RuPatchouliPath(s), "/patchouli_books/", p)
    ensures Contains(RuPatchouliPath(s), "/patchouli_books/")
  {
    var r := RuPatchouliPath(s);
    ReplaceKeepsLength(s, "/en_us/", "/ru_ru/");
    forall k | p <= k < p + 17 ensures r[k] == s[k] {
      BookCharKept(s, p, k);
    }
    assert r[p..p + 17] == s[p..p + 17];
    assert OccursAt(r, "/patchouli_books/", p);
  }

  lemma BookCharKept(s: string, p: int, k: int)
    requires OccursAt(s, "/patchouli_books/", p) && p <= k < p + 17
    ensures |RuPatchouliPath(s)| == |s| && RuPatchouliPath(s)[k] == s[k]
  {
    var r := RuPatchouliPath(s);
    ReplaceCharAt(s, "/en_us/", "/ru_ru/", k);
    assert "/ru_ru/"[0] == '/' && "/ru_ru/"[6] == '/';
    if r[k] != s[k] {
      var j :| 0 <= j <= k < j + 7 && OccursAt(s, "/en_us/", j) && r[k] == "/ru_ru/"[k - j];
      EnUsApartFromBooks(s, p, j);
    }
  }

  /** `assets/` holds its only slash last, so `/en_us/` cannot begin
      before that slash. */
  lemma EnUsAfterAssets(s: string, j: int)
    requires StartsWith(s, "assets/") && OccursAt(s, "/en_us/", j)
    ensures j >= 6
  {
    assert s[j] == '/';
  }

  /** `.json` holds no slash, so `/en_us/` ends before it. */
  lemma EnUsBeforeJson(s: string, j: int)
    requires EndsWith(s, ".json") && OccursAt(s, "/en_us/", j)
    ensures j + 7 <= |s| - 5
  {
    assert s[j + 6] == '/';
  }

  /** Inside `/patchouli_books/` only the first and the last character
      are slashes. */
  lemma BooksSlashes(s: string, p: int)
    requires OccursAt(s, "/patchouli_books/", p)
    ensures s[p + 1] == 'p' && forall m :: p < m < p + 16 ==> s[m] != '/'
  {
    var books := s[p..p + 17];
    assert books == "/patchouli_books/";
    forall m | p < m < p + 16 ensures s[m] != '/' {
      assert s[m] == books[m - p];
    }
    assert s[p + 1] == books[1];
  }

  /** `/patchouli_books/` and `/en_us/` share at most a slash. */
  lemma EnUsApartFromBooks(s: string, p: int, j: int)
    requires OccursAt(s, "/patchouli_books/", p) && OccursAt(s, "/en_us/", j)
    ensures j + 6 <= p || p + 16 <= j
    ensures s[j] == '/' && s[j + 6] == '/'
  {
    var en := s[j..j + 7];
    assert en == "/en_us/";
    assert s[j] == en[0] && s[j + 1] == en[1] && s[j + 6] == en[6];
    BooksSlashes(s, p);
  }
}
