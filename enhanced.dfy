/** The enhanced translator of `enhanced_translator.py`: a stricter filter
    that also spares mod names and technical strings, the mod context
    guessed from an archive name, the terminology dictionary applied as
    whole-word replacements, and single and batch translation with the
    context prefix. */
module Enhanced {
  import opened Base
  import opened Strings
  import SimpleJar

  // ---------------------------------------------------------------------
  // should_translate

  /** `[а-яё]` under `re.IGNORECASE`: the Russian alphabet in either case. */
  predicate IsRussianLetter(c: char) {
    'а' <= c <= 'я' || c == 'ё' || 'А' <= c <= 'Я' || c == 'Ё'
  }

  predicate HasRussian(t: string) {
    exists i :: 0 <= i < |t| && IsRussianLetter(t[i])
  }

  /** `[91]`: the two blue colours mod names are written in. */
  predicate IsBlueCode(c: char) {
    c == '9' || c == '1'
  }

  /** `[klmnor]`: obfuscated, bold, strikethrough, underline, italic, reset. */
  predicate IsStyleCode(c: char) {
    'k' <= c <= 'o' || c == 'r'
  }

  /** `[0-9a-fk-or]`: every colour and style code. */
  predicate IsColourCode(c: char) {
    '0' <= c <= '9' || 'a' <= c <= 'f' || IsStyleCode(c)
  }

  /** `re.search('§[91]', t)` */
  predicate HasBlueCode(t: string) {
    exists i :: 0 <= i < |t| - 1 && t[i] == '§' && IsBlueCode(t[i + 1])
  }

  /** `re.search('§[klmnor]', t)` */
  predicate HasStyleCode(t: string) {
    exists i :: 0 <= i < |t| - 1 && t[i] == '§' && IsStyleCode(t[i + 1])
  }

  /** `re.sub('§[0-9a-fk-or]', '', t)`: one pass from the left that drops
      every code together with its `§`. */
  function StripCodes(t: string): (r: string)
    ensures |r| <= |t|
    ensures forall c :: c in r ==> c in t
    ensures '§' !in t ==> r == t
    decreases |t|
  {
    if |t| >= 2 && t[0] == '§' && IsColourCode(t[1]) then StripCodes(t[2..])
    else if t == [] then []
    else [t[0]] + StripCodes(t[1..])
  }

  /** The mod names that stay in English. */
  const ModNames: seq<string> := [
    "simple hats", "thermal expansion", "industrial craft", "applied energistics",
    "tinkers construct", "immersive engineering", "mekanism", "botania",
    "thaumcraft", "buildcraft", "forestry", "railcraft", "computercraft",
    "create", "pneumaticcraft", "blood magic", "astral sorcery",
    "extra utilities", "ender io", "jei", "nei", "waila", "hwyla",
    "journeymap", "optifine", "forge", "fabric", "quark", "biomes o plenty",
    "twilight forest", "galacticraft", "ic2", "ae2", "refined storage",
    "storage drawers", "iron chests", "chisel", "carpenter blocks",
    "bibliocraft", "decocraft", "furniture mod", "mr crayfish",
    "vehicle mod", "flans mod", "pixelmon", "orespawn", "lucky blocks",
    "mo creatures", "dragons", "fossils", "jurassicraft", "advent of ascension",
    "divine rpg", "aether", "tropicraft", "erebus", "betweenlands",
    "abyssal craft", "blood arsenal", "draconic evolution", "project e",
    "equivalent exchange", "big reactors", "extreme reactors", "nuclearcraft",
    "tech reborn", "gregtech", "endercore", "cofh core", "redstone flux",
    "tesla", "energy", "rf tools", "mcjtylib", "deep resonance",
    "compact machines", "dimensional doors", "mystcraft", "rftools dimensions"
  ]

  /** The text without colour codes, stripped and lower-cased. */
  function CleanText(t: string): string {
    Lower(Strip(StripCodes(t)))
  }

  /** The cleaned text is a listed mod name, or holds a listed name of
      more than one word. */
  predicate NamesMod(t: string) {
    NamesModIn(CleanText(t), ModNames)
  }

  /** The mod-name test of a cleaned text against a list of names. */
  predicate NamesModIn(clean: string, names: seq<string>) {
    clean in names || exists m :: m in names && WordCount(m) > 1 && Contains(clean, m)
  }

  /** `[a-z_]` */
  predicate IsIdentChar(c: char) {
    'a' <= c <= 'z' || c == '_'
  }

  predicate IsLowerLetter(c: char) {
    'a' <= c <= 'z'
  }

  /** `[a-z_]+\.[a-z_]+(\.[a-z_]+)*`: two or more runs of `[a-z_]` joined
      by single dots, such as `item.thermal.machine_frame.name`. */
  predicate IsDottedKey(s: string) {
    && |s| > 0 && s[0] != '.' && s[|s| - 1] != '.' && '.' in s
    && (forall i :: 0 <= i < |s| ==> IsIdentChar(s[i]) || s[i] == '.')
    && (forall i :: 0 <= i < |s| - 1 ==> s[i] != '.' || s[i + 1] != '.')
  }

  /** `\$\{.*\}`: `${`, then anything but a line break, then `}`. */
  predicate IsVariable(s: string) {
    |s| >= 3 && s[0] == '$' && s[1] == '{' && s[|s| - 1] == '}' && '\n' !in s[2..|s| - 1]
  }

  predicate IsHexDigit(c: char) {
    '0' <= c <= '9' || 'a' <= c <= 'f' || 'A' <= c <= 'F'
  }

  /** `#[0-9A-Fa-f]{6,8}` */
  predicate IsHexColour(s: string) {
    7 <= |s| <= 9 && s[0] == '#' && forall i :: 1 <= i < |s| ==> IsHexDigit(s[i])
  }

  /** The number of leading ASCII digits. */
  function DigitRun(s: string): (n: nat)
    ensures n <= |s| && forall i :: 0 <= i < n ==> IsDigit(s[i])
    ensures n < |s| ==> !IsDigit(s[n])
  {
    if s != [] && IsDigit(s[0]) then 1 + DigitRun(s[1..]) else 0
  }

  /** `[a-z%]*` */
  predicate IsUnitSuffix(s: string) {
    forall i :: 0 <= i < |s| ==> IsLowerLetter(s[i]) || s[i] == '%'
  }

  /** `\d+(\.\d+)?[a-z%]*`: a number with an optional fraction and a unit,
      such as `100`, `1.5x` or `50%`. */
  predicate IsQuantity(s: string) {
    var n := DigitRun(s);
    && n > 0
    && (|| IsUnitSuffix(s[n..])
        || (n < |s| && s[n] == '.' && DigitRun(s[n + 1..]) > 0 &&
            IsUnitSuffix(s[n + 1 + DigitRun(s[n + 1..])..])))
  }

  /** `[A-Z_]+` */
  predicate IsConstantName(s: string) {
    |s| > 0 && forall i :: 0 <= i < |s| ==> 'A' <= s[i] <= 'Z' || s[i] == '_'
  }

  /** `minecraft:[a-z_]+` */
  predicate IsMinecraftId(s: string) {
    |s| > 10 && s[..10] == "minecraft:" && forall k :: 10 <= k < |s| ==> IsIdentChar(s[k])
  }

  /** `[a-z]+:[a-z_]+` */
  predicate IsRegistryId(s: string) {
    exists i :: 0 < i < |s| - 1 && s[i] == ':' &&
      (forall k :: 0 <= k < i ==> IsLowerLetter(s[k])) &&
      (forall k :: i < k < |s| ==> IsIdentChar(s[k]))
  }

  /** `\[[^\]]+\]`, `<[^>]+>` and `\([^)]+\)`: something non-empty inside
      one pair of brackets that holds no closing bracket. */
  predicate IsWrapped(s: string, open: char, close: char) {
    |s| >= 3 && s[0] == open && s[|s| - 1] == close && close !in s[1..|s| - 1]
  }

  /** One of the ten technical patterns matches the whole stripped text
      (a stripped text has no final line break for `$` to skip). */
  predicate IsTechnical(s: string) {
    || IsDottedKey(s) || IsVariable(s) || IsHexColour(s) || IsQuantity(s)
    || IsConstantName(s) || IsMinecraftId(s) || IsRegistryId(s)
    || IsWrapped(s, '[', ']') || IsWrapped(s, '<', '>') || IsWrapped(s, '(', ')')
  }

  predicate HasAsciiLetter(t: string) {
    exists i :: 0 <= i < |t| && IsAsciiLetter(t[i])
  }

  /** `should_translate(text, key)`: every early `return False` of the
      method is one conjunct. */
  predicate ShouldTranslate(t: string, key: string) {
    && !IsBlank(t)
    && !HasRussian(t)
    && !HasBlueCode(t)
    && !HasStyleCode(t)
    && !(key != [] && Contains(Lower(key), "itemgroup"))
    && !NamesMod(t)
    && !IsTechnical(Strip(t))
    && |Strip(t)| >= 3
    && HasAsciiLetter(t)
  }

  /** A word of letters that are not whitespace, followed by more text, is
      one word and the words of the rest. */
  lemma {:induction false} WordRun(x: string, y: string, inWord: bool)
    requires |x| > 0 && forall k :: 0 <= k < |x| ==> !IsSpace(x[k])
    ensures WordCountFrom(x + y, inWord) == (if inWord then 0 else 1) + WordCountFrom(y, true)
    decreases |x|
  {
    assert (x + y)[1..] == x[1..] + y;
    if |x| > 1 {
      WordRun(x[1..], y, true);
    } else {
      assert x[1..] + y == y;
    }
  }

  /** Two words separated by a space make a name of several words. */
  lemma TwoWords(a: string, b: string)
    requires |a| > 0 && forall k :: 0 <= k < |a| ==> !IsSpace(a[k])
    requires !IsBlank(b)
    ensures WordCount(a + " " + b) > 1
  {
    assert a + " " + b == a + (" " + b);
    WordRun(a, " " + b, false);
    assert (" " + b)[1..] == b;
    WordCountZeroIffBlank(b);
  }

  /** Without whitespace a text is at most one word. */
  lemma {:induction false} NoSpaceOneWord(s: string, inWord: bool)
    requires forall k :: 0 <= k < |s| ==> !IsSpace(s[k])
    ensures WordCountFrom(s, inWord) <= (if inWord then 0 else 1)
    decreases |s|
  {
    if s != [] {
      NoSpaceOneWord(s[1..], true);
    }
  }

  /** Only a text with whitespace can hold a listed name of several words,
      so a single word is judged by the exact-name test alone. */
  lemma SingleWordHoldsNoName(clean: string, names: seq<string>)
    requires forall k :: 0 <= k < |clean| ==> !IsSpace(clean[k])
    ensures NamesModIn(clean, names) <==> clean in names
  {
    forall m | m in names && WordCount(m) > 1 ensures !Contains(clean, m) {
      if Contains(clean, m) {
        var i :| 0 <= i <= |clean| - |m| && OccursAt(clean, m, i);
        forall k | 0 <= k < |m| ensures !IsSpace(m[k]) {
          assert m[k] == clean[i + k];
        }
        NoSpaceOneWord(m, false);
      }
    }
  }

  /** A name of several words inside the cleaned text is enough, whatever
      surrounds it. */
  lemma NameInsideKept(before: string, m: string, after: string, names: seq<string>)
    requires m in names && WordCount(m) > 1
    ensures NamesModIn(before + m + after, names)
  {
    assert OccursAt(before + m + after, m, |before|);
  }

  /** A word of ASCII letters is its own cleaned text up to case, and that
      holds no whitespace. */
  lemma PlainWordClean(w: string)
    requires w != [] && forall k :: 0 <= k < |w| ==> IsAsciiLetter(w[k])
    ensures Strip(w) == w && CleanText(w) == Lower(w)
    ensures forall k :: 0 <= k < |w| ==> !IsSpace(Lower(w)[k])
  {
    assert !IsSpace(w[0]) && !IsSpace(w[|w| - 1]);
    assert '§' !in w by {
      forall k | 0 <= k < |w| ensures w[k] != '§' {
        assert IsAsciiLetter(w[k]);
      }
    }
    assert StripCodes(w) == w;
    forall k | 0 <= k < |w| ensures !IsSpace(Lower(w)[k]) {
      assert IsAsciiLetter(LowerChar(w[k]));
    }
  }

  /** A word of ASCII letters with a lower-case letter among them matches
      none of the technical patterns. */
  lemma PlainWordNotTechnical(w: string, j: nat)
    requires w != [] && forall k :: 0 <= k < |w| ==> IsAsciiLetter(w[k])
    requires j < |w| && IsLowerLetter(w[j])
    ensures !IsTechnical(w)
  {
    assert '.' !in w && DigitRun(w) == 0;
    assert !IsConstantName(w) by { assert !('A' <= w[j] <= 'Z' || w[j] == '_'); }
    if |w| > 10 {
      assert w[..10][9] == w[9];
    }
  }

  /** An English word of at least three letters, not all capitals and not
      a listed mod name, is translated under any key that is no item
      group. */
  lemma PlainWordAccepted(w: string, j: nat, key: string)
    requires |w| >= 3 && forall k :: 0 <= k < |w| ==> IsAsciiLetter(w[k])
    requires j < |w| && IsLowerLetter(w[j])
    requires Lower(w) !in ModNames
    requires !Contains(Lower(key), "itemgroup")
    ensures ShouldTranslate(w, key)
  {
    PlainWordClean(w);
    SingleWordHoldsNoName(Lower(w), ModNames);
    PlainWordNotTechnical(w, j);
    PlainWordFlags(w);
  }

  /** The character tests of the filter on a word of ASCII letters. */
  lemma PlainWordFlags(w: string)
    requires w != [] && forall k :: 0 <= k < |w| ==> IsAsciiLetter(w[k])
    ensures !IsBlank(w) && !HasRussian(w) && !HasBlueCode(w) && !HasStyleCode(w) && HasAsciiLetter(w)
  {
    assert IsAsciiLetter(w[0]) && !IsSpace(w[0]);
  }

  /** Two runs of `[a-z_]` joined by a dot are a translation key, never
      translated. */
  lemma DottedKeyTechnical(a: string, b: string, key: string)
    requires a != [] && forall k :: 0 <= k < |a| ==> IsIdentChar(a[k])
    requires b != [] && forall k :: 0 <= k < |b| ==> IsIdentChar(b[k])
    ensures !ShouldTranslate(a + "." + b, key)
  {
    var s := a + "." + b;
    assert s[|a|] == '.' && !IsSpace(s[0]) && !IsSpace(s[|s| - 1]);
    assert IsDottedKey(s) by {
      forall i | 0 <= i < |s| - 1 ensures s[i] != '.' || s[i + 1] != '.' {
        if i < |a| - 1 { assert s[i] == a[i]; }
        else if i == |a| - 1 { assert s[i + 1] == '.' && s[i] == a[i]; }
        else if i == |a| { assert s[i + 1] == b[0]; }
        else { assert s[i] == b[i - |a| - 1]; }
      }
    }
  }

  /** `namespace:name` with a lower-case namespace is a registry id, never
      translated. */
  lemma RegistryIdTechnical(ns: string, name: string, key: string)
    requires ns != [] && forall k :: 0 <= k < |ns| ==> IsLowerLetter(ns[k])
    requires name != [] && forall k :: 0 <= k < |name| ==> IsIdentChar(name[k])
    ensures !ShouldTranslate(ns + ":" + name, key)
  {
    var s := ns + ":" + name;
    assert s[|ns|] == ':' && !IsSpace(s[0]) && !IsSpace(s[|s| - 1]);
    assert IsRegistryId(s) by {
      assert forall k :: 0 <= k < |ns| ==> IsLowerLetter(s[k]);
      assert forall k :: |ns| < k < |s| ==> s[k] == name[k - |ns| - 1];
    }
  }

  /** A colour code in front of a text does not hide it from the mod-name
      test: codes are stripped before the names are compared. */
  lemma ColourDoesNotHideName(c: char, t: string)
    requires IsColourCode(c)
    ensures CleanText(['§', c] + t) == CleanText(t)
    ensures NamesMod(['§', c] + t) <==> NamesMod(t)
  {
    var u := ['§', c] + t;
    assert u[2..] == t;
    assert StripCodes(u) == StripCodes(t);
    assert CleanText(u) == CleanText(t);
  }

  /** Whitespace in front of a text never changes the decision. */
  lemma PaddingIgnored(t: string, key: string)
    ensures ShouldTranslate(" " + t, key) <==> ShouldTranslate(t, key)
  {
    PaddingSameClean(t);
    PaddingSameFlags(t);
  }

  /** A leading space is stripped, before and after the codes go. */
  lemma PaddingSameClean(t: string)
    ensures Strip(" " + t) == Strip(t) && CleanText(" " + t) == CleanText(t)
  {
    StripSpaceFirst(t);
    StripCodesSpace(t);
    StripSpaceFirst(StripCodes(t));
  }

  /** A space is no code and passes through. */
  lemma StripCodesSpace(t: string)
    ensures StripCodes(" " + t) == " " + StripCodes(t)
  {
    var p := " " + t;
    assert p[0] == ' ' && p[1..] == t;
  }

  /** A leading space adds no Russian letter, no code and no ASCII letter,
      and a blank text stays blank. */
  lemma PaddingSameFlags(t: string)
    ensures HasRussian(" " + t) <==> HasRussian(t)
    ensures HasBlueCode(" " + t) <==> HasBlueCode(t)
    ensures HasStyleCode(" " + t) <==> HasStyleCode(t)
    ensures HasAsciiLetter(" " + t) <==> HasAsciiLetter(t)
    ensures IsBlank(" " + t) <==> IsBlank(t)
  {
    PaddingSameLetters(t);
    PaddingSameCodes(t);
    var p := " " + t;
    if IsBlank(t) {
      forall i | 0 <= i < |p| ensures IsSpace(p[i]) {
        if i > 0 { assert p[i] == t[i - 1]; }
      }
    }
    if IsBlank(p) {
      forall i | 0 <= i < |t| ensures IsSpace(t[i]) {
        assert t[i] == p[i + 1];
      }
    }
  }

  lemma PaddingSameLetters(t: string)
    ensures HasRussian(" " + t) <==> HasRussian(t)
    ensures HasAsciiLetter(" " + t) <==> HasAsciiLetter(t)
  {
    var p := " " + t;
    if HasRussian(p) { var i :| 0 <= i < |p| && IsRussianLetter(p[i]); assert t[i - 1] == p[i]; }
    if HasRussian(t) { var i :| 0 <= i < |t| && IsRussianLetter(t[i]); assert p[i + 1] == t[i]; }
    if HasAsciiLetter(p) { var i :| 0 <= i < |p| && IsAsciiLetter(p[i]); assert t[i - 1] == p[i]; }
    if HasAsciiLetter(t) { var i :| 0 <= i < |t| && IsAsciiLetter(t[i]); assert p[i + 1] == t[i]; }
  }

  lemma PaddingSameCodes(t: string)
    ensures HasBlueCode(" " + t) <==> HasBlueCode(t)
    ensures HasStyleCode(" " + t) <==> HasStyleCode(t)
  {
    var p := " " + t;
    if HasBlueCode(p) { var i :| 0 <= i < |p| - 1 && p[i] == '§' && IsBlueCode(p[i + 1]); assert t[i - 1] == p[i] && t[i] == p[i + 1]; }
    if HasBlueCode(t) { var i :| 0 <= i < |t| - 1 && t[i] == '§' && IsBlueCode(t[i + 1]); assert p[i + 1] == t[i] && p[i + 2] == t[i + 1]; }
    if HasStyleCode(p) { var i :| 0 <= i < |p| - 1 && p[i] == '§' && IsStyleCode(p[i + 1]); assert t[i - 1] == p[i] && t[i] == p[i + 1]; }
    if HasStyleCode(t) { var i :| 0 <= i < |t| - 1 && t[i] == '§' && IsStyleCode(t[i + 1]); assert p[i + 1] == t[i] && p[i + 2] == t[i + 1]; }
  }

  /** Any value under an item-group key stays as it is. */
  lemma ItemGroupKeyRejected(t: string, key: string)
    requires StartsWith(Lower(key), "itemgroup")
    ensures !ShouldTranslate(t, key)
  {
    assert OccursAt(Lower(key), "itemgroup", 0);
  }

  /** The `minecraft:` pattern is a special case of the registry-id pattern. */
  lemma MinecraftIdIsRegistryId(s: string)
    requires IsMinecraftId(s)
    ensures IsRegistryId(s)
  {
    assert s[..10][9] == ':';
    forall k | 0 <= k < 9 ensures IsLowerLetter(s[k]) {
      assert s[k] == s[..10][k];
    }
  }

  // ---------------------------------------------------------------------
  // detect_mod_context

  /** The archive-name fragments and the context each announces, in the
      order they are tried. */
  const ModContexts: seq<(string, string)> := [
    ("thermal", "thermal expansion mod (industrial machinery)"),
    ("mekanism", "mekanism mod (advanced technology)"),
    ("immersive", "immersive engineering mod (industrial)"),
    ("tinkers", "tinkers construct mod (tool crafting)"),
    ("botania", "botania mod (magical flowers)"),
    ("thaumcraft", "thaumcraft mod (magic research)"),
    ("applied", "applied energistics mod (digital storage)"),
    ("industrial", "industrial craft mod (technology)"),
    ("buildcraft", "buildcraft mod (automation)"),
    ("forestry", "forestry mod (bees and trees)"),
    ("railcraft", "railcraft mod (trains and rails)"),
    ("computercraft", "computercraft mod (computers)"),
    ("create", "create mod (mechanical contraptions)"),
    ("pneumatic", "pneumaticcraft mod (compressed air)"),
    ("blood", "blood magic mod (ritual magic)"),
    ("astral", "astral sorcery mod (star magic)"),
    ("extra", "extra utilities mod (useful blocks)"),
    ("ender", "ender io mod (conduits and machines)")
  ]

  const DefaultContext: string := "minecraft mod"

  /** The position of the first fragment, in list order, that occurs in
      `name`. */
  function FirstContext(contexts: seq<(string, string)>, name: string): (r: Option<nat>)
    ensures r.Some? ==> r.value < |contexts| && Contains(name, contexts[r.value].0)
    ensures r.Some? ==> forall j :: 0 <= j < r.value ==> !Contains(name, contexts[j].0)
    ensures r.None? <==> forall j :: 0 <= j < |contexts| ==> !Contains(name, contexts[j].0)
  {
    if contexts == [] then None
    else if Contains(name, contexts[0].0) then Some(0)
    else
      match FirstContext(contexts[1..], name)
      case None => None
      case Some(k) => Some(k + 1)
  }

  /** `detect_mod_context(jar_name)` */
  function DetectModContext(jarName: string): (r: string)
  {
    match FirstContext(ModContexts, Lower(jarName))
    case None => DefaultContext
    case Some(k) => ModContexts[k].1
  }

  /** The default context is answered exactly when no fragment occurs in
      the lower-cased name; otherwise the answer belongs to the first
      fragment in list order that does. */
  lemma DetectedContext(jarName: string)
    ensures var r := DetectModContext(jarName);
            r == DefaultContext <==> forall j :: 0 <= j < |ModContexts| ==> !Contains(Lower(jarName), ModContexts[j].0)
    ensures var r := DetectModContext(jarName);
            r != DefaultContext ==>
              exists k :: 0 <= k < |ModContexts| && r == ModContexts[k].1 && Contains(Lower(jarName), ModContexts[k].0) &&
                forall j :: 0 <= j < k ==> !Contains(Lower(jarName), ModContexts[j].0)
  {
    ContextsNotDefault();
  }

  lemma ContextsNotDefault()
    ensures forall k :: 0 <= k < |ModContexts| ==> ModContexts[k].1 != DefaultContext
  {
  }

  /** The list order decides, not the place in the name: an archive named
      after two mods gets the context of the one listed first. */
  lemma ListOrderDecides()
    ensures DetectModContext("EnderThermal.jar") == "thermal expansion mod (industrial machinery)"
  {
    assert OccursAt(Lower("EnderThermal.jar"), "thermal", 5);
  }

  // ---------------------------------------------------------------------
  // apply_terminology

  /** The dictionary of `config/minecraft_terms.json`: its two tables, each
      a list of English terms and their Russian forms in file order. */
  datatype Terms = Terms(minecraft: seq<(string, string)>, modSpecific: seq<(string, string)>)

  /** `\w`, on the alphabets the tool deals with. */
  predicate IsWordChar(c: char) {
    IsAsciiLetter(c) || IsDigit(c) || c == '_' || IsRussianLetter(c)
  }

  /** `\b` at position `p`: a word character on exactly one side. */
  predicate Boundary(s: string, p: nat)
    requires p <= |s|
  {
    (p > 0 && IsWordChar(s[p - 1])) != (p < |s| && IsWordChar(s[p]))
  }

  /** The case folding `re.IGNORECASE` compares characters by. */
  function Fold(c: char): char {
    if 'A' <= c <= 'Z' || 'А' <= c <= 'Я' then (c as int + 32) as char
    else if c == 'Ё' then 'ё'
    else c
  }

  predicate SameFolded(a: string, b: string) {
    |a| == |b| && forall i :: 0 <= i < |a| ==> Fold(a[i]) == Fold(b[i])
  }

  /** `\b<word>\b` matches at `i` under `re.IGNORECASE`. */
  predicate WordAt(s: string, word: string, i: nat) {
    i + |word| <= |s| && Boundary(s, i) && SameFolded(s[i..i + |word|], word) && Boundary(s, i + |word|)
  }

  /** `re.sub(r'\b' + re.escape(word) + r'\b', rep, s, flags=re.IGNORECASE)`
      from position `i` on: each match is replaced and the scan resumes
      after it. An empty word matches at every word boundary, where `rep`
      is inserted. */
  function SubFrom(s: string, word: string, rep: string, i: nat): string
    requires i <= |s|
    decreases |s| - i
  {
    if |word| > 0 && WordAt(s, word, i) then rep + SubFrom(s, word, rep, i + |word|)
    else
      (if |word| == 0 && Boundary(s, i) then rep else "") +
      (if i == |s| then "" else [s[i]] + SubFrom(s, word, rep, i + 1))
  }

  function ReplaceWord(s: string, word: string, rep: string): string {
    SubFrom(s, word, rep, 0)
  }

  /** Where the word occurs nowhere as a whole word, the text stays. */
  lemma {:induction false} SubFromAbsent(s: string, word: string, rep: string, i: nat)
    requires i <= |s| && |word| > 0
    requires forall j :: i <= j <= |s| ==> !WordAt(s, word, j)
    ensures SubFrom(s, word, rep, i) == s[i..]
    decreases |s| - i
  {
    if i < |s| {
      SubFromAbsent(s, word, rep, i + 1);
      assert s[i..] == [s[i]] + s[i + 1..];
    }
  }

  lemma ReplaceWordAbsent(s: string, word: string, rep: string)
    requires |word| > 0 && forall j :: 0 <= j <= |s| ==> !WordAt(s, word, j)
    ensures ReplaceWord(s, word, rep) == s
  {
    SubFromAbsent(s, word, rep, 0);
  }

  /** A character in neither the text nor the replacement is not in the
      result. */
  lemma {:induction false} SubFromAvoids(s: string, word: string, rep: string, i: nat, c: char)
    requires i <= |s| && c !in s && c !in rep
    ensures c !in SubFrom(s, word, rep, i)
    decreases |s| - i
  {
    var matched := |word| > 0 && WordAt(s, word, i);
    if matched {
      SubFromAvoids(s, word, rep, i + |word|, c);
      assert SubFrom(s, word, rep, i) == rep + SubFrom(s, word, rep, i + |word|);
    } else {
      var inserted := if |word| == 0 && Boundary(s, i) then rep else "";
      assert c !in inserted;
      if i < |s| {
        SubFromAvoids(s, word, rep, i + 1, c);
        assert s[i] != c;
        assert SubFrom(s, word, rep, i) == inserted + ([s[i]] + SubFrom(s, word, rep, i + 1));
      } else {
        assert SubFrom(s, word, rep, i) == inserted;
      }
    }
  }

  /** Whole words only: a term inside a longer word is left alone. */
  lemma InsideWordKept()
    ensures ReplaceWord("Ironwood", "iron", "железо") == "Ironwood"
  {
    var s := "Ironwood";
    forall j | 0 <= j <= |s| ensures !WordAt(s, "iron", j) {
      if 0 < j < |s| {
        assert IsWordChar(s[j - 1]) && IsWordChar(s[j]);
      } else if j == 0 {
        assert !Boundary(s, 4) by { assert IsWordChar(s[3]) && IsWordChar(s[4]); }
      }
    }
    ReplaceWordAbsent(s, "iron", "железо");
  }

  /** Case is ignored: a capitalised term is replaced too. */
  lemma CapitalisedReplaced()
    ensures ReplaceWord("IRON ingot", "iron", "железо") == "железо ingot"
  {
    var s := "IRON ingot";
    IronAtStart(s);
    IronNowhereAfter(s);
    SubFromAbsent(s, "iron", "железо", 4);
    var tail := SubFrom(s, "iron", "железо", 4);
    assert tail == " ingot";
    assert SubFrom(s, "iron", "железо", 0) == "железо" + tail;
    IronIngotLiteral();
  }

  lemma IronIngotLiteral()
    ensures "железо" + " ingot" == "железо ingot"
  {
  }

  lemma IronAtStart(s: string)
    requires s == "IRON ingot"
    ensures WordAt(s, "iron", 0)
  {
    var w := "iron";
    assert s[0..4] == "IRON";
    assert forall i :: 0 <= i < 4 ==> Fold(s[i]) == Fold(w[i]);
    assert !IsWordChar(s[4]) && IsWordChar(s[0]);
  }

  lemma IronNowhereAfter(s: string)
    requires s == "IRON ingot"
    ensures forall j :: 4 <= j <= |s| ==> !WordAt(s, "iron", j)
  {
    forall j | 4 <= j <= |s| ensures !WordAt(s, "iron", j) {
      if j == 5 {
        assert s[6] != 'r' && Fold(s[6]) != Fold('r');
      } else if 5 < j < |s| {
        assert IsWordChar(s[j - 1]) && IsWordChar(s[j]);
      }
    }
  }

  /** `for en_term, ru_term in terms.items(): result = re.sub(...)`, as a
      value: the terms applied one after another. */
  function ApplyTerms(s: string, terms: seq<(string, string)>): string
    decreases |terms|
  {
    if terms == [] then s
    else
      var last := terms[|terms| - 1];
      ReplaceWord(ApplyTerms(s, terms[..|terms| - 1]), last.0, last.1)
  }

  /** The game's terms first, then the mod-specific ones. */
  function Terminology(s: string, terms: Terms): string {
    ApplyTerms(ApplyTerms(s, terms.minecraft), terms.modSpecific)
  }

  /** `apply_terminology(text)` */
  method ApplyTerminology(terms: Terms, text: string) returns (result: string)
    ensures result == Terminology(text, terms)
  {
    result := text;
    var mc := terms.minecraft;
    for k := 0 to |mc|
      invariant result == ApplyTerms(text, mc[..k])
    {
      assert mc[..k + 1][..k] == mc[..k];
      result := ReplaceWord(result, mc[k].0, mc[k].1);
    }
    assert mc[..|mc|] == mc;
    var after := result;
    var mod := terms.modSpecific;
    for k := 0 to |mod|
      invariant result == ApplyTerms(after, mod[..k])
    {
      assert mod[..k + 1][..k] == mod[..k];
      result := ReplaceWord(result, mod[k].0, mod[k].1);
    }
    assert mod[..|mod|] == mod;
  }

  /** None of the terms occurs as a whole word in `s`. */
  predicate NoneOccur(s: string, terms: seq<(string, string)>) {
    forall k :: 0 <= k < |terms| ==> |terms[k].0| > 0 && forall j :: 0 <= j <= |s| ==> !WordAt(s, terms[k].0, j)
  }

  /** Terms that do not occur leave the text as it is; in particular empty
      tables do. */
  lemma {:induction false} ApplyTermsAbsent(s: string, terms: seq<(string, string)>)
    requires NoneOccur(s, terms)
    ensures ApplyTerms(s, terms) == s
    decreases |terms|
  {
    if terms != [] {
      var n := |terms| - 1;
      ApplyTermsAbsent(s, terms[..n]);
      ReplaceWordAbsent(s, terms[n].0, terms[n].1);
    }
  }

  lemma TerminologyAbsent(s: string, terms: Terms)
    requires NoneOccur(s, terms.minecraft) && NoneOccur(s, terms.modSpecific)
    ensures Terminology(s, terms) == s
  {
    ApplyTermsAbsent(s, terms.minecraft);
    ApplyTermsAbsent(s, terms.modSpecific);
  }

  /** No replacement value holds `c`. */
  predicate RepsAvoid(terms: seq<(string, string)>, c: char) {
    forall k :: 0 <= k < |terms| ==> c !in terms[k].1
  }

  lemma {:induction false} ApplyTermsAvoids(s: string, terms: seq<(string, string)>, c: char)
    requires c !in s && RepsAvoid(terms, c)
    ensures c !in ApplyTerms(s, terms)
    decreases |terms|
  {
    if terms != [] {
      var n := |terms| - 1;
      ApplyTermsAvoids(s, terms[..n], c);
      SubFromAvoids(ApplyTerms(s, terms[..n]), terms[n].0, terms[n].1, 0, c);
    }
  }

  /** The dictionary brings in no character that its Russian forms lack. */
  lemma TerminologyAvoids(s: string, terms: Terms, c: char)
    requires c !in s && RepsAvoid(terms.minecraft, c) && RepsAvoid(terms.modSpecific, c)
    ensures c !in Terminology(s, terms)
  {
    ApplyTermsAvoids(s, terms.minecraft, c);
    ApplyTermsAvoids(ApplyTerms(s, terms.minecraft), terms.modSpecific, c);
  }

  // ---------------------------------------------------------------------
  // translate_with_context

  /** `f"[{mod_context}] {text}"` */
  function Prefixed(context: string, text: string): string {
    "[" + context + "] " + text
  }

  /** The context prefix removed from an answer: when it starts with `[`
      and holds a `]`, everything through the first `]` goes and the rest
      is stripped; otherwise the answer is kept. */
  function StripContext(t: string): (r: string)
    ensures |r| <= |t|
  {
    if |t| > 0 && t[0] == '[' then
      match Find(t, "]")
      case None => t
      case Some(e) => Strip(t[e + 1..])
    else t
  }

  /** The first `]` of a prefixed text is the one that closes the prefix. */
  lemma FindClosingBracket(context: string, text: string)
    requires ']' !in context
    ensures Find(Prefixed(context, text), "]") == Some(|context| + 1)
  {
    var p := Prefixed(context, text);
    var e := |context| + 1;
    assert OccursAt(p, "]", e) by { assert p[e] == ']'; }
    FindIsLeftmost(p, "]");
    forall j | 0 <= j < e ensures !OccursAt(p, "]", j) {
      assert p[j..j + 1][0] == p[j];
      if j > 0 { assert p[j] == context[j - 1]; }
    }
  }

  /** Stripping undoes the prefix when the service hands it back as sent. */
  lemma ContextRoundTrip(context: string, text: string)
    requires ']' !in context
    ensures StripContext(Prefixed(context, text)) == Strip(text)
  {
    var p := Prefixed(context, text);
    FindClosingBracket(context, text);
    assert p[|context| + 2..] == " " + text;
    StripSpaceFirst(text);
  }

  /** `translate_with_context(text, mod_context)`: untouched when it is not
      worth translating or the service raises; otherwise the answer without
      its prefix, with the dictionary applied and its quotes doubled. */
  function WithContext(translator: Provider, terms: Terms, text: string, context: string): string {
    if !ShouldTranslate(text, "") then text else Answered(translator, terms, text, context)
  }

  /** The request with the context prefix, for a text worth translating:
      the text itself when the service raises, otherwise the answer without
      the echoed prefix, with the dictionary applied and `"` doubled into
      `''`. */
  function Answered(translator: Provider, terms: Terms, text: string, context: string): string {
    match translator(Prefixed(context, text), "ru")
    case Failed(_) => text
    case Translated(u) => SimpleJar.Clean(Terminology(StripContext(u), terms))
  }

  method TranslateWithContext(translator: Provider, terms: Terms, text: string, context: string) returns (r: string)
    ensures r == WithContext(translator, terms, text, context)
  {
    if !ShouldTranslate(text, "") {
      return text;
    }
    r := Request(translator, terms, text, context);
  }

  /** The part of `translate_with_context` after the filter. */
  method Request(translator: Provider, terms: Terms, text: string, context: string) returns (r: string)
    ensures r == Answered(translator, terms, text, context)
  {
    var reply := translator(Prefixed(context, text), "ru");
    if reply.Failed? {
      return text;
    }
    var translated := StripContext(reply.text);
    translated := ApplyTerminology(terms, translated);
    r := SimpleJar.Clean(translated);
  }

  /** The text comes back unchanged when it is not worth translating or
      the service raises; every text the service translated comes back
      without a `"`, so a changed text holds none. */
  lemma WithContextOutcome(translator: Provider, terms: Terms, text: string, context: string)
    ensures var r := WithContext(translator, terms, text, context);
            (!ShouldTranslate(text, "") || translator(Prefixed(context, text), "ru").Failed?) ==> r == text
    ensures var r := WithContext(translator, terms, text, context);
            ShouldTranslate(text, "") && translator(Prefixed(context, text), "ru").Translated? ==> '"' !in r
    ensures var r := WithContext(translator, terms, text, context);
            r != text ==> '"' !in r
  {
  }

  // ---------------------------------------------------------------------
  // translate_batch_enhanced

  /** The separator of the joined request. */
  const BatchSep: string := " |SEP| "

  /** `should_translate(text)` with no key. */
  predicate Translatable(t: string) {
    ShouldTranslate(t, "")
  }

  function WithContextAll(translator: Provider, terms: Terms, ts: seq<string>, context: string): seq<string>
  {
    seq(|ts|, k requires 0 <= k < |ts| => WithContext(translator, terms, ts[k], context))
  }

  /** `apply_terminology(translated.replace('"', "''"))` */
  function Finish(terms: Terms, t: string): string {
    Terminology(SimpleJar.Clean(t), terms)
  }

  function FinishAll(terms: Terms, ts: seq<string>): seq<string>
  {
    seq(|ts|, k requires 0 <= k < |ts| => Finish(terms, ts[k]))
  }

  /** What the strings worth translating turn into, in order: the split
      answer to the joined request (or the one-by-one translations when
      the count differs) finished with the dictionary; or, when the joined
      request raises, the one-by-one translations as they are. */
  function BatchParts(translator: Provider, terms: Terms, ts: seq<string>, context: string): (r: seq<string>)
    ensures |r| == |ts|
  {
    match translator(Prefixed(context, Join(ts, BatchSep)), "ru")
    case Failed(_) => WithContextAll(translator, terms, ts, context)
    case Translated(u) =>
      var parts := Split(StripContext(u), BatchSep);
      FinishAll(terms, if |parts| == |ts| then parts else WithContextAll(translator, terms, ts, context))
  }

  /** The list `translate_batch_enhanced` returns. */
  function EnhancedBatch(translator: Provider, terms: Terms, texts: seq<string>, context: string): (r: seq<string>)
    ensures |r| == |texts|
  {
    var sel := Where(texts, Translatable);
    var ts := Picked(texts, sel);
    if ts == [] then texts else Scatter(texts, sel, BatchParts(translator, terms, ts, context))
  }

  /** The list after the first loop: each text that `keep` accepts is a
      `None` placeholder, every other text is kept. */
  function Placeholders(texts: seq<string>, keep: string -> bool): (r: seq<Option<string>>)
    ensures |r| == |texts|
  {
    seq(|texts|, i requires 0 <= i < |texts| => if keep(texts[i]) then None else Some(texts[i]))
  }

  lemma PlaceholdersSnoc(texts: seq<string>, i: nat, keep: string -> bool)
    requires i < |texts|
    ensures Placeholders(texts[..i + 1], keep) ==
            Placeholders(texts[..i], keep) + [if keep(texts[i]) then None else Some(texts[i])]
  {
  }

  /** The filtering loop, for the filter `keep`. */
  method Select(texts: seq<string>, keep: string -> bool)
    returns (results: seq<Option<string>>, toTranslate: seq<string>, indices: seq<nat>)
    ensures indices == Where(texts, keep) && toTranslate == Picked(texts, indices)
    ensures results == Placeholders(texts, keep)
  {
    results, toTranslate, indices := [], [], [];
    for i := 0 to |texts|
      invariant indices == Where(texts[..i], keep)
      invariant Below(indices, |texts|) && toTranslate == Picked(texts, indices)
      invariant results == Placeholders(texts[..i], keep)
    {
      WhereSnoc(texts, i, keep);
      PlaceholdersSnoc(texts, i, keep);
      if keep(texts[i]) {
        PickedSnoc(texts, indices, i);
        toTranslate := toTranslate + [texts[i]];
        indices := indices + [i];
        results := results + [None];
      } else {
        results := results + [Some(texts[i])];
      }
    }
    assert texts[..|texts|] == texts;
  }

  function Somes(ts: seq<string>): seq<Option<string>>
  {
    seq(|ts|, k requires 0 <= k < |ts| => Some(ts[k]))
  }

  /** The loop of one-by-one translations, run when the joined answer
      does not split into one part per text. */
  method TranslateEach(translator: Provider, terms: Terms, ts: seq<string>, context: string) returns (parts: seq<string>)
    ensures parts == WithContextAll(translator, terms, ts, context)
  {
    parts := [];
    for j := 0 to |ts|
      invariant parts == WithContextAll(translator, terms, ts[..j], context)
    {
      var one := TranslateWithContext(translator, terms, ts[j], context);
      WithContextAllSnoc(translator, terms, ts, context, j);
      parts := parts + [one];
    }
    assert ts[..|ts|] == ts;
  }

  lemma WithContextAllSnoc(translator: Provider, terms: Terms, ts: seq<string>, context: string, j: nat)
    requires j < |ts|
    ensures WithContextAll(translator, terms, ts[..j + 1], context)
            == WithContextAll(translator, terms, ts[..j], context) + [WithContext(translator, terms, ts[j], context)]
  {
  }

  /** The writing loop after a joined answer: each part, with its quotes
      doubled and the dictionary applied, goes to the position of its
      text while `i` is in range. */
  method PlaceFinished(results: seq<Option<string>>, indices: seq<nat>, parts: seq<string>, terms: Terms)
    returns (out: seq<Option<string>>)
    requires Below(indices, |results|) && |parts| == |indices|
    ensures out == Scatter(results, indices, Somes(FinishAll(terms, parts)))
  {
    out := results;
    var vals := Somes(FinishAll(terms, parts));
    for i := 0 to |parts|
      invariant out == Scatter(results, indices[..i], vals[..i])
    {
      if i < |indices| {
        var cleaned := ApplyTerminology(terms, SimpleJar.Clean(parts[i]));
        assert indices[..i + 1] == indices[..i] + [indices[i]] && vals[..i + 1] == vals[..i] + [vals[i]];
        ScatterSnoc(results, indices[..i], vals[..i], indices[i], vals[i]);
        out := out[indices[i] := Some(cleaned)];
      }
    }
    assert indices[..|parts|] == indices && vals[..|parts|] == vals;
  }

  /** The writing loop after the joined request raised: each text is
      translated on its own and written at its position while `i` is in
      range. */
  method PlaceEach(results: seq<Option<string>>, indices: seq<nat>, ts: seq<string>,
                   translator: Provider, terms: Terms, context: string)
    returns (out: seq<Option<string>>)
    requires Below(indices, |results|) && |ts| == |indices|
    ensures out == Scatter(results, indices, Somes(WithContextAll(translator, terms, ts, context)))
  {
    out := results;
    var vals := Somes(WithContextAll(translator, terms, ts, context));
    for i := 0 to |ts|
      invariant out == Scatter(results, indices[..i], vals[..i])
    {
      if i < |indices| {
        var one := TranslateWithContext(translator, terms, ts[i], context);
        assert indices[..i + 1] == indices[..i] + [indices[i]] && vals[..i + 1] == vals[..i] + [vals[i]];
        ScatterSnoc(results, indices[..i], vals[..i], indices[i], vals[i]);
        out := out[indices[i] := Some(one)];
      }
    }
    assert indices[..|ts|] == indices && vals[..|ts|] == vals;
  }

  /** Every placeholder is written, so the list holds the function's
      result at every position. */
  lemma PlacedAll(texts: seq<string>, keep: string -> bool, sel: seq<nat>, parts: seq<string>)
    requires sel == Where(texts, keep) && |parts| == |sel|
    ensures Scatter(Placeholders(texts, keep), sel, Somes(parts)) == Somes(Scatter(texts, sel, parts))
  {
  }

  /** `translate_batch_enhanced(texts, mod_context)` */
  method TranslateBatchEnhanced(translator: Provider, terms: Terms, texts: seq<string>, context: string)
    returns (results: seq<Option<string>>)
    ensures results == Somes(EnhancedBatch(translator, terms, texts, context))
  {
    var toTranslate, indices;
    results, toTranslate, indices := Select(texts, Translatable);
    if toTranslate == [] {
      return;
    }
    var reply := translator(Prefixed(context, Join(toTranslate, BatchSep)), "ru");
    if reply.Translated? {
      var parts := Split(StripContext(reply.text), BatchSep);
      if |parts| != |toTranslate| {
        parts := TranslateEach(translator, terms, toTranslate, context);
      }
      results := PlaceFinished(results, indices, parts, terms);
    } else {
      results := PlaceEach(results, indices, toTranslate, translator, terms, context);
    }
    PlacedAll(texts, Translatable, indices, BatchParts(translator, terms, toTranslate, context));
  }

  /** Texts not worth translating keep their place and their value. */
  lemma BatchKeepsUntranslatable(translator: Provider, terms: Terms, texts: seq<string>, context: string, i: nat)
    requires i < |texts| && !Translatable(texts[i])
    ensures EnhancedBatch(translator, terms, texts, context)[i] == texts[i]
  {
    var sel := Where(texts, Translatable);
    var ts := Picked(texts, sel);
    if ts != [] {
      ScatterElsewhere(texts, sel, BatchParts(translator, terms, ts, context), i);
    }
  }

  /** The service raises on every single request of the batch. */
  predicate EachFails(translator: Provider, ts: seq<string>, context: string) {
    forall k :: 0 <= k < |ts| ==> translator(Prefixed(context, ts[k]), "ru").Failed?
  }

  /** Each text given to a service that raises comes back as it was. */
  lemma WithContextAllFailing(translator: Provider, terms: Terms, ts: seq<string>, context: string)
    requires EachFails(translator, ts, context)
    ensures WithContextAll(translator, terms, ts, context) == ts
  {
  }

  /** When the joined request and every single request raise, the texts
      come back as they were. */
  lemma BatchPartsFailing(translator: Provider, terms: Terms, ts: seq<string>, context: string)
    requires translator(Prefixed(context, Join(ts, BatchSep)), "ru").Failed?
    requires EachFails(translator, ts, context)
    ensures BatchParts(translator, terms, ts, context) == ts
  {
    JoinedRequestFailing(translator, terms, ts, context);
    WithContextAllFailing(translator, terms, ts, context);
  }

  /** When the joined request raises, the parts are the one-by-one
      translations. */
  lemma JoinedRequestFailing(translator: Provider, terms: Terms, ts: seq<string>, context: string)
    requires translator(Prefixed(context, Join(ts, BatchSep)), "ru").Failed?
    ensures BatchParts(translator, terms, ts, context) == WithContextAll(translator, terms, ts, context)
  {
  }

  /** Writing back the values read from the written positions changes
      nothing. */
  lemma ScatterPickedSelf<T>(xs: seq<T>, sel: seq<nat>)
    requires Below(sel, |xs|)
    ensures Scatter(xs, sel, Picked(xs, sel)) == xs
  {
    var r := Scatter(xs, sel, Picked(xs, sel));
    forall p | 0 <= p < |xs| ensures r[p] == xs[p] {
      var j := LastIndex(sel, p);
    }
  }

  /** A service that always raises leaves the whole list as it was. */
  lemma BatchAllFailing(translator: Provider, terms: Terms, texts: seq<string>, context: string)
    requires forall q, l :: translator(q, l).Failed?
    ensures EnhancedBatch(translator, terms, texts, context) == texts
  {
    var sel := Where(texts, Translatable);
    var ts := Picked(texts, sel);
    if ts != [] {
      PartsAllFailing(translator, terms, ts, context);
      ScatterPickedSelf(texts, sel);
    }
  }

  /** A service that always raises fails the joined request and every
      single one, so the parts are the texts themselves. */
  lemma PartsAllFailing(translator: Provider, terms: Terms, ts: seq<string>, context: string)
    requires forall q, l :: translator(q, l).Failed?
    ensures BatchParts(translator, terms, ts, context) == ts
  {
    assert translator(Prefixed(context, Join(ts, BatchSep)), "ru").Failed?;
    assert EachFails(translator, ts, context);
    BatchPartsFailing(translator, terms, ts, context);
  }

  /** When the joined answer splits back into one part per text and no
      Russian form of the dictionary holds a `"`, no translated text holds
      one. */
  lemma BatchAnsweredUnquoted(translator: Provider, terms: Terms, texts: seq<string>, context: string, i: nat)
    requires i < |texts| && Translatable(texts[i])
    requires RepsAvoid(terms.minecraft, '"') && RepsAvoid(terms.modSpecific, '"')
    requires var ts := Picked(texts, Where(texts, Translatable));
             var reply := translator(Prefixed(context, Join(ts, BatchSep)), "ru");
             reply.Translated? && |Split(StripContext(reply.text), BatchSep)| == |ts|
    ensures '"' !in EnhancedBatch(translator, terms, texts, context)[i]
  {
    var sel := Where(texts, Translatable);
    var ts := Picked(texts, sel);
    var k :| 0 <= k < |sel| && sel[k] == i;
    var parts := BatchParts(translator, terms, ts, context);
    ScatterAt(texts, sel, parts, k);
    var reply := translator(Prefixed(context, Join(ts, BatchSep)), "ru");
    var split := Split(StripContext(reply.text), BatchSep);
    assert parts[k] == Finish(terms, split[k]);
    TerminologyAvoids(SimpleJar.Clean(split[k]), terms, '"');
  }
}
