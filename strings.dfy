/** The parts of Python's `str` that the tool relies on: membership of a
    substring, `startswith`/`endswith`, `strip`, `split`, `join`,
    `replace`, `lower`/`upper`, `isdigit` and the word count of `split()`.
    Whitespace is Python's own `str.isspace` set; case mapping and digits
    are ASCII only. */
module Strings {
  import opened Base

  /** The characters `str.isspace` accepts (those `strip()` removes and
      `split()` splits on). */
  predicate IsSpace(c: char) {
    || ('\t' <= c <= '\r')
    || ('\U{1C}' <= c <= ' ')
    || c == '\U{85}' || c == '\U{A0}' || c == '\U{1680}'
    || ('\U{2000}' <= c <= '\U{200A}')
    || c == '\U{2028}' || c == '\U{2029}' || c == '\U{202F}'
    || c == '\U{205F}' || c == '\U{3000}'
  }

  /** True when every character is whitespace (so also for ""): `not s.strip()`. */
  predicate IsBlank(s: string) {
    forall i :: 0 <= i < |s| ==> IsSpace(s[i])
  }

  function StripLeft(s: string): (r: string)
    ensures |r| <= |s| && r == s[|s| - |r|..]
    ensures r != [] ==> !IsSpace(r[0])
    ensures forall i :: 0 <= i < |s| - |r| ==> IsSpace(s[i])
  {
    if |s| > 0 && IsSpace(s[0]) then StripLeft(s[1..]) else s
  }

  function StripRight(s: string): (r: string)
    ensures |r| <= |s| && r == s[..|r|]
    ensures r != [] ==> !IsSpace(r[|r| - 1])
    ensures forall i :: |r| <= i < |s| ==> IsSpace(s[i])
  {
    if |s| > 0 && IsSpace(s[|s| - 1]) then StripRight(s[..|s| - 1]) else s
  }

  /** `s.strip()`: the input without leading or trailing whitespace. */
  function Strip(s: string): (r: string)
    ensures |r| <= |s|
    ensures r != [] ==> !IsSpace(r[0]) && !IsSpace(r[|r| - 1])
  {
    StripRight(StripLeft(s))
  }

  lemma StripEmptyIffBlank(s: string)
    ensures Strip(s) == [] <==> IsBlank(s)
  {
    var l := StripLeft(s);
    if l != [] {
      assert !IsSpace(s[|s| - |l|]);
      assert StripRight(l) != [] by { assert l[0] == s[|s| - |l|]; }
    }
  }

  /** Leading whitespace does not survive `Strip`. */
  lemma StripSpaceFirst(text: string)
    ensures Strip(" " + text) == Strip(text)
  {
    var s := " " + text;
    assert s[0] == ' ' && s[1..] == text;
    assert StripLeft(s) == StripLeft(text);
  }

  /** The substring `sub` occurs in `s` starting at index `i`. */
  predicate OccursAt(s: string, sub: string, i: int) {
    0 <= i && i + |sub| <= |s| && s[i..i + |sub|] == sub
  }

  /** Python's `sub in s`. */
  predicate Contains(s: string, sub: string) {
    exists i :: 0 <= i <= |s| - |sub| && OccursAt(s, sub, i)
  }

  /** `s.startswith(p)`. */
  predicate StartsWith(s: string, p: string) {
    |p| <= |s| && s[..|p|] == p
  }

  /** `s.endswith(p)`. */
  predicate EndsWith(s: string, p: string) {
    |p| <= |s| && s[|s| - |p|..] == p
  }

  lemma OccursShift(s: string, sub: string, k: int)
    requires |s| > 0 && k >= 0
    ensures OccursAt(s[1..], sub, k) <==> OccursAt(s, sub, k + 1)
  {
    if 0 <= k && k + 1 + |sub| <= |s| {
      assert s[1..][k..k + |sub|] == s[k + 1..k + 1 + |sub|];
    }
  }

  /** `sub` occurs at `i` and nowhere to the left of `i`. */
  predicate FirstAt(s: string, sub: string, i: nat) {
    OccursAt(s, sub, i) && forall j :: 0 <= j < i ==> !OccursAt(s, sub, j)
  }

  /** `s.find(sub)`: the leftmost index where `sub` occurs (see
      `FindIsLeftmost`). */
  function Find(s: string, sub: string): (r: Option<nat>)
    ensures r.Some? ==> r.value + |sub| <= |s|
  {
    if |s| < |sub| then None
    else if s[..|sub|] == sub then Some(0)
    else
      match Find(s[1..], sub)
      case None => None
      case Some(k) => Some(k + 1)
  }

  /** `Find` answers the leftmost occurrence, and `None` exactly when
      there is none. */
  lemma {:induction false} FindIsLeftmost(s: string, sub: string)
    ensures Find(s, sub).Some? ==> FirstAt(s, sub, Find(s, sub).value)
    ensures Find(s, sub).None? <==> !Contains(s, sub)
  {
    if |s| < |sub| {
    } else if s[..|sub|] == sub {
      assert OccursAt(s, sub, 0);
    } else {
      FindIsLeftmost(s[1..], sub);
      match Find(s[1..], sub)
      case None =>
        forall j | 0 <= j <= |s| - |sub| ensures !OccursAt(s, sub, j) {
          if j > 0 { OccursShift(s, sub, j - 1); }
        }
      case Some(k) =>
        OccursShift(s, sub, k);
        forall j | 0 <= j < k + 1 ensures !OccursAt(s, sub, j) {
          if j > 0 { OccursShift(s, sub, j - 1); }
        }
    }
  }

  /** `s.split(sep)` for a non-empty separator: the pieces between the
      leftmost non-overlapping occurrences of `sep`. */
  function Split(s: string, sep: string): (parts: seq<string>)
    requires |sep| > 0
    ensures |parts| >= 1
    decreases |s|, 1
  {
    SplitOn(s, sep, Find(s, sep))
  }

  /** `Split` once the first occurrence `f` is known. */
  function SplitOn(s: string, sep: string, f: Option<nat>): (parts: seq<string>)
    requires |sep| > 0 && (f.Some? ==> f.value + |sep| <= |s|)
    ensures |parts| >= 1
    decreases |s|, 0
  {
    match f
    case None => [s]
    case Some(i) => [s[..i]] + Split(s[i + |sep|..], sep)
  }

  /** `sep.join(parts)`. */
  function Join(parts: seq<string>, sep: string): string
  {
    if |parts| == 0 then ""
    else if |parts| == 1 then parts[0]
    else parts[0] + sep + Join(parts[1..], sep)
  }

  lemma JoinCons(x: string, tail: seq<string>, sep: string)
    requires |tail| >= 1
    ensures Join([x] + tail, sep) == x + sep + Join(tail, sep)
  {
    assert ([x] + tail)[1..] == tail;
  }

  lemma AroundOccurrence(s: string, sub: string, i: int)
    requires OccursAt(s, sub, i)
    ensures s == s[..i] + sub + s[i + |sub|..]
  {
    assert s == s[..i] + s[i..i + |sub|] + s[i + |sub|..];
  }

  lemma SplitAt(s: string, sep: string, i: nat)
    requires |sep| > 0 && Find(s, sep) == Some(i)
    ensures i + |sep| <= |s|
    ensures Split(s, sep) == [s[..i]] + Split(s[i + |sep|..], sep)
  {
    assert Split(s, sep) == SplitOn(s, sep, Some(i));
  }

  /** Splitting and joining with the same separator gives the text back. */
  lemma {:induction false} JoinSplit(s: string, sep: string)
    requires |sep| > 0
    ensures Join(Split(s, sep), sep) == s
    decreases |s|
  {
    var f := Find(s, sep);
    if f.Some? {
      var i := f.value;
      SplitAt(s, sep, i);
      FindIsLeftmost(s, sep);
      var rest := s[i + |sep|..];
      JoinSplit(rest, sep);
      JoinCons(s[..i], Split(rest, sep), sep);
      AroundOccurrence(s, sep, i);
    }
  }

  lemma PrefixBeforeFirstFree(s: string, sub: string, i: nat)
    requires |sub| > 0 && FirstAt(s, sub, i)
    ensures !Contains(s[..i], sub)
  {
    if Contains(s[..i], sub) {
      var j :| 0 <= j <= i - |sub| && OccursAt(s[..i], sub, j);
      assert s[..i][j..j + |sub|] == s[j..j + |sub|];
      assert OccursAt(s, sub, j);
      assert false;
    }
  }

  /** No piece produced by `Split` contains the separator. */
  lemma {:induction false} SplitPiecesFree(s: string, sep: string, k: int)
    requires |sep| > 0 && 0 <= k < |Split(s, sep)|
    ensures !Contains(Split(s, sep)[k], sep)
    decreases |s|
  {
    var f := Find(s, sep);
    if f.Some? {
      var i := f.value;
      SplitAt(s, sep, i);
      if k == 0 {
        FindIsLeftmost(s, sep);
        PrefixBeforeFirstFree(s, sep, i);
      } else {
        SplitPiecesFree(s[i + |sep|..], sep, k - 1);
      }
    } else {
      FindIsLeftmost(s, sep);
    }
  }

  /** Joining keeps every character of the parts and the separator, and
      adds no other. */
  lemma {:induction false} JoinAvoids(parts: seq<string>, sep: string, c: char)
    requires c !in sep && forall k :: 0 <= k < |parts| ==> c !in parts[k]
    ensures c !in Join(parts, sep)
  {
    if |parts| > 1 {
      JoinAvoids(parts[1..], sep, c);
    }
  }

  /** The length of a join depends only on the length of the separator. */
  lemma {:induction false} JoinLength(parts: seq<string>, a: string, b: string)
    requires |a| == |b|
    ensures |Join(parts, a)| == |Join(parts, b)|
  {
    if |parts| > 1 {
      JoinLength(parts[1..], a, b);
    }
  }

  /** A character occurs as a one-character substring exactly when it is
      in the text. */
  lemma ContainsChar(s: string, c: char)
    ensures Contains(s, [c]) <==> c in s
  {
    forall j | 0 <= j <= |s| - 1 ensures OccursAt(s, [c], j) <==> s[j] == c {
      assert s[j..j + 1][0] == s[j];
      assert s[j] == c ==> s[j..j + 1] == [c];
    }
  }

  /** The first occurrence of a character is right after a prefix that
      does not hold it. */
  lemma FindCharAfter(x: string, c: char, rest: string)
    requires c !in x
    ensures Find(x + [c] + rest, [c]) == Some(|x|)
  {
    var s := x + [c] + rest;
    assert OccursAt(s, [c], |x|) by { assert s[|x|..|x| + 1] == [c]; }
    forall j | 0 <= j < |x| ensures !OccursAt(s, [c], j) {
      assert s[j..j + 1][0] == s[j] == x[j];
    }
    FindIsLeftmost(s, [c]);
  }

  /** Joining pieces free of a one-character separator and splitting on it
      gives the pieces back. */
  lemma {:induction false} SplitJoinChar(parts: seq<string>, c: char)
    requires |parts| >= 1 && forall k :: 0 <= k < |parts| ==> c !in parts[k]
    ensures Split(Join(parts, [c]), [c]) == parts
    decreases |parts|
  {
    if |parts| == 1 {
      FindIsLeftmost(parts[0], [c]);
      ContainsChar(parts[0], c);
    } else {
      var x, tail := parts[0], parts[1..];
      assert parts == [x] + tail;
      JoinCons(x, tail, [c]);
      var s := x + [c] + Join(tail, [c]);
      FindCharAfter(x, c, Join(tail, [c]));
      SplitAt(s, [c], |x|);
      assert s[..|x|] == x && s[|x| + 1..] == Join(tail, [c]);
      SplitJoinChar(tail, c);
    }
  }

  /** `s.replace(pat, rep)` for a non-empty `pat`: every leftmost
      non-overlapping occurrence of `pat` is replaced by `rep`, which is
      `rep.join(s.split(pat))`. */
  function Replace(s: string, pat: string, rep: string): string
    requires |pat| > 0
  {
    Join(Split(s, pat), rep)
  }

  /** Text without the pattern is left alone. */
  lemma ReplaceAbsent(s: string, pat: string, rep: string)
    requires |pat| > 0 && !Contains(s, pat)
    ensures Replace(s, pat, rep) == s
  {
    FindIsLeftmost(s, pat);
    assert Split(s, pat) == SplitOn(s, pat, None) == [s];
  }

  /** Replacing the pattern by itself gives the text back. */
  lemma ReplaceBySelf(s: string, pat: string)
    requires |pat| > 0
    ensures Replace(s, pat, pat) == s
  {
    JoinSplit(s, pat);
  }

  /** A replacement of equal length keeps the length of the text. */
  lemma ReplaceKeepsLength(s: string, pat: string, rep: string)
    requires |pat| > 0 && |rep| == |pat|
    ensures |Replace(s, pat, rep)| == |s|
  {
    JoinSplit(s, pat);
    JoinLength(Split(s, pat), rep, pat);
  }

  /** Replacing a character by text that does not contain it removes every
      occurrence of that character. */
  lemma ReplaceCharRemoves(s: string, c: char, rep: string)
    requires c !in rep
    ensures c !in Replace(s, [c], rep)
  {
    var parts := Split(s, [c]);
    forall k | 0 <= k < |parts| ensures c !in parts[k] {
      SplitPiecesFree(s, [c], k);
      if c in parts[k] {
        var j :| 0 <= j < |parts[k]| && parts[k][j] == c;
        assert OccursAt(parts[k], [c], j);
      }
    }
    JoinAvoids(parts, rep, c);
  }

  /** The first occurrence is the first to be replaced: the text before it
      is kept and the replacement stands where it was. */
  lemma ReplaceFirst(s: string, pat: string, rep: string, i: nat)
    requires |pat| > 0 && Find(s, pat) == Some(i)
    ensures OccursAt(Replace(s, pat, rep), rep, i)
    ensures Contains(Replace(s, pat, rep), rep)
  {
    SplitAt(s, pat, i);
    var rest := Split(s[i + |pat|..], pat);
    JoinCons(s[..i], rest, rep);
    var r := Replace(s, pat, rep);
    assert r == s[..i] + rep + Join(rest, rep);
    assert r[i..i + |rep|] == rep;
    assert OccursAt(r, rep, i);
  }

  /** Past the first occurrence, replacing goes on in the rest of the
      text. */
  lemma ReplaceUnfold(s: string, pat: string, rep: string, i: nat)
    requires |pat| > 0 && Find(s, pat) == Some(i)
    ensures i + |pat| <= |s|
    ensures Replace(s, pat, rep) == s[..i] + rep + Replace(s[i + |pat|..], pat, rep)
  {
    SplitAt(s, pat, i);
    JoinCons(s[..i], Split(s[i + |pat|..], pat), rep);
  }

  /** Position `k` of `r` holds the replacement's character for an
      occurrence of `pat` in `s` that covers `k`. */
  predicate ReplacedAt(s: string, pat: string, rep: string, r: string, k: int)
    requires |rep| == |pat| && 0 <= k < |r|
  {
    exists j :: 0 <= j <= k < j + |pat| && OccursAt(s, pat, j) && r[k] == rep[k - j]
  }

  /** With a replacement as long as the pattern, each character either
      stays where it was or lies inside a replaced occurrence. */
  lemma {:induction false} ReplaceCharAt(s: string, pat: string, rep: string, k: int)
    requires |pat| > 0 && |rep| == |pat| && 0 <= k < |s|
    ensures |Replace(s, pat, rep)| == |s|
    ensures Replace(s, pat, rep)[k] == s[k] || ReplacedAt(s, pat, rep, Replace(s, pat, rep), k)
    decreases |s|
  {
    ReplaceKeepsLength(s, pat, rep);
    var r := Replace(s, pat, rep);
    match Find(s, pat)
    case None =>
      assert Split(s, pat) == SplitOn(s, pat, None) == [s];
    case Some(i) =>
      ReplaceUnfold(s, pat, rep, i);
      var t := s[i + |pat|..];
      var rt := Replace(t, pat, rep);
      ReplaceKeepsLength(t, pat, rep);
      assert r == s[..i] + rep + rt;
      if k < i {
        assert r[k] == s[k];
      } else if k < i + |pat| {
        FindIsLeftmost(s, pat);
        assert r[k] == rep[k - i];
        assert OccursAt(s, pat, i);
      } else {
        var m := k - i - |pat|;
        ReplaceCharAt(t, pat, rep, m);
        assert r[k] == rt[m] && s[k] == t[m];
        if rt[m] != t[m] {
          ShiftReplaced(s, pat, rep, i + |pat|, rt, m);
        }
      }
  }

  /** An occurrence in a suffix of `s` is an occurrence in `s`. */
  lemma ShiftReplaced(s: string, pat: string, rep: string, d: nat, rt: string, m: int)
    requires |rep| == |pat| && d <= |s| && 0 <= m < |rt| && ReplacedAt(s[d..], pat, rep, rt, m)
    ensures exists j :: 0 <= j <= m + d < j + |pat| && OccursAt(s, pat, j) && rt[m] == rep[m + d - j]
  {
    var t := s[d..];
    var j :| 0 <= j <= m < j + |pat| && OccursAt(t, pat, j) && rt[m] == rep[m - j];
    assert s[j + d..j + d + |pat|] == t[j..j + |pat|];
    assert OccursAt(s, pat, j + d);
  }

  /** `s.rfind(c)` for one character: the last index holding `c`, or -1. */
  function RFind(s: string, c: char): (r: int)
    ensures -1 <= r < |s|
    ensures r >= 0 ==> s[r] == c && forall k :: r < k < |s| ==> s[k] != c
    ensures r < 0 ==> forall k :: 0 <= k < |s| ==> s[k] != c
  {
    if s == [] then -1
    else if s[|s| - 1] == c then |s| - 1
    else RFind(s[..|s| - 1], c)
  }

  /** A text contains each of its suffixes. */
  lemma ContainsSuffix(a: string, b: string)
    ensures Contains(a + b, b)
  {
    assert (a + b)[|a|..|a| + |b|] == b;
    assert OccursAt(a + b, b, |a|);
  }

  /** The last `c` is at `j` when `s[j]` is `c` and none follows it. */
  lemma RFindAt(s: string, c: char, j: nat)
    requires j < |s| && s[j] == c && forall k :: j < k < |s| ==> s[k] != c
    ensures RFind(s, c) == j
  {
    var r := RFind(s, c);
    assert r >= 0 && r >= j;
  }

  function LowerChar(c: char): char {
    if 'A' <= c <= 'Z' then (c as int + 32) as char else c
  }

  function UpperChar(c: char): char {
    if 'a' <= c <= 'z' then (c as int - 32) as char else c
  }

  /** `s.lower()`, on ASCII letters. */
  function Lower(s: string): (r: string)
    ensures |r| == |s| && forall i :: 0 <= i < |s| ==> r[i] == LowerChar(s[i])
  {
    seq(|s|, i requires 0 <= i < |s| => LowerChar(s[i]))
  }

  /** `s.upper()`, on ASCII letters. */
  function Upper(s: string): (r: string)
    ensures |r| == |s| && forall i :: 0 <= i < |s| ==> r[i] == UpperChar(s[i])
  {
    seq(|s|, i requires 0 <= i < |s| => UpperChar(s[i]))
  }

  predicate IsDigit(c: char) {
    '0' <= c <= '9'
  }

  /** `s.isdigit()`, on ASCII digits: non-empty and digits only. */
  predicate IsDigits(s: string) {
    |s| > 0 && forall i :: 0 <= i < |s| ==> IsDigit(s[i])
  }

  predicate IsAsciiLetter(c: char) {
    'a' <= c <= 'z' || 'A' <= c <= 'Z'
  }

  /** The number of words `s.split()` returns, counting from a position
      that is (`inWord`) or is not inside a word. */
  function WordCountFrom(s: string, inWord: bool): nat
  {
    if s == [] then 0
    else if IsSpace(s[0]) then WordCountFrom(s[1..], false)
    else (if inWord then 0 else 1) + WordCountFrom(s[1..], true)
  }

  /** `len(s.split())`. */
  function WordCount(s: string): nat {
    WordCountFrom(s, false)
  }

  lemma {:induction false} WordCountZeroIffBlank(s: string)
    ensures WordCount(s) == 0 <==> IsBlank(s)
    decreases |s|
  {
    if s != [] && IsSpace(s[0]) {
      WordCountZeroIffBlank(s[1..]);
    }
  }

  /** Decimal digits of a natural number, as `str(n)` writes them. */
  function NatToString(n: nat): (r: string)
    ensures |r| >= 1 && IsDigits(r)
    decreases n
  {
    if n < 10 then [('0' as int + n) as char]
    else NatToString(n / 10) + [('0' as int + n % 10) as char]
  }
}
