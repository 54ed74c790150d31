/** The version bump of the release script (`update_version`): in
    `config/update_config.py`, the first line starting with
    `CURRENT_VERSION = ` is replaced by `CURRENT_VERSION = "<version>"`,
    every other line is kept, and the text is written back. */
module Releases {
  import opened Base
  import opened Strings

  const Prefix := "CURRENT_VERSION = "

  predicate IsVersionLine(line: string) {
    StartsWith(line, Prefix)
  }

  /** The line written for `version`. */
  function VersionLine(version: string): string {
    Prefix + "\"" + version + "\""
  }

  /** The index of the first version line, if any. */
  function FirstVersionLine(lines: seq<string>): (r: Option<nat>)
    ensures r.Some? ==> r.value < |lines| && IsVersionLine(lines[r.value])
    ensures forall j :: 0 <= j < |lines| && (r.None? || j < r.value) ==> !IsVersionLine(lines[j])
  {
    if |lines| == 0 then None
    else if IsVersionLine(lines[0]) then Some(0)
    else
      match FirstVersionLine(lines[1..])
      case None => None
      case Some(k) => Some(k + 1)
  }

  /** The lines after the loop: only the first version line changes, to
      the line asked for; the line count and every other line are kept. */
  function Rewritten(lines: seq<string>, version: string): (r: seq<string>)
    ensures |r| == |lines|
    ensures forall j :: 0 <= j < |lines| && r[j] != lines[j] ==>
              FirstVersionLine(lines) == Some(j) && r[j] == VersionLine(version)
    ensures FirstVersionLine(lines).Some? ==> r[FirstVersionLine(lines).value] == VersionLine(version)
  {
    match FirstVersionLine(lines)
    case None => lines
    case Some(i) => lines[i := VersionLine(version)]
  }

  /** The whole edit on the file's text: split on `'\n'`, rewrite, join. */
  function RewriteText(content: string, version: string): string {
    Join(Rewritten(Split(content, "\n"), version), "\n")
  }

  /** The `for i, line in enumerate(lines)` loop with its `break`. */
  method ReplaceVersionLine(lines: seq<string>, version: string) returns (out: seq<string>)
    ensures out == Rewritten(lines, version)
  {
    out := lines;
    var i := 0;
    while i < |out|
      invariant 0 <= i <= |out| && out == lines
      invariant forall j :: 0 <= j < i ==> !IsVersionLine(lines[j])
    {
      if StartsWith(out[i], Prefix) {
        out := out[i := VersionLine(version)];
        return;
      }
      i := i + 1;
    }
  }

  /** A text with no version line is written back unchanged. */
  lemma NoVersionLineUnchanged(content: string, version: string)
    requires forall j :: 0 <= j < |Split(content, "\n")| ==> !IsVersionLine(Split(content, "\n")[j])
    ensures RewriteText(content, version) == content
  {
    JoinSplit(content, "\n");
  }

  /** The written line is itself a version line, and holds no line break
      when the version holds none. */
  lemma VersionLineShape(version: string)
    requires '\n' !in version
    ensures IsVersionLine(VersionLine(version))
    ensures '\n' !in VersionLine(version)
  {
    assert VersionLine(version)[..|Prefix|] == Prefix;
    assert '\n' !in Prefix by {
      assert forall i :: 0 <= i < |Prefix| ==> Prefix[i] != '\n';
    }
  }

  /** Splitting the rewritten text gives back the rewritten lines. */
  lemma SplitRewritten(content: string, version: string)
    requires '\n' !in version
    ensures Split(RewriteText(content, version), "\n") == Rewritten(Split(content, "\n"), version)
  {
    var lines := Split(content, "\n");
    forall k | 0 <= k < |lines| ensures '\n' !in lines[k] {
      SplitPiecesFree(content, "\n", k);
      ContainsChar(lines[k], '\n');
    }
    VersionLineShape(version);
    SplitJoinChar(Rewritten(lines, version), '\n');
  }

  /** The rewrite keeps the number of lines of the file. */
  lemma LineCountKept(content: string, version: string)
    requires '\n' !in version
    ensures |Split(RewriteText(content, version), "\n")| == |Split(content, "\n")|
  {
    SplitRewritten(content, version);
  }

  /** Bumping twice leaves the text of a single bump to the last version:
      the second run finds the line the first one wrote. */
  lemma LastBumpWins(content: string, first: string, second: string)
    requires '\n' !in first
    ensures RewriteText(RewriteText(content, first), second) == RewriteText(content, second)
  {
    var lines := Split(content, "\n");
    SplitRewritten(content, first);
    VersionLineShape(first);
    var once := Rewritten(lines, first);
    match FirstVersionLine(lines)
    case None =>
    case Some(i) =>
      assert once[i] == VersionLine(first);
      assert forall j :: 0 <= j < i ==> once[j] == lines[j];
      FirstIsLeast(once, i);
      assert once[i := VersionLine(second)] == lines[i := VersionLine(second)];
  }

  /** A version line with none before it is the first one. */
  lemma FirstIsLeast(lines: seq<string>, i: nat)
    requires i < |lines| && IsVersionLine(lines[i])
    requires forall j :: 0 <= j < i ==> !IsVersionLine(lines[j])
    ensures FirstVersionLine(lines) == Some(i)
  {
    var r := FirstVersionLine(lines);
    assert r.Some?;
  }

  /** `config/update_config.py`, absent when `text` is `None`. */
  class UpdateConfigFile {
    var text: Option<string>

    constructor (text: Option<string>)
      ensures this.text == text
    {
      this.text := text;
    }

    /** `update_version(version)`: `false` and nothing written when the
        file is missing, otherwise the rewritten text is written and the
        answer is `true`. */
    method UpdateVersion(version: string) returns (updated: bool)
      modifies this
      ensures updated <==> old(text).Some?
      ensures text == if old(text).None? then None else Some(RewriteText(old(text).value, version))
    {
      if text.None? {
        return false;
      }
      var lines := Split(text.value, "\n");
      lines := ReplaceVersionLine(lines, version);
      text := Some(Join(lines, "\n"));
      updated := true;
    }
  }
}
