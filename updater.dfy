/** The decisions of the self-updater in `modern_updater.py`: the dotted
    version comparison, the choice of the release asset to download, the
    names of the downloaded and installed files, and the two flags that
    keep a second update process or a second update dialog from starting
    while one is active. */
module Updater {
  import opened Base
  import opened Strings

  // ---------------------------------------------------------------------
  // int(x) and is_newer_version

  /** A body of ASCII digits that `int()` accepts: single underscores may
      separate digits. */
  predicate IsDigitBody(s: string) {
    && |s| > 0 && IsDigit(s[0]) && IsDigit(s[|s| - 1])
    && (forall i :: 0 <= i < |s| ==> IsDigit(s[i]) || s[i] == '_')
    && (forall i :: 0 <= i < |s| - 1 ==> s[i] != '_' || s[i + 1] != '_')
  }

  /** The decimal value of the digits of `s`, underscores skipped. */
  function DecValue(s: string): nat {
    if s == [] then 0
    else if s[|s| - 1] == '_' then DecValue(s[..|s| - 1])
    else DecValue(s[..|s| - 1]) * 10 + ((s[|s| - 1] as int - '0' as int) % 10)
  }

  /** `int(s)` on a string: surrounding whitespace is ignored, one sign
      is allowed, and `None` stands for the `ValueError`. */
  function ParseInt(s: string): (r: Option<int>)
    ensures IsBlank(s) ==> r.None?
  {
    var t := Strip(s);
    StripEmptyIffBlank(s);
    if |t| > 0 && (t[0] == '+' || t[0] == '-') then
      if IsDigitBody(t[1..]) then Some(if t[0] == '-' then 0 - DecValue(t[1..]) as int else DecValue(t[1..])) else None
    else if IsDigitBody(t) then Some(DecValue(t))
    else None
  }

  /** `[int(x) for x in parts]`, which raises as soon as one part does not
      parse. */
  function ParseAll(parts: seq<string>): (r: Option<seq<int>>)
    ensures r.Some? <==> forall i :: 0 <= i < |parts| ==> ParseInt(parts[i]).Some?
    ensures r.Some? ==> |r.value| == |parts| && forall i :: 0 <= i < |parts| ==> ParseInt(parts[i]) == Some(r.value[i])
  {
    ParseEach(ParseInt, parts)
  }

  /** The list comprehension for the conversion `parse`. */
  function ParseEach(parse: string -> Option<int>, parts: seq<string>): (r: Option<seq<int>>)
    ensures r.Some? <==> forall i :: 0 <= i < |parts| ==> parse(parts[i]).Some?
    ensures r.Some? ==> |r.value| == |parts| && forall i :: 0 <= i < |parts| ==> parse(parts[i]) == Some(r.value[i])
  {
    if parts == [] then Some([])
    else
      match parse(parts[0])
      case None => None
      case Some(v) =>
        match ParseEach(parse, parts[1..])
        case None => None
        case Some(vs) => Some([v] + vs)
  }

  /** The components of a dotted version, or `None` when one of them is
      no integer. */
  function VersionParts(v: string): Option<seq<int>> {
    ParseAll(Split(v, "."))
  }

  /** `parts.extend([0] * (n - len(parts)))` */
  function Pad(parts: seq<int>, n: nat): (r: seq<int>)
    requires |parts| <= n
    ensures |r| == n
  {
    parts + seq(n - |parts|, _ => 0)
  }

  /** Python's `a > b` on lists of integers: the first difference
      decides, and a proper prefix is the smaller list. */
  function ListGreater(a: seq<int>, b: seq<int>): bool {
    if a == [] then false
    else if b == [] then true
    else if a[0] != b[0] then a[0] > b[0]
    else ListGreater(a[1..], b[1..])
  }

  function Max(a: nat, b: nat): nat {
    if a < b then b else a
  }

  /** `is_newer_version(latest, current)`: both versions padded with
      zeros to the same length and compared as lists; `False` when either
      does not parse. */
  function IsNewerVersion(latest: string, current: string): bool {
    match VersionParts(latest)
    case None => false
    case Some(a) =>
      match VersionParts(current)
      case None => false
      case Some(b) =>
        var m := Max(|a|, |b|);
        ListGreater(Pad(a, m), Pad(b, m))
  }

  /** The first component, a missing one counting as zero. */
  function Head0(a: seq<int>): int {
    if a == [] then 0 else a[0]
  }

  function Tail(a: seq<int>): seq<int> {
    if a == [] then [] else a[1..]
  }

  /** The order of versions as numbers with infinitely many trailing
      zeros: the first component where they differ decides. */
  function ZeroPaddedGreater(a: seq<int>, b: seq<int>): bool
    decreases |a| + |b|
  {
    if a == [] && b == [] then false
    else if Head0(a) != Head0(b) then Head0(a) > Head0(b)
    else ZeroPaddedGreater(Tail(a), Tail(b))
  }

  /** Comparing the padded lists is comparing with trailing zeros. */
  lemma {:induction false} PaddedGreater(a: seq<int>, b: seq<int>, m: nat)
    requires |a| <= m && |b| <= m
    ensures ListGreater(Pad(a, m), Pad(b, m)) == ZeroPaddedGreater(a, b)
    decreases m
  {
    if m > 0 {
      var pa, pb := Pad(a, m), Pad(b, m);
      assert pa[0] == Head0(a) && pb[0] == Head0(b);
      assert pa[1..] == Pad(Tail(a), m - 1);
      assert pb[1..] == Pad(Tail(b), m - 1);
      PaddedGreater(Tail(a), Tail(b), m - 1);
      if a == [] && b == [] {
        assert ZeroPaddedGreater(Tail(a), Tail(b)) == false;
      }
    }
  }

  lemma {:induction false} ZeroPaddedIrreflexive(a: seq<int>)
    ensures !ZeroPaddedGreater(a, a)
    decreases |a|
  {
    if a != [] {
      ZeroPaddedIrreflexive(Tail(a));
    }
  }

  lemma {:induction false} ZeroPaddedAsymmetric(a: seq<int>, b: seq<int>)
    ensures ZeroPaddedGreater(a, b) ==> !ZeroPaddedGreater(b, a)
    decreases |a| + |b|
  {
    if !(a == [] && b == []) && Head0(a) == Head0(b) {
      ZeroPaddedAsymmetric(Tail(a), Tail(b));
    }
  }

  lemma {:induction false} ZeroPaddedTransitive(a: seq<int>, b: seq<int>, c: seq<int>)
    requires ZeroPaddedGreater(a, b) && ZeroPaddedGreater(b, c)
    ensures ZeroPaddedGreater(a, c)
    decreases |a| + |b| + |c|
  {
    if Head0(a) == Head0(b) && Head0(b) == Head0(c) {
      ZeroPaddedTransitive(Tail(a), Tail(b), Tail(c));
    }
  }

  /** Trailing zeros never make a version greater or smaller. */
  lemma {:induction false} ZeroPaddedTrailingZeros(a: seq<int>, k: nat)
    ensures !ZeroPaddedGreater(a, a + seq(k, _ => 0))
    ensures !ZeroPaddedGreater(a + seq(k, _ => 0), a)
    decreases |a| + k
  {
    var z := a + seq(k, _ => 0);
    if a != [] {
      assert Tail(z) == Tail(a) + seq(k, _ => 0);
      ZeroPaddedTrailingZeros(Tail(a), k);
    } else if k > 0 {
      assert Tail(z) == [] + seq(k - 1, _ => 0);
      ZeroPaddedTrailingZeros([], k - 1);
    }
  }

  /** The comparison of two version strings that parse. */
  lemma NewerIsZeroPaddedGreater(latest: string, current: string)
    requires VersionParts(latest).Some? && VersionParts(current).Some?
    ensures IsNewerVersion(latest, current) == ZeroPaddedGreater(VersionParts(latest).value, VersionParts(current).value)
  {
    var a, b := VersionParts(latest).value, VersionParts(current).value;
    PaddedGreater(a, b, Max(|a|, |b|));
  }

  /** No version is newer than itself. */
  lemma NotNewerThanItself(v: string)
    ensures !IsNewerVersion(v, v)
  {
    if VersionParts(v).Some? {
      NewerIsZeroPaddedGreater(v, v);
      ZeroPaddedIrreflexive(VersionParts(v).value);
    }
  }

  /** Of two versions at most one is newer than the other. */
  lemma NewerAsymmetric(a: string, b: string)
    ensures IsNewerVersion(a, b) ==> !IsNewerVersion(b, a)
  {
    if VersionParts(a).Some? && VersionParts(b).Some? {
      NewerIsZeroPaddedGreater(a, b);
      NewerIsZeroPaddedGreater(b, a);
      ZeroPaddedAsymmetric(VersionParts(a).value, VersionParts(b).value);
    }
  }

  lemma NewerTransitive(a: string, b: string, c: string)
    requires IsNewerVersion(a, b) && IsNewerVersion(b, c)
    ensures IsNewerVersion(a, c)
  {
    NewerIsZeroPaddedGreater(a, b);
    NewerIsZeroPaddedGreater(b, c);
    NewerIsZeroPaddedGreater(a, c);
    ZeroPaddedTransitive(VersionParts(a).value, VersionParts(b).value, VersionParts(c).value);
  }

  /** An empty version (the tag of a release without `tag_name`) is
      never newer. */
  lemma EmptyVersionNeverNewer(current: string)
    ensures !IsNewerVersion("", current)
  {
    assert Split("", ".") == [""];
  }

  /** `str(n)` */
  function NatText(n: nat): string {
    NatToString(n)
  }

  /** The dotted text of a list of natural numbers, as a release tag
      writes it without its `v`. */
  function VersionText(ps: seq<nat>): string {
    Join(seq(|ps|, i requires 0 <= i < |ps| => NatText(ps[i])), ".")
  }

  lemma {:induction false} DecValueOfText(n: nat)
    ensures DecValue(NatToString(n)) == n
    decreases n
  {
    if n >= 10 {
      var s := NatToString(n);
      assert s[..|s| - 1] == NatToString(n / 10);
      DecValueOfText(n / 10);
    }
  }

  /** `int(str(n)) == n` */
  lemma ParseNatText(n: nat)
    ensures ParseInt(NatText(n)) == Some(n)
  {
    var s := NatToString(n);
    assert !IsSpace(s[0]) && !IsSpace(s[|s| - 1]);
    assert Strip(s) == s;
    DecValueOfText(n);
  }

  /** A version written out from natural numbers parses back to them. */
  lemma VersionTextParses(ps: seq<nat>)
    requires |ps| >= 1
    ensures VersionParts(VersionText(ps)) == Some(ps)
  {
    var texts := seq(|ps|, i requires 0 <= i < |ps| => NatText(ps[i]));
    forall k | 0 <= k < |texts| ensures '.' !in texts[k] && ParseInt(texts[k]) == Some(ps[k]) {
      ParseNatText(ps[k]);
      assert IsDigits(texts[k]);
    }
    SplitJoinChar(texts, '.');
    var r := ParseAll(texts);
    assert r.value == ps;
  }

  /** Versions written out from natural numbers compare as those numbers
      with trailing zeros. */
  lemma NewerVersionText(ps: seq<nat>, qs: seq<nat>)
    requires |ps| >= 1 && |qs| >= 1
    ensures IsNewerVersion(VersionText(ps), VersionText(qs)) == ZeroPaddedGreater(ps, qs)
  {
    VersionTextParses(ps);
    VersionTextParses(qs);
    NewerIsZeroPaddedGreater(VersionText(ps), VersionText(qs));
  }

  /** `1.0` and `1.0.0` are the same version: neither is newer. */
  lemma TrailingZerosIgnored(ps: seq<nat>, k: nat)
    requires |ps| >= 1
    ensures !IsNewerVersion(VersionText(ps), VersionText(ps + seq(k, _ => 0)))
    ensures !IsNewerVersion(VersionText(ps + seq(k, _ => 0)), VersionText(ps))
  {
    var qs: seq<nat> := ps + seq(k, _ => 0);
    NewerVersionText(ps, qs);
    NewerVersionText(qs, ps);
    ZeroPaddedTrailingZeros(ps, k);
    var pi: seq<int> := ps;
    assert pi + seq(k, _ => 0) == qs;
  }

  // ---------------------------------------------------------------------
  // check_for_updates

  /** `data.get('tag_name', '').replace('v', '')` */
  function LatestVersion(tag: Option<string>): string {
    Replace(if tag.Some? then tag.value else "", "v", "")
  }

  /** Whether `check_for_updates` reports an update, for the release's
      tag (absent or present) and the running version. */
  function UpdateAvailable(tag: Option<string>, current: string): bool {
    IsNewerVersion(LatestVersion(tag), current)
  }

  /** A leading `v` goes with the others. */
  lemma DropLeadingV(t: string)
    ensures Replace("v" + t, "v", "") == Replace(t, "v", "")
  {
    var s := "v" + t;
    assert s[..1] == "v";
    SplitAt(s, "v", 0);
    assert s[1..] == t;
    JoinCons("", Split(t, "v"), "");
  }

  /** A release without a tag is never offered. */
  lemma MissingTagNoUpdate(current: string)
    ensures !UpdateAvailable(None, current)
  {
    assert Split("", "v") == [""];
    EmptyVersionNeverNewer(current);
  }

  /** A release tagged `v` and a dotted version is offered exactly when
      that version is greater than the running one. */
  lemma TaggedReleaseOffered(ps: seq<nat>, qs: seq<nat>)
    requires |ps| >= 1 && |qs| >= 1
    ensures UpdateAvailable(Some("v" + VersionText(ps)), VersionText(qs)) == ZeroPaddedGreater(ps, qs)
  {
    var t := VersionText(ps);
    DropLeadingV(t);
    assert 'v' !in t by { NoLetterInVersionText(ps); }
    ContainsChar(t, 'v');
    ReplaceAbsent(t, "v", "");
    NewerVersionText(ps, qs);
  }

  lemma NoLetterInVersionText(ps: seq<nat>)
    ensures 'v' !in VersionText(ps)
  {
    var texts := seq(|ps|, i requires 0 <= i < |ps| => NatText(ps[i]));
    forall k | 0 <= k < |texts| ensures 'v' !in texts[k] {
      assert IsDigits(texts[k]);
    }
    JoinAvoids(texts, ".", 'v');
  }

  // ---------------------------------------------------------------------
  // The release asset

  datatype FileType = Exe | Zip

  /** One entry of the release's `assets`. */
  datatype Asset = Asset(name: string, url: string)

  /** The fields of the release the updater reads: `tag_name` (absent or
      present) and `assets`. */
  datatype Release = Release(tag: Option<string>, assets: seq<Asset>)

  predicate IsExe(a: Asset) {
    EndsWith(a.name, ".exe")
  }

  predicate IsZip(a: Asset) {
    EndsWith(a.name, ".zip")
  }

  /** The index of the first `.exe` asset. */
  function FirstExe(assets: seq<Asset>): (r: Option<nat>)
    ensures r.Some? ==> r.value < |assets| && IsExe(assets[r.value])
    ensures r.Some? ==> forall k :: 0 <= k < r.value ==> !IsExe(assets[k])
    ensures r.None? ==> forall k :: 0 <= k < |assets| ==> !IsExe(assets[k])
  {
    if assets == [] then None
    else if IsExe(assets[0]) then Some(0)
    else
      match FirstExe(assets[1..])
      case None => None
      case Some(k) => Some(k + 1)
  }

  /** The index of the last `.zip` asset. */
  function LastZip(assets: seq<Asset>): (r: Option<nat>)
    ensures r.Some? ==> r.value < |assets| && IsZip(assets[r.value])
    ensures r.Some? ==> forall k :: r.value < k < |assets| ==> !IsZip(assets[k])
    ensures r.None? ==> forall k :: 0 <= k < |assets| ==> !IsZip(assets[k])
  {
    if assets == [] then None
    else if IsZip(assets[|assets| - 1]) then Some(|assets| - 1)
    else LastZip(assets[..|assets| - 1])
  }

  datatype Download = Download(url: string, fileType: FileType)

  /** What the asset loop of `start_update_process` settles on: the first
      `.exe`, or else the last `.zip`, or nothing. */
  function ChosenAsset(assets: seq<Asset>): Option<Download> {
    match FirstExe(assets)
    case Some(i) => Some(Download(assets[i].url, Exe))
    case None => ZipDownload(assets)
  }

  /** The download of the last `.zip`, if any. */
  function ZipDownload(assets: seq<Asset>): Option<Download> {
    match LastZip(assets)
    case Some(j) => Some(Download(assets[j].url, Zip))
    case None => None
  }

  /** The last `.zip` of the first `i + 1` assets. */
  lemma LastZipSnoc(assets: seq<Asset>, i: nat)
    requires i < |assets|
    ensures LastZip(assets[..i + 1]) == if IsZip(assets[i]) then Some(i) else LastZip(assets[..i])
    ensures ZipDownload(assets[..i + 1]) == if IsZip(assets[i]) then Some(Download(assets[i].url, Zip)) else ZipDownload(assets[..i])
  {
    assert assets[..i + 1][..i] == assets[..i];
  }

  /** An `.exe` with none before it is the first one. */
  lemma FirstExeAt(assets: seq<Asset>, i: nat)
    requires i < |assets| && IsExe(assets[i])
    requires forall k :: 0 <= k < i ==> !IsExe(assets[k])
    ensures FirstExe(assets) == Some(i)
  {
    var r := FirstExe(assets);
    assert r.Some?;
    assert !(r.value < i) && !(i < r.value);
  }

  /** The asset loop: an `.exe` ends the search, a `.zip` is remembered
      and the search goes on. */
  method SelectAsset(assets: seq<Asset>) returns (choice: Option<Download>)
    ensures choice == ChosenAsset(assets)
  {
    choice := None;
    var i := 0;
    while i < |assets|
      invariant 0 <= i <= |assets|
      invariant forall k :: 0 <= k < i ==> !IsExe(assets[k])
      invariant choice == ZipDownload(assets[..i])
    {
      LastZipSnoc(assets, i);
      if IsExe(assets[i]) {
        choice := Some(Download(assets[i].url, Exe));
        FirstExeAt(assets, i);
        return;
      } else if IsZip(assets[i]) {
        choice := Some(Download(assets[i].url, Zip));
      }
      i := i + 1;
    }
    assert assets[..i] == assets;
    assert FirstExe(assets).None?;
  }

  /** The choice is the first `.exe` when there is one; a `.zip` only
      when there is no `.exe`, and then the last one; nothing only when
      neither kind is offered. */
  lemma ChosenAssetSpec(assets: seq<Asset>)
    ensures var c := ChosenAsset(assets);
            c.Some? && c.value.fileType == Exe ==>
              exists i :: 0 <= i < |assets| && IsExe(assets[i]) && assets[i].url == c.value.url &&
                forall k :: 0 <= k < i ==> !IsExe(assets[k])
    ensures var c := ChosenAsset(assets);
            c.Some? && c.value.fileType == Zip ==>
              (forall k :: 0 <= k < |assets| ==> !IsExe(assets[k])) &&
              exists j :: 0 <= j < |assets| && IsZip(assets[j]) && assets[j].url == c.value.url &&
                forall k :: j < k < |assets| ==> !IsZip(assets[k])
    ensures ChosenAsset(assets).None? <==> forall k :: 0 <= k < |assets| ==> !IsExe(assets[k]) && !IsZip(assets[k])
  {
    match FirstExe(assets)
    case Some(i) =>
    case None =>
      match LastZip(assets)
      case Some(j) =>
      case None =>
  }

  // ---------------------------------------------------------------------
  // File names

  /** The name of the downloaded file in `ModernUpdateWorker.run`. */
  function DownloadFileName(version: string, t: FileType): string {
    if t == Exe then "ru-minetools-v" + version + ".exe" else "update_v" + version + ".zip"
  }

  /** The version read back from a download file name of the given kind. */
  function FileNameVersion(name: string, t: FileType): Option<string> {
    var pre := if t == Exe then "ru-minetools-v" else "update_v";
    var suf := if t == Exe then ".exe" else ".zip";
    if |name| >= |pre| + |suf| && StartsWith(name, pre) && EndsWith(name, suf) then
      Some(name[|pre|..|name| - |suf|])
    else None
  }

  /** The version can be read back from the file name. */
  lemma FileNameRoundTrip(version: string, t: FileType)
    ensures FileNameVersion(DownloadFileName(version, t), t) == Some(version)
  {
    var name := DownloadFileName(version, t);
    if t == Exe {
      assert name[..14] == "ru-minetools-v" && name[|name| - 4..] == ".exe";
      assert name[14..|name| - 4] == version;
    } else {
      assert name[..8] == "update_v" && name[|name| - 4..] == ".zip";
      assert name[8..|name| - 4] == version;
    }
  }

  /** An executable download is named `.exe`, an archive `.zip`. */
  lemma FileNameKind(version: string, t: FileType)
    ensures EndsWith(DownloadFileName(version, t), ".exe") <==> t == Exe
    ensures EndsWith(DownloadFileName(version, t), ".zip") <==> t == Zip
  {
    var name := DownloadFileName(version, t);
    assert name[|name| - 4..] == (if t == Exe then ".exe" else ".zip");
  }

  /** The version in `create_update_script`: the tag without any `v`, or
      `unknown` without release information or tag. */
  function ScriptVersion(info: Option<Release>): (r: string)
    ensures 'v' !in r
  {
    if info.Some? && info.value.tag.Some? then
      ReplaceCharRemoves(info.value.tag.value, 'v', "");
      Replace(info.value.tag.value, "v", "")
    else "unknown"
  }

  /** The name the new executable is installed under. */
  function InstalledName(info: Option<Release>): string {
    "ru-minetools-v" + ScriptVersion(info) + ".exe"
  }

  /** The worker receives the tag as it is, so a tag `v1.1.0` downloads
      to `ru-minetools-vv1.1.0.exe`, while the installed file is
      `ru-minetools-v1.1.0.exe`. */
  lemma DownloadAndInstalledNames(x: string)
    requires 'v' !in x
    ensures DownloadFileName("v" + x, Exe) == "ru-minetools-vv" + x + ".exe"
    ensures InstalledName(Some(Release(Some("v" + x), []))) == "ru-minetools-v" + x + ".exe"
  {
    DropLeadingV(x);
    ContainsChar(x, 'v');
    ReplaceAbsent(x, "v", "");
  }

  // ---------------------------------------------------------------------
  // The re-entrancy flags

  /** The worker `start_update_process` creates: the URL, the release's
      tag (or `''`) and the kind of file. */
  datatype Worker = Worker(url: string, version: string, fileType: FileType)

  datatype StartOutcome =
    | Busy                      // an update process is already active
    | NoDownload                // no `.exe` or `.zip` with a URL; an error is shown
    | Started(worker: Worker)

  /** `start_update_process` on the `_active_update_process` attribute
      (`None` while the attribute was never set): the new attribute and
      what happened. */
  function StartStep(active: Option<bool>, info: Release): (Option<bool>, StartOutcome) {
    if active == Some(true) then (active, Busy)
    else
      match ChosenAsset(info.assets)
      case None => (active, NoDownload)
      case Some(d) =>
        if d.url == "" then (active, NoDownload)
        else (Some(true), Started(Worker(d.url, if info.tag.Some? then info.tag.value else "", d.fileType)))
  }

  /** `cleanup_update_process`: the attribute is cleared when it exists. */
  function CleanupStep(active: Option<bool>): Option<bool> {
    if active.Some? then Some(false) else None
  }

  /** A worker starts only while no process is active, with the chosen
      asset, and leaves the flag set; every other outcome changes
      nothing. */
  lemma StartStepSpec(active: Option<bool>, info: Release)
    ensures var (next, out) := StartStep(active, info);
            (out.Started? <==> active != Some(true) && ChosenAsset(info.assets).Some? && ChosenAsset(info.assets).value.url != "") &&
            (out.Started? ==> next == Some(true) && out.worker.url == ChosenAsset(info.assets).value.url &&
                              out.worker.fileType == ChosenAsset(info.assets).value.fileType) &&
            (!out.Started? ==> next == active)
  {
  }

  /** Two starts without a cleanup between them never start two workers. */
  lemma NoSecondWorker(active: Option<bool>, info: Release, again: Release)
    requires StartStep(active, info).1.Started?
    ensures StartStep(StartStep(active, info).0, again).1 == Busy
  {
  }

  /** After the cleanup the same release can be started again. */
  lemma CleanupAllowsRestart(active: Option<bool>, info: Release)
    requires StartStep(active, info).1.Started?
    ensures StartStep(CleanupStep(StartStep(active, info).0), info) == StartStep(active, info)
  {
  }

  /** How the dialog of `show_modern_update_dialog` (or of the legacy
      dialog) ended: with a result, or by raising; `importError` marks an
      `ImportError`. */
  datatype DialogOutcome = Closed(result: bool) | Raised(importError: bool)

  /** What `show_update_available_dialog` gives its caller. */
  datatype DialogReturn = Returned(value: bool) | Propagated

  function Outcome(d: DialogOutcome): DialogReturn {
    if d.Closed? then Returned(d.result) else Propagated
  }

  /** `show_update_available_dialog` on the `_active_update_dialog`
      attribute: skipped while a dialog is active or another dialog is
      visible; otherwise the modern dialog runs with the flag set, and
      the legacy one when the modern module cannot be imported (or
      raises `ImportError`); the flag is reset in every case. */
  function DialogStep(active: Option<bool>, othersVisible: bool, modernLoads: bool,
                      modern: DialogOutcome, legacy: DialogOutcome): (Option<bool>, DialogReturn)
  {
    if active == Some(true) || othersVisible then (active, Returned(false))
    else if modernLoads && modern != Raised(true) then (Some(false), Outcome(modern))
    else (Some(false), Outcome(legacy))
  }

  /** While a dialog is active a second one is never shown; a dialog that
      is shown never leaves the flag set, whatever it returns or raises. */
  lemma DialogStepSpec(active: Option<bool>, othersVisible: bool, modernLoads: bool,
                       modern: DialogOutcome, legacy: DialogOutcome)
    ensures active == Some(true) ==> DialogStep(active, othersVisible, modernLoads, modern, legacy) == (active, Returned(false))
    ensures DialogStep(active, othersVisible, modernLoads, modern, legacy).0 == Some(true) <==> active == Some(true)
  {
  }

  /** The widget the updater runs under, with the two attributes it sets
      on it (`None` while an attribute was never set). */
  class UpdateHost {
    var activeProcess: Option<bool>
    var activeDialog: Option<bool>

    constructor ()
      ensures activeProcess == None && activeDialog == None
    {
      activeProcess := None;
      activeDialog := None;
    }

    /** `start_update_process(parent, version_info)` up to the start of
        the worker. */
    method StartUpdateProcess(info: Release) returns (outcome: StartOutcome)
      modifies this
      ensures (activeProcess, outcome) == StartStep(old(activeProcess), info)
      ensures activeDialog == old(activeDialog)
    {
      if activeProcess == Some(true) {
        return Busy;
      }
      var choice := SelectAsset(info.assets);
      if choice.None? || choice.value.url == "" {
        return NoDownload;
      }
      activeProcess := Some(true);
      var version := if info.tag.Some? then info.tag.value else "";
      outcome := Started(Worker(choice.value.url, version, choice.value.fileType));
    }

    /** `cleanup_update_process(parent)` */
    method CleanupUpdateProcess()
      modifies this
      ensures activeProcess == CleanupStep(old(activeProcess))
      ensures activeDialog == old(activeDialog)
    {
      if activeProcess.Some? {
        activeProcess := Some(false);
      }
    }

    /** `show_update_available_dialog(parent, version_info)`, with the
        visible dialogs, the import of the modern dialogs and how each
        dialog ends given as parameters. */
    method ShowUpdateAvailableDialog(othersVisible: bool, modernLoads: bool,
                                     modern: DialogOutcome, legacy: DialogOutcome)
      returns (r: DialogReturn)
      modifies this
      ensures (activeDialog, r) == DialogStep(old(activeDialog), othersVisible, modernLoads, modern, legacy)
      ensures activeProcess == old(activeProcess)
    {
      if activeDialog == Some(true) {
        return Returned(false);
      }
      if othersVisible {
        return Returned(false);
      }
      var useLegacy := !modernLoads;
      if modernLoads {
        activeDialog := Some(true);
        r := Outcome(modern);
        activeDialog := Some(false);
        useLegacy := modern == Raised(true);
      }
      if useLegacy {
        activeDialog := Some(true);
        r := Outcome(legacy);
        activeDialog := Some(false);
      }
    }
  }
}
