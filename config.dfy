/** The bot configuration of `simple_config.py`: a JSON file next to an
    example file it is created from, validated for the two required
    fields, loaded lazily and cached on the `SimpleConfig` object. Files
    are a map from paths (sequences of names) to their parsed content. */
module Config {
  import opened Base
  import opened Strings
  import opened JsonTree

  /** A path as the sequence of its names. */
  type Path = seq<string>

  /** What `json.load` makes of a file. */
  datatype FileContent = Document(value: Json) | Unparsable

  // ---------------------------------------------------------------------
  // example_path

  /** `Path(name).stem`: the name without its last suffix; a dot in first
      or last position starts no suffix. */
  function Stem(name: string): string {
    var i := RFind(name, '.');
    if 0 < i < |name| - 1 then name[..i] else name
  }

  /** `config_path.with_name(f"{config_path.stem}.example.json")` */
  function ExamplePath(p: Path): (r: Path)
    requires |p| > 0
  {
    p[..|p| - 1] + [Stem(p[|p| - 1]) + ".example.json"]
  }

  /** The example lies in the same directory and its name ends with
      `.example.json`. */
  lemma ExampleBeside(p: Path)
    requires |p| > 0
    ensures |ExamplePath(p)| == |p| && ExamplePath(p)[..|p| - 1] == p[..|p| - 1]
    ensures EndsWith(ExamplePath(p)[|p| - 1], ".example.json")
  {
    var n := Stem(p[|p| - 1]) + ".example.json";
    assert n[|n| - 13..] == ".example.json";
    assert ExamplePath(p)[..|p| - 1] == p[..|p| - 1];
  }

  /** The example of `name.json` is `name.example.json`. */
  lemma ExampleOfJson(stem: string)
    requires |stem| > 0
    ensures Stem(stem + ".json") == stem
  {
    var s := stem + ".json";
    assert s[|stem|] == '.';
    assert forall k :: |stem| < k < |s| ==> s[k] == "json"[k - |stem| - 1];
    assert RFind(s, '.') == |stem|;
    assert s[..|stem|] == stem;
  }

  /** The example is never the configuration file itself. */
  lemma ExampleIsNotConfig(p: Path)
    requires |p| > 0
    ensures ExamplePath(p) != p
  {
    var name := p[|p| - 1];
    var n := Stem(name) + ".example.json";
    var i := RFind(name, '.');
    if 0 < i < |name| - 1 {
      assert n[i + 8] == '.';
      if |name| == |n| {
        assert name[i + 8] != '.';
      }
    }
    assert ExamplePath(p)[|p| - 1] == n;
  }

  // ---------------------------------------------------------------------
  // _validate_config

  /** `REQUIRED_FIELDS`, in its order: each name with its description. */
  const Required: seq<(string, string)> := [
    ("BOT_TOKEN", "Токен Telegram бота"),
    ("CHANNEL_ID", "ID канала для проверки подписки")
  ]

  /** `f"{field} ({description})"` */
  function Label(f: (string, string)): string {
    f.0 + " (" + f.1 + ")"
  }

  /** The value of the last member with the key, as `json.load` keeps
      the last of duplicate keys. */
  function Lookup(ms: seq<Member>, key: string): (r: Option<Json>)
    ensures r.Some? <==> exists i :: 0 <= i < |ms| && ms[i].key == key
    ensures r.Some? ==> exists i :: LastWith(ms, key, i) && ms[i].value == r.value
  {
    if ms == [] then None
    else
      var r := Lookup(ms[1..], key);
      assert forall i :: 1 <= i < |ms| ==> ms[i] == ms[1..][i - 1];
      assert r.Some? ==> exists i :: LastWith(ms, key, i) && ms[i].value == r.value by {
        if r.Some? {
          var i :| LastWith(ms[1..], key, i) && ms[1..][i].value == r.value;
          assert LastWith(ms, key, i + 1);
        }
      }
      if r.Some? then r
      else if ms[0].key == key then
        assert LastWith(ms, key, 0);
        Some(ms[0].value)
      else None
  }

  /** A member appended under another key leaves the lookup alone. */
  lemma {:induction false} LookupOtherKey(ms: seq<Member>, m: Member, key: string)
    requires m.key != key
    ensures Lookup(ms + [m], key) == Lookup(ms, key)
  {
    if ms != [] {
      assert (ms + [m])[1..] == ms[1..] + [m];
      LookupOtherKey(ms[1..], m, key);
    }
  }

  /** `i` is the last position holding `key`. */
  predicate LastWith(ms: seq<Member>, key: string, i: int) {
    0 <= i < |ms| && ms[i].key == key && forall j :: i < j < |ms| ==> ms[j].key != key
  }

  /** How `field in config_data` and `config_data[field]` turn out on the
      loaded document. */
  datatype Check = Absent | Present(value: Json) | TypeFailure

  /** On an object: the key is present or not. On a list or a string,
      `in` works (element equality, substring) but indexing by a string
      raises `TypeError`; on a number, a boolean or `null` already `in`
      raises. */
  function FieldCheck(doc: Json, name: string): Check {
    match doc
    case JObject(ms) =>
      (match Lookup(ms, name) case Some(v) => Present(v) case None => Absent)
    case JArray(items) => if JString(name) in items then TypeFailure else Absent
    case JString(t) => if Contains(t, name) then TypeFailure else Absent
    case _ => TypeFailure
  }

  /** The placeholder test on the stripped text of a value. The two
      exact values are also caught by the `YOUR_` prefix. */
  predicate IsPlaceholder(text: string) {
    var v := Strip(text);
    || v == []
    || StartsWith(Upper(v), "YOUR_")
    || StartsWith(Upper(v), "PLACEHOLDER")
    || v == "YOUR_BOT_TOKEN_HERE"
    || v == "YOUR_CHANNEL_ID_HERE"
  }

  /** `str(value)` fails the placeholder test. Only strings can: `str()`
      of a number (`inf` and `nan` too), `true`, `false`, `null`, a
      list or a dict starts with a digit, `-`, `i`, `n`, `T`, `F`, `N`, `[`
      or `{`, so it is never blank and never starts with `YOUR_` or
      `PLACEHOLDER`. */
  predicate Unfilled(v: Json) {
    v.JString? && IsPlaceholder(v.text)
  }

  /** The check of every name on one document. */
  function Checks(doc: Json): string -> Check {
    name => FieldCheck(doc, name)
  }

  /** The loop over the first fields of `REQUIRED_FIELDS` on `doc`. */
  function Scan(doc: Json, fields: seq<(string, string)>, unfilled: Json -> bool): Option<(seq<string>, seq<string>)> {
    ScanWith(Checks(doc), fields, unfilled)
  }

  /** The loop over the first fields, for the field check `check` and the
      placeholder test `unfilled`: the labels of the missing and of the
      placeholder fields so far, or `None` once a `TypeError` was
      raised. */
  function ScanWith(check: string -> Check, fields: seq<(string, string)>, unfilled: Json -> bool): Option<(seq<string>, seq<string>)> {
    if fields == [] then Some(([], []))
    else
      match ScanWith(check, fields[..|fields| - 1], unfilled)
      case None => None
      case Some(acc) =>
        var f := fields[|fields| - 1];
        match check(f.0)
        case TypeFailure => None
        case Absent => Some((acc.0 + [Label(f)], acc.1))
        case Present(v) => Some((acc.0, if unfilled(v) then acc.1 + [Label(f)] else acc.1))
  }

  /** The outcome of `_validate_config`. */
  datatype Verdict =
    | Accepted
    | MissingFields(labels: seq<string>)      // "Отсутствуют обязательные поля: ..."
    | PlaceholderFields(labels: seq<string>)  // "Необходимо заполнить реальные значения: ..."
    | NotADict                                // the TypeError of a document that is no object

  function VerdictOf(doc: Json): Verdict {
    match Scan(doc, Required, Unfilled)
    case None => NotADict
    case Some(acc) =>
      if acc.0 != [] then MissingFields(acc.0)
      else if acc.1 != [] then PlaceholderFields(acc.1)
      else Accepted
  }

  /** `_validate_config(config_data)` */
  method ValidateConfig(doc: Json) returns (v: Verdict)
    ensures v == VerdictOf(doc)
  {
    var missing: seq<string> := [];
    var placeholders: seq<string> := [];
    for i := 0 to |Required|
      invariant Scan(doc, Required[..i], Unfilled) == Some((missing, placeholders))
    {
      assert Required[..i + 1][..i] == Required[..i];
      var f := Required[i];
      var c := FieldCheck(doc, f.0);
      if c.TypeFailure? {
        ScanStaysRaised(Checks(doc), Required, Unfilled, i + 1);
        return NotADict;
      } else if c.Absent? {
        missing := missing + [Label(f)];
      } else if Unfilled(c.value) {
        placeholders := placeholders + [Label(f)];
      }
    }
    assert Required[..|Required|] == Required;
    if missing != [] {
      return MissingFields(missing);
    }
    if placeholders != [] {
      return PlaceholderFields(placeholders);
    }
    return Accepted;
  }

  /** The scan raises only when some field raises. */
  lemma {:induction false} ScanRaises(check: string -> Check, fields: seq<(string, string)>, unfilled: Json -> bool)
    ensures ScanWith(check, fields, unfilled).Some? <==> forall i :: 0 <= i < |fields| ==> !check(fields[i].0).TypeFailure?
    decreases |fields|
  {
    if fields != [] {
      var init := fields[..|fields| - 1];
      ScanRaises(check, init, unfilled);
      assert forall i :: 0 <= i < |init| ==> init[i] == fields[i];
    }
  }

  /** The scan finds nothing missing exactly when every field is present. */
  lemma {:induction false} ScanMissing(check: string -> Check, fields: seq<(string, string)>, unfilled: Json -> bool)
    requires ScanWith(check, fields, unfilled).Some?
    ensures ScanWith(check, fields, unfilled).value.0 == [] <==> forall i :: 0 <= i < |fields| ==> !check(fields[i].0).Absent?
    decreases |fields|
  {
    if fields != [] {
      var init := fields[..|fields| - 1];
      ScanMissing(check, init, unfilled);
      assert forall i :: 0 <= i < |init| ==> init[i] == fields[i];
    }
  }

  /** The field is present and its value is a placeholder. */
  predicate FieldUnfilled(c: Check, unfilled: Json -> bool) {
    c.Present? && unfilled(c.value)
  }

  /** The scan finds no placeholder exactly when every present field is
      filled in. */
  lemma {:induction false} ScanPlaceholders(check: string -> Check, fields: seq<(string, string)>, unfilled: Json -> bool)
    requires ScanWith(check, fields, unfilled).Some?
    ensures ScanWith(check, fields, unfilled).value.1 == [] <==> forall i :: 0 <= i < |fields| ==> !FieldUnfilled(check(fields[i].0), unfilled)
    decreases |fields|
  {
    if fields != [] {
      var init := fields[..|fields| - 1];
      var f := fields[|fields| - 1];
      ScanPlaceholders(check, init, unfilled);
      var acc := ScanWith(check, init, unfilled).value;
      assert ScanWith(check, fields, unfilled).value.1 == (if FieldUnfilled(check(f.0), unfilled) then acc.1 + [Label(f)] else acc.1);
      assert forall i :: 0 <= i < |init| ==> init[i] == fields[i];
    }
  }

  /** Once the scan has raised it stays raised. */
  lemma {:induction false} ScanStaysRaised(check: string -> Check, fields: seq<(string, string)>, unfilled: Json -> bool, k: nat)
    requires k <= |fields| && ScanWith(check, fields[..k], unfilled).None?
    ensures ScanWith(check, fields, unfilled).None?
    decreases |fields| - k
  {
    if k < |fields| {
      assert fields[..k + 1][..k] == fields[..k];
      ScanStaysRaised(check, fields, unfilled, k + 1);
    } else {
      assert fields[..k] == fields;
    }
  }

  /** The scan depends on the document only through the checks of the
      scanned names. */
  lemma {:induction false} ScanSameChecks(d: string -> Check, e: string -> Check, fields: seq<(string, string)>, unfilled: Json -> bool)
    requires forall i :: 0 <= i < |fields| ==> d(fields[i].0) == e(fields[i].0)
    ensures ScanWith(d, fields, unfilled) == ScanWith(e, fields, unfilled)
    decreases |fields|
  {
    if fields != [] {
      ScanSameChecks(d, e, fields[..|fields| - 1], unfilled);
    }
  }

  /** The configuration is accepted exactly when it is an object holding
      both required fields, and neither is a placeholder. */
  lemma AcceptedIff(doc: Json)
    ensures VerdictOf(doc) == Accepted <==>
              doc.JObject? &&
              forall i :: 0 <= i < |Required| ==>
                Lookup(doc.members, Required[i].0).Some? && !Unfilled(Lookup(doc.members, Required[i].0).value)
  {
    ScanRaises(Checks(doc), Required, Unfilled);
    if Scan(doc, Required, Unfilled).Some? {
      ScanMissing(Checks(doc), Required, Unfilled);
      ScanPlaceholders(Checks(doc), Required, Unfilled);
    }
    if !doc.JObject? {
      assert !FieldCheck(doc, Required[0].0).Present?;
    }
  }

  /** A missing field is reported before any placeholder, and the report
      names it. */
  lemma MissingReportedFirst(ms: seq<Member>, i: nat)
    requires i < |Required| && Lookup(ms, Required[i].0).None?
    ensures VerdictOf(JObject(ms)).MissingFields?
    ensures Label(Required[i]) in VerdictOf(JObject(ms)).labels
  {
    ScanRaises(Checks(JObject(ms)), Required, Unfilled);
    MissingListed(Checks(JObject(ms)), Required, Unfilled, i);
  }

  lemma {:induction false} MissingListed(check: string -> Check, fields: seq<(string, string)>, unfilled: Json -> bool, i: nat)
    requires i < |fields| && ScanWith(check, fields, unfilled).Some? && check(fields[i].0).Absent?
    ensures Label(fields[i]) in ScanWith(check, fields, unfilled).value.0
    decreases |fields|
  {
    var init := fields[..|fields| - 1];
    if i < |init| {
      assert init[i] == fields[i];
      MissingListed(check, init, unfilled, i);
    }
  }

  /** A document that is no object is never accepted. */
  lemma NonObjectRejected(doc: Json)
    requires !doc.JObject?
    ensures VerdictOf(doc) != Accepted
  {
    AcceptedIff(doc);
  }

  /** A key that is not required never changes the verdict. */
  lemma ExtraKeyIgnored(ms: seq<Member>, key: string, value: Json)
    requires forall i :: 0 <= i < |Required| ==> Required[i].0 != key
    ensures VerdictOf(JObject(ms + [Member(key, value)])) == VerdictOf(JObject(ms))
  {
    var ns := ms + [Member(key, value)];
    forall i | 0 <= i < |Required| ensures Checks(JObject(ns))(Required[i].0) == Checks(JObject(ms))(Required[i].0) {
      LookupOtherKey(ms, Member(key, value), Required[i].0);
    }
    ScanSameChecks(Checks(JObject(ns)), Checks(JObject(ms)), Required, Unfilled);
  }

  // ---------------------------------------------------------------------
  // load_config, get, get_config_status

  /** Why `load_config` raised `ConfigError`. */
  datatype LoadError =
    | ExampleUnreadable         // "Failed to create config from example: ..."
    | NotFound                  // "Файл конфигурации не найден: ..."
    | BadJson                   // "Ошибка парсинга JSON в ...: ..."
    | Rejected(verdict: Verdict) // "Ошибка загрузки конфигурации: ..." around the validation error

  datatype LoadResult = Loaded(data: Json) | LoadFailed(error: LoadError)

  /** `_create_config_from_example`: the files afterwards, or `None` when
      the example cannot be read. A configuration that exists is left
      alone. */
  function CreateFromExample(files: map<Path, FileContent>, config: Path, example: Path): Option<map<Path, FileContent>> {
    if config in files || example !in files then Some(files)
    else
      match files[example]
      case Unparsable => None
      case Document(j) => Some(files[config := Document(j)])
  }

  /** `load_config()`: the files afterwards and the outcome. */
  function LoadStep(files: map<Path, FileContent>, config: Path, example: Path): (map<Path, FileContent>, LoadResult) {
    match CreateFromExample(files, config, example)
    case None => (files, LoadFailed(ExampleUnreadable))
    case Some(fs) =>
      if config !in fs then (fs, LoadFailed(NotFound))
      else
        match fs[config]
        case Unparsable => (fs, LoadFailed(BadJson))
        case Document(doc) =>
          var v := VerdictOf(doc);
          if v == Accepted then (fs, Loaded(doc)) else (fs, LoadFailed(Rejected(v)))
  }

  /** Only an accepted object is ever loaded; an existing configuration
      file is never overwritten, and one is written only from the
      example. */
  lemma LoadStepSpec(files: map<Path, FileContent>, config: Path, example: Path)
    ensures var (fs, r) := LoadStep(files, config, example);
            (r.Loaded? ==> VerdictOf(r.data) == Accepted && r.data.JObject? && config in fs && fs[config] == Document(r.data)) &&
            (config in files ==> fs == files) &&
            (config !in files ==> fs == files || (example in files && fs == files[config := files[example]]))
  {
    var (fs, r) := LoadStep(files, config, example);
    if r.Loaded? {
      NonObjectRejectedContra(r.data);
    }
  }

  lemma NonObjectRejectedContra(doc: Json)
    requires VerdictOf(doc) == Accepted
    ensures doc.JObject?
  {
    AcceptedIff(doc);
  }

  /** On a fresh install the example is copied and then judged. */
  lemma FreshInstallCopiesExample(files: map<Path, FileContent>, config: Path, example: Path, j: Json)
    requires config !in files && example in files && files[example] == Document(j)
    ensures LoadStep(files, config, example).0 == files[config := Document(j)]
    ensures LoadStep(files, config, example).1 == (if VerdictOf(j) == Accepted then Loaded(j) else LoadFailed(Rejected(VerdictOf(j))))
  {
  }

  /** `config_data.get(key, default)` */
  function GetFrom(data: Json, key: string, default: Json): Json {
    if data.JObject? then
      match Lookup(data.members, key) case Some(v) => v case None => default
    else default
  }

  /** `len(config_data)`: the number of distinct keys. */
  function FieldsCount(ms: seq<Member>): nat {
    |set i | 0 <= i < |ms| :: ms[i].key|
  }

  /** `str(value).strip()` is not empty. */
  predicate NonBlank(v: Json) {
    !v.JString? || !IsBlank(v.text)
  }

  /** The `required_fields_ok` entry: every required field present with a
      value that is not blank. */
  predicate RequiredFieldsOk(data: Json) {
    data.JObject? &&
    forall i :: 0 <= i < |Required| ==>
      Lookup(data.members, Required[i].0).Some? && NonBlank(Lookup(data.members, Required[i].0).value)
  }

  /** A loaded configuration always has its required fields filled in. */
  lemma AcceptedFieldsOk(data: Json)
    requires VerdictOf(data) == Accepted
    ensures RequiredFieldsOk(data)
  {
    AcceptedIff(data);
    forall i | 0 <= i < |Required|
      ensures NonBlank(Lookup(data.members, Required[i].0).value)
    {
      var v := Lookup(data.members, Required[i].0).value;
      if v.JString? {
        StripEmptyIffBlank(v.text);
      }
    }
  }

  /** The dictionary `get_config_status` returns. */
  datatype ConfigStatus = ConfigStatus(
    configExists: bool, exampleExists: bool, configPath: Path, examplePath: Path,
    isConfigured: bool, error: Option<LoadError>,
    fieldsCount: Option<nat>, requiredFieldsOk: Option<bool>)

  /** `get_config_status()`: the files afterwards and the status; the two
      `exists` entries are taken before loading. */
  function StatusStep(files: map<Path, FileContent>, config: Path, example: Path): (map<Path, FileContent>, ConfigStatus) {
    var (fs, r) := LoadStep(files, config, example);
    var base := ConfigStatus(config in files, example in files, config, example, false, None, None, None);
    if r.Loaded? then
      (fs, base.(isConfigured := true,
                 fieldsCount := Some(if r.data.JObject? then FieldsCount(r.data.members) else 0),
                 requiredFieldsOk := Some(RequiredFieldsOk(r.data))))
    else (fs, base.(error := Some(r.error)))
  }

  /** `is_configured` is true exactly when loading succeeds, and then the
      required fields are reported filled in and no error is given. */
  lemma StatusConfiguredIffLoaded(files: map<Path, FileContent>, config: Path, example: Path)
    ensures var s := StatusStep(files, config, example).1;
            (s.isConfigured <==> LoadStep(files, config, example).1.Loaded?) &&
            (s.isConfigured ==> s.requiredFieldsOk == Some(true) && s.error.None?) &&
            (!s.isConfigured ==> s.error.Some?)
  {
    var r := LoadStep(files, config, example).1;
    if r.Loaded? {
      LoadStepSpec(files, config, example);
      AcceptedFieldsOk(r.data);
    }
  }

  /** On a fresh install with a filled-in example, the status says the
      configuration file did not exist and yet is configured. */
  lemma FreshInstallStatus(files: map<Path, FileContent>, config: Path, example: Path, j: Json)
    requires config !in files && example in files && files[example] == Document(j)
    requires VerdictOf(j) == Accepted
    ensures !StatusStep(files, config, example).1.configExists
    ensures StatusStep(files, config, example).1.isConfigured
  {
    FreshInstallCopiesExample(files, config, example, j);
  }

  /** The file system the configuration lives on. */
  class Disk {
    var files: map<Path, FileContent>

    constructor (files: map<Path, FileContent>)
      ensures this.files == files
    {
      this.files := files;
    }
  }

  /** `SimpleConfig`: the two paths and the cached data. */
  class SimpleConfig {
    const configPath: Path
    const examplePath: Path
    var configData: Option<Json>

    /** Only an accepted configuration is ever cached. */
    predicate Valid()
      reads this
    {
      configData.Some? ==> VerdictOf(configData.value) == Accepted
    }

    /** `SimpleConfig(config_path)`; a path without a name makes
        `with_name` raise, so the path has at least one name. */
    constructor (configPath: Path)
      requires |configPath| > 0
      ensures this.configPath == configPath && examplePath == ExamplePath(configPath)
      ensures configData == None && Valid()
    {
      this.configPath := configPath;
      this.examplePath := ExamplePath(configPath);
      configData := None;
    }

    /** `_create_config_from_example()`; false when it raises. */
    method CreateConfigFromExample(disk: Disk) returns (ok: bool)
      modifies disk
      ensures var c := CreateFromExample(old(disk.files), configPath, examplePath);
              ok == c.Some? && disk.files == (if c.Some? then c.value else old(disk.files))
    {
      if configPath in disk.files {
        return true;
      }
      if examplePath !in disk.files {
        return true;
      }
      var example := disk.files[examplePath];
      if example.Unparsable? {
        return false;
      }
      disk.files := disk.files[configPath := example];
      return true;
    }

    /** `load_config()`: the data is cached only after it was accepted. */
    method LoadConfig(disk: Disk) returns (r: LoadResult)
      requires Valid()
      modifies this, disk
      ensures (disk.files, r) == LoadStep(old(disk.files), configPath, examplePath)
      ensures configData == (if r.Loaded? then Some(r.data) else old(configData))
      ensures Valid()
    {
      var ok := CreateConfigFromExample(disk);
      if !ok {
        return LoadFailed(ExampleUnreadable);
      }
      if configPath !in disk.files {
        return LoadFailed(NotFound);
      }
      var content := disk.files[configPath];
      if content.Unparsable? {
        return LoadFailed(BadJson);
      }
      var v := ValidateConfig(content.value);
      if v != Accepted {
        return LoadFailed(Rejected(v));
      }
      configData := Some(content.value);
      return Loaded(content.value);
    }

    /** `get(key, default)`: loads on first use; a failed load gives the
        default and leaves nothing cached, so the next call tries again;
        cached data is used without touching the files. */
    method Get(disk: Disk, key: string, default: Json) returns (r: Json)
      requires Valid()
      modifies this, disk
      ensures old(configData).Some? ==>
                r == GetFrom(old(configData).value, key, default) &&
                configData == old(configData) && disk.files == old(disk.files)
      ensures old(configData).None? ==>
                var (fs, l) := LoadStep(old(disk.files), configPath, examplePath);
                disk.files == fs &&
                (l.Loaded? ==> configData == Some(l.data) && r == GetFrom(l.data, key, default)) &&
                (!l.Loaded? ==> configData == None && r == default)
      ensures Valid()
    {
      if configData.None? {
        var l := LoadConfig(disk);
        if !l.Loaded? {
          return default;
        }
        configData := Some(l.data);
      }
      r := GetFrom(configData.value, key, default);
    }

    /** `is_configured()` */
    method IsConfigured(disk: Disk) returns (b: bool)
      requires Valid()
      modifies this, disk
      ensures b == LoadStep(old(disk.files), configPath, examplePath).1.Loaded?
      ensures disk.files == LoadStep(old(disk.files), configPath, examplePath).0
      ensures var l := LoadStep(old(disk.files), configPath, examplePath).1;
              configData == (if l.Loaded? then Some(l.data) else old(configData))
      ensures Valid()
    {
      var l := LoadConfig(disk);
      b := l.Loaded?;
    }

    /** `get_config_status()` */
    method GetConfigStatus(disk: Disk) returns (status: ConfigStatus)
      requires Valid()
      modifies this, disk
      ensures (disk.files, status) == StatusStep(old(disk.files), configPath, examplePath)
      ensures var l := LoadStep(old(disk.files), configPath, examplePath).1;
              configData == (if l.Loaded? then Some(l.data) else old(configData))
      ensures Valid()
    {
      status := ConfigStatus(configPath in disk.files, examplePath in disk.files, configPath, examplePath,
                             false, None, None, None);
      var l := LoadConfig(disk);
      if l.Loaded? {
        var count := if l.data.JObject? then FieldsCount(l.data.members) else 0;
        status := status.(isConfigured := true, fieldsCount := Some(count),
                          requiredFieldsOk := Some(RequiredFieldsOk(l.data)));
      } else {
        status := status.(error := Some(l.error));
      }
    }
  }
}
