/** Locating bundled resources: the project root found by walking up from
    the module's own directory (or the PyInstaller bundle directory when
    frozen), and the choice between `base/kind/filename` and
    `base/filename`. Paths are sequences of segments from the filesystem
    root, which is the empty path; the filesystem is the predicate
    `isPresent` (`Path.exists()`). */
module ResourcePaths {

  type Path = seq<string>

  /** `Path.parent`: the root is its own parent. */
  function Parent(p: Path): Path {
    if |p| == 0 then p else p[..|p| - 1]
  }

  /** Only the filesystem root is its own parent, so the walk's guard
      `project_root.parent != project_root` fails exactly at the root. */
  lemma ParentFixedIffRoot(p: Path)
    ensures Parent(p) == p <==> p == []
  {
    if p != [] {
      assert |Parent(p)| < |p|;
    }
  }

  /** A project root holds both a `src` and an `assets` entry. */
  predicate IsProjectRoot(isPresent: Path -> bool, p: Path) {
    isPresent(p + ["src"]) && isPresent(p + ["assets"])
  }

  /** The nearest project root among `p` and its ancestors other than the
      filesystem root, or the filesystem root when there is none: the root
      itself is never inspected. */
  function NearestRoot(isPresent: Path -> bool, p: Path): (r: Path)
    ensures r <= p
    ensures r == [] || IsProjectRoot(isPresent, r)
    ensures forall k :: |r| < k <= |p| ==> !IsProjectRoot(isPresent, p[..k])
    decreases |p|
  {
    if |p| == 0 then p
    else if IsProjectRoot(isPresent, p) then p
    else
      var q := NearestRoot(isPresent, p[..|p| - 1]);
      assert forall k :: |q| < k <= |p| - 1 ==> p[..|p| - 1][..k] == p[..k];
      assert p[..|p|] == p;
      q
  }

  /** The three properties of `NearestRoot` determine it: any ancestor of
      `p` that is a project root (or the filesystem root) with no project
      root strictly between it and `p` is `NearestRoot`. */
  lemma {:induction false} NearestRootUnique(isPresent: Path -> bool, p: Path, r: Path)
    requires r <= p
    requires r == [] || IsProjectRoot(isPresent, r)
    requires forall k :: |r| < k <= |p| ==> !IsProjectRoot(isPresent, p[..k])
    ensures r == NearestRoot(isPresent, p)
    decreases |p|
  {
    if |p| > 0 && |r| < |p| {
      assert p[..|p|] == p;
      var up := p[..|p| - 1];
      assert r <= up by { assert r == p[..|r|] == up[..|r|]; }
      forall k | |r| < k <= |up| ensures !IsProjectRoot(isPresent, up[..k]) {
        assert up[..k] == p[..k];
      }
      NearestRootUnique(isPresent, up, r);
    } else if |p| > 0 {
      assert r == p;
    }
  }

  /** The walk of `get_resource_path`: start at the directory holding the
      module file and go up until a directory with both `src` and `assets`
      is found or the filesystem root is reached. */
  method FindProjectRoot(isPresent: Path -> bool, moduleFile: Path) returns (root: Path)
    ensures root == NearestRoot(isPresent, Parent(moduleFile))
  {
    root := Parent(moduleFile);
    while Parent(root) != root
      invariant NearestRoot(isPresent, root) == NearestRoot(isPresent, Parent(moduleFile))
      decreases |root|
    {
      if isPresent(root + ["src"]) && isPresent(root + ["assets"]) {
        break;
      }
      root := Parent(root);
    }
    ParentFixedIffRoot(root);
  }

  /** The directory resources are looked up in: the bundle directory
      (`sys._MEIPASS`) when frozen, the project root otherwise. */
  function BaseDir(frozen: bool, bundleDir: Path, isPresent: Path -> bool, moduleFile: Path): Path {
    if frozen then bundleDir else NearestRoot(isPresent, Parent(moduleFile))
  }

  /** The candidate chosen under `base`: `base/kind/filename` when present,
      else `base/filename` when present, else `base/kind/filename`. */
  function Resolve(isPresent: Path -> bool, base: Path, kind: string, filename: string): (r: Path)
    ensures r == base + [kind, filename] || r == base + [filename]
    ensures isPresent(r) <==> isPresent(base + [kind, filename]) || isPresent(base + [filename])
    ensures isPresent(base + [kind, filename]) || !isPresent(base + [filename]) ==> r == base + [kind, filename]
  {
    var typed := base + [kind, filename];
    if isPresent(typed) then typed
    else
      var fallback := base + [filename];
      if isPresent(fallback) then fallback
      else typed
  }

  /** `get_resource_path(filename, kind)`. */
  method GetResourcePath(frozen: bool, bundleDir: Path, isPresent: Path -> bool, moduleFile: Path,
                         filename: string, kind: string) returns (r: Path)
    ensures r == Resolve(isPresent, BaseDir(frozen, bundleDir, isPresent, moduleFile), kind, filename)
  {
    var base;
    if frozen {
      base := bundleDir;
    } else {
      base := FindProjectRoot(isPresent, moduleFile);
    }
    r := Resolve(isPresent, base, kind, filename);
  }

  /** `get_config_path(filename)`. */
  method GetConfigPath(frozen: bool, bundleDir: Path, isPresent: Path -> bool, moduleFile: Path,
                       filename: string) returns (r: Path)
    ensures r == Resolve(isPresent, BaseDir(frozen, bundleDir, isPresent, moduleFile), "config", filename)
  {
    r := GetResourcePath(frozen, bundleDir, isPresent, moduleFile, filename, "config");
  }

  /** `get_asset_path(filename)`. */
  method GetAssetPath(frozen: bool, bundleDir: Path, isPresent: Path -> bool, moduleFile: Path,
                      filename: string) returns (r: Path)
    ensures r == Resolve(isPresent, BaseDir(frozen, bundleDir, isPresent, moduleFile), "assets", filename)
  {
    r := GetResourcePath(frozen, bundleDir, isPresent, moduleFile, filename, "assets");
  }
}
