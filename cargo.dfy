/** Discovery of the Cargo packages that a set of changed files belongs
    to (the `cargo_targets` input). Reading and parsing a manifest is the
    host's `manifest` oracle: the package name of the `Cargo.toml` at a
    path, when it can be read and names a package. */
module Cargo {
  import opened Wrappers
  import Text
  import opened Paths

  type Manifests = Path -> Option<string>

  const CARGO_TOML := "Cargo.toml"

  /** The search `find_cargo_toml` performs, one directory at a time. */
  function SearchUpward(top: Path, dir: Path, manifest: Manifests): Option<string>
    decreases |dir|
  {
    var candidate := dir + [CARGO_TOML];
    if !StartsWith(candidate, top) then None
    else if manifest(candidate).Some? then manifest(candidate)
    else match Parent(dir)
      case None => None
      case Some(up) => SearchUpward(top, up, manifest)
  }

  /** `find_cargo_toml`: walks from `dir` towards the root while the
      manifest candidate stays under `top`. */
  method FindCargoToml(top: Path, dir: Path, manifest: Manifests) returns (r: Option<string>)
    ensures r == SearchUpward(top, dir, manifest)
  {
    var d := dir;
    while true
      invariant SearchUpward(top, d, manifest) == SearchUpward(top, dir, manifest)
      decreases |d|
    {
      var candidate := d + [CARGO_TOML];
      if !StartsWith(candidate, top) {
        return None;
      }
      var target := manifest(candidate);
      if target.Some? {
        return target;
      }
      var up := Parent(d);
      if up.None? {
        return None;
      }
      d := up.value;
    }
  }

  /** The ancestor `dir[..k]` of `dir` (for `k` from `|dir|` down) that
      the walk reaches: it stays under `top` from `dir` up to there,
      and no manifest closer to `dir` names a package. */
  predicate Reaches(top: Path, dir: Path, k: nat, manifest: Manifests)
    requires k <= |dir|
  {
    (forall j :: k <= j <= |dir| ==> StartsWith(dir[..j] + [CARGO_TOML], top))
    && (forall j :: k < j <= |dir| ==> manifest(dir[..j] + [CARGO_TOML]).None?)
  }

  /** Reaching an ancestor from `dir` is passing `dir` itself without a
      package and then reaching it from the parent. */
  lemma ReachesStep(top: Path, dir: Path, manifest: Manifests, k: nat)
    requires k < |dir|
    ensures Reaches(top, dir, k, manifest) <==>
      (StartsWith(dir + [CARGO_TOML], top) && manifest(dir + [CARGO_TOML]).None?
       && Reaches(top, dir[..|dir| - 1], k, manifest))
  {
    var up := dir[..|dir| - 1];
    assert dir[..|dir|] == dir;
    forall j | 0 <= j <= |up| ensures up[..j] == dir[..j] { }
  }

  /** Skipping the directories the walk passes without a package: from
      any ancestor it reaches, the walk continues the same way. */
  lemma {:induction false} SearchSkips(top: Path, dir: Path, manifest: Manifests, k: nat)
    requires MinK(dir) <= k <= |dir| && Reaches(top, dir, k, manifest)
    ensures SearchUpward(top, dir, manifest) == SearchUpward(top, dir[..k], manifest)
    decreases |dir|
  {
    assert dir[..|dir|] == dir;
    if k < |dir| {
      var up := dir[..|dir| - 1];
      ReachesStep(top, dir, manifest, k);
      assert Parent(dir) == Some(up);
      assert up[..k] == dir[..k];
      assert |up| > 0 ==> up[0] == dir[0];
      assert SearchUpward(top, dir, manifest) == SearchUpward(top, up, manifest);
      SearchSkips(top, up, manifest, k);
    }
  }

  /** Where the walk took its package from. */
  predicate FoundAt(top: Path, dir: Path, manifest: Manifests, k: nat, name: string) {
    MinK(dir) <= k <= |dir| && Reaches(top, dir, k, manifest)
    && manifest(dir[..k] + [CARGO_TOML]) == Some(name)
  }

  /** A package found by the walk comes from an ancestor it reaches. */
  lemma {:induction false} SearchFinds(top: Path, dir: Path, manifest: Manifests, name: string)
    requires SearchUpward(top, dir, manifest) == Some(name)
    ensures exists k :: FoundAt(top, dir, manifest, k, name)
    decreases |dir|
  {
    assert dir[..|dir|] == dir;
    var candidate := dir + [CARGO_TOML];
    if manifest(candidate).Some? {
      assert Reaches(top, dir, |dir|, manifest);
      assert FoundAt(top, dir, manifest, |dir|, name);
    } else {
      var up := dir[..|dir| - 1];
      assert Parent(dir) == Some(up);
      SearchFinds(top, up, manifest, name);
      var k: nat :| FoundAt(top, up, manifest, k, name);
      ReachesStep(top, dir, manifest, k);
      assert up[..k] == dir[..k];
      assert |up| > 0 ==> up[0] == dir[0];
      assert FoundAt(top, dir, manifest, k, name);
    }
  }

  /** The nearest ancestor's package: the walk yields a package name
      exactly when some ancestor it reaches names it. A relative `dir`
      can reach the empty path, an absolute one stops at the root. */
  lemma SearchIsNearest(top: Path, dir: Path, manifest: Manifests, name: string)
    ensures SearchUpward(top, dir, manifest) == Some(name) <==>
      exists k :: FoundAt(top, dir, manifest, k, name)
  {
    if SearchUpward(top, dir, manifest) == Some(name) {
      SearchFinds(top, dir, manifest, name);
    }
    forall k | FoundAt(top, dir, manifest, k, name)
      ensures SearchUpward(top, dir, manifest) == Some(name)
    {
      SearchSkips(top, dir, manifest, k);
    }
  }

  /** The shortest ancestor the walk can reach: the root of an absolute
      path, the empty path of a relative one. */
  function MinK(dir: Path): nat {
    if |dir| > 0 && dir[0] == "/" then 1 else 0
  }

  /** `find_cargo_target`: a manifest names its own package, a Rust
      source file belongs to the nearest package above it, anything
      else to none. */
  function FindCargoTarget(top: Path, path: Path, manifest: Manifests): Option<string> {
    match FileName(path)
    case None => None
    case Some(f) =>
      if f == CARGO_TOML then manifest(path)
      else if Text.EndsWith(f, ".rs") then SearchUpward(top, Parent(path).value, manifest)
      else None
  }

  /** Only a manifest or a `.rs` file can belong to a package. */
  lemma TargetNeedsKnownFile(top: Path, path: Path, manifest: Manifests)
    requires FindCargoTarget(top, path, manifest).Some?
    ensures |path| > 0
    ensures path[|path| - 1] == CARGO_TOML || Text.EndsWith(path[|path| - 1], ".rs")
  {
  }

  /** The package names some of `files` belong to. */
  predicate IsTarget(top: Path, files: seq<Path>, manifest: Manifests, name: string) {
    exists i :: 0 <= i < |files| && FindCargoTarget(top, files[i], manifest) == Some(name)
  }

  /** The set `find_cargo_targets` fills first: the package of every
      file that belongs to one. */
  method TargetSet(top: Path, files: seq<Path>, manifest: Manifests) returns (found: set<string>)
    ensures forall n :: n in found <==> IsTarget(top, files, manifest, n)
  {
    found := {};
    for i := 0 to |files|
      invariant forall n :: n in found <==> IsTarget(top, files[..i], manifest, n)
    {
      var t := FindCargoTarget(top, files[i], manifest);
      if t.Some? {
        found := found + {t.value};
      }
      forall n ensures n in found <==> IsTarget(top, files[..i + 1], manifest, n) {
        assert forall j :: 0 <= j < i ==> files[..i + 1][j] == files[..i][j];
        assert files[..i + 1][i] == files[i];
      }
    }
    assert files[..|files|] == files;
  }

  /** The names of a set, sorted and without duplicates. */
  method SortedNames(found: set<string>) returns (names: seq<string>)
    ensures Text.StrictlySorted(names)
    ensures forall n :: n in names <==> n in found
  {
    names := [];
    var rest := found;
    while rest != {}
      invariant Text.StrictlySorted(names)
      invariant forall n :: n in names || n in rest <==> n in found
      decreases |rest|
    {
      var n :| n in rest;
      names := Text.Insert(n, names);
      rest := rest - {n};
    }
  }

  /** `find_cargo_targets`: the package names of all files, without
      duplicates and sorted, each turned into a path. */
  method FindCargoTargets(top: Path, files: seq<Path>, manifest: Manifests)
    returns (names: seq<string>, targets: seq<Path>)
    ensures Text.StrictlySorted(names)
    ensures forall n :: n in names <==> IsTarget(top, files, manifest, n)
    ensures |targets| == |names|
    ensures forall i :: 0 <= i < |names| ==> targets[i] == FromText(names[i])
  {
    var found := TargetSet(top, files, manifest);
    names := SortedNames(found);
    targets := [];
    for i := 0 to |names|
      invariant |targets| == i
      invariant forall j :: 0 <= j < i ==> targets[j] == FromText(names[j])
    {
      targets := targets + [FromText(names[i])];
    }
  }
}
