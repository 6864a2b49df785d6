/** File-system paths as sequences of components, with the `std::path`
    operations the program relies on, and the glob library as a host
    oracle. */
module Paths {
  import opened Wrappers
  import Text

  /** A path as its components; an absolute path starts with the
      component "/". */
  type Path = seq<string>

  /** `Path::starts_with`: component-wise prefix. */
  predicate StartsWith(p: Path, base: Path) {
    |base| <= |p| && p[..|base|] == base
  }

  /** `Path::strip_prefix`. */
  function StripPrefix(p: Path, base: Path): (r: Option<Path>)
    ensures r.Some? <==> StartsWith(p, base)
    ensures r.Some? ==> base + r.value == p
  {
    if StartsWith(p, base) then Some(p[|base|..]) else None
  }

  /** `Path::parent`: none for the empty path and for the root. */
  function Parent(p: Path): (r: Option<Path>)
    ensures r.Some? <==> |p| > 0 && p != ["/"]
    ensures r.Some? ==> r.value + [p[|p| - 1]] == p
  {
    if |p| == 0 || p == ["/"] then None else Some(p[..|p| - 1])
  }

  /** `Path::file_name`: the last component, none for the root and for
      a path ending in `..` or consisting of `.` alone. */
  function FileName(p: Path): (r: Option<string>)
    ensures r.None? <==> |p| == 0 || p[|p| - 1] in {"/", "..", "."}
    ensures r.Some? ==> |p| > 0 && r.value == p[|p| - 1] && Parent(p).Some?
  {
    if |p| == 0 || p[|p| - 1] == "/" || p[|p| - 1] == ".." || p[|p| - 1] == "." then None else Some(p[|p| - 1])
  }

  /** A component as `Path::components` yields it after the first: not
      empty, not `.`, and no separator inside. */
  predicate NormalComponent(c: string) {
    c != "" && c != "." && '/' !in c
  }

  /** What `Path::components` yields: the root "/" or a leading "." may
      only come first. */
  predicate Normalized(p: Path) {
    forall i :: 0 <= i < |p| ==> NormalComponent(p[i]) || (i == 0 && (p[i] == "/" || p[i] == "."))
  }

  /** Text of a path (`to_string_lossy`, `into_os_string`). */
  function ToText(p: Path): string {
    if |p| > 0 && p[0] == "/" then "/" + Text.Join(p[1..], "/")
    else Text.Join(p, "/")
  }

  /** The pieces of a `/`-separated text that are components, in order:
      empty pieces (doubled or trailing separators) and `.` vanish. */
  function Kept(parts: seq<string>): (r: seq<string>)
    ensures forall i :: 0 <= i < |r| ==> r[i] != "" && r[i] != "."
    ensures forall x :: x in r ==> x in parts
  {
    if |parts| == 0 then []
    else if parts[0] == "" || parts[0] == "." then Kept(parts[1..])
    else [parts[0]] + Kept(parts[1..])
  }

  /** The components of a text, as `Path::components` reads them: a
      leading `/` is the root, a leading `.` piece of a relative path
      stays, and every other empty or `.` piece vanishes. */
  function FromText(s: string): (p: Path)
    ensures Normalized(p)
  {
    var pieces := Text.Split(s, '/');
    assert forall x :: x in pieces ==> '/' !in x;
    if |s| > 0 && s[0] == '/' then ["/"] + Kept(pieces)
    else if pieces[0] == "." then ["."] + Kept(pieces[1..])
    else Kept(pieces)
  }

  /** A `.` between two components is not a component of its own. */
  lemma InteriorDotDropped(a: string, b: string)
    requires NormalComponent(a) && NormalComponent(b)
    ensures FromText(a + "/./" + b) == [a, b]
  {
    var s := a + "/./" + b;
    var parts := [a, ".", b];
    var tail := [".", b];
    assert parts[1..] == tail && tail[1..] == [b];
    assert Text.Join(tail, "/") == "./" + b;
    assert Text.Join(parts, "/") == a + "/" + Text.Join(tail, "/");
    assert a + "/" + ("./" + b) == s;
    Text.SplitJoin(parts, '/');
    assert s[0] == a[0];
    KeptIdentity([b]);
    assert Kept(tail) == Kept([b]);
    assert Kept(parts) == [a] + Kept(tail);
  }

  /** A relative path that starts with `.` keeps it as its first
      component. */
  lemma LeadingDotKept(a: string)
    requires NormalComponent(a)
    ensures FromText("./" + a) == [".", a]
  {
    var s := "./" + a;
    var parts := [".", a];
    assert parts[1..] == [a];
    assert Text.Join(parts, "/") == s;
    Text.SplitJoin(parts, '/');
    assert s[0] == '.';
    KeptIdentity([a]);
  }

  /** A path ending in `/.` is named by the component before the `.`. */
  lemma TrailingDotNamesParent(a: string)
    requires NormalComponent(a) && a != ".."
    ensures FromText(a + "/.") == [a]
    ensures FileName(FromText(a + "/.")) == Some(a)
  {
    var s := a + "/.";
    var parts := [a, "."];
    assert parts[1..] == ["."];
    assert Text.Join(parts, "/") == s;
    Text.SplitJoin(parts, '/');
    assert s[0] == a[0];
    assert Kept(["."]) == Kept([]) == [];
    assert Kept(parts) == [a] + Kept(parts[1..]);
    assert FromText(s) == [a];
  }

  lemma {:induction false} KeptIdentity(parts: seq<string>)
    requires forall i :: 0 <= i < |parts| ==> NormalComponent(parts[i])
    ensures Kept(parts) == parts
  {
    if |parts| > 0 { KeptIdentity(parts[1..]); }
  }

  lemma JoinStartsWithFirst(parts: seq<string>, sep: string)
    requires |parts| > 0
    ensures Text.StartsWith(Text.Join(parts, sep), parts[0])
  {
    if |parts| > 1 {
      assert Text.Join(parts, sep) == parts[0] + (sep + Text.Join(parts[1..], sep));
    }
  }

  /** A leading separator splits off one empty piece. */
  lemma SplitLeadingSeparator(t: string)
    ensures Text.Split("/" + t, '/') == [""] + Text.Split(t, '/')
  {
    var s := "/" + t;
    assert Text.IndexOf(s, '/') == 0;
    assert s[1..] == t;
  }

  /** Joining components free of separators and splitting again gives
      the components, and the empty path a single empty piece. */
  lemma SplitJoined(p: Path)
    requires forall i :: 0 <= i < |p| ==> '/' !in p[i]
    ensures Text.Split(Text.Join(p, "/"), '/') == if |p| == 0 then [""] else p
  {
    if |p| > 0 {
      Text.SplitJoin(p, '/');
    } else {
      assert Text.Split("", '/') == [""];
    }
  }

  /** After its first component, a normalized path has only normal ones. */
  lemma RestNormal(p: Path)
    requires Normalized(p) && |p| > 0
    ensures forall i :: 0 <= i < |p[1..]| ==> NormalComponent(p[1..][i])
  {
    forall i | 0 <= i < |p[1..]| ensures NormalComponent(p[1..][i]) {
      assert p[1..][i] == p[i + 1];
    }
  }

  lemma RootedRoundTrip(p: Path)
    requires Normalized(p) && |p| > 0 && p[0] == "/"
    ensures FromText(ToText(p)) == p
  {
    var rest := p[1..];
    var t := Text.Join(rest, "/");
    RestNormal(p);
    SplitLeadingSeparator(t);
    var pieces := Text.Split(t, '/');
    assert ([""] + pieces)[1..] == pieces;
    assert Kept([""] + pieces) == Kept(pieces);
    SplitJoined(rest);
    KeptIdentity(rest);
    assert Kept([""]) == [];
    assert p == ["/"] + rest;
  }

  lemma DotRoundTrip(p: Path)
    requires Normalized(p) && |p| > 0 && p[0] == "."
    ensures FromText(ToText(p)) == p
  {
    var rest := p[1..];
    RestNormal(p);
    SplitJoined(p);
    KeptIdentity(rest);
    JoinStartsWithFirst(p, "/");
    assert ToText(p)[0] == '.';
    assert p == ["."] + rest;
  }

  lemma RelativeRoundTrip(p: Path)
    requires Normalized(p) && (|p| == 0 || (p[0] != "/" && p[0] != "."))
    ensures FromText(ToText(p)) == p
  {
    SplitJoined(p);
    KeptIdentity(p);
    if |p| > 0 {
      JoinStartsWithFirst(p, "/");
      assert ToText(p)[0] == p[0][0];
    } else {
      assert Kept([""]) == [];
    }
  }

  /** Printing a normalized path and reading it back gives the path. */
  lemma TextRoundTrip(p: Path)
    requires Normalized(p)
    ensures FromText(ToText(p)) == p
  {
    if |p| > 0 && p[0] == "/" {
      RootedRoundTrip(p);
    } else if |p| > 0 && p[0] == "." {
      DotRoundTrip(p);
    } else {
      RelativeRoundTrip(p);
    }
  }

  /** The elements of `ps` that `keep` accepts, in their order. */
  function FilterPaths(ps: seq<Path>, keep: Path -> bool): (r: seq<Path>)
    ensures |r| <= |ps|
    ensures forall p :: p in r <==> p in ps && keep(p)
  {
    if |ps| == 0 then []
    else if keep(ps[0]) then [ps[0]] + FilterPaths(ps[1..], keep)
    else FilterPaths(ps[1..], keep)
  }

  /** Filtering distributes over concatenation, so the kept paths keep
      the relative order they had. */
  lemma {:induction false} FilterAppend(a: seq<Path>, b: seq<Path>, keep: Path -> bool)
    ensures FilterPaths(a + b, keep) == FilterPaths(a, keep) + FilterPaths(b, keep)
  {
    if |a| > 0 {
      assert (a + b)[1..] == a[1..] + b;
      FilterAppend(a[1..], b, keep);
    } else {
      assert a + b == b;
    }
  }

  /** The glob library as the host provides it: whether a pattern text
      compiles (`glob::Pattern::new`), and whether a compiled pattern
      matches a relative path with `require_literal_separator` set. */
  datatype Glob = Glob(compiles: string -> bool, matches: (string, Path) -> bool)

  /** True when some pattern of `patterns` matches `rel`. */
  predicate AnyMatches(glob: Glob, patterns: seq<string>, rel: Path) {
    exists i :: 0 <= i < |patterns| && glob.matches(patterns[i], rel)
  }
}
