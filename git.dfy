/** The git back end (`src/vcs/git.rs`). */
module Git {
  import opened Wrappers
  import Text
  import opened Paths
  import opened VcsOutput

  const NAME := "git"

  /** `slice::split` at zero bytes: the pieces between them, one more
      than there are zero bytes. */
  function ZeroSplit(output: seq<Text.Byte>): (r: seq<seq<Text.Byte>>)
    ensures |r| >= 1
    ensures forall i :: 0 <= i < |r| ==> 0 !in r[i]
  {
    if |output| == 0 then [[]]
    else if output[0] == 0 then [[]] + ZeroSplit(output[1..])
    else
      var rest := ZeroSplit(output[1..]);
      [[output[0]] + rest[0]] + rest[1..]
  }

  /** The pieces joined with zero bytes between them. */
  function ZeroJoin(parts: seq<seq<Text.Byte>>): seq<Text.Byte>
    requires |parts| >= 1
  {
    if |parts| == 1 then parts[0] else parts[0] + [0] + ZeroJoin(parts[1..])
  }

  /** Splitting loses nothing: joining the pieces gives the output back. */
  lemma {:induction false} ZeroSplitJoin(output: seq<Text.Byte>)
    ensures ZeroJoin(ZeroSplit(output)) == output
  {
    if |output| > 0 {
      var rest := ZeroSplit(output[1..]);
      ZeroSplitJoin(output[1..]);
      if output[0] == 0 {
        assert ([[]] + rest)[1..] == rest;
      } else {
        var r := [[output[0]] + rest[0]] + rest[1..];
        if |rest| > 1 {
          assert r[1..] == rest[1..];
          assert ZeroJoin(rest) == rest[0] + [0] + ZeroJoin(rest[1..]);
        }
      }
    }
  }

  /** A piece free of zero bytes followed by a zero byte is split off
      as it is. */
  lemma {:induction false} ZeroSplitFirst(a: seq<Text.Byte>, b: seq<Text.Byte>)
    requires 0 !in a
    ensures ZeroSplit(a + [0] + b) == [a] + ZeroSplit(b)
  {
    if |a| == 0 {
      assert a + [0] + b == [0] + b;
      assert ([0] + b)[1..] == b;
    } else {
      var w := a + [0] + b;
      assert w[1..] == a[1..] + [0] + b;
      ZeroSplitFirst(a[1..], b);
      assert [a[0]] + a[1..] == a;
    }
  }

  /** The pieces that are not empty, in order. */
  function NonEmptyPieces(parts: seq<seq<Text.Byte>>): (r: seq<seq<Text.Byte>>)
    ensures |r| <= |parts|
    ensures forall x :: x in r <==> x in parts && |x| > 0
  {
    if |parts| == 0 then []
    else if |parts[0]| == 0 then NonEmptyPieces(parts[1..])
    else [parts[0]] + NonEmptyPieces(parts[1..])
  }

  /** Names as `git diff -z` prints them: each followed by a zero byte. */
  function Terminated(names: seq<seq<Text.Byte>>): seq<Text.Byte> {
    if |names| == 0 then [] else names[0] + [0] + Terminated(names[1..])
  }

  /** Reading zero-terminated names back gives the names, provided none
      is empty or holds a zero byte. */
  lemma {:induction false} TerminatedRoundTrip(names: seq<seq<Text.Byte>>)
    requires forall i :: 0 <= i < |names| ==> |names[i]| > 0 && 0 !in names[i]
    ensures NonEmptyPieces(ZeroSplit(Terminated(names))) == names
  {
    if |names| == 0 {
      assert ZeroSplit([]) == [[]];
      assert NonEmptyPieces([[]]) == NonEmptyPieces([]);
    } else {
      ZeroSplitFirst(names[0], Terminated(names[1..]));
      TerminatedRoundTrip(names[1..]);
      var parts := [names[0]] + ZeroSplit(Terminated(names[1..]));
      assert parts[1..] == ZeroSplit(Terminated(names[1..]));
    }
  }

  /** `zero_split_files`: the non-empty zero-separated pieces, each read
      as a path through `output_to_string`. */
  function ZeroSplitFiles(output: seq<Text.Byte>, decode: Text.Decoder): (r: seq<Path>)
    ensures var pieces := NonEmptyPieces(ZeroSplit(output));
      |r| == |pieces|
      && forall i :: 0 <= i < |r| ==>
        (|pieces[i]| > 0 && 0 !in pieces[i] && r[i] == FromText(OutputText(decode, pieces[i])))
  {
    var pieces := NonEmptyPieces(ZeroSplit(output));
    assert forall i :: 0 <= i < |pieces| ==> pieces[i] in ZeroSplit(output);
    seq(|pieces|, i requires 0 <= i < |pieces| => FromText(OutputText(decode, pieces[i])))
  }

  const DIFF_PREFIX: seq<string> := ["diff", "--name-only", "--no-ext-diff", "-z"]

  /** The revisions `changed_files` appends to `git diff`. */
  function RevisionArgs(from: Option<string>, to: Option<string>): seq<string> {
    match (from, to)
    case (None, None) => []
    case (Some(f), None) => [f]
    case (None, Some(t)) => [t + "~", t]
    case (Some(f), Some(t)) => [f, t]
  }

  /** The range the revision arguments name: a given `from` comes first,
      a given `to` last, and `to` alone compares with its parent `to~`. */
  lemma RevisionArgsRange(from: Option<string>, to: Option<string>)
    ensures var r := RevisionArgs(from, to);
      && |r| == (if to.Some? then 2 else if from.Some? then 1 else 0)
      && (from.Some? ==> r[0] == from.value)
      && (to.Some? ==> r[|r| - 1] == to.value)
      && (from.None? && to.Some? ==> r[0] == to.value + "~")
  {
  }

  /** The argument vector `changed_files` builds, one push at a time. */
  method DiffArgs(from: Option<string>, to: Option<string>) returns (args: seq<string>)
    ensures args == DIFF_PREFIX + RevisionArgs(from, to)
  {
    args := ["diff", "--name-only", "--no-ext-diff", "-z"];
    match (from, to) {
      case (None, None) =>
      case (Some(f), None) =>
        args := args + [f];
      case (None, Some(t)) =>
        args := args + [t + "~"];
        args := args + [t];
      case (Some(f), Some(t)) =>
        args := args + [f];
        args := args + [t];
    }
  }

  /** What `changed_files` makes of git's outcome: a failed exit gives
      no files rather than an error. */
  function DiffResult(output: Option<Output>, decode: Text.Decoder): (r: VcsResult<seq<Path>>)
    ensures r.Failed? <==> output.None?
    ensures r.Failed? ==> r.failure == Message("Failed to run git")
    ensures output.Some? && !output.value.success ==> r == Found([])
    ensures output.Some? && output.value.success ==> r == Found(ZeroSplitFiles(output.value.stdout, decode))
  {
    match output
    case None => Failed(Message("Failed to run git"))
    case Some(o) => if o.success then Found(ZeroSplitFiles(o.stdout, decode)) else Found([])
  }

  /** `Git::changed_files`. */
  function ChangedFiles(dir: Path, from: Option<string>, to: Option<string>, runner: Runner, decode: Text.Decoder)
    : VcsResult<seq<Path>>
  {
    DiffResult(runner(NAME, DIFF_PREFIX + RevisionArgs(from, to), dir), decode)
  }

  const ROOT_ARGS: seq<string> := ["rev-parse", "--show-toplevel"]

  /** `Git::repository_root`: the printed top level, exactly when git
      ran and succeeded. */
  function RepositoryRoot(dir: Path, runner: Runner, decode: Text.Decoder): (r: Option<Path>)
    ensures var o := runner(NAME, ROOT_ARGS, dir);
      && (r.Some? <==> o.Some? && o.value.success)
      && (r.Some? ==> r.value == FromText(OutputText(decode, o.value.stdout)))
  {
    match runner(NAME, ROOT_ARGS, dir)
    case None => None
    case Some(o) => if o.success then Some(FromText(OutputText(decode, o.stdout))) else None
  }
}
