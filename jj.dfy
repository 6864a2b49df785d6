/** The jj back end (`src/vcs/jj.rs`). */
module Jj {
  import opened Wrappers
  import Text
  import opened Paths
  import opened VcsOutput

  const NAME := "jj"

  /** The `--from` flag: the given revision, else the parent of the
      working copy. */
  function FromFlag(from: Option<string>): (r: string)
    ensures Text.StartsWith(r, "--from=")
    ensures r[|"--from="|..] == if from.Some? then from.value else "@-"
  {
    "--from=" + (if from.Some? then from.value else "@-")
  }

  /** The `--to` flag: the given revision, else the working copy. */
  function ToFlag(to: Option<string>): (r: string)
    ensures Text.StartsWith(r, "--to=")
    ensures r[|"--to="|..] == if to.Some? then to.value else "@"
  {
    "--to=" + (if to.Some? then to.value else "@")
  }

  function InterdiffArgs(from: Option<string>, to: Option<string>): seq<string> {
    ["--color=never", "interdiff", "-s", FromFlag(from), ToFlag(to)]
  }

  /** A status line names a path that still exists: longer than the
      two-character status and not a deletion. */
  predicate KeptLine(line: string) {
    |line| > 2 && line[..2] != "D "
  }

  /** Some kept line of `lines` names `p`. */
  predicate LineNames(lines: seq<string>, p: Path) {
    exists i :: 0 <= i < |lines| && KeptLine(lines[i]) && p == FromText(lines[i][2..])
  }

  lemma LineNamesStep(lines: seq<string>, p: Path)
    requires |lines| > 0
    ensures LineNames(lines, p) <==>
      (KeptLine(lines[0]) && p == FromText(lines[0][2..])) || LineNames(lines[1..], p)
  {
    if LineNames(lines, p) {
      var i :| 0 <= i < |lines| && KeptLine(lines[i]) && p == FromText(lines[i][2..]);
      if i > 0 {
        assert lines[1..][i - 1] == lines[i];
      }
    }
    if LineNames(lines[1..], p) {
      var i :| 0 <= i < |lines[1..]| && KeptLine(lines[1..][i]) && p == FromText(lines[1..][i][2..]);
      assert lines[i + 1] == lines[1..][i];
    }
  }

  /** The paths of the kept lines, in line order. */
  function StatusPaths(lines: seq<string>): (r: seq<Path>)
    ensures |r| <= |lines|
    ensures forall p :: p in r <==> LineNames(lines, p)
  {
    if |lines| == 0 then []
    else
      var rest := StatusPaths(lines[1..]);
      assert forall p :: LineNames(lines, p) <==>
          (KeptLine(lines[0]) && p == FromText(lines[0][2..])) || LineNames(lines[1..], p) by {
        forall p ensures LineNames(lines, p) <==>
            (KeptLine(lines[0]) && p == FromText(lines[0][2..])) || LineNames(lines[1..], p) {
          LineNamesStep(lines, p);
        }
      }
      if KeptLine(lines[0]) then [FromText(lines[0][2..])] + rest else rest
  }

  /** Status lines keep their order: the paths of two blocks of lines
      are the paths of the first followed by those of the second. */
  lemma {:induction false} StatusPathsAppend(a: seq<string>, b: seq<string>)
    ensures StatusPaths(a + b) == StatusPaths(a) + StatusPaths(b)
  {
    if |a| > 0 {
      assert (a + b)[1..] == a[1..] + b;
      StatusPathsAppend(a[1..], b);
    } else {
      assert a + b == b;
    }
  }

  /** What `changed_files` makes of jj's outcome: a reported non-zero
      exit code is an error, a missing one is not. */
  function InterdiffResult(output: Option<Output>, decode: Text.Decoder): (r: VcsResult<seq<Path>>)
    ensures output.None? ==> r == Failed(Message("Could not run jj"))
    ensures output.Some? && output.value.code.Some? && output.value.code.value != 0 ==>
      r == Failed(UnexpectedExitCode(NAME, 0, output.value.code.value))
    ensures output.Some? && (output.value.code.None? || output.value.code.value == 0) ==>
      r == Found(StatusPaths(Text.Lines(OutputText(decode, output.value.stdout))))
  {
    match output
    case None => Failed(Message("Could not run jj"))
    case Some(o) =>
      if o.code.Some? && o.code.value != 0 then Failed(UnexpectedExitCode(NAME, 0, o.code.value))
      else Found(StatusPaths(Text.Lines(OutputText(decode, o.stdout))))
  }

  /** `Jj::changed_files`. */
  function ChangedFiles(dir: Path, from: Option<string>, to: Option<string>, runner: Runner, decode: Text.Decoder)
    : VcsResult<seq<Path>>
  {
    InterdiffResult(runner(NAME, InterdiffArgs(from, to), dir), decode)
  }

  const ROOT_ARGS: seq<string> := ["--color=never", "workspace", "root"]

  /** `Jj::repository_root`: the printed workspace root, exactly when jj
      ran and succeeded. */
  function RepositoryRoot(dir: Path, runner: Runner, decode: Text.Decoder): (r: Option<Path>)
    ensures var o := runner(NAME, ROOT_ARGS, dir);
      && (r.Some? <==> o.Some? && o.value.success)
      && (r.Some? ==> r.value == FromText(OutputText(decode, o.value.stdout)))
  {
    match runner(NAME, ROOT_ARGS, dir)
    case None => None
    case Some(o) => if o.success then Some(FromText(OutputText(decode, o.stdout))) else None
  }
}
