/** What the version-control back ends share (`src/vcs.rs`): turning
    process output into text, and the process runner they call. */
module VcsOutput {
  import opened Wrappers
  import Text
  import opened Paths

  /** The part of `std::process::Output` the back ends look at. */
  datatype Output = Output(success: bool, code: Option<int>, stdout: seq<Text.Byte>)

  /** Running a program with arguments in a directory; `None` when it
      could not be started. */
  type Runner = (string, seq<string>, Path) -> Option<Output>

  /** Why a back end or the selection failed. Messages are the texts the
      program formats; an unexpected exit code keeps its three parts. */
  datatype Failure = Message(text: string) | UnexpectedExitCode(command: string, expected: int, actual: int)

  datatype VcsResult<+T> = Found(value: T) | Failed(failure: Failure)

  /** `output_to_string` on decoded text: at most one trailing `\n`
      goes, then at most one trailing `\r`. */
  function OutputToString(s: string): (r: string)
    ensures Text.StartsWith(s, r) && |s| - 2 <= |r|
    ensures if Text.EndsWith(s, "\r\n") then r + "\r\n" == s
      else if Text.EndsWith(s, "\n") || Text.EndsWith(s, "\r") then r + [s[|s| - 1]] == s
      else r == s
  {
    var a := if Text.EndsWith(s, "\n") then s[..|s| - 1] else s;
    if Text.EndsWith(a, "\r") then a[..|a| - 1] else a
  }

  /** A line printed with a `\n` ending comes back unchanged. */
  lemma OutputToStringStripsNewline(t: string)
    requires !Text.EndsWith(t, "\r")
    ensures OutputToString(t + "\n") == t
  {
    var u := t + "\n";
    assert u[|u| - 1..] == "\n";
    assert u[..|u| - 1] == t;
  }

  /** A line printed with a `\r\n` ending comes back unchanged. */
  lemma OutputToStringStripsCrLf(t: string)
    ensures OutputToString(t + "\r\n") == t
  {
    var v := t + "\r\n";
    var w := t + "\r";
    assert v[|v| - 1..] == "\n";
    assert v[..|v| - 1] == w;
    assert w[|w| - 1..] == "\r";
    assert w[..|w| - 1] == t;
  }

  /** Text without a trailing line-ending character is kept as it is. */
  lemma OutputToStringKeeps(t: string)
    requires !Text.EndsWith(t, "\r") && !Text.EndsWith(t, "\n")
    ensures OutputToString(t) == t
  {
  }

  /** The text of a process's output. */
  function OutputText(decode: Text.Decoder, bytes: seq<Text.Byte>): string {
    OutputToString(decode(bytes))
  }
}

/** Choosing the version control system and collecting the changed
    files (`src/vcs.rs`). */
module Vcs {
  import opened Wrappers
  import opened Paths
  import Text
  import opened VcsOutput
  import Git
  import Jj

  datatype Tool = JjTool | GitTool

  function Name(t: Tool): string {
    match t
    case JjTool => Jj.NAME
    case GitTool => Git.NAME
  }

  /** `known_vcses`: jj is asked before git. */
  const KNOWN: seq<Tool> := [JjTool, GitTool]

  /** `Iterator::find` over `tools` by name. */
  function FindByName(tools: seq<Tool>, name: string): (r: Option<Tool>)
    ensures r.None? <==> forall i :: 0 <= i < |tools| ==> Name(tools[i]) != name
    ensures r.Some? ==> r.value in tools && Name(r.value) == name
  {
    if |tools| == 0 then None
    else if Name(tools[0]) == name then Some(tools[0])
    else
      FindByName(tools[1..], name)
  }

  /** `vcs_by_name`. */
  function VcsByName(name: string): Option<Tool> {
    FindByName(KNOWN, name)
  }

  /** Exactly the two known names select a back end. */
  lemma VcsByNameKnown(name: string)
    ensures VcsByName(name) == if name == "jj" then Some(JjTool) else if name == "git" then Some(GitTool) else None
  {
    assert Name(KNOWN[0]) == "jj" && Name(KNOWN[1]) == "git";
  }

  /** `Vcs::repository_root` of each back end. */
  function RepositoryRoot(t: Tool, dir: Path, runner: Runner, decode: Text.Decoder): Option<Path> {
    match t
    case JjTool => Jj.RepositoryRoot(dir, runner, decode)
    case GitTool => Git.RepositoryRoot(dir, runner, decode)
  }

  /** `Vcs::changed_files` of each back end. */
  function ChangedFiles(t: Tool, dir: Path, from: Option<string>, to: Option<string>, runner: Runner, decode: Text.Decoder)
    : VcsResult<seq<Path>>
  {
    match t
    case JjTool => Jj.ChangedFiles(dir, from, to, runner, decode)
    case GitTool => Git.ChangedFiles(dir, from, to, runner, decode)
  }

  predicate NoRoot(t: Tool, dir: Path, runner: Runner, decode: Text.Decoder) {
    RepositoryRoot(t, dir, runner, decode).None?
  }

  /** The first of `tools` that reports a repository root, with that
      root (`flatten().next()` over the roots of all of them). */
  function FirstWithRoot(tools: seq<Tool>, dir: Path, runner: Runner, decode: Text.Decoder): (r: Option<(Tool, Path)>)
    ensures r.None? <==> forall i :: 0 <= i < |tools| ==> NoRoot(tools[i], dir, runner, decode)
    ensures r.Some? ==> exists k :: (0 <= k < |tools| && tools[k] == r.value.0
      && RepositoryRoot(r.value.0, dir, runner, decode) == Some(r.value.1)
      && forall j :: 0 <= j < k ==> NoRoot(tools[j], dir, runner, decode))
  {
    if |tools| == 0 then None
    else
      match RepositoryRoot(tools[0], dir, runner, decode)
      case Some(root) => Some((tools[0], root))
      case None =>
        FirstWithRoot(tools[1..], dir, runner, decode)
  }

  /** `auto_detect_vcs`. */
  function AutoDetect(dir: Path, runner: Runner, decode: Text.Decoder): Option<(Tool, Path)> {
    FirstWithRoot(KNOWN, dir, runner, decode)
  }

  /** A jj repository wins over a git one; git is used only when jj
      reports no root. */
  lemma AutoDetectOrder(dir: Path, runner: Runner, decode: Text.Decoder)
    ensures AutoDetect(dir, runner, decode) ==
      match RepositoryRoot(JjTool, dir, runner, decode)
      case Some(root) => Some((JjTool, root))
      case None =>
        match RepositoryRoot(GitTool, dir, runner, decode)
        case Some(root) => Some((GitTool, root))
        case None => None
  {
    assert KNOWN[1..] == [GitTool] && KNOWN[1..][1..] == [];
    assert FirstWithRoot([], dir, runner, decode) == None;
    assert FirstWithRoot([GitTool], dir, runner, decode) ==
      match RepositoryRoot(GitTool, dir, runner, decode)
      case Some(root) => Some((GitTool, root))
      case None => None;
  }

  /** `vcs_for_configuration`: a named tool must be known and find a
      repository; without a name the tool is detected. */
  function VcsForConfiguration(dir: Path, tool: Option<string>, runner: Runner, decode: Text.Decoder)
    : (r: VcsResult<(Tool, Path)>)
    ensures r.Found? ==> RepositoryRoot(r.value.0, dir, runner, decode) == Some(r.value.1)
    ensures tool.Some? && r.Found? ==> Name(r.value.0) == tool.value
    ensures tool.Some? && VcsByName(tool.value).None? ==>
      r == Failed(Message("Version control system '" + tool.value + "' is not supported"))
    ensures tool.Some? && VcsByName(tool.value).Some? && NoRoot(VcsByName(tool.value).value, dir, runner, decode) ==>
      r == Failed(Message("No repository of version control system '" + tool.value + "' found"))
    ensures tool.None? ==> (r.Failed? <==> AutoDetect(dir, runner, decode).None?)
    ensures tool.None? && r.Found? ==> Some(r.value) == AutoDetect(dir, runner, decode)
  {
    match tool
    case Some(name) =>
      (match VcsByName(name)
       case None => Failed(Message("Version control system '" + name + "' is not supported"))
       case Some(t) =>
         match RepositoryRoot(t, dir, runner, decode)
         case None => Failed(Message("No repository of version control system '" + name + "' found"))
         case Some(root) => Found((t, root)))
    case None =>
      match AutoDetect(dir, runner, decode)
      case None => Failed(Message("Could not auto-detect a supported version control system"))
      case Some(found) => Found(found)
  }

  /** The `VcsInput` configuration. */
  datatype VcsInput = VcsInput(tool: Option<string>, fromRevision: Option<string>, toRevision: Option<string>)

  /** The `ExecutionContext` the run works in. */
  datatype ExecutionContext = ExecutionContext(root: Path, extraEnvironment: map<string, string>, files: seq<Path>)

  function OrEmpty(s: Option<string>): string {
    if s.Some? then s.value else ""
  }

  /** The environment `find_files_changed` passes to every action. */
  function VcsEnvironment(t: Tool, from: Option<string>, to: Option<string>): (env: map<string, string>)
    ensures env.Keys == {"BEAUTYTIPS_INPUT", "BEAUTYTIPS_VCS", "BEAUTYTIPS_VCS_FROM_REV", "BEAUTYTIPS_VCS_TO_REV"}
    ensures env["BEAUTYTIPS_INPUT"] == "vcs" && env["BEAUTYTIPS_VCS"] == Name(t)
    ensures env["BEAUTYTIPS_VCS_FROM_REV"] == (if from.Some? then from.value else "")
    ensures env["BEAUTYTIPS_VCS_TO_REV"] == (if to.Some? then to.value else "")
  {
    map["BEAUTYTIPS_INPUT" := "vcs", "BEAUTYTIPS_VCS" := Name(t),
        "BEAUTYTIPS_VCS_FROM_REV" := OrEmpty(from), "BEAUTYTIPS_VCS_TO_REV" := OrEmpty(to)]
  }

  /** `find_files_changed`: the selected tool's changed files under its
      repository root, with the environment that names the tool and the
      revisions. */
  function FindFilesChanged(currentDirectory: Path, config: VcsInput, runner: Runner, decode: Text.Decoder)
    : (r: VcsResult<ExecutionContext>)
    ensures VcsForConfiguration(currentDirectory, config.tool, runner, decode).Failed? ==>
      r == Failed(VcsForConfiguration(currentDirectory, config.tool, runner, decode).failure)
    ensures VcsForConfiguration(currentDirectory, config.tool, runner, decode).Found? ==>
      var (t, root) := VcsForConfiguration(currentDirectory, config.tool, runner, decode).value;
      (r.Failed? <==> ChangedFiles(t, root, config.fromRevision, config.toRevision, runner, decode).Failed?)
    ensures r.Found? ==>
      var (t, root) := VcsForConfiguration(currentDirectory, config.tool, runner, decode).value;
      && r.value.root == root
      && RepositoryRoot(t, currentDirectory, runner, decode) == Some(root)
      && Found(r.value.files) == ChangedFiles(t, root, config.fromRevision, config.toRevision, runner, decode)
      && r.value.extraEnvironment == VcsEnvironment(t, config.fromRevision, config.toRevision)
  {
    match VcsForConfiguration(currentDirectory, config.tool, runner, decode)
    case Failed(e) => Failed(e)
    case Found((t, root)) =>
      match ChangedFiles(t, root, config.fromRevision, config.toRevision, runner, decode)
      case Failed(e) => Failed(e)
      case Found(files) =>
        Found(ExecutionContext(root, VcsEnvironment(t, config.fromRevision, config.toRevision), files))
  }
}
