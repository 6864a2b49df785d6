/** Running actions: one action at a time (`run_single_action`) and the
    two phases of a whole run (`run`). Spawning a process is the host's
    `Exec` oracle; the input cache's answers are the `query` oracle. */
module Actions {
  import opened Wrappers
  import Text
  import opened Paths
  import Inputs
  import opened ArgTemplates
  import opened Processes

  // ---------------------------------------------------------------
  // Definitions and their order
  // ---------------------------------------------------------------

  /** When the output of a finished action is shown. */
  datatype OutputCondition = Never | Success | Failure | Always

  datatype ActionDefinition = ActionDefinition(
    id: string,
    source: string,
    description: string,
    runSequentially: bool,
    command: seq<string>,
    showOutput: OutputCondition,
    expectedExitCode: int,
    inputFilters: Inputs.InputFilters)

  datatype Ordering = Less | Equal | Greater

  /** `Ord for String`. */
  function CompareText(a: string, b: string): (r: Ordering)
    ensures r == Equal <==> a == b
    ensures r == Less <==> Text.LexLess(a, b)
    ensures r == Greater <==> Text.LexLess(b, a)
  {
    if a == b then Text.LexIrreflexive(a); Equal
    else if Text.LexLess(a, b) then Text.LexAsymmetric(a, b); Less
    else Text.LexTotal(a, b); Greater
  }

  /** `PartialEq for ActionDefinition`: two definitions are the same
      action when their id and source agree, whatever their commands. */
  predicate SameAction(a: ActionDefinition, b: ActionDefinition) {
    a.id == b.id && a.source == b.source
  }

  /** `Ord for ActionDefinition`: by id, then by source. */
  function Compare(a: ActionDefinition, b: ActionDefinition): Ordering {
    var c := CompareText(a.id, b.id);
    if c == Equal then CompareText(a.source, b.source) else c
  }

  /** The order agrees with the equality. */
  lemma CompareEqual(a: ActionDefinition, b: ActionDefinition)
    ensures Compare(a, b) == Equal <==> SameAction(a, b)
  {
  }

  /** The order is antisymmetric. */
  lemma CompareAntisymmetric(a: ActionDefinition, b: ActionDefinition)
    ensures Compare(a, b) == Less <==> Compare(b, a) == Greater
  {
  }

  /** The order is transitive. */
  lemma CompareTransitive(a: ActionDefinition, b: ActionDefinition, c: ActionDefinition)
    requires Compare(a, b) == Less && Compare(b, c) == Less
    ensures Compare(a, c) == Less
  {
    if a.id == b.id && b.id == c.id {
      Text.LexTransitive(a.source, b.source, c.source);
    } else if a.id != b.id && b.id != c.id {
      Text.LexTransitive(a.id, b.id, c.id);
      Text.LexIrreflexive(a.id);
      if a.id == c.id { Text.LexTransitive(b.id, c.id, b.id); Text.LexIrreflexive(b.id); }
    }
  }

  // ---------------------------------------------------------------
  // The iterator over selected definitions
  // ---------------------------------------------------------------

  predicate Increasing(s: seq<nat>) {
    forall i, j :: 0 <= i < j < |s| ==> s[i] < s[j]
  }

  /** Places `x` into an increasing sequence that does not hold it. */
  function InsertIndex(x: nat, s: seq<nat>): (r: seq<nat>)
    requires Increasing(s) && x !in s
    ensures Increasing(r)
    ensures |r| == |s| + 1
    ensures forall y :: y in r <==> y == x || y in s
  {
    if |s| == 0 then [x]
    else if x < s[0] then [x] + s
    else
      var t := InsertIndex(x, s[1..]);
      assert forall j :: 0 <= j < |t| ==> s[0] < t[j] by {
        forall j | 0 <= j < |t| ensures s[0] < t[j] {
          assert t[j] in t;
        }
      }
      [s[0]] + t
  }

  /** What the iterator yields at step `k`: the definition at the `k`th
      smallest index, none past the end or for an index outside the
      definitions. */
  function ItemAt(actions: seq<ActionDefinition>, indices: seq<nat>, k: nat): (r: Option<ActionDefinition>)
    ensures r.Some? <==> k < |indices| && indices[k] < |actions|
    ensures r.Some? ==> r.value == actions[indices[k]]
  {
    if k < |indices| && indices[k] < |actions| then Some(actions[indices[k]]) else None
  }

  /** The definitions a `for` loop over the iterator visits from step
      `k`: up to the first step that yields none. */
  function Yielded(actions: seq<ActionDefinition>, indices: seq<nat>, k: nat): seq<ActionDefinition>
    decreases |indices| - k
  {
    match ItemAt(actions, indices, k)
    case None => []
    case Some(a) => [a] + Yielded(actions, indices, k + 1)
  }

  /** With every index inside the definitions, a loop from the start
      visits the selected definitions in the order of their position. */
  lemma {:induction false} YieldedSelected(actions: seq<ActionDefinition>, indices: seq<nat>, k: nat)
    requires forall i :: 0 <= i < |indices| ==> indices[i] < |actions|
    requires k <= |indices|
    ensures |Yielded(actions, indices, k)| == |indices| - k
    ensures forall i :: 0 <= i < |indices| - k ==> Yielded(actions, indices, k)[i] == actions[indices[k + i]]
    decreases |indices| - k
  {
    if k < |indices| {
      YieldedSelected(actions, indices, k + 1);
    }
  }

  /** The definitions at those of `s` that lie inside `actions`, in the
      order of `s`. */
  function Present(actions: seq<ActionDefinition>, s: seq<nat>): (r: seq<ActionDefinition>)
    ensures forall a :: a in r ==> exists i :: 0 <= i < |s| && s[i] < |actions| && a == actions[s[i]]
  {
    if |s| == 0 then []
    else
      var rest := Present(actions, s[1..]);
      assert forall a :: a in rest ==> exists i :: 0 <= i < |s| && s[i] < |actions| && a == actions[s[i]] by {
        forall a | a in rest ensures exists i :: 0 <= i < |s| && s[i] < |actions| && a == actions[s[i]] {
          var i :| 0 <= i < |s[1..]| && s[1..][i] < |actions| && a == actions[s[1..][i]];
          assert s[i + 1] == s[1..][i];
        }
      }
      (if s[0] < |actions| then [actions[s[0]]] else []) + rest
  }

  lemma {:induction false} PresentNone(actions: seq<ActionDefinition>, s: seq<nat>)
    requires forall i :: 0 <= i < |s| ==> s[i] >= |actions|
    ensures Present(actions, s) == []
  {
    if |s| > 0 {
      PresentNone(actions, s[1..]);
    }
  }

  /** A selection may hold indices past the definitions, such as the
      `HIDDEN` index of a hidden action. Increasing indices put them last,
      so the loop visits exactly the definitions at the indices inside,
      in order, and nothing for the others. */
  lemma {:induction false} YieldedPresent(actions: seq<ActionDefinition>, indices: seq<nat>, k: nat)
    requires Increasing(indices) && k <= |indices|
    ensures Yielded(actions, indices, k) == Present(actions, indices[k..])
    decreases |indices| - k
  {
    if k < |indices| {
      var s := indices[k..];
      assert s[1..] == indices[k + 1..];
      if indices[k] < |actions| {
        YieldedPresent(actions, indices, k + 1);
      } else {
        PresentNone(actions, s);
      }
    }
  }

  /** `ActionDefinitionIterator`. */
  class ActionDefinitionIterator {
    var actions: seq<ActionDefinition>
    var indices: seq<nat>
    var currentItem: nat

    /** `new`: the selected indices in increasing order. */
    constructor (actions: seq<ActionDefinition>, selected: set<nat>)
      ensures this.actions == actions && currentItem == 0
      ensures Increasing(indices) && |indices| == |selected|
      ensures forall i :: i in indices <==> i in selected
    {
      this.actions := actions;
      var sorted: seq<nat> := [];
      var rest := selected;
      while rest != {}
        invariant Increasing(sorted)
        invariant forall i :: i in sorted ==> i !in rest
        invariant forall i :: i in sorted || i in rest <==> i in selected
        invariant |sorted| + |rest| == |selected|
        decreases |rest|
      {
        var i :| i in rest;
        sorted := InsertIndex(i, sorted);
        rest := rest - {i};
      }
      indices := sorted;
      currentItem := 0;
    }

    /** `next`. */
    method Next() returns (r: Option<ActionDefinition>)
      modifies this
      ensures r == ItemAt(actions, indices, old(currentItem))
      ensures currentItem == old(currentItem) + 1
      ensures actions == old(actions) && indices == old(indices)
    {
      var cur := currentItem;
      currentItem := currentItem + 1;
      r := ItemAt(actions, indices, cur);
    }
  }

  // ---------------------------------------------------------------
  // Results and updates
  // ---------------------------------------------------------------

  datatype ActionResult =
    | Ok(stdout: seq<Text.Byte>, stderr: seq<Text.Byte>)
    | Skipped
    | NotApplicable
    | Warn(stdout: seq<Text.Byte>, stderr: seq<Text.Byte>)
    | Error(message: string)

  /** The messages sent to the reporter. */
  datatype ActionUpdate = Started(actionId: string) | Done(actionId: string, result: ActionResult)

  /** An action's id as the reporter and `SKIP` name it. */
  function ActionId(a: ActionDefinition): string {
    a.source + "/" + a.id
  }

  // ---------------------------------------------------------------
  // Applicability (`has_unfiltered_input`)
  // ---------------------------------------------------------------

  /** The host's view of a run: the root directory, the extra
      environment, the `SKIP` variable (empty when unset), the input
      cache's answers, the glob library and `shell_words::quote`. */
  datatype Context = Context(
    root: Path,
    extraEnvironment: map<string, string>,
    skip: string,
    query: Inputs.Query,
    glob: Glob,
    quote: string -> string)

  /** Every input the action filters keeps at least one path. */
  predicate Applicable(filters: Inputs.InputFilters, query: Inputs.Query, root: Path, glob: Glob) {
    forall k :: k in Inputs.Names(filters) ==>
      Inputs.Filtered(filters, k, query, root, glob).Ok? && |Inputs.Filtered(filters, k, query, root, glob).value| > 0
  }

  /** `has_unfiltered_input`, visiting the inputs in the map's own
      order; false as soon as one is empty or fails. */
  method HasUnfilteredInput(query: Inputs.Query, filters: Inputs.InputFilters, root: Path, glob: Glob)
    returns (r: bool)
    ensures r <==> Applicable(filters, query, root, glob)
  {
    var rest := Inputs.Names(filters);
    while rest != {}
      invariant rest <= Inputs.Names(filters)
      invariant forall k :: k in Inputs.Names(filters) && k !in rest ==>
        Inputs.Filtered(filters, k, query, root, glob).Ok? && |Inputs.Filtered(filters, k, query, root, glob).value| > 0
      decreases |rest|
    {
      var k :| k in rest;
      var filtered := Inputs.Filtered(filters, k, query, root, glob);
      if filtered.Err? || |filtered.value| == 0 {
        return false;
      }
      rest := rest - {k};
    }
    return true;
  }

  // ---------------------------------------------------------------
  // One action (`run_single_action`)
  // ---------------------------------------------------------------

  /** The reported result of a loop that ran to its end: `Warn` when an
      exit code was not the expected one, `Ok` otherwise, with the
      collected output blanked when the definition does not show it in
      that case. */
  function Report(show: OutputCondition, invalid: bool, stdout: seq<Text.Byte>, stderr: seq<Text.Byte>): (r: ActionResult)
    ensures r.Warn? <==> invalid
    ensures r.Warn? || r.Ok?
    ensures (r.stdout, r.stderr) ==
      if (invalid && (show == Never || show == Success)) || (!invalid && (show == Never || show == Failure))
      then ([], []) else (stdout, stderr)
  {
    if invalid then
      if show == Never || show == Success then Warn([], []) else Warn(stdout, stderr)
    else
      if show == Never || show == Failure then ActionResult.Ok([], []) else ActionResult.Ok(stdout, stderr)
  }

  /** Everything one action does: the updates it sends, the processes it
      launches and what it returns. */
  datatype Run = Run(updates: seq<ActionUpdate>, invocations: seq<Invocation>, outcome: Outcome)

  function ArgEnv(action: ActionDefinition, ctx: Context): Env {
    Env(ctx.query, ctx.root, action.inputFilters, ctx.glob, ctx.quote)
  }

  function NoCommandMessage(id: string): string {
    "No command defined in action '" + id + "'"
  }

  /** The loop of an action whose words expanded to `args`: one process
      per state of the odometer until one cannot be started. */
  function LoopRun(action: ActionDefinition, ctx: Context, exec: Exec, args: seq<Arg>): Run
    requires |action.command| > 0 && AllValid(args)
  {
    IndexBound(args);
    var id := ActionId(action);
    var planned := Planned(action.command[0], ValuesOf(args), ctx.root, ctx.extraEnvironment);
    var p := Gather(planned, |planned|, exec, action.expectedExitCode);
    GatherBound(planned, |planned|, exec, action.expectedExitCode);
    if p.failed then
      Run([Started(id)], Plan(action.command[0], ValuesOf(args), ctx.root, ctx.extraEnvironment, p.invoked),
          Fail("Could not start '" + action.command[0]))
    else
      var outs := Outputs(planned, |planned|, exec);
      Run([Started(id), Done(id, Report(action.showOutput, p.invalid, Collected(outs, Stdout), Collected(outs, Stderr)))],
          planned, Pass)
  }

  /** What `run_single_action` does, step by step. */
  function RunSpec(action: ActionDefinition, ctx: Context, exec: Exec): Run {
    var id := ActionId(action);
    if !Applicable(action.inputFilters, ctx.query, ctx.root, ctx.glob) then
      Run([Started(id), Done(id, NotApplicable)], [], Pass)
    else if id in Text.Split(ctx.skip, ',') then
      Run([Started(id), Done(id, Skipped)], [], Pass)
    else if |action.command| == 0 then
      Run([Started(id), Done(id, Error(NoCommandMessage(id)))], [], Fail("Invalid configuration: " + NoCommandMessage(id)))
    else
      match ParseWords(action.command[1..], ArgEnv(action, ctx))
      case Err(e) => Run([Started(id), Done(id, Error("Argument parsing failed: " + e))], [], Pass)
      case Ok(None) => Run([Started(id), Done(id, NotApplicable)], [], Pass)
      case Ok(Some(args)) => LoopRun(action, ctx, exec, args)
  }

  /** Every action starts by announcing itself and sends at most one
      further update, its `Done`; it is missing exactly when a process
      could not be started, which is also the one failure that is not
      reported. */
  lemma RunAnnounces(action: ActionDefinition, ctx: Context, exec: Exec)
    ensures var run := RunSpec(action, ctx, exec);
      1 <= |run.updates| <= 2 && run.updates[0] == Started(ActionId(action))
      && (|run.updates| == 2 <==> !(run.outcome.Fail? && Text.StartsWith(run.outcome.error, "Could not start '")))
      && (|run.updates| == 2 ==> run.updates[1].Done? && run.updates[1].actionId == ActionId(action))
  {
    var run := RunSpec(action, ctx, exec);
    if run.outcome.Fail? && |action.command| == 0 {
      assert run.outcome.error[0] == 'I';
    }
  }

  /** An action that is skipped or not applicable launches nothing. */
  lemma NothingLaunchedWhenNotRun(action: ActionDefinition, ctx: Context, exec: Exec)
    requires !Applicable(action.inputFilters, ctx.query, ctx.root, ctx.glob)
      || ActionId(action) in Text.Split(ctx.skip, ',')
    ensures RunSpec(action, ctx, exec).invocations == []
    ensures RunSpec(action, ctx, exec).outcome == Pass
    ensures RunSpec(action, ctx, exec).updates[1].result.Skipped? || RunSpec(action, ctx, exec).updates[1].result.NotApplicable?
  {
  }

  /** When its words expand and every process starts, an action runs its
      program once for every choice of values, in odometer order, and
      reports that run. */
  lemma RunsEveryCombination(action: ActionDefinition, ctx: Context, exec: Exec, args: seq<Arg>, c: seq<string>)
    requires Applicable(action.inputFilters, ctx.query, ctx.root, ctx.glob)
    requires ActionId(action) !in Text.Split(ctx.skip, ',')
    requires |action.command| > 0
    requires ParseWords(action.command[1..], ArgEnv(action, ctx)) == Result.Ok(Some(args))
    requires RunSpec(action, ctx, exec).outcome == Pass
    requires |c| == |args| && forall i :: 0 <= i < |c| ==> c[i] in args[i].values
    ensures exists k :: (0 <= k < |RunSpec(action, ctx, exec).invocations|
      && RunSpec(action, ctx, exec).invocations[k] == Invocation(action.command[0], c, ctx.root, ctx.extraEnvironment))
  {
    var vals := ValuesOf(args);
    EveryChoiceVisited(vals, c);
    var k :| 0 <= k < Size(vals) && Combination(vals, k) == c;
    var planned := Planned(action.command[0], vals, ctx.root, ctx.extraEnvironment);
    assert RunSpec(action, ctx, exec) == LoopRun(action, ctx, exec, args);
    assert LoopRun(action, ctx, exec, args).invocations == planned;
    PlanAt(action.command[0], vals, ctx.root, ctx.extraEnvironment, Size(vals), k);
  }

  /** `run_single_action`. */
  method RunSingleAction(action: ActionDefinition, ctx: Context, exec: Exec) returns (run: Run)
    ensures run == RunSpec(action, ctx, exec)
  {
    var id := ActionId(action);
    var updates := [Started(id)];
    var applicable := HasUnfilteredInput(ctx.query, action.inputFilters, ctx.root, ctx.glob);
    if !applicable {
      return Run(updates + [Done(id, NotApplicable)], [], Pass);
    }
    if id in Text.Split(ctx.skip, ',') {
      return Run(updates + [Done(id, Skipped)], [], Pass);
    }
    if |action.command| == 0 {
      var message := NoCommandMessage(id);
      return Run(updates + [Done(id, Error(message))], [], Fail("Invalid configuration: " + message));
    }
    var command := action.command[0];
    var parsed := ParseArgs(action.command, ArgEnv(action, ctx));
    if parsed.Err? {
      return Run(updates + [Done(id, Error("Argument parsing failed: " + parsed.error))], [], Pass);
    }
    if parsed.value.None? {
      return Run(updates + [Done(id, NotApplicable)], [], Pass);
    }
    var args := parsed.value.value;
    var invocations, p, stdout, stderr := RunLoop(command, args, ctx.root, ctx.extraEnvironment, exec, action.expectedExitCode);
    assert RunSpec(action, ctx, exec) == LoopRun(action, ctx, exec, args);
    if p.failed {
      return Run(updates, invocations, Fail("Could not start '" + command));
    }
    ghost var planned := Planned(command, ValuesOf(args), ctx.root, ctx.extraEnvironment);
    GatherBound(planned, |planned|, exec, action.expectedExitCode);
    assert invocations == planned;
    return Run(updates + [Done(id, Report(action.showOutput, p.invalid, stdout, stderr))], invocations, Pass);
  }

  // ---------------------------------------------------------------
  // A whole run (`run`)
  // ---------------------------------------------------------------

  /** Launching the `k`th process of the action at position `i`. */
  type ExecAll = (nat, nat, Invocation) -> Option<ProcessOutput>

  function ExecOf(execAll: ExecAll, i: nat): Exec {
    (k: nat, inv: Invocation) => execAll(i, k, inv)
  }

  /** `runs` holds what every definition would do when run, in
      iteration order. */
  ghost predicate RunsOf(actions: seq<ActionDefinition>, ctx: Context, execAll: ExecAll, runs: seq<Run>) {
    |runs| == |actions|
    && forall i {:trigger RunSpec(actions[i], ctx, ExecOf(execAll, i))} :: 0 <= i < |actions| ==>
      runs[i] == RunSpec(actions[i], ctx, ExecOf(execAll, i))
  }

  /** What every definition would do when run, in iteration order. */
  function Runs(actions: seq<ActionDefinition>, ctx: Context, execAll: ExecAll): (runs: seq<Run>)
    ensures |runs| == |actions|
    ensures RunsOf(actions, ctx, execAll, runs)
  {
    seq(|actions|, i requires 0 <= i < |actions| => RunSpec(actions[i], ctx, ExecOf(execAll, i)))
  }

  /** The earlier failure, if any, else the later outcome. */
  function FirstFailure(earlier: Outcome, later: Outcome): (r: Outcome)
    ensures r.Pass? <==> earlier.Pass? && later.Pass?
  {
    if earlier.Fail? then earlier else later
  }

  /** The parallel phase over the first `n` definitions: every one not
      run sequentially is run; the first failure is the phase's. */
  function ParallelPhase(actions: seq<ActionDefinition>, runs: seq<Run>, n: nat): Run
    requires n <= |actions| == |runs|
  {
    if n == 0 then Run([], [], Pass)
    else
      var prev := ParallelPhase(actions, runs, n - 1);
      if actions[n - 1].runSequentially then prev
      else
        var run := runs[n - 1];
        Run(prev.updates + run.updates, prev.invocations + run.invocations, FirstFailure(prev.outcome, run.outcome))
  }

  /** The sequential phase over the first `n` definitions: those run
      sequentially, one after the other, stopping at the first failure. */
  function SequentialPhase(actions: seq<ActionDefinition>, runs: seq<Run>, n: nat): Run
    requires n <= |actions| == |runs|
  {
    if n == 0 then Run([], [], Pass)
    else
      var prev := SequentialPhase(actions, runs, n - 1);
      if prev.outcome.Fail? || !actions[n - 1].runSequentially then prev
      else
        var run := runs[n - 1];
        Run(prev.updates + run.updates, prev.invocations + run.invocations, run.outcome)
  }

  /** What `run` does with the definitions the iterator yields. */
  function RunAllSpec(actions: seq<ActionDefinition>, ctx: Context, execAll: ExecAll): Run {
    var runs := Runs(actions, ctx, execAll);
    var par := ParallelPhase(actions, runs, |actions|);
    if par.outcome.Fail? then par
    else
      var sq := SequentialPhase(actions, runs, |actions|);
      Run(par.updates + sq.updates, par.invocations + sq.invocations, sq.outcome)
  }

  /** Each run of `runs` announces its own definition first. */
  predicate Announcing(actions: seq<ActionDefinition>, runs: seq<Run>) {
    |runs| == |actions|
    && forall i :: 0 <= i < |runs| ==> |runs[i].updates| > 0 && runs[i].updates[0] == Started(ActionId(actions[i]))
  }

  lemma RunsAnnounce(actions: seq<ActionDefinition>, ctx: Context, execAll: ExecAll)
    ensures Announcing(actions, Runs(actions, ctx, execAll))
  {
    forall i | 0 <= i < |actions|
      ensures |Runs(actions, ctx, execAll)[i].updates| > 0
      ensures Runs(actions, ctx, execAll)[i].updates[0] == Started(ActionId(actions[i]))
    {
      RunAnnounces(actions[i], ctx, ExecOf(execAll, i));
    }
  }

  /** Without a failure, the parallel phase has announced every action
      not run sequentially. */
  lemma {:induction false} ParallelAnnounces(actions: seq<ActionDefinition>, runs: seq<Run>, n: nat)
    requires n <= |actions| && Announcing(actions, runs)
    requires ParallelPhase(actions, runs, n).outcome == Pass
    ensures forall i :: 0 <= i < n && !actions[i].runSequentially ==>
      Started(ActionId(actions[i])) in ParallelPhase(actions, runs, n).updates
  {
    if n > 0 {
      ParallelAnnounces(actions, runs, n - 1);
      if !actions[n - 1].runSequentially {
        assert runs[n - 1].updates[0] in runs[n - 1].updates;
      }
    }
  }

  /** Without a failure, the sequential phase has announced every action
      run sequentially. */
  lemma {:induction false} SequentialAnnounces(actions: seq<ActionDefinition>, runs: seq<Run>, n: nat)
    requires n <= |actions| && Announcing(actions, runs)
    requires SequentialPhase(actions, runs, n).outcome == Pass
    ensures forall i :: 0 <= i < n && actions[i].runSequentially ==>
      Started(ActionId(actions[i])) in SequentialPhase(actions, runs, n).updates
  {
    if n > 0 {
      SequentialAnnounces(actions, runs, n - 1);
      if actions[n - 1].runSequentially {
        assert runs[n - 1].updates[0] in runs[n - 1].updates;
      }
    }
  }

  /** A run that passes has announced every definition the iterator
      yielded, parallel and sequential alike. */
  lemma PassingRunAnnouncesAll(actions: seq<ActionDefinition>, ctx: Context, execAll: ExecAll, i: nat)
    requires i < |actions|
    requires RunAllSpec(actions, ctx, execAll).outcome == Pass
    ensures Started(ActionId(actions[i])) in RunAllSpec(actions, ctx, execAll).updates
  {
    var runs := Runs(actions, ctx, execAll);
    RunsAnnounce(actions, ctx, execAll);
    ParallelAnnounces(actions, runs, |actions|);
    SequentialAnnounces(actions, runs, |actions|);
  }

  /** No sequential action runs unless the whole parallel phase passed. */
  lemma SequentialAfterParallel(actions: seq<ActionDefinition>, ctx: Context, execAll: ExecAll)
    requires ParallelPhase(actions, Runs(actions, ctx, execAll), |actions|).outcome.Fail?
    ensures RunAllSpec(actions, ctx, execAll) == ParallelPhase(actions, Runs(actions, ctx, execAll), |actions|)
  {
  }

  /** Once the sequential phase failed, later definitions change
      nothing. */
  lemma {:induction false} SequentialStops(actions: seq<ActionDefinition>, runs: seq<Run>, n: nat, m: nat)
    requires n <= m <= |actions| == |runs|
    requires SequentialPhase(actions, runs, n).outcome.Fail?
    ensures SequentialPhase(actions, runs, m) == SequentialPhase(actions, runs, n)
    decreases m - n
  {
    if n < m {
      SequentialStops(actions, runs, n, m - 1);
    }
  }

  method RunOne(actions: seq<ActionDefinition>, ctx: Context, execAll: ExecAll, i: nat, ghost runs: seq<Run>)
    returns (run: Run)
    requires RunsOf(actions, ctx, execAll, runs) && i < |actions|
    ensures run == runs[i]
  {
    run := RunSingleAction(actions[i], ctx, ExecOf(execAll, i));
  }

  /** The loop of the parallel phase over the runs of `runs`. */
  method ParallelLoop(actions: seq<ActionDefinition>, ctx: Context, execAll: ExecAll, ghost runs: seq<Run>)
    returns (r: Run)
    requires RunsOf(actions, ctx, execAll, runs)
    ensures r == ParallelPhase(actions, runs, |actions|)
  {
    var updates: seq<ActionUpdate> := [];
    var invocations: seq<Invocation> := [];
    var failure: Outcome := Pass;
    for i := 0 to |actions|
      invariant ParallelPhase(actions, runs, i) == Run(updates, invocations, failure)
    {
      if !actions[i].runSequentially {
        var run := RunOne(actions, ctx, execAll, i, runs);
        updates := updates + run.updates;
        invocations := invocations + run.invocations;
        failure := FirstFailure(failure, run.outcome);
      }
    }
    return Run(updates, invocations, failure);
  }

  /** The parallel phase of `run`. Its tasks are taken one after the
      other. */
  method RunParallel(actions: seq<ActionDefinition>, ctx: Context, execAll: ExecAll) returns (r: Run)
    ensures r == ParallelPhase(actions, Runs(actions, ctx, execAll), |actions|)
  {
    r := ParallelLoop(actions, ctx, execAll, Runs(actions, ctx, execAll));
  }

  /** The loop of the sequential phase over the runs of `runs`, which
      stops at the first failure. */
  method SequentialLoop(actions: seq<ActionDefinition>, ctx: Context, execAll: ExecAll, ghost runs: seq<Run>)
    returns (r: Run)
    requires RunsOf(actions, ctx, execAll, runs)
    ensures r == SequentialPhase(actions, runs, |actions|)
  {
    var updates: seq<ActionUpdate> := [];
    var invocations: seq<Invocation> := [];
    for i := 0 to |actions|
      invariant SequentialPhase(actions, runs, i) == Run(updates, invocations, Pass)
    {
      if actions[i].runSequentially {
        var run := RunOne(actions, ctx, execAll, i, runs);
        updates := updates + run.updates;
        invocations := invocations + run.invocations;
        if run.outcome.Fail? {
          SequentialStops(actions, runs, i + 1, |actions|);
          return Run(updates, invocations, run.outcome);
        }
      }
    }
    return Run(updates, invocations, Pass);
  }

  /** The sequential phase of `run`. */
  method RunSequential(actions: seq<ActionDefinition>, ctx: Context, execAll: ExecAll) returns (r: Run)
    ensures r == SequentialPhase(actions, Runs(actions, ctx, execAll), |actions|)
  {
    r := SequentialLoop(actions, ctx, execAll, Runs(actions, ctx, execAll));
  }

  /** `run`: the parallel phase, then, when it passed, the sequential
      one. */
  method RunAll(actions: seq<ActionDefinition>, ctx: Context, execAll: ExecAll) returns (r: Run)
    ensures r == RunAllSpec(actions, ctx, execAll)
  {
    var par := RunParallel(actions, ctx, execAll);
    if par.outcome.Fail? {
      return par;
    }
    var sq := RunSequential(actions, ctx, execAll);
    return Run(par.updates + sq.updates, par.invocations + sq.invocations, sq.outcome);
  }
}
