/** The loop that launches an action's processes, one for every state
    of its odometer, and collects their output. Starting a process is
    the host's `Exec` oracle. */
module Processes {
  import opened Wrappers
  import Text
  import opened Paths
  import opened ArgTemplates

  // ---------------------------------------------------------------
  // Launching processes
  // ---------------------------------------------------------------

  /** One process launch: program, arguments, working directory and
      the environment added to the inherited one. */
  datatype Invocation = Invocation(program: string, args: seq<string>, directory: Path, environment: map<string, string>)

  /** What a finished process left: its exit code (none when a signal
      ended it) and its output. */
  datatype ProcessOutput = ProcessOutput(code: Option<int>, stdout: seq<Text.Byte>, stderr: seq<Text.Byte>)

  /** Launching the `k`th process of an action; none when it cannot be
      started. */
  type Exec = (nat, Invocation) -> Option<ProcessOutput>

  /** Collected output gains a final newline unless it ends with one. */
  function Terminate(buffer: seq<Text.Byte>): seq<Text.Byte> {
    if |buffer| > 0 && buffer[|buffer| - 1] == Text.NEWLINE then buffer else buffer + [Text.NEWLINE]
  }

  /** Terminated output ends in a newline, and is left as it was
      exactly when it already did. */
  lemma TerminateEndsInNewline(buffer: seq<Text.Byte>)
    ensures Terminate(buffer) == buffer || Terminate(buffer) == buffer + [Text.NEWLINE]
    ensures var r := Terminate(buffer); |r| > 0 && r[|r| - 1] == Text.NEWLINE
    ensures Terminate(buffer) == buffer <==> |buffer| > 0 && buffer[|buffer| - 1] == Text.NEWLINE
  {
  }

  /** The two output streams of a process. */
  datatype Stream = Stdout | Stderr

  function Chunk(o: ProcessOutput, s: Stream): seq<Text.Byte> {
    if s == Stdout then o.stdout else o.stderr
  }

  /** The bytes the loop collects from one stream of its processes, in
      order: each output appended, then terminated. */
  function Collected(outs: seq<ProcessOutput>, s: Stream): seq<Text.Byte> {
    if |outs| == 0 then [] else Terminate(Collected(outs[..|outs| - 1], s) + Chunk(outs[|outs| - 1], s))
  }

  /** Collecting one more output. */
  lemma CollectedStep(outs: seq<ProcessOutput>, o: ProcessOutput, s: Stream)
    ensures Collected(outs + [o], s) == Terminate(Collected(outs, s) + Chunk(o, s))
  {
    assert (outs + [o])[..|outs|] == outs;
  }

  /** Collected output is empty before the first process and ends in a
      newline after it. */
  lemma {:induction false} CollectedEndsInNewline(outs: seq<ProcessOutput>, s: Stream)
    ensures |outs| == 0 ==> Collected(outs, s) == []
    ensures |outs| > 0 ==> |Collected(outs, s)| > 0 && Collected(outs, s)[|Collected(outs, s)| - 1] == Text.NEWLINE
  {
    if |outs| > 0 {
      TerminateEndsInNewline(Collected(outs[..|outs| - 1], s) + Chunk(outs[|outs| - 1], s));
    }
  }

  /** The last output appears whole in the collected bytes, right after
      what the earlier outputs left. */
  lemma CollectedContains(outs: seq<ProcessOutput>, s: Stream)
    requires |outs| > 0
    ensures var before := Collected(outs[..|outs| - 1], s) + Chunk(outs[|outs| - 1], s);
      |before| <= |Collected(outs, s)| && Collected(outs, s)[..|before|] == before
  {
    var before := Collected(outs[..|outs| - 1], s) + Chunk(outs[|outs| - 1], s);
    TerminateEndsInNewline(before);
    assert Collected(outs, s)[..|before|] == before;
  }

  /** How far the loop over invocations got: how many launches it
      attempted, whether an exit code was unexpected and whether a
      launch failed. */
  datatype Progress = Progress(invoked: nat, invalid: bool, failed: bool)

  /** One pass of the loop: launch, then note an unexpected exit code;
      a launch that fails ends the loop. */
  function Advance(prev: Progress, k: nat, inv: Invocation, exec: Exec, expected: int): Progress {
    if prev.failed then prev
    else match exec(k, inv)
      case None => prev.(invoked := prev.invoked + 1, failed := true)
      case Some(o) => Progress(prev.invoked + 1, prev.invalid || o.code != Some(expected), false)
  }

  /** The loop over the first `n` planned invocations, launching one
      process after the other until one cannot be started. */
  function Gather(planned: seq<Invocation>, n: nat, exec: Exec, expected: int): Progress
    requires n <= |planned|
  {
    if n == 0 then Progress(0, false, false)
    else Advance(Gather(planned, n - 1, exec, expected), n - 1, planned[n - 1], exec, expected)
  }

  /** What one pass does to the loop's flags and count. */
  lemma AdvanceFlags(prev: Progress, k: nat, inv: Invocation, exec: Exec, expected: int)
    ensures var r := Advance(prev, k, inv, exec, expected);
      (r.failed <==> prev.failed || exec(k, inv).None?)
      && r.invoked == (if prev.failed then prev.invoked else prev.invoked + 1)
      && (!r.failed ==> (r.invalid <==> prev.invalid || exec(k, inv).value.code != Some(expected)))
  {
  }

  /** The loop stops after at most one attempt per planned process,
      and makes all of them unless one fails to start. */
  lemma {:induction false} GatherBound(planned: seq<Invocation>, n: nat, exec: Exec, expected: int)
    requires n <= |planned|
    ensures Gather(planned, n, exec, expected).invoked <= n
    ensures !Gather(planned, n, exec, expected).failed ==> Gather(planned, n, exec, expected).invoked == n
  {
    if n > 0 {
      GatherBound(planned, n - 1, exec, expected);
      AdvanceFlags(Gather(planned, n - 1, exec, expected), n - 1, planned[n - 1], exec, expected);
    }
  }

  /** Every process of the loop is started, stopping at the first that
      cannot be: the loop completes exactly when every launch succeeds. */
  lemma {:induction false} GatherCompletes(planned: seq<Invocation>, n: nat, exec: Exec, expected: int)
    requires n <= |planned|
    ensures !Gather(planned, n, exec, expected).failed <==> forall k :: 0 <= k < n ==> exec(k, planned[k]).Some?
  {
    if n > 0 {
      var prev := Gather(planned, n - 1, exec, expected);
      GatherCompletes(planned, n - 1, exec, expected);
      AdvanceFlags(prev, n - 1, planned[n - 1], exec, expected);
      assert Gather(planned, n, exec, expected) == Advance(prev, n - 1, planned[n - 1], exec, expected);
      if forall k :: 0 <= k < n ==> exec(k, planned[k]).Some? {
        assert forall k :: 0 <= k < n - 1 ==> exec(k, planned[k]).Some?;
      }
    }
  }

  /** A failing launch is the last one attempted; all before it started. */
  lemma {:induction false} GatherFailsLast(planned: seq<Invocation>, n: nat, exec: Exec, expected: int)
    requires n <= |planned|
    requires Gather(planned, n, exec, expected).failed
    ensures var i := Gather(planned, n, exec, expected).invoked;
      0 < i <= n && exec(i - 1, planned[i - 1]).None?
      && forall k :: 0 <= k < i - 1 ==> exec(k, planned[k]).Some?
  {
    var prev := Gather(planned, n - 1, exec, expected);
    GatherBound(planned, n - 1, exec, expected);
    AdvanceFlags(prev, n - 1, planned[n - 1], exec, expected);
    if prev.failed {
      GatherFailsLast(planned, n - 1, exec, expected);
    } else {
      GatherCompletes(planned, n - 1, exec, expected);
    }
  }

  /** A completed loop is marked invalid exactly when some exit code
      was not the expected one (a missing code, from a signal, counts
      as unexpected). */
  lemma {:induction false} GatherInvalid(planned: seq<Invocation>, n: nat, exec: Exec, expected: int)
    requires n <= |planned|
    requires !Gather(planned, n, exec, expected).failed
    ensures Gather(planned, n, exec, expected).invalid <==>
      exists k :: 0 <= k < n && exec(k, planned[k]).Some? && exec(k, planned[k]).value.code != Some(expected)
  {
    if n > 0 {
      GatherInvalid(planned, n - 1, exec, expected);
      AdvanceFlags(Gather(planned, n - 1, exec, expected), n - 1, planned[n - 1], exec, expected);
      if exists k :: 0 <= k < n && exec(k, planned[k]).Some? && exec(k, planned[k]).value.code != Some(expected) {
        var k :| 0 <= k < n && exec(k, planned[k]).Some? && exec(k, planned[k]).value.code != Some(expected);
        assert k < n - 1 || k == n - 1;
      }
    }
  }

  /** After a launch failed, the rest of the plan changes nothing. */
  lemma {:induction false} GatherStopsAtFailure(planned: seq<Invocation>, n: nat, m: nat, exec: Exec, expected: int)
    requires n <= m <= |planned|
    requires Gather(planned, n, exec, expected).failed
    ensures Gather(planned, m, exec, expected) == Gather(planned, n, exec, expected)
    decreases m - n
  {
    if n < m {
      GatherStopsAtFailure(planned, n, m - 1, exec, expected);
    }
  }

  /** The outputs of the processes among the first `n` planned ones
      that could be started, in order. */
  function Outputs(planned: seq<Invocation>, n: nat, exec: Exec): seq<ProcessOutput>
    requires n <= |planned|
  {
    if n == 0 then []
    else Outputs(planned, n - 1, exec) + match exec(n - 1, planned[n - 1]) case None => [] case Some(o) => [o]
  }

  /** When every launch succeeded, the outputs are those of all the
      planned processes, in the order they were planned. */
  lemma {:induction false} OutputsComplete(planned: seq<Invocation>, n: nat, exec: Exec)
    requires n <= |planned|
    requires forall k :: 0 <= k < n ==> exec(k, planned[k]).Some?
    ensures |Outputs(planned, n, exec)| == n
    ensures forall k :: 0 <= k < n ==> Outputs(planned, n, exec)[k] == exec(k, planned[k]).value
  {
    if n > 0 {
      OutputsComplete(planned, n - 1, exec);
    }
  }

  /** One more process that could be started adds its output. */
  lemma OutputsStep(planned: seq<Invocation>, k: nat, exec: Exec, o: ProcessOutput)
    requires k < |planned| && exec(k, planned[k]) == Some(o)
    ensures Outputs(planned, k + 1, exec) == Outputs(planned, k, exec) + [o]
  {
  }

  lemma TakeNext(planned: seq<Invocation>, k: nat)
    requires k < |planned|
    ensures planned[..k + 1] == planned[..k] + [planned[k]]
  {
  }

  /** The first `n` invocations of an action: one for each of the
      first `n` states of its odometer, in the order they are visited. */
  function Plan(program: string, vals: seq<seq<string>>, directory: Path, environment: map<string, string>, n: nat)
    : (r: seq<Invocation>)
    requires NonEmptyChoices(vals)
    ensures |r| == n
  {
    if n == 0 then []
    else Plan(program, vals, directory, environment, n - 1) + [Invocation(program, Combination(vals, n - 1), directory, environment)]
  }

  /** All invocations of an action, one for every state of its odometer. */
  function Planned(program: string, vals: seq<seq<string>>, directory: Path, environment: map<string, string>)
    : (r: seq<Invocation>)
    requires NonEmptyChoices(vals)
    ensures |r| == Size(vals)
  {
    Plan(program, vals, directory, environment, Size(vals))
  }

  /** The `k`th planned invocation runs the `k`th choice of values. */
  lemma {:induction false} PlanAt(program: string, vals: seq<seq<string>>, directory: Path, environment: map<string, string>,
                                  n: nat, k: nat)
    requires NonEmptyChoices(vals) && k < n
    ensures Plan(program, vals, directory, environment, n)[k] == Invocation(program, Combination(vals, k), directory, environment)
  {
    if k < n - 1 {
      PlanAt(program, vals, directory, environment, n - 1, k);
    }
  }

  /** A shorter plan is a prefix of a longer one. */
  lemma {:induction false} PlanPrefix(program: string, vals: seq<seq<string>>, directory: Path, environment: map<string, string>,
                                      n: nat, m: nat)
    requires NonEmptyChoices(vals) && n <= m
    ensures Plan(program, vals, directory, environment, m)[..n] == Plan(program, vals, directory, environment, n)
    decreases m
  {
    if n < m {
      PlanPrefix(program, vals, directory, environment, n, m - 1);
      assert Plan(program, vals, directory, environment, m)[..m - 1] == Plan(program, vals, directory, environment, m - 1);
    } else {
      assert Plan(program, vals, directory, environment, m)[..m] == Plan(program, vals, directory, environment, m);
    }
  }

  /** One pass of the loop body: launch the `k`th planned process. */
  method Launch(ghost planned: seq<Invocation>, prev: Progress, k: nat, inv: Invocation, exec: Exec, expected: int)
    returns (next: Progress, output: Option<ProcessOutput>)
    requires k < |planned| && inv == planned[k]
    requires prev == Gather(planned, k, exec, expected) && !prev.failed
    ensures output == exec(k, inv)
    ensures next == Gather(planned, k + 1, exec, expected)
    ensures next.invoked == prev.invoked + 1
    ensures next.failed <==> output.None?
    ensures next.failed ==> Gather(planned, |planned|, exec, expected) == next
  {
    output := exec(k, inv);
    if output.None? {
      next := prev.(invoked := prev.invoked + 1, failed := true);
      GatherStopsAtFailure(planned, k + 1, |planned|, exec, expected);
      return;
    }
    var invalid := prev.invalid;
    if output.value.code != Some(expected) {
      invalid := true;
    }
    next := Progress(prev.invoked + 1, invalid, false);
  }

  /** The rest of the loop body: add the output of the `k`th process to
      the bytes collected from the ones before it. */
  method Collect(ghost planned: seq<Invocation>, k: nat, exec: Exec, o: ProcessOutput,
                 stdout: seq<Text.Byte>, stderr: seq<Text.Byte>)
    returns (stdout': seq<Text.Byte>, stderr': seq<Text.Byte>)
    requires k < |planned| && exec(k, planned[k]) == Some(o)
    requires stdout == Collected(Outputs(planned, k, exec), Stdout)
    requires stderr == Collected(Outputs(planned, k, exec), Stderr)
    ensures stdout' == Collected(Outputs(planned, k + 1, exec), Stdout)
    ensures stderr' == Collected(Outputs(planned, k + 1, exec), Stderr)
  {
    OutputsStep(planned, k, exec, o);
    CollectedStep(Outputs(planned, k, exec), o, Stdout);
    CollectedStep(Outputs(planned, k, exec), o, Stderr);
    stdout' := Terminate(stdout + o.stdout);
    stderr' := Terminate(stderr + o.stderr);
  }

  /** What the loop has done after `k` passes in which every process
      started: the progress and the bytes collected. */
  ghost predicate Looped(planned: seq<Invocation>, exec: Exec, expected: int, k: nat,
                         p: Progress, stdout: seq<Text.Byte>, stderr: seq<Text.Byte>) {
    k <= |planned| && p == Gather(planned, k, exec, expected) && p.invoked == k && !p.failed
    && stdout == Collected(Outputs(planned, k, exec), Stdout)
    && stderr == Collected(Outputs(planned, k, exec), Stderr)
  }

  /** Launching the `k`th planned process and collecting its output. */
  method Pass(ghost planned: seq<Invocation>, prev: Progress, stdout: seq<Text.Byte>, stderr: seq<Text.Byte>,
              k: nat, inv: Invocation, exec: Exec, expected: int)
    returns (next: Progress, stdout': seq<Text.Byte>, stderr': seq<Text.Byte>)
    requires k < |planned| && inv == planned[k]
    requires Looped(planned, exec, expected, k, prev, stdout, stderr)
    ensures next.failed ==> Gather(planned, |planned|, exec, expected) == next && next.invoked == k + 1
    ensures !next.failed ==> Looped(planned, exec, expected, k + 1, next, stdout', stderr')
  {
    var output;
    next, output := Launch(planned, prev, k, inv, exec, expected);
    if next.failed {
      return next, stdout, stderr;
    }
    stdout', stderr' := Collect(planned, k, exec, output.value, stdout, stderr);
  }

  /** The loop of `run_single_action` over the states of the odometer,
      launching the planned invocations one after the other and
      collecting the bytes of their output. */
  method Iterate(program: string, parsed: seq<Arg>, directory: Path, environment: map<string, string>,
                 exec: Exec, expected: int, ghost planned: seq<Invocation>)
    returns (invocations: seq<Invocation>, p: Progress, stdout: seq<Text.Byte>, stderr: seq<Text.Byte>)
    requires AllValid(parsed) && NonEmptyChoices(ValuesOf(parsed))
    requires forall i :: 0 <= i < |parsed| ==> parsed[i].pos == 0
    requires |planned| == Size(ValuesOf(parsed))
    requires forall a :: AllValid(a) && ValuesOf(a) == ValuesOf(parsed) ==>
      Index(a) < |planned| && planned[Index(a)] == Invocation(program, Currents(a), directory, environment)
    ensures p == Gather(planned, |planned|, exec, expected)
    ensures p.invoked <= |planned|
    ensures invocations == planned[..p.invoked]
    ensures !p.failed ==> (stdout == Collected(Outputs(planned, |planned|, exec), Stdout)
                           && stderr == Collected(Outputs(planned, |planned|, exec), Stderr))
  {
    var args := new Args(parsed);
    IndexAllFirst(parsed);
    ghost var vals := ValuesOf(parsed);
    var k: nat := 0;
    p := Progress(0, false, false);
    invocations := [];
    stdout, stderr := [], [];
    while true
      invariant args.Valid() && ValuesOf(args.args) == vals
      invariant k == Index(args.args) < |planned|
      invariant invocations == planned[..k]
      invariant Looped(planned, exec, expected, k, p, stdout, stderr)
      decreases |planned| - k
    {
      var inv := Invocation(program, args.ArgsIter(), directory, environment);
      invocations := invocations + [inv];
      TakeNext(planned, k);
      p, stdout, stderr := Pass(planned, p, stdout, stderr, k, inv, exec, expected);
      if p.failed {
        return;
      }
      var wrapped := args.Increment();
      k := k + 1;
      if wrapped {
        assert k == |planned|;
        break;
      }
    }
  }

  /** The loop of `run_single_action`: it runs the action's plan. */
  method RunLoop(program: string, parsed: seq<Arg>, directory: Path, environment: map<string, string>,
                 exec: Exec, expected: int)
    returns (invocations: seq<Invocation>, p: Progress, stdout: seq<Text.Byte>, stderr: seq<Text.Byte>)
    requires AllValid(parsed)
    requires forall i :: 0 <= i < |parsed| ==> parsed[i].pos == 0
    ensures NonEmptyChoices(ValuesOf(parsed))
    ensures var planned := Planned(program, ValuesOf(parsed), directory, environment);
      p == Gather(planned, |planned|, exec, expected)
    ensures p.invoked <= Size(ValuesOf(parsed))
    ensures invocations == Plan(program, ValuesOf(parsed), directory, environment, p.invoked)
    ensures var planned := Planned(program, ValuesOf(parsed), directory, environment);
      !p.failed ==> (stdout == Collected(Outputs(planned, |planned|, exec), Stdout)
                     && stderr == Collected(Outputs(planned, |planned|, exec), Stderr))
  {
    IndexBound(parsed);
    ghost var vals := ValuesOf(parsed);
    ghost var planned := Planned(program, vals, directory, environment);
    forall a | AllValid(a) && ValuesOf(a) == vals
      ensures Index(a) < |planned| && planned[Index(a)] == Invocation(program, Currents(a), directory, environment)
    {
      IndexBound(a);
      CurrentsAreCombination(a);
      PlanAt(program, vals, directory, environment, Size(vals), Index(a));
    }
    invocations, p, stdout, stderr := Iterate(program, parsed, directory, environment, exec, expected, planned);
    PlanPrefix(program, vals, directory, environment, p.invoked, Size(vals));
  }
}
