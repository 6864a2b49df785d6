/** The terminal reporter (`src/reporter.rs`): how an action's output is
    indented under its result line, and the list of running actions
    shown in the status line. Cursor movement, colours and flushing are
    not modelled; what the reporter prints is kept as a log of texts. */
module Reporter {
  import opened Wrappers
  import Text
  import Actions

  const INDENT := "    "

  /** Every piece with the indentation in front. */
  function Indented(parts: seq<string>): (r: seq<string>)
    ensures |r| == |parts|
    ensures forall i :: 0 <= i < |r| ==> r[i] == INDENT + parts[i]
  {
    seq(|parts|, i requires 0 <= i < |parts| => INDENT + parts[i])
  }

  /** Joining with `"\n    "` after a leading indentation is joining the
      indented pieces with `"\n"`. */
  lemma {:induction false} JoinIndented(parts: seq<string>)
    requires |parts| >= 1
    ensures INDENT + Text.Join(parts, "\n" + INDENT) == Text.Join(Indented(parts), "\n")
  {
    if |parts| > 1 {
      JoinIndented(parts[1..]);
      assert Indented(parts)[1..] == Indented(parts[1..]);
      assert INDENT + Text.Join(parts, "\n" + INDENT)
        == (INDENT + parts[0]) + "\n" + (INDENT + Text.Join(parts[1..], "\n" + INDENT));
    }
  }

  /** The bytes without one trailing newline. */
  function DropNewline(input: seq<Text.Byte>): (r: seq<Text.Byte>)
    ensures r == input || (r + [Text.NEWLINE] == input)
    ensures |input| > 0 && input[|input| - 1] == Text.NEWLINE ==> |r| == |input| - 1
  {
    if |input| > 0 && input[|input| - 1] == Text.NEWLINE then input[..|input| - 1] else input
  }

  /** `to_str`: the trimmed text, every line indented by four spaces;
      nothing at all when only white space was printed. */
  function ToStr(input: seq<Text.Byte>, decode: Text.Decoder): (r: string)
    ensures r == "" <==> Text.Trim(decode(DropNewline(input))) == ""
    ensures r != "" ==> Text.StartsWith(r, INDENT)
  {
    var s := Text.Trim(decode(DropNewline(input)));
    if s == "" then s
    else
      assert (INDENT + Text.Join(Text.Split(s, '\n'), "\n" + INDENT))[..4] == INDENT;
      INDENT + Text.Join(Text.Split(s, '\n'), "\n" + INDENT)
  }

  /** Each line of a non-empty `to_str` is the matching line of the
      trimmed text behind four spaces. */
  lemma ToStrLines(input: seq<Text.Byte>, decode: Text.Decoder)
    requires ToStr(input, decode) != ""
    ensures Text.Split(ToStr(input, decode), '\n') == Indented(Text.Split(Text.Trim(decode(DropNewline(input))), '\n'))
  {
    var parts := Text.Split(Text.Trim(decode(DropNewline(input))), '\n');
    JoinIndented(parts);
    var lines := Indented(parts);
    assert forall i :: 0 <= i < |lines| ==> '\n' !in lines[i] by {
      forall i | 0 <= i < |lines| ensures '\n' !in lines[i] {
        assert lines[i] == INDENT + parts[i];
        assert '\n' !in INDENT;
      }
    }
    Text.SplitJoin(lines, '\n');
  }

  /** Every line of `t` is indented, or `t` is empty. */
  predicate IndentedText(t: string) {
    t == "" || forall piece :: piece in Text.Split(t, '\n') ==> Text.StartsWith(piece, INDENT)
  }

  lemma ToStrIndented(input: seq<Text.Byte>, decode: Text.Decoder)
    ensures IndentedText(ToStr(input, decode))
  {
    if ToStr(input, decode) != "" {
      ToStrLines(input, decode);
    }
  }

  /** How `stdout_and_err_to_str` puts the two parts together. */
  function Combine(out: string, err: string): (r: string)
    ensures r == "" <==> out == "" && err == ""
    ensures r != "" ==> r[0] == '\n'
    ensures out == "" && err != "" ==> r == "\n" + err
    ensures out != "" ==> r == "\n" + out + "\n" + err
  {
    var output := if out == "" then err else out + "\n" + err;
    if output != "" then "\n" + output else output
  }

  /** `stdout_and_err_to_str`. */
  function StdoutAndErrToStr(stdout: seq<Text.Byte>, stderr: seq<Text.Byte>, decode: Text.Decoder): string {
    Combine(ToStr(stdout, decode), ToStr(stderr, decode))
  }

  /** After the leading newline, each line of the combined output is an
      indented line of one of the parts or, when stderr added nothing,
      empty. */
  lemma CombineIndented(out: string, err: string)
    requires IndentedText(out) && IndentedText(err) && Combine(out, err) != ""
    ensures forall piece :: piece in Text.Split(Combine(out, err)[1..], '\n') ==> piece == "" || Text.StartsWith(piece, INDENT)
  {
    var r := Combine(out, err);
    var eLines := if err == "" then [""] else Text.Split(err, '\n');
    assert Text.Join(eLines, "\n") == err by {
      if err != "" {
        Text.JoinSplit(err, '\n');
      }
    }
    assert forall piece :: piece in eLines ==> piece == "" || Text.StartsWith(piece, INDENT);
    if out == "" {
      assert r[1..] == err;
      Text.SplitJoin(eLines, '\n');
    } else {
      var oLines := Text.Split(out, '\n');
      Text.JoinSplit(out, '\n');
      JoinAppend(oLines, eLines);
      assert r[1..] == out + "\n" + err;
      assert forall piece :: piece in oLines + eLines ==> '\n' !in piece;
      Text.SplitJoin(oLines + eLines, '\n');
    }
  }

  /** The output under a result line is indented line by line. */
  lemma OutputLinesIndented(stdout: seq<Text.Byte>, stderr: seq<Text.Byte>, decode: Text.Decoder)
    requires StdoutAndErrToStr(stdout, stderr, decode) != ""
    ensures var r := StdoutAndErrToStr(stdout, stderr, decode);
      forall piece :: piece in Text.Split(r[1..], '\n') ==> piece == "" || Text.StartsWith(piece, INDENT)
  {
    ToStrIndented(stdout, decode);
    ToStrIndented(stderr, decode);
    CombineIndented(ToStr(stdout, decode), ToStr(stderr, decode));
  }

  lemma {:induction false} JoinAppend(a: seq<string>, b: seq<string>)
    requires |a| >= 1 && |b| >= 1
    ensures Text.Join(a + b, "\n") == Text.Join(a, "\n") + "\n" + Text.Join(b, "\n")
  {
    if |a| == 1 {
      assert (a + b)[1..] == b;
    } else {
      assert (a + b)[1..] == a[1..] + b;
      JoinAppend(a[1..], b);
    }
  }

  /** The result line `report_done` prints, with the output under it. */
  function DoneText(actionId: string, result: Actions.ActionResult, decode: Text.Decoder): string {
    match result
    case Ok(stdout, stderr) => "\U{2705} " + actionId + " [OK]" + StdoutAndErrToStr(stdout, stderr, decode) + "\n"
    case Skipped => "\U{1F9A5} " + actionId + " [SKIPPED]\n"
    case NotApplicable => "\U{1F699} " + actionId + " [NOT APPLICABLE]\n"
    case Warn(stdout, stderr) => "\U{1F4A1} " + actionId + " [WARN]" + StdoutAndErrToStr(stdout, stderr, decode) + "\n"
    case Error(message) => "\U{1F6A8} " + actionId + " [ERROR]: " + message + "\n"
  }

  /** The width `terminal::size` reports, 80 columns when it fails. */
  function TerminalWidth(size: Option<nat>): nat {
    if size.Some? then size.value else 80
  }

  /** `max_running` as written: `usize` subtraction, which overflows for
      a terminal narrower than 15 columns. */
  function MaxRunningAsWritten(width: nat): Option<nat> {
    if width >= 15 then Some(width - 15) else None
  }

  /** The overflow is reached by a 10-column terminal. */
  lemma NarrowTerminalOverflows()
    ensures MaxRunningAsWritten(10).None?
  {
  }

  /** `max_running` with the subtraction saturating at zero. */
  function MaxRunning(width: nat): (r: nat)
    ensures width >= 15 ==> MaxRunningAsWritten(width) == Some(r)
    ensures width < 15 ==> r == 0
  {
    if width >= 15 then width - 15 else 0
  }

  /** The running list of the status line: joined with commas and, when
      longer than `max`, cut to `max` characters followed by `...`. */
  function RunningText(running: seq<string>, max: nat): (r: string)
    ensures var joined := Text.Join(running, ", ");
      && (|joined| <= max ==> r == joined)
      && (|joined| > max ==> |r| == max + 3 && Text.StartsWith(joined, r[..max]) && r[max..] == "...")
  {
    var joined := Text.Join(running, ", ");
    if |joined| > max then joined[..max] + "..." else joined
  }

  /** `print_status`'s text. */
  function StatusText(running: seq<string>, width: nat): string {
    "Running " + RunningText(running, MaxRunning(width))
  }

  /** On a terminal at least 15 columns wide the status line leaves at
      least four columns free. */
  lemma StatusFits(running: seq<string>, width: nat)
    requires width >= 15
    ensures |StatusText(running, width)| <= width - 4
  {
  }

  /** The running list without any occurrence of `id`, in order. */
  function Without(running: seq<string>, id: string): (r: seq<string>)
    ensures forall x :: x in r <==> x in running && x != id
    ensures multiset(r)[id] == 0
    ensures forall x :: x != id ==> multiset(r)[x] == multiset(running)[x]
  {
    if |running| == 0 then []
    else
      var rest := Without(running[1..], id);
      assert running == [running[0]] + running[1..];
      if running[0] == id then rest else [running[0]] + rest
  }

  /** Removing distributes over concatenation, so the other actions keep
      their order. */
  lemma {:induction false} WithoutAppend(a: seq<string>, b: seq<string>, id: string)
    ensures Without(a + b, id) == Without(a, id) + Without(b, id)
  {
    if |a| > 0 {
      assert (a + b)[1..] == a[1..] + b;
      WithoutAppend(a[1..], b, id);
    } else {
      assert a + b == b;
    }
  }

  /** Removing an id that is not running changes nothing. */
  lemma {:induction false} WithoutAbsent(running: seq<string>, id: string)
    requires id !in running
    ensures Without(running, id) == running
  {
    if |running| > 0 {
      WithoutAbsent(running[1..], id);
    }
  }

  /** Finishing an action that was started last and only once gives the
      running list from before it started. */
  lemma WithoutStarted(running: seq<string>, id: string)
    requires id !in running
    ensures Without(running + [id], id) == running
  {
    WithoutAppend(running, [id], id);
    WithoutAbsent(running, id);
    assert Without([id], id) == [];
  }

  class Reporter {
    var running: seq<string>
    var hasStatus: bool
    /** What the reporter printed: status lines and result texts. */
    var log: seq<string>

    constructor ()
      ensures running == [] && !hasStatus && log == []
    {
      running := [];
      hasStatus := false;
      log := [];
    }

    method ClearStatus()
      modifies this
      ensures !hasStatus && running == old(running) && log == old(log)
    {
      hasStatus := false;
    }

    /** `print_status` for a terminal `width` columns wide. */
    method PrintStatus(width: nat)
      modifies this
      ensures hasStatus && running == old(running)
      ensures log == old(log) + [StatusText(running, width)]
    {
      ClearStatus();
      var max := MaxRunning(width);
      var text := Text.Join(running, ", ");
      if |text| > max {
        text := text[..max];
        text := text + "...";
      }
      log := log + ["Running " + text];
      hasStatus := true;
    }

    method ReportStart(actionId: string, width: nat)
      modifies this
      ensures running == old(running) + [actionId]
      ensures hasStatus && log == old(log) + [StatusText(running, width)]
    {
      running := running + [actionId];
      PrintStatus(width);
    }

    /** `report_done`: the action leaves the running list, its result is
      printed, and the status comes back only while others still run. */
    method ReportDone(actionId: string, result: Actions.ActionResult, width: nat, decode: Text.Decoder)
      modifies this
      ensures running == Without(old(running), actionId)
      ensures hasStatus <==> running != []
      ensures log == old(log) + [DoneText(actionId, result, decode)]
        + (if running != [] then [StatusText(running, width)] else [])
    {
      ClearStatus();
      running := Without(running, actionId);
      log := log + [DoneText(actionId, result, decode)];
      if running != [] {
        PrintStatus(width);
      }
    }

    method Finish()
      modifies this
      ensures !hasStatus && running == old(running) && log == old(log)
    {
      ClearStatus();
    }
  }
}
