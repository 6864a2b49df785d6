/** Argument templates of an action's command: each command word may
    hold placeholders `{{name}}` (one invocation per path) and
    `{{name...}}` (all paths in one word). A brace scanner cuts a word
    into literal and placeholder parts, placeholders are replaced by the
    filtered paths of their input, and the resulting `Arg`s form an
    odometer whose every state is one invocation of the command. */
module ArgTemplates {
  import opened Wrappers
  import Text
  import opened Paths
  import Inputs

  // ---------------------------------------------------------------
  // Splitting a command word into parts (`split_arg`)
  // ---------------------------------------------------------------

  datatype ScanState = Outside | OneOpenBrace | Inside | OneClosingBrace

  /** The scanner's variables: its state, the part being built and the
      parts finished so far. */
  datatype Scan = Scan(state: ScanState, current: string, result: seq<string>)

  /** The pending part, when there is one, closes the list. */
  function Flush(current: string, result: seq<string>): seq<string> {
    if current != "" then result + [current] else result
  }

  /** One character of the scanner's loop. */
  function Step(s: Scan, a: char): Scan {
    if a == '{' then
      match s.state
      case Outside => Scan(OneOpenBrace, s.current, s.result)
      case OneOpenBrace => Scan(Inside, "{{", Flush(s.current, s.result))
      case _ => s
    else if a == '}' then
      match s.state
      case OneOpenBrace => Scan(Outside, s.current + "{}", s.result)
      case Inside => Scan(OneClosingBrace, s.current + "}", s.result)
      case OneClosingBrace => Scan(Outside, "", s.result + [s.current + "}"])
      case Outside => Scan(Outside, s.current + "}", s.result)
    else
      match s.state
      case OneOpenBrace => Scan(Outside, s.current + ['{', a], s.result)
      case OneClosingBrace => Scan(Inside, s.current + [a], s.result)
      case _ => Scan(s.state, s.current + [a], s.result)
  }

  /** The scanner after the characters of `w`, started in `s`. */
  function Scanned(s: Scan, w: string): Scan
    decreases |w|
  {
    if |w| == 0 then s else Step(Scanned(s, w[..|w| - 1]), w[|w| - 1])
  }

  const Start := Scan(Outside, "", [])

  /** The scanner after a whole word. */
  function Run(w: string): Scan {
    Scanned(Start, w)
  }

  /** Scanning a word in two pieces is scanning it whole. */
  lemma {:induction false} ScannedAppend(s: Scan, u: string, v: string)
    ensures Scanned(s, u + v) == Scanned(Scanned(s, u), v)
    decreases |v|
  {
    if |v| == 0 {
      assert u + v == u;
    } else {
      assert (u + v)[..|u + v| - 1] == u + v[..|v| - 1];
      ScannedAppend(s, u, v[..|v| - 1]);
    }
  }

  /** `split_arg` as written: after the last character only the pending
      part is flushed, so a `{` still waiting for its partner is lost. */
  function SplitArgAsWritten(w: string): (parts: seq<string>) {
    var s := Run(w);
    Flush(s.current, s.result)
  }

  /** The split with the pending `{` kept: it belongs to the text, as it
      does when any other character follows it. */
  function SplitSpec(w: string): (parts: seq<string>) {
    var s := Run(w);
    Flush(if s.state == OneOpenBrace then s.current + "{" else s.current, s.result)
  }

  /** `split_arg` with the pending `{` kept. */
  method SplitArg(w: string) returns (parts: seq<string>)
    ensures parts == SplitSpec(w)
  {
    var state := Outside;
    var current := "";
    var result := [];
    for i := 0 to |w|
      invariant Scan(state, current, result) == Run(w[..i])
    {
      var a := w[i];
      assert w[..i + 1][..i] == w[..i];
      if a == '{' {
        match state {
          case Outside =>
            state := OneOpenBrace;
          case OneOpenBrace =>
            if current != "" {
              result := result + [current];
              current := "";
            }
            current := current + "{{";
            state := Inside;
          case _ =>
        }
      } else if a == '}' {
        match state {
          case OneOpenBrace =>
            current := current + "{}";
            state := Outside;
          case Inside =>
            current := current + "}";
            state := OneClosingBrace;
          case OneClosingBrace =>
            current := current + "}";
            result := result + [current];
            current := "";
            state := Outside;
          case Outside =>
            current := current + "}";
        }
      } else {
        match state {
          case OneOpenBrace =>
            current := current + ['{', a];
            state := Outside;
          case OneClosingBrace =>
            current := current + [a];
            state := Inside;
          case _ =>
            current := current + [a];
        }
      }
    }
    assert w[..|w|] == w;
    if state == OneOpenBrace {
      current := current + "{";
    }
    if current != "" {
      result := result + [current];
    }
    parts := result;
  }

  /** No two `{` next to each other. */
  predicate NoDoubleOpen(s: string) {
    forall i :: 0 <= i < |s| - 1 ==> !(s[i] == '{' && s[i + 1] == '{')
  }

  /** A closed placeholder part: `{{`, a name, `}}`. */
  predicate ClosedPlaceholder(p: string) {
    |p| >= 4 && Text.StartsWith(p, "{{") && Text.EndsWith(p, "}}")
  }

  /** A literal part: text without an opening `{{`. */
  predicate LiteralPart(p: string) {
    p != "" && NoDoubleOpen(p)
  }

  /** What the scanner keeps true: finished parts are placeholders or
      literals; outside a placeholder the pending text is literal and
      does not end in `{`; inside, it starts with `{{`. */
  predicate ScanInvariant(s: Scan) {
    (forall i :: 0 <= i < |s.result| ==> ClosedPlaceholder(s.result[i]) || LiteralPart(s.result[i]))
    && (s.state == Outside || s.state == OneOpenBrace ==>
          NoDoubleOpen(s.current) && (|s.current| > 0 ==> s.current[|s.current| - 1] != '{'))
    && (s.state == Inside ==> |s.current| >= 2 && Text.StartsWith(s.current, "{{"))
    && (s.state == OneClosingBrace ==>
          |s.current| >= 3 && Text.StartsWith(s.current, "{{") && s.current[|s.current| - 1] == '}')
  }

  /** Outside a placeholder, a character other than `{` extends the
      literal text, and `{` only waits for a second one. */
  lemma OutsideKeepsInvariant(s: Scan, a: char)
    requires ScanInvariant(s) && s.state == Outside
    ensures ScanInvariant(Step(s, a))
  {
    if a != '{' {
      var c := s.current + [a];
      assert c[..|s.current|] == s.current;
      assert NoDoubleOpen(c);
    }
  }

  /** After a single `{`, a second one flushes the literal text and opens
      a placeholder; anything else puts the `{` back into the text. */
  lemma OpenKeepsInvariant(s: Scan, a: char)
    requires ScanInvariant(s) && s.state == OneOpenBrace
    ensures ScanInvariant(Step(s, a))
  {
    if a == '}' {
      var c := s.current + "{}";
      assert c[..|s.current|] == s.current;
      assert NoDoubleOpen(c);
    } else if a != '{' {
      var c := s.current + ['{', a];
      assert c[..|s.current|] == s.current;
      assert NoDoubleOpen(c);
    }
  }

  /** Inside a placeholder the pending text keeps its `{{` start. */
  lemma InsideKeepsInvariant(s: Scan, a: char)
    requires ScanInvariant(s) && s.state == Inside
    ensures ScanInvariant(Step(s, a))
  {
    if a != '{' {
      var c := Step(s, a).current;
      assert c[..2] == s.current[..2];
    }
  }

  /** After a single `}`, a second one closes the placeholder, which
      then starts with `{{` and ends with `}}`. */
  lemma ClosingKeepsInvariant(s: Scan, a: char)
    requires ScanInvariant(s) && s.state == OneClosingBrace
    ensures ScanInvariant(Step(s, a))
  {
    if a == '}' {
      var p := s.current + "}";
      assert p[..2] == s.current[..2];
      assert ClosedPlaceholder(p);
    } else if a != '{' {
      var c := s.current + [a];
      assert c[..2] == s.current[..2];
    }
  }

  lemma StepKeepsInvariant(s: Scan, a: char)
    requires ScanInvariant(s)
    ensures ScanInvariant(Step(s, a))
  {
    match s.state
    case Outside => OutsideKeepsInvariant(s, a);
    case OneOpenBrace => OpenKeepsInvariant(s, a);
    case Inside => InsideKeepsInvariant(s, a);
    case OneClosingBrace => ClosingKeepsInvariant(s, a);
  }

  lemma {:induction false} ScannedInvariant(s: Scan, w: string)
    requires ScanInvariant(s)
    ensures ScanInvariant(Scanned(s, w))
    decreases |w|
  {
    if |w| > 0 {
      ScannedInvariant(s, w[..|w| - 1]);
      StepKeepsInvariant(Scanned(s, w[..|w| - 1]), w[|w| - 1]);
    }
  }

  /** Every part is a closed placeholder or a literal, except that the
      last may be a placeholder left open at the end of the word. No part
      is empty. */
  lemma SplitParts(w: string)
    ensures forall i :: 0 <= i < |SplitSpec(w)| ==> SplitSpec(w)[i] != ""
    ensures forall i :: 0 <= i < |SplitSpec(w)| - 1 ==>
      ClosedPlaceholder(SplitSpec(w)[i]) || LiteralPart(SplitSpec(w)[i])
    ensures |SplitSpec(w)| > 0 ==>
      (ClosedPlaceholder(SplitSpec(w)[|SplitSpec(w)| - 1]) || LiteralPart(SplitSpec(w)[|SplitSpec(w)| - 1])
       || Text.StartsWith(SplitSpec(w)[|SplitSpec(w)| - 1], "{{"))
  {
    ScannedInvariant(Start, w);
    var s := Run(w);
    if s.state == OneOpenBrace {
      var c := s.current + "{";
      assert NoDoubleOpen(c);
    }
    if s.state == Inside || s.state == OneClosingBrace {
      assert s.current != "";
    }
  }

  /** Outside a placeholder, text without `{` is added to the pending
      part. */
  lemma {:induction false} LiteralRun(current: string, result: seq<string>, lit: string)
    requires '{' !in lit
    ensures Scanned(Scan(Outside, current, result), lit) == Scan(Outside, current + lit, result)
    decreases |lit|
  {
    if |lit| > 0 {
      var init := lit[..|lit| - 1];
      assert '{' !in init by {
        assert forall c :: c in init ==> c in lit;
      }
      LiteralRun(current, result, init);
      assert current + init + [lit[|lit| - 1]] == current + lit;
    } else {
      assert current + lit == current;
    }
  }

  /** Inside a placeholder, a name without braces is added to it. */
  lemma {:induction false} NameRun(current: string, result: seq<string>, name: string)
    requires '{' !in name && '}' !in name
    ensures Scanned(Scan(Inside, current, result), name) == Scan(Inside, current + name, result)
    decreases |name|
  {
    if |name| > 0 {
      var init := name[..|name| - 1];
      assert '{' !in init && '}' !in init by {
        assert forall c :: c in init ==> c in name;
      }
      NameRun(current, result, init);
      assert current + init + [name[|name| - 1]] == current + name;
    } else {
      assert current + name == current;
    }
  }

  /** A word without `{` is one literal part, or none when empty. */
  lemma NoBraceIsLiteral(w: string)
    requires '{' !in w
    ensures SplitSpec(w) == if w == "" then [] else [w]
  {
    LiteralRun("", [], w);
    assert "" + w == w;
  }

  /** The part before an opening `{{` is finished as a part of its own,
      the placeholder becomes one part with its braces, and the text
      after it another. */
  lemma PlaceholderSplit(pre: string, name: string, post: string)
    requires '{' !in pre && '{' !in post && '{' !in name && '}' !in name
    ensures SplitSpec(pre + "{{" + name + "}}" + post)
      == Flush(pre, []) + ["{{" + name + "}}"] + Flush(post, [])
  {
    var ph := "{{" + name + "}}";
    var r := Flush(pre, []);
    LiteralRun("", [], pre);
    assert "" + pre == pre;
    var s1 := Scanned(Start, pre);
    assert s1 == Scan(Outside, pre, []);
    ScannedAppend(Start, pre, "{{");
    assert Scanned(s1, "{{") == Scan(Inside, "{{", r) by {
      assert "{{"[..1] == "{";
      assert "{"[..0] == "";
    }
    ScannedAppend(Start, pre + "{{", name);
    NameRun("{{", r, name);
    ScannedAppend(Start, pre + "{{" + name, "}}");
    assert Scanned(Scan(Inside, "{{" + name, r), "}}") == Scan(Outside, "", r + [ph]) by {
      var t := Scan(Inside, "{{" + name, r);
      assert "}}"[..1] == "}";
      assert "}"[..0] == "";
      assert Scanned(t, "}") == Scan(OneClosingBrace, "{{" + name + "}", r);
      assert "{{" + name + "}" + "}" == ph;
    }
    ScannedAppend(Start, pre + "{{" + name + "}}", post);
    LiteralRun("", r + [ph], post);
    assert "" + post == post;
  }

  /** The first example the source's own tests check. */
  lemma SplitExample()
    ensures SplitSpec("test{{files}}foobar") == ["test", "{{files}}", "foobar"]
  {
    var ph := "{{" + "files" + "}}";
    assert ph == "{{files}}";
    assert "test" + ph + "foobar" == "test{{files}}foobar";
    assert "test" + "{{" + "files" + "}}" + "foobar" == "test" + ph + "foobar";
    PlaceholderSplit("test", "files", "foobar");
  }

  /** The second example, with a multi-word placeholder. */
  lemma SplitExampleMulti()
    ensures SplitSpec("test{{files...}}foobar") == ["test", "{{files...}}", "foobar"]
  {
    var ph := "{{" + "files..." + "}}";
    assert ph == "{{files...}}";
    assert "test" + ph + "foobar" == "test{{files...}}foobar";
    assert "test" + "{{" + "files..." + "}}" + "foobar" == "test" + ph + "foobar";
    PlaceholderSplit("test", "files...", "foobar");
  }

  /** Scanning a word without `{{` keeps every character: the pending
      `{`, if any, is the word's last one. */
  lemma {:induction false} NoPlaceholderKeepsText(w: string)
    requires NoDoubleOpen(w)
    ensures Run(w).result == []
    ensures Run(w).state == Outside || Run(w).state == OneOpenBrace
    ensures (if Run(w).state == OneOpenBrace then Run(w).current + "{" else Run(w).current) == w
    ensures Run(w).state == OneOpenBrace <==> |w| > 0 && w[|w| - 1] == '{'
    decreases |w|
  {
    if |w| > 0 {
      var init := w[..|w| - 1];
      var a := w[|w| - 1];
      assert NoDoubleOpen(init) by {
        forall i | 0 <= i < |init| - 1 ensures !(init[i] == '{' && init[i + 1] == '{') {
          assert init[i] == w[i] && init[i + 1] == w[i + 1];
        }
      }
      NoPlaceholderKeepsText(init);
      var s := Run(init);
      assert Run(w) == Step(s, a);
      assert init + [a] == w;
      if a == '{' && |init| > 0 {
        assert w[|w| - 2] == init[|init| - 1];
        assert s.state == Outside;
      }
    }
  }

  /** The corrected split loses no text of a word without placeholders. */
  lemma SplitKeepsText(w: string)
    requires NoDoubleOpen(w)
    ensures SplitSpec(w) == if w == "" then [] else [w]
  {
    NoPlaceholderKeepsText(w);
  }

  /** As written, the last `{` of a word is dropped: `a{` splits into
      `a` alone, and `{` into nothing. */
  lemma TrailingBraceLost()
    ensures SplitArgAsWritten("a{") == ["a"]
    ensures SplitArgAsWritten("{") == []
    ensures SplitSpec("a{") == ["a{"]
  {
    assert "a{"[..1] == "a" && "a{"[1] == '{';
    assert "a"[..0] == "" && "a"[0] == 'a';
    assert "{"[..0] == "" && "{"[0] == '{';
    assert Run("a") == Scan(Outside, "a", []);
    assert Run("a{") == Scan(OneOpenBrace, "a", []);
    assert "a" + "{" == "a{";
  }

  /** The two splits differ only after a pending `{`. */
  lemma SplitsAgree(w: string)
    requires Run(w).state != OneOpenBrace
    ensures SplitSpec(w) == SplitArgAsWritten(w)
  {
  }

  // ---------------------------------------------------------------
  // The odometer (`Arg`, `Args`)
  // ---------------------------------------------------------------

  /** One command word's candidate values and the cursor into them. */
  datatype Arg = Arg(values: seq<string>, pos: nat)
  {
    predicate Valid() {
      |values| > 0 && pos < |values|
    }

    /** `Arg::current`. */
    function Current(): (v: string)
      requires Valid()
      ensures v in values
    {
      values[pos]
    }

    /** `Arg::increment`: the cursor moves on, back to the first value
        after the last one, and says when it wrapped. */
    function Increment(): (r: (Arg, bool))
      requires Valid()
      ensures r.0.Valid() && r.0.values == values
      ensures r.1 <==> pos == |values| - 1
      ensures r.1 ==> r.0.pos == 0
      ensures !r.1 ==> r.0.pos == pos + 1
    {
      if pos + 1 >= |values| then (Arg(values, 0), true) else (Arg(values, pos + 1), false)
    }
  }

  /** `Arg::new`: the cursor starts at the first value. */
  function NewArg(values: seq<string>): (a: Arg)
    requires |values| > 0
    ensures a.Valid() && a.Current() == values[0]
  {
    Arg(values, 0)
  }

  predicate AllValid(args: seq<Arg>) {
    forall i :: 0 <= i < |args| ==> args[i].Valid()
  }

  function ValuesOf(args: seq<Arg>): (vals: seq<seq<string>>)
    ensures |vals| == |args|
    ensures forall i :: 0 <= i < |args| ==> vals[i] == args[i].values
  {
    seq(|args|, i requires 0 <= i < |args| => args[i].values)
  }

  predicate NonEmptyChoices(vals: seq<seq<string>>) {
    forall i :: 0 <= i < |vals| ==> |vals[i]| > 0
  }

  /** How many states the odometer has: the product of the numbers of
      values, 1 without any word. */
  function Size(vals: seq<seq<string>>): (n: nat)
    requires NonEmptyChoices(vals)
    ensures n >= 1
  {
    if |vals| == 0 then 1 else |vals[0]| * Size(vals[1..])
  }

  /** The number of the odometer's state, the first word counting
      fastest. */
  function Index(args: seq<Arg>): nat {
    if |args| == 0 then 0 else args[0].pos + |args[0].values| * Index(args[1..])
  }

  /** The choice of values in state `k`: digit `i` of `k` in the mixed
      radix the numbers of values give, the first digit the lowest. */
  function Combination(vals: seq<seq<string>>, k: nat): (r: seq<string>)
    requires NonEmptyChoices(vals)
    ensures |r| == |vals|
    ensures forall i :: 0 <= i < |r| ==> r[i] in vals[i]
  {
    if |vals| == 0 then [] else [vals[0][k % |vals[0]|]] + Combination(vals[1..], k / |vals[0]|)
  }

  function Currents(args: seq<Arg>): (r: seq<string>)
    requires AllValid(args)
    ensures |r| == |args|
  {
    seq(|args|, i requires 0 <= i < |args| => args[i].Current())
  }

  lemma MulBound(p: nat, n: nat, q: nat, s: nat)
    requires p < n && q < s
    ensures p + n * q < n * s
  {
    assert p + n * q < n + n * q == n * (q + 1);
    assert q + 1 <= s;
    assert n * (q + 1) <= n * s;
  }

  /** The state number is one of the odometer's states. */
  lemma {:induction false} IndexBound(args: seq<Arg>)
    requires AllValid(args)
    ensures NonEmptyChoices(ValuesOf(args))
    ensures Index(args) < Size(ValuesOf(args))
  {
    if |args| > 0 {
      IndexBound(args[1..]);
      assert ValuesOf(args)[1..] == ValuesOf(args[1..]);
      MulBound(args[0].pos, |args[0].values|, Index(args[1..]), Size(ValuesOf(args[1..])));
    }
  }

  lemma {:induction false} MulMono(n: nat, a: nat, b: nat)
    requires a <= b
    ensures n * a <= n * b
    decreases b - a
  {
    if a < b {
      MulMono(n, a + 1, b);
      assert n * (a + 1) == n * a + n;
    }
  }

  lemma MulStep(n: nat, a: nat, b: nat)
    requires a < b
    ensures n * a + n <= n * b
  {
    MulMono(n, a + 1, b);
    assert n * (a + 1) == n * a + n;
  }

  lemma ModSmall(a: nat, n: nat)
    requires a < n
    ensures a % n == a
  {
    DivMod(a, n, 0);
  }

  lemma DivMod(p: nat, n: nat, q: nat)
    requires p < n
    ensures (p + n * q) % n == p && (p + n * q) / n == q
  {
    var x := p + n * q;
    var d := x / n;
    var r := x % n;
    assert x == n * d + r && 0 <= r < n;
    if d < q {
      MulStep(n, d, q);
      assert false;
    }
    if q < d {
      MulStep(n, q, d);
      assert false;
    }
  }

  /** The current values are the combination of the state's number. */
  lemma {:induction false} CurrentsAreCombination(args: seq<Arg>)
    requires AllValid(args)
    ensures NonEmptyChoices(ValuesOf(args))
    ensures Currents(args) == Combination(ValuesOf(args), Index(args))
  {
    if |args| > 0 {
      CurrentsAreCombination(args[1..]);
      assert ValuesOf(args)[1..] == ValuesOf(args[1..]);
      DivMod(args[0].pos, |args[0].values|, Index(args[1..]));
      assert Currents(args) == [args[0].Current()] + Currents(args[1..]);
    }
  }

  /** The state number after one step: the first `i` words were at their
      last value and start again, word `i` moves on, the rest stay. */
  lemma {:induction false} IndexCarry(before: seq<Arg>, after: seq<Arg>, i: nat)
    requires |before| == |after| && i < |before|
    requires forall j :: 0 <= j < i ==>
      before[j].pos == |before[j].values| - 1 && after[j] == Arg(before[j].values, 0)
    requires after[i] == Arg(before[i].values, before[i].pos + 1)
    requires after[i + 1..] == before[i + 1..]
    ensures Index(after) == Index(before) + 1
  {
    if i == 0 {
      assert after[1..] == before[1..];
    } else {
      IndexCarry(before[1..], after[1..], i - 1);
      var n := |before[0].values|;
      assert Index(after) == n * Index(after[1..]);
      assert Index(after) == n * (Index(before[1..]) + 1) == n * Index(before[1..]) + n;
    }
  }

  /** All words at their last value: the last state. */
  lemma {:induction false} IndexAllLast(args: seq<Arg>)
    requires AllValid(args)
    requires forall j :: 0 <= j < |args| ==> args[j].pos == |args[j].values| - 1
    ensures NonEmptyChoices(ValuesOf(args))
    ensures Index(args) == Size(ValuesOf(args)) - 1
  {
    if |args| > 0 {
      IndexAllLast(args[1..]);
      assert ValuesOf(args)[1..] == ValuesOf(args[1..]);
      var n := |args[0].values|;
      assert Index(args) == n - 1 + n * (Size(ValuesOf(args[1..])) - 1)
        == n * Size(ValuesOf(args[1..])) - 1;
    }
  }

  /** All words at their first value: the first state. */
  lemma {:induction false} IndexAllFirst(args: seq<Arg>)
    requires forall j :: 0 <= j < |args| ==> args[j].pos == 0
    ensures Index(args) == 0
  {
    if |args| > 0 {
      IndexAllFirst(args[1..]);
    }
  }

  /** Every choice of one value per word is the combination of some
      state of the odometer, so stepping through all states visits
      every choice. */
  lemma {:induction false} EveryChoiceVisited(vals: seq<seq<string>>, c: seq<string>)
    requires NonEmptyChoices(vals)
    requires |c| == |vals| && forall i :: 0 <= i < |c| ==> c[i] in vals[i]
    ensures exists k :: 0 <= k < Size(vals) && Combination(vals, k) == c
  {
    if |vals| == 0 {
      assert Combination(vals, 0) == c;
    } else {
      var v := vals[0];
      var p :| 0 <= p < |v| && v[p] == c[0];
      EveryChoiceVisited(vals[1..], c[1..]);
      var q :| 0 <= q < Size(vals[1..]) && Combination(vals[1..], q) == c[1..];
      var k := p + |v| * q;
      DivMod(p, |v|, q);
      MulBound(p, |v|, q, Size(vals[1..]));
      assert Combination(vals, k) == [v[p]] + Combination(vals[1..], q);
      assert Combination(vals, k) == c;
    }
  }

  /** The outcome of a step that stops at word `i`. */
  lemma CarryResult(before: seq<Arg>, after: seq<Arg>, i: nat)
    requires AllValid(before) && AllValid(after)
    requires |before| == |after| && i < |before|
    requires forall j :: 0 <= j < |after| ==> after[j].values == before[j].values
    requires forall j :: 0 <= j < i ==>
      before[j].pos == |before[j].values| - 1 && after[j] == Arg(before[j].values, 0)
    requires after[i] == Arg(before[i].values, before[i].pos + 1)
    requires after[i + 1..] == before[i + 1..]
    ensures ValuesOf(after) == ValuesOf(before)
    ensures NonEmptyChoices(ValuesOf(after))
    ensures Index(before) + 1 != Size(ValuesOf(after))
    ensures Index(after) == Index(before) + 1
    ensures Index(after) == (Index(before) + 1) % Size(ValuesOf(after))
  {
    IndexCarry(before, after, i);
    assert ValuesOf(after) == ValuesOf(before);
    IndexBound(after);
    ModSmall(Index(after), Size(ValuesOf(after)));
  }

  /** The outcome of a step in which every word wrapped. */
  lemma WrapResult(before: seq<Arg>, after: seq<Arg>)
    requires AllValid(before) && AllValid(after)
    requires |before| == |after|
    requires forall j :: 0 <= j < |after| ==>
      before[j].pos == |before[j].values| - 1 && after[j] == Arg(before[j].values, 0)
    ensures ValuesOf(after) == ValuesOf(before)
    ensures NonEmptyChoices(ValuesOf(after))
    ensures Index(before) + 1 == Size(ValuesOf(after))
    ensures Index(after) == 0
    ensures Index(after) == (Index(before) + 1) % Size(ValuesOf(after))
  {
    IndexAllLast(before);
    IndexAllFirst(after);
    assert ValuesOf(after) == ValuesOf(before);
  }

  /** `Args`: the odometer over all words of a command. */
  class Args {
    var args: seq<Arg>

    predicate Valid()
      reads this
    {
      AllValid(args)
    }

    constructor (parsed: seq<Arg>)
      requires AllValid(parsed)
      ensures Valid() && args == parsed
    {
      args := parsed;
    }

    /** `Args::args_iter`: the current value of every word, which
        `CurrentsAreCombination` shows to be the combination of the
        current state. */
    function ArgsIter(): (r: seq<string>)
      requires Valid()
      reads this
      ensures |r| == |args|
      ensures forall i :: 0 <= i < |r| ==> r[i] == args[i].Current()
    {
      Currents(args)
    }

    /** `Args::increment`: one step of the odometer, the first word
        counting fastest; true when every word wrapped, which happens on
        the step from the last state back to the first. */
    method Increment() returns (wrapped: bool)
      requires Valid()
      modifies this
      ensures Valid()
      ensures ValuesOf(args) == ValuesOf(old(args))
      ensures NonEmptyChoices(ValuesOf(args))
      ensures wrapped <==> Index(old(args)) + 1 == Size(ValuesOf(args))
      ensures Index(args) == if wrapped then 0 else Index(old(args)) + 1
      ensures Index(args) == (Index(old(args)) + 1) % Size(ValuesOf(args))
    {
      ghost var before := args;
      IndexBound(before);
      var i := 0;
      while i < |args|
        invariant 0 <= i <= |args| == |before|
        invariant AllValid(args)
        invariant forall j :: 0 <= j < |args| ==> args[j].values == before[j].values
        invariant forall j :: 0 <= j < i ==>
          before[j].pos == |before[j].values| - 1 && args[j] == Arg(before[j].values, 0)
        invariant args[i..] == before[i..]
      {
        var next := args[i].Increment();
        args := args[i := next.0];
        assert args[i + 1..] == before[i + 1..];
        if !next.1 {
          CarryResult(before, args, i);
          return false;
        }
        i := i + 1;
      }
      WrapResult(before, args);
      return true;
    }
  }

  // ---------------------------------------------------------------
  // Placeholders and their paths (`input_arg`)
  // ---------------------------------------------------------------

  /** What the expansion of a command word needs from its action and
      host: the input query, the root directory, the action's input
      filters, the glob library and `shell_words::quote`. */
  datatype Env = Env(query: Inputs.Query, root: Path, filters: Inputs.InputFilters,
                     glob: Glob, quote: string -> string)

  /** The paths a placeholder stands for, and whether it is an array
      placeholder (`{{name...}}`). */
  datatype Expansion = Expansion(paths: seq<Path>, isArray: bool)

  predicate IsPlaceholder(w: string) {
    Text.StartsWith(w, "{{") && Text.EndsWith(w, "}}")
  }

  /** The input name of a placeholder, without a trailing `...`, and
      whether that suffix was there. */
  function PlaceholderName(w: string): (r: (string, bool))
    requires IsPlaceholder(w)
    ensures r.1 ==> "{{" + r.0 + "...}}" == w
    ensures !r.1 ==> "{{" + r.0 + "}}" == w && !Text.EndsWith(r.0, "...")
  {
    assert w[1] == '{' && w[|w| - 2] == '}';
    var inner := w[2..|w| - 2];
    assert w == "{{" + inner + "}}";
    if Text.EndsWith(inner, "...") then
      assert inner == inner[..|inner| - 3] + "...";
      (inner[..|inner| - 3], true)
    else (inner, false)
  }

  /** Whether `input_arg` keeps path `p`: it must lie under the root, and
      its root-relative part must match a pattern when there are any. */
  predicate KeptByPlaceholder(patterns: seq<string>, root: Path, glob: Glob, p: Path) {
    StartsWith(p, root) && (|patterns| == 0 || AnyMatches(glob, patterns, p[|root|..]))
  }

  /** `input_arg`: a word other than a placeholder expands to nothing; a
      placeholder to the filtered paths of its input, in query order. */
  function InputArg(w: string, env: Env): (r: Result<Option<Expansion>>)
    ensures r == Ok(None) <==> !IsPlaceholder(w)
    ensures IsPlaceholder(w) && env.query(PlaceholderName(w).0).Err? ==>
      r == Err(Inputs.InputsFailed(PlaceholderName(w).0, env.query(PlaceholderName(w).0).error))
    ensures IsPlaceholder(w) && env.query(PlaceholderName(w).0).Ok? ==>
      r.Ok? && r.value.Some? && r.value.value.isArray == PlaceholderName(w).1
      && forall p :: p in r.value.value.paths <==>
           (p in env.query(PlaceholderName(w).0).value
            && KeptByPlaceholder(Inputs.PatternsOf(env.filters, PlaceholderName(w).0), env.root, env.glob, p))
  {
    if !IsPlaceholder(w) then Ok(None)
    else
      var (name, isArray) := PlaceholderName(w);
      var patterns := Inputs.PatternsOf(env.filters, name);
      match env.query(name)
      case Err(e) => Err(Inputs.InputsFailed(name, e))
      case Ok(ps) =>
        Ok(Some(Expansion(FilterPaths(ps, p => KeptByPlaceholder(patterns, env.root, env.glob, p)), isArray)))
  }

  /** Unlike `filtered`, a placeholder never keeps a path outside the
      root, whatever its patterns. */
  lemma PlaceholderDropsOutside(w: string, env: Env, p: Path)
    requires InputArg(w, env).Ok? && InputArg(w, env).value.Some?
    requires !StartsWith(p, env.root)
    ensures p !in InputArg(w, env).value.value.paths
  {
  }

  // ---------------------------------------------------------------
  // Expanding words (`parse_arg`, `parse_args`)
  // ---------------------------------------------------------------

  /** The text of every path, quoted for a shell. */
  function QuotedPaths(paths: seq<Path>, quote: string -> string): (r: seq<string>)
    ensures |r| == |paths|
    ensures forall i :: 0 <= i < |paths| ==> r[i] == quote(ToText(paths[i]))
  {
    seq(|paths|, i requires 0 <= i < |paths| => quote(ToText(paths[i])))
  }

  /** `t` added to the end of every candidate. */
  function AppendAll(ext: seq<string>, t: string): (r: seq<string>)
    ensures |r| == |ext|
    ensures forall i :: 0 <= i < |ext| ==> r[i] == ext[i] + t
  {
    seq(|ext|, i requires 0 <= i < |ext| => ext[i] + t)
  }

  /** Every candidate followed by every extension: all candidates with
      the first extension, then all with the second, and so on. */
  function Cross(ext: seq<string>, xs: seq<string>): (r: seq<string>)
    ensures |r| == |xs| * |ext|
    decreases |xs|
  {
    if |xs| == 0 then [] else Cross(ext, xs[..|xs| - 1]) + AppendAll(ext, xs[|xs| - 1])
  }

  /** The leftmost placeholder varies fastest: candidate `j * |ext| + i`
      is candidate `i` with extension `j`. */
  lemma {:induction false} CrossAt(ext: seq<string>, xs: seq<string>, i: nat, j: nat)
    requires i < |ext| && j < |xs|
    ensures j * |ext| + i < |Cross(ext, xs)|
    ensures Cross(ext, xs)[j * |ext| + i] == ext[i] + xs[j]
    decreases |xs|
  {
    var init := xs[..|xs| - 1];
    MulStep(|ext|, j, |xs|);
    assert |Cross(ext, init)| == (|xs| - 1) * |ext|;
    if j < |xs| - 1 {
      CrossAt(ext, init, i, j);
    } else {
      assert j * |ext| == (|xs| - 1) * |ext|;
    }
  }

  /** How many candidates one part multiplies by: the number of paths
      of a scalar placeholder, 1 for anything else. */
  function Multiplier(part: string, env: Env): nat {
    match InputArg(part, env)
    case Ok(Some(x)) => if x.isArray then 1 else |x.paths|
    case _ => 1
  }

  /** The candidates after one part of a composite word: a literal is
      added to all of them, an array placeholder adds all its quoted
      paths, space-separated, to all of them, and a scalar placeholder
      multiplies them by its quoted paths. An input without paths makes
      the word inapplicable. */
  function Extend(ext: seq<string>, part: string, env: Env): (r: Result<Option<seq<string>>>)
    requires |ext| > 0
    ensures r.Ok? && r.value.Some? ==> |r.value.value| > 0
    ensures r.Ok? && r.value.Some? ==> |r.value.value| == |ext| * Multiplier(part, env)
    ensures r.Err? <==> InputArg(part, env).Err?
  {
    match InputArg(part, env)
    case Err(e) => Err(e)
    case Ok(None) => Ok(Some(AppendAll(ext, part)))
    case Ok(Some(x)) =>
      if |x.paths| == 0 then Ok(None)
      else if x.isArray then Ok(Some(AppendAll(ext, Text.Join(QuotedPaths(x.paths, env.quote), " "))))
      else
        MulStep(|ext|, 0, |x.paths|);
        Ok(Some(Cross(ext, QuotedPaths(x.paths, env.quote))))
  }

  /** The candidates after the remaining parts of a composite word; the
      first failure or inapplicable part decides. */
  function Compose(ext: seq<string>, parts: seq<string>, env: Env): (r: Result<Option<seq<string>>>)
    requires |ext| > 0
    ensures r.Ok? && r.value.Some? ==> |r.value.value| > 0
    decreases |parts|
  {
    if |parts| == 0 then Ok(Some(ext))
    else
      match Extend(ext, parts[0], env)
      case Err(e) => Err(e)
      case Ok(None) => Ok(None)
      case Ok(Some(next)) => Compose(next, parts[1..], env)
  }

  function Product(parts: seq<string>, env: Env): nat {
    if |parts| == 0 then 1 else Multiplier(parts[0], env) * Product(parts[1..], env)
  }

  lemma MulAssoc(a: int, b: int, c: int)
    ensures (a * b) * c == a * (b * c)
  {
  }

  /** The number of invocations a composite word leads to is the product
      of the path counts of its scalar placeholders. */
  lemma {:induction false} ComposeCount(ext: seq<string>, parts: seq<string>, env: Env)
    requires |ext| > 0
    requires Compose(ext, parts, env).Ok? && Compose(ext, parts, env).value.Some?
    ensures |Compose(ext, parts, env).value.value| == |ext| * Product(parts, env)
    decreases |parts|
  {
    if |parts| > 0 {
      var next := Extend(ext, parts[0], env).value.value;
      ComposeCount(next, parts[1..], env);
      MulAssoc(|ext|, Multiplier(parts[0], env), Product(parts[1..], env));
    }
  }

  /** The `Arg`s one command word expands to, or none when an input it
      needs has no paths. A single part is a literal (one value), a
      scalar placeholder (one word over its paths) or an array
      placeholder (one word per path); several parts make one word over
      the composed candidates. */
  function ParseArgSpec(w: string, env: Env): (r: Result<Option<seq<Arg>>>)
    ensures r.Ok? && r.value.Some? ==> forall i :: 0 <= i < |r.value.value| ==>
      r.value.value[i].Valid() && r.value.value[i].pos == 0
    ensures r.Ok? && r.value.Some? && |SplitSpec(w)| != 1 ==> |r.value.value| == 1
  {
    var parts := SplitSpec(w);
    if |parts| == 1 then
      match InputArg(parts[0], env)
      case Err(e) => Err(e)
      case Ok(None) => Ok(Some([NewArg([parts[0]])]))
      case Ok(Some(x)) =>
        if |x.paths| == 0 then Ok(None)
        else if x.isArray then Ok(Some(seq(|x.paths|, i requires 0 <= i < |x.paths| => NewArg([ToText(x.paths[i])]))))
        else Ok(Some([NewArg(seq(|x.paths|, i requires 0 <= i < |x.paths| => ToText(x.paths[i])))]))
    else
      match Compose([""], parts, env)
      case Err(e) => Err(e)
      case Ok(None) => Ok(None)
      case Ok(Some(ext)) => Ok(Some([NewArg(ext)]))
  }

  /** A literal word, without `{`, is one `Arg` with the word as its only
      value. */
  lemma LiteralWord(w: string, env: Env)
    requires '{' !in w && w != ""
    ensures ParseArgSpec(w, env) == Ok(Some([Arg([w], 0)]))
  {
    NoBraceIsLiteral(w);
    assert !Text.StartsWith(w, "{{") by {
      if |w| >= 2 { assert w[0] in w; }
    }
  }

  /** A word that is a scalar placeholder is one `Arg` over the texts of
      its paths, an array placeholder one single-valued `Arg` per path. */
  lemma PlaceholderWord(w: string, env: Env)
    requires |SplitSpec(w)| == 1 && SplitSpec(w)[0] == w
    requires InputArg(w, env).Ok? && InputArg(w, env).value.Some?
    requires |InputArg(w, env).value.value.paths| > 0
    ensures var x := InputArg(w, env).value.value;
      if x.isArray then
        ParseArgSpec(w, env).Ok? && ParseArgSpec(w, env).value.Some?
        && |ParseArgSpec(w, env).value.value| == |x.paths|
        && forall i :: 0 <= i < |x.paths| ==> ParseArgSpec(w, env).value.value[i].values == [ToText(x.paths[i])]
      else
        ParseArgSpec(w, env).Ok? && ParseArgSpec(w, env).value.Some?
        && |ParseArgSpec(w, env).value.value| == 1
        && ParseArgSpec(w, env).value.value[0].values == seq(|x.paths|, i requires 0 <= i < |x.paths| => ToText(x.paths[i]))
  {
  }

  /** Appending to every candidate, in place. */
  method AppendToAll(ext: seq<string>, t: string) returns (r: seq<string>)
    ensures r == AppendAll(ext, t)
  {
    r := ext;
    for k := 0 to |r|
      invariant |r| == |ext|
      invariant forall m :: 0 <= m < k ==> r[m] == ext[m] + t
      invariant forall m :: k <= m < |r| ==> r[m] == ext[m]
    {
      r := r[k := r[k] + t];
    }
  }

  /** The nested loop of a scalar placeholder. */
  method CrossProduct(ext: seq<string>, xs: seq<string>) returns (r: seq<string>)
    ensures r == Cross(ext, xs)
  {
    r := [];
    for j := 0 to |xs|
      invariant r == Cross(ext, xs[..j])
    {
      var extension := xs[j];
      ghost var before := r;
      for i := 0 to |ext|
        invariant r == before + AppendAll(ext[..i], extension)
      {
        assert AppendAll(ext[..i + 1], extension) == AppendAll(ext[..i], extension) + [ext[i] + extension];
        r := r + [ext[i] + extension];
      }
      assert ext[..|ext|] == ext;
      assert xs[..j + 1][..j] == xs[..j];
    }
    assert xs[..|xs|] == xs;
  }

  /** `parse_arg`. */
  method ParseArg(w: string, env: Env) returns (r: Result<Option<seq<Arg>>>)
    ensures r == ParseArgSpec(w, env)
  {
    var parts := SplitArg(w);
    if |parts| == 1 {
      var part := parts[0];
      var input := InputArg(part, env);
      if input.Err? {
        return Err(input.error);
      }
      if input.value.Some? {
        var x := input.value.value;
        if |x.paths| == 0 {
          return Ok(None);
        }
        if x.isArray {
          return Ok(Some(seq(|x.paths|, i requires 0 <= i < |x.paths| => NewArg([ToText(x.paths[i])]))));
        }
        return Ok(Some([NewArg(seq(|x.paths|, i requires 0 <= i < |x.paths| => ToText(x.paths[i])))]));
      }
      return Ok(Some([NewArg([part])]));
    }
    var extended := [""];
    for k := 0 to |parts|
      invariant |extended| > 0
      invariant Compose(extended, parts[k..], env) == Compose([""], parts, env)
    {
      var p := parts[k];
      assert parts[k..][1..] == parts[k + 1..];
      var input := InputArg(p, env);
      if input.Err? {
        return Err(input.error);
      }
      if input.value.Some? {
        var x := input.value.value;
        if |x.paths| == 0 {
          return Ok(None);
        }
        if x.isArray {
          var total := Text.Join(QuotedPaths(x.paths, env.quote), " ");
          extended := AppendToAll(extended, total);
        } else {
          MulStep(|extended|, 0, |x.paths|);
          extended := CrossProduct(extended, QuotedPaths(x.paths, env.quote));
        }
      } else {
        extended := AppendToAll(extended, p);
      }
    }
    assert parts[|parts|..] == [];
    return Ok(Some([NewArg(extended)]));
  }

  /** Putting the `Arg`s of earlier words in front of the outcome of the
      later ones. */
  function Prepend(a: seq<Arg>, r: Result<Option<seq<Arg>>>): Result<Option<seq<Arg>>> {
    match r
    case Err(e) => Err(e)
    case Ok(None) => Ok(None)
    case Ok(Some(b)) => Ok(Some(a + b))
  }

  /** The `Arg`s of a list of words, in order; the first word that fails
      or is inapplicable decides. */
  function ParseWords(words: seq<string>, env: Env): (r: Result<Option<seq<Arg>>>)
    ensures r.Ok? && r.value.Some? ==> AllValid(r.value.value)
    ensures r.Ok? && r.value.Some? ==> forall i :: 0 <= i < |r.value.value| ==> r.value.value[i].pos == 0
  {
    if |words| == 0 then Ok(Some([]))
    else
      match ParseArgSpec(words[0], env)
      case Err(e) => Err(e)
      case Ok(None) => Ok(None)
      case Ok(Some(a)) => Prepend(a, ParseWords(words[1..], env))
  }

  lemma PrependNil(r: Result<Option<seq<Arg>>>)
    ensures Prepend([], r) == r
  {
    if r.Ok? && r.value.Some? { assert [] + r.value.value == r.value.value; }
  }

  lemma PrependTwice(a: seq<Arg>, b: seq<Arg>, r: Result<Option<seq<Arg>>>)
    ensures Prepend(a, Prepend(b, r)) == Prepend(a + b, r)
  {
    if r.Ok? && r.value.Some? { assert a + (b + r.value.value) == (a + b) + r.value.value; }
  }

  /** The outcome of expanding `u` and then `v`. */
  function Then(first: Result<Option<seq<Arg>>>, v: seq<string>, env: Env): Result<Option<seq<Arg>>> {
    match first
    case Err(e) => Err(e)
    case Ok(None) => Ok(None)
    case Ok(Some(a)) => Prepend(a, ParseWords(v, env))
  }

  /** The words of a command expand one after the other: the `Arg`s of a
      command are those of its first part followed by those of the rest. */
  lemma {:induction false} ParseWordsAppend(u: seq<string>, v: seq<string>, env: Env)
    ensures ParseWords(u + v, env) == Then(ParseWords(u, env), v, env)
    decreases |u|
  {
    if |u| > 0 {
      assert (u + v)[0] == u[0];
      assert (u + v)[1..] == u[1..] + v;
      var head := ParseArgSpec(u[0], env);
      ParseWordsAppend(u[1..], v, env);
      if head.Ok? && head.value.Some? {
        var a := head.value.value;
        var tail := ParseWords(u[1..], env);
        if tail.Ok? && tail.value.Some? {
          PrependTwice(a, tail.value.value, ParseWords(v, env));
        }
      }
    } else {
      assert u + v == v;
      PrependNil(ParseWords(v, env));
    }
  }

  /** `parse_args`: the program name is not expanded, the other words
      are, in order. */
  method ParseArgs(command: seq<string>, env: Env) returns (r: Result<Option<seq<Arg>>>)
    requires |command| >= 1
    ensures r == ParseWords(command[1..], env)
  {
    var words := command[1..];
    var parsed := [];
    PrependNil(ParseWords(words, env));
    for k := 0 to |words|
      invariant ParseWords(words, env) == Prepend(parsed, ParseWords(words[k..], env))
    {
      assert words[k..][1..] == words[k + 1..];
      var filtered := ParseArg(words[k], env);
      if filtered.Err? {
        return Err(filtered.error);
      }
      if filtered.value.None? {
        return Ok(None);
      }
      PrependTwice(parsed, filtered.value.value, ParseWords(words[k + 1..], env));
      parsed := parsed + filtered.value.value;
    }
    assert words[|words|..] == [];
    assert parsed + [] == parsed;
    return Ok(Some(parsed));
  }
}
