/** Inputs of actions: the per-action glob filters on input names, and
    the input cache that answers queries for an input's paths, computing
    each generated input at most once. Channels become explicit logs: the
    replies sent to callers (`sent`) and the generator jobs started
    (`spawned`). */
module Inputs {
  import opened Wrappers
  import opened Paths
  import Cargo

  const FILES_INPUTS := "files"
  const CARGO_TARGETS_INPUTS := "cargo_targets"
  const TOP_DIRECTORY_INPUTS := "top:directory"

  /** The context `try_from` attaches to every failure; being the
      outermost context it is the whole message. */
  const PARSING_FILTERS_CONTEXT := "Parsing input filters for action '{id}'"

  /** `InputFilters`: the glob patterns (kept as their text) that
      restrict each input name. */
  datatype InputFilters = InputFilters(patterns: map<string, seq<string>>)

  /** An answer to a query for an input: its paths or an error text. */
  type Reply = Result<seq<Path>>

  /** Asking the input cache for an input by name. */
  type Query = string -> Reply

  predicate AllCompile(value: map<string, seq<string>>, glob: Glob) {
    forall k, i :: k in value && 0 <= i < |value[k]| ==> glob.compiles(value[k][i])
  }

  /** `InputFilters::try_from`: every pattern must compile. Keys of a
      map are distinct, so the redefinition error cannot arise. */
  function TryFrom(value: map<string, seq<string>>, glob: Glob): (r: Result<InputFilters>)
    ensures r.Ok? <==> AllCompile(value, glob)
    ensures r.Ok? ==> r.value.patterns == value
    ensures r.Err? ==> r.error == PARSING_FILTERS_CONTEXT
  {
    if AllCompile(value, glob) then Ok(InputFilters(value)) else Err(PARSING_FILTERS_CONTEXT)
  }

  /** The patterns of one input name: none when the name is absent. */
  function PatternsOf(filters: InputFilters, name: string): seq<string> {
    if name in filters.patterns then filters.patterns[name] else []
  }

  /** `InputFilters::inputs`: the input names that carry filters. */
  function Names(filters: InputFilters): (r: set<string>)
    ensures forall n :: n in r <==> n in filters.patterns
  {
    filters.patterns.Keys
  }

  /** Rust's `{:?}` of a string, without escaping inner characters. */
  function Quoted(s: string): string {
    "\"" + s + "\""
  }

  /** The message for a failed query of `name`. */
  function InputsFailed(name: string, e: string): string {
    "Failed to get inputs for " + Quoted(name) + ": " + e
  }

  /** Whether `filtered` keeps path `p`: no patterns, or one matches. A
      path outside `root` is tested as it is. */
  predicate KeptByFilter(patterns: seq<string>, root: Path, glob: Glob, p: Path) {
    var rel := match StripPrefix(p, root) { case Some(r) => r case None => p };
    |patterns| == 0 || AnyMatches(glob, patterns, rel)
  }

  /** `InputFilters::filtered`: the paths of input `name` that its
      patterns let through, in query order. */
  function Filtered(filters: InputFilters, name: string, query: Query, root: Path, glob: Glob): (r: Reply)
    ensures query(name).Err? ==> r == Err(InputsFailed(name, query(name).error))
    ensures query(name).Ok? ==> r.Ok? && forall p :: p in r.value <==>
      p in query(name).value && KeptByFilter(PatternsOf(filters, name), root, glob, p)
  {
    match query(name)
    case Err(e) => Err(InputsFailed(name, e))
    case Ok(ps) => Ok(FilterPaths(ps, p => KeptByFilter(PatternsOf(filters, name), root, glob, p)))
  }

  /** Without patterns every path of the input is kept, in order. */
  lemma {:induction false} UnfilteredKeepsAll(ps: seq<Path>, root: Path, glob: Glob)
    ensures FilterPaths(ps, p => KeptByFilter([], root, glob, p)) == ps
  {
    if |ps| > 0 { UnfilteredKeepsAll(ps[1..], root, glob); }
  }

  /** The filters after `update_from`: an empty list removes the key, a
      non-empty one replaces its patterns, other keys stay. */
  function Updated(current: map<string, seq<string>>, value: map<string, seq<string>>): map<string, seq<string>> {
    map k | k in current.Keys + value.Keys && !(k in value && value[k] == [])
      :: if k in value then value[k] else current[k]
  }

  /** A key whose removal `update_from` asks for although it is not there. */
  predicate MissingRemoval(current: map<string, seq<string>>, value: map<string, seq<string>>, k: string) {
    k in value && value[k] == [] && k !in current
  }

  function RemovalError(k: string): string {
    k + " does not exist when trying to remove it from inputs"
  }

  /** `Updated`, element by element. */
  lemma UpdatedExt(current: map<string, seq<string>>, value: map<string, seq<string>>, r: map<string, seq<string>>)
    requires forall k :: k in r <==> if k in value then value[k] != [] else k in current
    requires forall k :: k in r ==> r[k] == if k in value then value[k] else current[k]
    ensures r == Updated(current, value)
  {
  }

  /** `InputFilters::update_from`, on a value: the keys are handled in
      the map's (unspecified) order, the first missing removal fails. */
  method UpdateFrom(filters: InputFilters, value: map<string, seq<string>>, glob: Glob)
    returns (r: Result<InputFilters>)
    ensures !AllCompile(value, glob) ==> r == Err(PARSING_FILTERS_CONTEXT)
    ensures AllCompile(value, glob) && (forall k :: !MissingRemoval(filters.patterns, value, k)) ==>
      r == Ok(InputFilters(Updated(filters.patterns, value)))
    ensures AllCompile(value, glob) && (exists k :: MissingRemoval(filters.patterns, value, k)) ==>
      r.Err? && exists k :: MissingRemoval(filters.patterns, value, k) && r.error == RemovalError(k)
  {
    var parsed := TryFrom(value, glob);
    if parsed.Err? {
      return Err(parsed.error);
    }
    var current := filters.patterns;
    var todo := value.Keys;
    ghost var done: map<string, seq<string>> := map[];
    while todo != {}
      invariant todo <= value.Keys
      invariant forall k :: k in done <==> k in value && k !in todo
      invariant forall k :: k in done ==> done[k] == value[k]
      invariant forall k :: k in done ==> !MissingRemoval(filters.patterns, value, k)
      invariant forall k :: k in current <==> if k in done then done[k] != [] else k in filters.patterns
      invariant forall k :: k in current ==> current[k] == if k in done then done[k] else filters.patterns[k]
      decreases |todo|
    {
      var k :| k in todo;
      if value[k] == [] {
        if k !in current {
          assert MissingRemoval(filters.patterns, value, k);
          return Err(RemovalError(k));
        }
        current := current - {k};
      } else {
        current := current[k := value[k]];
      }
      done := done[k := value[k]];
      todo := todo - {k};
    }
    assert done == value;
    UpdatedExt(filters.patterns, value, current);
    return Ok(InputFilters(current));
  }

  /** A cache slot: the answer once known, or the callers waiting for a
      generator still at work. */
  datatype Entry = Cached(data: Reply) | Generating(waiters: seq<nat>)

  /** A query from caller `caller` (its reply channel) for `input`. */
  datatype QueryMessage = QueryMessage(input: string, caller: nat)

  /** What a generator sends back when it is done. */
  datatype GeneratorReply = GeneratorReply(input: string, data: Reply)

  /** An answer delivered to a caller. */
  datatype Sent = Sent(to: nat, data: Reply)

  /** A generator started for `input`, with what it was given. */
  datatype Job = Job(input: string, top: Path, files: seq<Path>)

  /** The answers a generator reply delivers, one per waiter, in order. */
  function Notify(waiters: seq<nat>, data: Reply): (r: seq<Sent>)
    ensures |r| == |waiters|
    ensures forall i :: 0 <= i < |r| ==> r[i] == Sent(waiters[i], data)
  {
    if |waiters| == 0 then [] else [Sent(waiters[0], data)] + Notify(waiters[1..], data)
  }

  /** `InputCache`: one slot per input name that was asked for. */
  class InputCache {
    var inputs: map<string, Entry>
    var sent: seq<Sent>
    var spawned: seq<Job>

    /** The seeded inputs stay cached, only known names get slots, and
        each generated name has exactly one job behind it. */
    predicate Valid()
      reads this
    {
      && FILES_INPUTS in inputs && inputs[FILES_INPUTS].Cached? && inputs[FILES_INPUTS].data.Ok?
      && TOP_DIRECTORY_INPUTS in inputs && inputs[TOP_DIRECTORY_INPUTS].Cached?
      && inputs[TOP_DIRECTORY_INPUTS].data.Ok? && |inputs[TOP_DIRECTORY_INPUTS].data.value| > 0
      && (forall k :: k in inputs ==> k == FILES_INPUTS || k == TOP_DIRECTORY_INPUTS || k == CARGO_TARGETS_INPUTS)
      && (forall i :: 0 <= i < |spawned| ==> spawned[i].input in inputs && spawned[i].input == CARGO_TARGETS_INPUTS)
      && (forall i, j :: 0 <= i < j < |spawned| ==> spawned[i].input != spawned[j].input)
      && |spawned| == (if CARGO_TARGETS_INPUTS in inputs then 1 else 0)
    }

    /** `InputCache::new`: the changed files and the top directory are
        known from the start. */
    constructor (currentDirectory: Path, files: seq<Path>)
      ensures Valid()
      ensures inputs == map[FILES_INPUTS := Cached(Ok(files)),
                            TOP_DIRECTORY_INPUTS := Cached(Ok([currentDirectory]))]
      ensures sent == [] && spawned == []
    {
      inputs := map[FILES_INPUTS := Cached(Ok(files)),
                    TOP_DIRECTORY_INPUTS := Cached(Ok([currentDirectory]))];
      sent := [];
      spawned := [];
    }

    /** `handle_input_query`: a closed query channel ends the loop;
        otherwise a cached answer is sent, a running generator gains a
        waiter, `cargo_targets` starts its generator, and any other name
        is refused at once without a slot. */
    method HandleInputQuery(query: Option<QueryMessage>) returns (cont: bool)
      requires Valid()
      modifies this
      ensures Valid()
      ensures cont <==> query.Some?
      ensures query.None? ==> inputs == old(inputs) && sent == old(sent) && spawned == old(spawned)
      ensures query.Some? && query.value.input in old(inputs) && old(inputs)[query.value.input].Cached? ==>
        inputs == old(inputs) && spawned == old(spawned)
        && sent == old(sent) + [Sent(query.value.caller, old(inputs)[query.value.input].data)]
      ensures query.Some? && query.value.input in old(inputs) && old(inputs)[query.value.input].Generating? ==>
        sent == old(sent) && spawned == old(spawned)
        && inputs == old(inputs)[query.value.input :=
             Generating(old(inputs)[query.value.input].waiters + [query.value.caller])]
      ensures query.Some? && query.value.input !in old(inputs) && query.value.input == CARGO_TARGETS_INPUTS ==>
        sent == old(sent)
        && spawned == old(spawned) + [Job(CARGO_TARGETS_INPUTS,
             old(inputs)[TOP_DIRECTORY_INPUTS].data.value[0], old(inputs)[FILES_INPUTS].data.value)]
        && inputs == old(inputs)[CARGO_TARGETS_INPUTS := Generating([query.value.caller])]
      ensures query.Some? && query.value.input !in old(inputs) && query.value.input != CARGO_TARGETS_INPUTS ==>
        inputs == old(inputs) && spawned == old(spawned)
        && sent == old(sent) + [Sent(query.value.caller,
             Err("Input '" + query.value.input + "' is not supported"))]
    {
      if query.None? {
        return false;
      }
      var name := query.value.input;
      var sender := query.value.caller;
      if name in inputs {
        match inputs[name]
        case Cached(data) =>
          sent := sent + [Sent(sender, data)];
        case Generating(waiters) =>
          inputs := inputs[name := Generating(waiters + [sender])];
      } else if name == CARGO_TARGETS_INPUTS {
        var files := inputs[FILES_INPUTS].data.value;
        var top := inputs[TOP_DIRECTORY_INPUTS].data.value[0];
        spawned := spawned + [Job(name, top, files)];
        inputs := inputs[name := Generating([sender])];
      } else {
        sent := sent + [Sent(sender, Err("Input '" + name + "' is not supported"))];
      }
      return true;
    }

    /** `handle_generator_reply`: the answer replaces the waiting slot
        and goes to every waiter, in the order they asked. A reply can
        only come for a slot that is generating. */
    method HandleGeneratorReply(reply: Option<GeneratorReply>) returns (cont: bool)
      requires Valid()
      requires reply.Some? ==> reply.value.input in inputs && inputs[reply.value.input].Generating?
      modifies this
      ensures Valid()
      ensures cont
      ensures spawned == old(spawned)
      ensures reply.None? ==> inputs == old(inputs) && sent == old(sent)
      ensures reply.Some? ==>
        inputs == old(inputs)[reply.value.input := Cached(reply.value.data)]
        && sent == old(sent) + Notify(old(inputs)[reply.value.input].waiters, reply.value.data)
    {
      if reply.None? {
        return true;
      }
      var toNotify := inputs[reply.value.input].waiters;
      inputs := inputs[reply.value.input := Cached(reply.value.data)];
      var i := 0;
      while i < |toNotify|
        invariant 0 <= i <= |toNotify|
        invariant inputs == old(inputs)[reply.value.input := Cached(reply.value.data)]
        invariant spawned == old(spawned)
        invariant sent == old(sent) + Notify(toNotify[..i], reply.value.data)
      {
        assert Notify(toNotify[..i + 1], reply.value.data)
          == Notify(toNotify[..i], reply.value.data) + [Sent(toNotify[i], reply.value.data)];
        sent := sent + [Sent(toNotify[i], reply.value.data)];
        i := i + 1;
      }
      assert toNotify[..i] == toNotify;
      return true;
    }
  }

  /** The cache answers many callers of `cargo_targets` with a single
      generator run: all of them get its result, in order. */
  method SingleFlight(currentDirectory: Path, files: seq<Path>, callers: seq<nat>, manifest: Cargo.Manifests)
    returns (jobs: seq<Job>, names: seq<string>, replies: seq<Sent>)
    requires |callers| > 0
    ensures jobs == [Job(CARGO_TARGETS_INPUTS, currentDirectory, files)]
    ensures forall n :: n in names <==> Cargo.IsTarget(currentDirectory, files, manifest, n)
    ensures |replies| == |callers|
    ensures forall i :: 0 <= i < |callers| ==>
      (replies[i].to == callers[i] && replies[i].data.Ok? && |replies[i].data.value| == |names|
       && forall j :: 0 <= j < |names| ==> replies[i].data.value[j] == FromText(names[j]))
  {
    var cache := new InputCache(currentDirectory, files);
    for i := 0 to |callers|
      invariant cache.Valid()
      invariant cache.sent == []
      invariant i > 0 ==>
        (CARGO_TARGETS_INPUTS in cache.inputs && cache.inputs[CARGO_TARGETS_INPUTS] == Generating(callers[..i]))
      invariant i == 0 ==> CARGO_TARGETS_INPUTS !in cache.inputs && cache.spawned == []
      invariant i > 0 ==> cache.spawned == [Job(CARGO_TARGETS_INPUTS, currentDirectory, files)]
      invariant cache.inputs[FILES_INPUTS] == Cached(Ok(files))
      invariant cache.inputs[TOP_DIRECTORY_INPUTS] == Cached(Ok([currentDirectory]))
    {
      var _ := cache.HandleInputQuery(Some(QueryMessage(CARGO_TARGETS_INPUTS, callers[i])));
      assert callers[..i + 1] == callers[..i] + [callers[i]];
    }
    assert callers[..|callers|] == callers;
    var job := cache.spawned[0];
    var targets;
    names, targets := Cargo.FindCargoTargets(job.top, job.files, manifest);
    var _ := cache.HandleGeneratorReply(Some(GeneratorReply(job.input, Ok(targets))));
    jobs := cache.spawned;
    replies := cache.sent;
  }
}
