# beautytips, modelled in Dafny

beautytips runs configured "actions" over a set of input files. The actions are linters, formatters and checkers, and the input files are usually the files a version control system reports as changed. This project models the program's sequential core and proves properties of that model:

- how an action's command template becomes the processes it launches;
- how each action is run and its result classified;
- how input names are cached and filtered;
- how configuration sources are merged, and which actions a set of names selects;
- how the Cargo packages of changed files are found;
- how the reporter formats and tracks action output;
- how git or jj is chosen and their output read.

| module | file | models |
|---|---|---|
| `Wrappers` | wrappers.dfy | `Option`, `Result` and the pass/fail outcome of a step |
| `Text` | text.dfy | the string operations of the Rust standard library that the source uses (`split`, `lines`, `trim`, `find`, `join`), on `seq<char>`; bytes as a `Byte` newtype |
| `Paths` | paths.dfy | `Path` as a sequence of components: `strip_prefix`, `parent`, `file_name`; glob patterns as an oracle |
| `ArgTemplates` | args.dfy | `src/actions/args.rs`: the brace scanner `split_arg`, the `Arg`/`Args` odometer, `input_arg`, `parse_arg`, `parse_args` |
| `Inputs` | inputs.dfy | `src/actions/inputs.rs`: `InputFilters`, and `InputCache` as a class whose map the two event handlers update |
| `Cargo` | cargo.dfy | `crates/beautytips/src/actions/inputs/cargo.rs`: the upward manifest search and the sorted target list |
| `Actions` | actions.dfy | `src/actions.rs`: `ActionDefinition` identity and order, the selection iterator, `run_single_action`'s decisions and `run`'s two phases |
| `Processes` | processes.dfy | the invocation loop of `run_single_action` (`src/actions.rs:225-262`) |
| `Config` | config.dfy | `src/config.rs`: ids, qualified-id parsing and display, merging configuration sources into a table of definitions, group registration and validation, and action selection |
| `Reporter` | reporter.dfy | `src/reporter.rs`: output indentation, the status line and the `running` / `has_status` state |
| `VcsOutput`, `Vcs` | vcs.dfy | `src/vcs.rs`: output-to-text conversion, choosing the version control system, the environment of a changed-files run |
| `Git` | git.dfy | `src/vcs/git.rs` |
| `Jj` | jj.dfy | `src/vcs/jj.rs` |

Everything the program gets from outside is a parameter:

- the outcome of each process it starts (exit code, stdout, stderr, or no outcome when it cannot start);
- glob compilation and matching;
- `shell_words::split` and `quote`;
- the path of the running binary;
- the lookup of a package name in a `Cargo.toml`;
- the decoding of process output as UTF-8;
- the terminal width;
- the `SKIP` environment variable;
- the result of TOML deserialisation.

Code that works step by step is imperative Dafny: the scanner, the odometer, the invocation loop, the table that merging updates, the recursive selector, the cache and the reporter. Each method is proved against a function on its inputs or its old state. Expressions and iterator chains are functions with lemmas.

Three choices depart from the code as written:

- `parse_args` returns an `Option<Args>`, and in `src/actions.rs:209-232` the caller uses that value without looking at the `None` case. The model treats `None` as "not applicable": the action reports `NotApplicable` and launches nothing. This is what the earlier version of the same function does (`crates/beautytips/src/actions.rs:158-166`).
- `split_arg` loses a `{` at the very end of a word (`src/actions/args.rs:138-142`). The argument pipeline built on it keeps that `{` as text. The code as written is modelled beside it, and the difference is shown under "## Findings".
- The status line's width limit `width - 15` (`src/reporter.rs:20`) overflows on a terminal narrower than 15 columns. The reporter uses a limit that saturates at zero. The code as written is modelled beside it, and the difference is shown under "## Findings".

Other behaviours follow the code, not a looser reading of it:

- `Args::increment` carries from the first argument, so the first argument changes fastest.
- In a composite word, the leftmost scalar placeholder changes fastest.
- `input_arg` drops paths outside the root directory, while `InputFilters::filtered` matches such a path unchanged against the patterns.
- A missing command sends `Done(Error)` and then fails the whole run.
- An expansion error sends `Done(Error)` and lets the run go on.
- Processes receive only the run's extra environment.
- `SKIP` is split at commas, and an action is skipped when one piece is exactly `source/id`.

## Model

| member | source | states |
|---|---|---|
| Text.Split | src/reporter.rs:64-67 | at least one piece, and none holds the separator |
| Text.JoinSplit | src/reporter.rs:64-67 | joining the pieces with the separator gives the text back |
| Text.SplitJoin | src/reporter.rs:64-67 | separator-free pieces that are joined split back into the same pieces |
| Text.IndexOf | src/config.rs:143-152 | the first position of the character |
| Text.Lines | src/vcs/jj.rs:56-57 | no line holds a newline |
| Text.TrimStart | src/reporter.rs:58 | a suffix of the text that does not start with white space; everything cut off is white space |
| Text.TrimEnd | src/reporter.rs:58 | a prefix of the text that does not end with white space; everything cut off is white space |
| Text.LexIrreflexive | src/actions.rs:47-56 | no text precedes itself |
| Text.LexTransitive | src/actions.rs:47-56 | the text order is transitive |
| Text.LexAsymmetric | src/actions.rs:47-56 | the text order is asymmetric |
| Text.LexTotal | src/actions.rs:47-56 | of two different texts, one precedes the other |
| Text.Insert | crates/beautytips/src/actions/inputs/cargo.rs:52-53 | inserting into a strictly sorted list keeps it strictly sorted and adds exactly that element |
| Paths.StripPrefix | src/actions/inputs.rs:73 | a result exactly when the path starts with the base; the base followed by the result is the path |
| Paths.Parent | crates/beautytips/src/actions/inputs/cargo.rs:28 | none exactly for the empty path and the root; otherwise the path without its last component |
| Paths.FileName | crates/beautytips/src/actions/inputs/cargo.rs:33 | the last component, and only for a path whose last component is not the root, `..` or `.` |
| Paths.FromText | src/vcs/git.rs:14 | the path is normalized: a leading root or a leading `.`, then components that are neither empty nor `.` and hold no separator |
| Paths.InteriorDotDropped | src/vcs/git.rs:14 | a `.` between two components is dropped: `a/./b` has the components `a` and `b` |
| Paths.LeadingDotKept | src/vcs/git.rs:14 | a leading `.` is kept as the first component: `./a` has the components `.` and `a` |
| Paths.TrailingDotNamesParent | src/vcs/git.rs:14 | a trailing `.` is dropped, so the file name of `a/.` is `a` |
| Paths.ToText | src/actions/args.rs:237-250 | definition only: the components joined with `/`, a leading root written as one `/`; `TextRoundTrip` proves that reading the text back gives the path |
| Paths.RootedRoundTrip | src/vcs/git.rs:14 | a normalized path that starts at the root is read back from its text |
| Paths.DotRoundTrip | src/vcs/git.rs:14 | a normalized path that starts with `.` is read back from its text |
| Paths.RelativeRoundTrip | src/vcs/git.rs:14 | any other normalized path is read back from its text |
| Paths.TextRoundTrip | src/vcs/git.rs:14 | printing a normalized path and reading it back gives the path |
| Paths.FilterPaths | src/actions/inputs.rs:67-79 | no longer than the input, and holding exactly the paths that are kept |
| Paths.FilterAppend | src/actions/inputs.rs:67-79 | filtering distributes over concatenation, so the kept paths keep their order |
| ArgTemplates.ScannedAppend | src/actions/args.rs:86-136 | scanning a word in two pieces is the same as scanning it whole |
| ArgTemplates.SplitArgAsWritten | src/actions/args.rs:81-143 | definition only: `split_arg` as written: the scanner run over the word, then only the pending text flushed; `TrailingBraceLost` and `SplitsAgree` state how it differs from the corrected split |
| ArgTemplates.SplitSpec | src/actions/args.rs:81-143 | definition only: the corrected split, which flushes a pending `{` as text; `SplitArg` equals it, and `SplitParts`, `SplitKeepsText` and `PlaceholderSplit` state its properties |
| ArgTemplates.SplitArg | src/actions/args.rs:81-143 | the scanner loop gives the corrected split of the word (see Findings) |
| ArgTemplates.OutsideKeepsInvariant | src/actions/args.rs:87-135 | a character read outside a placeholder keeps the scanner's invariant |
| ArgTemplates.OpenKeepsInvariant | src/actions/args.rs:87-135 | a character read after one `{` keeps the scanner's invariant |
| ArgTemplates.InsideKeepsInvariant | src/actions/args.rs:87-135 | a character read inside a placeholder keeps the scanner's invariant |
| ArgTemplates.ClosingKeepsInvariant | src/actions/args.rs:87-135 | a character read after one `}` inside a placeholder keeps the scanner's invariant |
| ArgTemplates.StepKeepsInvariant | src/actions/args.rs:87-135 | one character keeps the scanner's invariant: finished parts are closed placeholders or literals, and the pending part is shaped as its state says |
| ArgTemplates.ScannedInvariant | src/actions/args.rs:86-136 | the invariant holds after any run of characters |
| ArgTemplates.SplitParts | src/actions/args.rs:81-143 | no part is empty; every part but the last is a closed `{{name}}` placeholder or a literal without `{{`; the last may also be a placeholder left open |
| ArgTemplates.LiteralRun | src/actions/args.rs:120-133 | outside a placeholder, text without `{` is appended to the pending part |
| ArgTemplates.NameRun | src/actions/args.rs:120-133 | inside a placeholder, a name without braces is appended to it |
| ArgTemplates.NoBraceIsLiteral | src/actions/args.rs:81-143 | a word without `{` is one part, or none when it is empty |
| ArgTemplates.PlaceholderSplit | src/actions/args.rs:81-143 | `pre{{name}}post` splits into `pre`, `{{name}}` and `post`, leaving out the empty ones |
| ArgTemplates.SplitExample | src/actions/args.rs:297-307 | `test{{files}}foobar` splits into `test`, `{{files}}` and `foobar` |
| ArgTemplates.SplitExampleMulti | src/actions/args.rs:309-319 | `test{{files...}}foobar` splits into `test`, `{{files...}}` and `foobar` |
| ArgTemplates.NoPlaceholderKeepsText | src/actions/args.rs:86-136 | on a word without `{{` the scanner finishes no part; the pending part is the word itself, or the word without a trailing `{`, which the scanner is then still waiting on |
| ArgTemplates.SplitKeepsText | src/actions/args.rs:81-143 | the corrected split keeps a word without `{{` whole |
| ArgTemplates.TrailingBraceLost | src/actions/args.rs:138-142 | as written, `a{` splits into `a` and `{` into nothing; the corrected split keeps `a{` |
| ArgTemplates.SplitsAgree | src/actions/args.rs:138-142 | the two splits agree unless the word ends with a `{` that is still pending |
| ArgTemplates.Arg.Current | src/actions/args.rs:28-34 | the current value is one of the values |
| ArgTemplates.Arg.Increment | src/actions/args.rs:36-45 | the values are kept; the cursor wraps to 0 exactly when it was at the last value, and moves on by one otherwise |
| ArgTemplates.NewArg | src/actions/args.rs:19-26 | a valid cursor on the first value |
| ArgTemplates.Combination | src/actions/args.rs:52-63 | one value for each word, chosen from that word's values |
| ArgTemplates.IndexBound | src/actions/args.rs:52-63 | the state number of valid cursors is one of the odometer's states |
| ArgTemplates.CurrentsAreCombination | src/actions/args.rs:61-63 | the current values are the combination that the state number selects |
| ArgTemplates.IndexCarry | src/actions/args.rs:52-59 | a step that resets the first `i` words and moves word `i` on adds one to the state number |
| ArgTemplates.IndexAllLast | src/actions/args.rs:52-59 | every word at its last value is the last state |
| ArgTemplates.IndexAllFirst | src/actions/args.rs:19-26 | every word at its first value is state 0 |
| ArgTemplates.EveryChoiceVisited | src/actions/args.rs:52-63 | every choice of one value per word is the combination of some state |
| ArgTemplates.CarryResult | src/actions/args.rs:52-59 | a step that stops at word `i` keeps the values and adds one to a state number that was not the last |
| ArgTemplates.WrapResult | src/actions/args.rs:52-59 | a step in which every word wraps goes from the last state to state 0 |
| ArgTemplates.ValuesOf | src/actions/args.rs:12-16 | one list per word, holding that word's values |
| ArgTemplates.Size | src/actions/args.rs:50-59 | the odometer has at least one state: the product of the numbers of values |
| ArgTemplates.Currents | src/actions/args.rs:61-63 | one current value per word |
| ArgTemplates.Args.constructor | src/actions/args.rs:48-49 | the odometer holds the parsed words |
| ArgTemplates.Args.ArgsIter | src/actions/args.rs:61-63 | the current value of every word, in order |
| ArgTemplates.Args.Increment | src/actions/args.rs:52-59 | the values are kept; the state number moves on by one modulo the number of states; it reports a wrap exactly when it stepped from the last state back to the first |
| ArgTemplates.PlaceholderName | src/actions/args.rs:154-160 | `{{name...}}` gives the name and `true`; `{{name}}` gives the name and `false`, where the name does not end in `...` |
| ArgTemplates.InputArg | src/actions/args.rs:145-189 | `Ok(None)` exactly for a word that is not a placeholder; a query failure gives the "Failed to get inputs" error; otherwise the array flag, and exactly the queried paths that lie under the root and whose relative part matches a pattern, when there are patterns |
| ArgTemplates.PlaceholderDropsOutside | src/actions/args.rs:174-182 | a placeholder never keeps a path outside the root directory |
| ArgTemplates.QuotedPaths | src/actions/args.rs:237-249 | the shell-quoted text of every path, one for one |
| ArgTemplates.AppendAll | src/actions/args.rs:242-244 | every candidate with the text appended, one for one |
| ArgTemplates.Cross | src/actions/args.rs:246-255 | every candidate with every extension, `|xs| * |ext|` candidates; `CrossAt` states their order |
| ArgTemplates.CrossAt | src/actions/args.rs:246-255 | candidate `j * n + i` is candidate `i` followed by extension `j`, so the candidates built so far vary fastest |
| ArgTemplates.Compose | src/actions/args.rs:225-264 | the candidates after the remaining parts of a composite word; when no part fails and every part has paths, at least one candidate is left |
| ArgTemplates.Extend | src/actions/args.rs:228-261 | fails exactly when the part's input fails; a success is non-empty, with as many candidates as before times the part's multiplier |
| ArgTemplates.ComposeCount | src/actions/args.rs:226-262 | the number of candidates is the product of the path counts of the scalar placeholders |
| ArgTemplates.ParseArgSpec | src/actions/args.rs:192-268 | every `Arg` produced is valid and starts at its first value; a word of several parts gives exactly one `Arg` |
| ArgTemplates.LiteralWord | src/actions/args.rs:222-224 | a word without `{` is one `Arg` holding just the word |
| ArgTemplates.PlaceholderWord | src/actions/args.rs:202-221 | a scalar placeholder word is one `Arg` over the texts of its paths; an array placeholder word is one single-valued `Arg` per path |
| ArgTemplates.AppendToAll | src/actions/args.rs:242-244 | the in-place loop appends the text to every candidate |
| ArgTemplates.CrossProduct | src/actions/args.rs:246-255 | the nested loop builds the cross product of the candidates and the extensions |
| ArgTemplates.ParseArg | src/actions/args.rs:191-268 | `parse_arg` gives the `Arg`s specified for the word |
| ArgTemplates.ParseWords | src/actions/args.rs:270-289 | every `Arg` of an expansion is valid and at its first value |
| ArgTemplates.ParseWordsAppend | src/actions/args.rs:279-286 | expanding two lists of words one after the other is expanding their concatenation |
| ArgTemplates.ParseArgs | src/actions/args.rs:270-289 | the words after the program name, expanded in order; the first error, or the first word without paths, decides the result |
| Inputs.TryFrom | src/actions/inputs.rs:22-49 | succeeds exactly when every pattern compiles, keeping the patterns as given; a failure carries the outer context message |
| Inputs.Names | src/actions/inputs.rs:82-84 | exactly the input names that carry filters |
| Inputs.Quoted | src/actions/args.rs:171 | definition only: the name between double quotes, as `{:?}` prints a name without quotes or backslashes |
| Inputs.KeptByFilter | src/actions/inputs.rs:67-79 | definition only: no patterns, or some pattern matches the path relative to the root (the path itself when it lies outside the root); `Filtered` keeps exactly such paths |
| Inputs.Filtered | src/actions/inputs.rs:52-80 | a query failure gives the "Failed to get inputs" message; otherwise exactly the queried paths that have no patterns or whose root-relative part matches one; a path outside the root is matched unchanged |
| Inputs.UnfilteredKeepsAll | src/actions/inputs.rs:74 | without patterns every path is kept, in order |
| Inputs.Updated | src/actions/inputs.rs:86-103 | definition only: an empty list removes its key, a non-empty one replaces the key's patterns, and other keys stay; `UpdateFrom` gives it on success |
| Inputs.UpdatedExt | src/actions/inputs.rs:86-103 | a map with exactly the keys that stay and the patterns that replace old ones equals `Updated` |
| Inputs.UpdateFrom | src/actions/inputs.rs:86-103 | a pattern that does not compile gives the parse error; a key removed while absent gives "k does not exist when trying to remove it from inputs" for such a key; otherwise empty lists remove their keys, other lists replace the patterns, and all other keys stay |
| Inputs.Notify | src/actions/inputs.rs:308-311 | one answer per waiter, in order, each carrying the generator's data |
| Inputs.InputCache.constructor | src/actions/inputs.rs:188-205 | `files` and `top:directory` are cached from the start; nothing has been sent or spawned |
| Inputs.InputCache.HandleInputQuery | src/actions/inputs.rs:219-289 | a closed channel stops the loop and changes nothing; a cached answer is sent as it is; a running generator gains the caller as a waiter; `cargo_targets` starts one generator, on the top directory and the files, with the caller waiting; any other name is refused with "Input 'n' is not supported" and gets no slot; the cache invariant is kept |
| Inputs.InputCache.HandleGeneratorReply | src/actions/inputs.rs:291-314 | the reply is cached in place of the waiting slot and sent to every waiter, in the order they asked; the loop goes on; no generator is started |
| Inputs.SingleFlight | src/actions/inputs.rs:219-314 | any number of callers asking for `cargo_targets` start exactly one generator, and each of them is answered with the same cargo targets |
| Cargo.SearchUpward | crates/beautytips/src/actions/inputs/cargo.rs:16-30 | definition only: from `dir` upwards, the package of the first directory whose `Cargo.toml` names one; nothing once the candidate leaves the top directory or the root is passed; `SearchIsNearest` characterises it |
| Cargo.FindCargoToml | crates/beautytips/src/actions/inputs/cargo.rs:16-30 | the loop performs the upward search: it stops with nothing once the `Cargo.toml` candidate leaves the top directory or the root is passed, and otherwise returns the first package name found |
| Cargo.ReachesStep | crates/beautytips/src/actions/inputs/cargo.rs:16-30 | reaching an ancestor means passing `dir` itself, inside the top directory and without a package, and then reaching the ancestor from the parent |
| Cargo.SearchSkips | crates/beautytips/src/actions/inputs/cargo.rs:16-30 | the search from `dir` equals the search from any ancestor it reaches |
| Cargo.SearchFinds | crates/beautytips/src/actions/inputs/cargo.rs:16-30 | a package found by the search comes from an ancestor it reaches, whose manifest lies under the top directory and names the package |
| Cargo.SearchIsNearest | crates/beautytips/src/actions/inputs/cargo.rs:16-30 | the search yields a name exactly when the nearest packaged ancestor it reaches names it |
| Cargo.FindCargoTarget | crates/beautytips/src/actions/inputs/cargo.rs:32-41 | definition only: a `Cargo.toml` names its own package, a `.rs` file belongs to the nearest package above its directory, any other file to none |
| Cargo.TargetNeedsKnownFile | crates/beautytips/src/actions/inputs/cargo.rs:32-41 | only a `Cargo.toml` or a `.rs` file can belong to a package |
| Cargo.TargetSet | crates/beautytips/src/actions/inputs/cargo.rs:43-50 | the set holds exactly the package names of the files |
| Cargo.SortedNames | crates/beautytips/src/actions/inputs/cargo.rs:52-53 | the names of the set, strictly sorted, so without duplicates |
| Cargo.FindCargoTargets | crates/beautytips/src/actions/inputs/cargo.rs:43-56 | the package names some file belongs to, each once, in sorted order, with one path for each |
| Actions.CompareText | src/actions.rs:47-56 | `Equal` exactly for equal texts, `Less` exactly when the first precedes the second lexicographically, `Greater` exactly when it follows |
| Actions.Compare | src/actions.rs:47-56 | definition only: `Ord for ActionDefinition`, by id and then by source; `CompareEqual`, `CompareAntisymmetric` and `CompareTransitive` state its properties |
| Actions.CompareEqual | src/actions.rs:41-56 | the order calls two definitions equal exactly when `PartialEq` does, that is, when their ids and sources agree |
| Actions.CompareAntisymmetric | src/actions.rs:47-56 | `a < b` exactly when `b > a` |
| Actions.CompareTransitive | src/actions.rs:47-56 | `a < b` and `b < c` give `a < c` |
| Actions.InsertIndex | src/actions.rs:68-72 | inserting a new index into an increasing sequence keeps it increasing, makes it one longer, and adds exactly that index |
| Actions.ItemAt | src/actions.rs:85-89 | a definition exactly when the step is inside the sorted indices and its index is inside the definitions; that definition is the one at the index |
| Actions.Yielded | src/actions.rs:82-90 | definition only: the definitions a `for` loop over the iterator visits from step `k`, up to the first `None`; `YieldedSelected` and `YieldedPresent` state which they are |
| Actions.YieldedSelected | src/actions.rs:82-90 | with every index inside the definitions, a loop from step `k` visits one definition per remaining index, in the order of the indices |
| Actions.Present | src/actions.rs:67-90 | every definition kept is the one an index of the sequence names, for an index inside the definitions |
| Actions.PresentNone | src/actions.rs:67-90 | indices that all lie past the definitions, such as the hidden index, name no definition |
| Actions.YieldedPresent | src/actions.rs:67-90 | for any increasing indices, including the hidden index `usize::MAX` or any other index past the end, a loop from step `k` visits exactly the definitions the remaining in-range indices name, in order; out-of-range indices yield nothing |
| Actions.ActionDefinitionIterator.constructor | src/actions.rs:65-80 | the indices are the selected set, exactly, as a strictly increasing sequence of its size; iteration starts at step 0 |
| Actions.ActionDefinitionIterator.Next | src/actions.rs:85-89 | yields what is at the current step, moves one step on, and changes nothing else |
| Actions.Applicable | src/actions.rs:122-138 | definition only: every input the filters name is queried without error and keeps at least one path; `HasUnfilteredInput` computes it |
| Actions.HasUnfilteredInput | src/actions.rs:122-138 | true exactly when every input the filters name keeps at least one path; an input that cannot be read counts as empty |
| Actions.Report | src/actions.rs:264-298 | `Warn` exactly when some exit code was unexpected, and `Ok` otherwise; the output is blanked for `Never`, for `Success` on a warning and for `Failure` on a success, and is kept otherwise |
| Actions.RunAnnounces | src/actions.rs:141-300 | every action first sends `Started` with its `source/id` and then at most one `Done` for itself; the `Done` is missing exactly when a process could not be started |
| Actions.NothingLaunchedWhenNotRun | src/actions.rs:158-184 | an action that is not applicable, or is named in `SKIP`, launches no process, passes, and reports `NotApplicable` or `Skipped` |
| Actions.RunsEveryCombination | src/actions.rs:201-262 | when the words expand and every process starts, the program is run with every combination of the argument values |
| Actions.LoopRun | src/actions.rs:225-262 | definition only: the process loop of an action whose words expanded: `Started`, then one process per odometer state until one cannot start; a start failure fails the run with no `Done`, otherwise the collected output is reported |
| Actions.RunSpec | src/actions.rs:141-300 | definition only: `run_single_action` step by step: not applicable, skipped, a missing command, an argument error, no paths, or the process loop; `RunAnnounces`, `NothingLaunchedWhenNotRun` and `RunsEveryCombination` state its properties |
| Actions.RunSingleAction | src/actions.rs:140-300 | the updates sent, the processes launched and the outcome are those of the step-by-step definition of `run_single_action`, whose properties are the lemmas above (`Applicable` first, then `SKIP`, a missing command, argument parsing, the process loop, and the report) |
| Actions.Runs | src/actions.rs:324-351 | one run per definition, each one what `run_single_action` does for that definition |
| Actions.FirstFailure | src/actions.rs:336-339 | passes exactly when both outcomes pass |
| Actions.RunsAnnounce | src/actions.rs:141-156 | each run's first update announces its own definition |
| Actions.ParallelAnnounces | src/actions.rs:322-339 | a parallel phase that passes has announced every definition that is not run sequentially |
| Actions.SequentialAnnounces | src/actions.rs:341-351 | a sequential phase that passes has announced every definition that is run sequentially |
| Actions.PassingRunAnnouncesAll | src/actions.rs:308-361 | a whole run that passes has announced every definition the iterator yields |
| Actions.SequentialAfterParallel | src/actions.rs:336-351 | when the parallel phase fails, the whole run is that phase, and no sequential action runs |
| Actions.SequentialStops | src/actions.rs:343-351 | once the sequential phase has failed, later definitions change nothing |
| Actions.ParallelPhase | src/actions.rs:322-339 | definition only: the runs of the definitions not run sequentially, in iterator order, failing with the first failure; `ParallelAnnounces` and `ParallelLoop` are about it |
| Actions.SequentialPhase | src/actions.rs:343-351 | definition only: the runs of the definitions run sequentially, stopping after the first failure; `SequentialAnnounces`, `SequentialStops` and `SequentialLoop` are about it |
| Actions.RunAllSpec | src/actions.rs:308-361 | definition only: the parallel phase, then the sequential phase only when the parallel one passed; `RunAll`, `PassingRunAnnouncesAll` and `SequentialAfterParallel` are about it |
| Actions.ParallelLoop | src/actions.rs:324-339 | the loop gives the parallel phase over all definitions |
| Actions.RunOne | src/actions.rs:324-351 | the run of the `i`th yielded definition is the `i`th of the runs both phases are specified with |
| Actions.RunParallel | src/actions.rs:322-339 | equals the parallel phase over all the definitions' runs |
| Actions.SequentialLoop | src/actions.rs:343-351 | the loop gives the sequential phase, stopping at the first failure |
| Actions.RunSequential | src/actions.rs:341-351 | equals the sequential phase over all the definitions' runs |
| Actions.RunAll | src/actions.rs:308-361 | the parallel phase, followed, only when it passed, by the sequential phase |
| Processes.Terminate | src/actions.rs:250-257 | definition only: a newline is pushed unless the buffer ends with one; `TerminateEndsInNewline` states it |
| Processes.Collected | src/actions.rs:250-257 | definition only: each output appended to the buffer in turn, which is then terminated; `CollectedStep`, `CollectedEndsInNewline` and `CollectedContains` state its properties |
| Processes.TerminateEndsInNewline | src/actions.rs:250-257 | terminated output ends in a newline; it is the buffer, or the buffer with one newline added, and is left unchanged exactly when the buffer already ended in a newline |
| Processes.CollectedStep | src/actions.rs:250-257 | collecting one more process output appends its bytes to what was collected and then terminates the result |
| Processes.CollectedEndsInNewline | src/actions.rs:225-257 | nothing is collected before the first process; after it, the collected bytes end in a newline |
| Processes.CollectedContains | src/actions.rs:250-257 | the last output appears whole in the collected bytes, right after what was collected before it |
| Processes.AdvanceFlags | src/actions.rs:229-248 | a pass fails exactly when the launch fails (or an earlier one did), counts one more attempt unless the loop had already stopped, and marks the exit code invalid exactly when it is not the expected one |
| Processes.Gather | src/actions.rs:229-262 | definition only: the launches, failure and invalid flag after the first `n` passes of the loop; the `Gather` lemmas below state its properties |
| Processes.GatherBound | src/actions.rs:229-262 | at most one launch attempt per planned process; all of them are attempted unless one fails to start |
| Processes.GatherCompletes | src/actions.rs:229-262 | the loop completes exactly when every planned process starts |
| Processes.GatherFailsLast | src/actions.rs:229-236 | a failing launch is the last one attempted, and every launch before it started |
| Processes.GatherInvalid | src/actions.rs:245-248 | a completed loop is marked invalid exactly when some process's exit code differs from the expected one; a missing code counts as different |
| Processes.GatherStopsAtFailure | src/actions.rs:229-236 | after a launch failed, the rest of the plan changes nothing |
| Processes.OutputsComplete | src/actions.rs:229-262 | when every launch succeeded, the outputs are those of all the planned processes, in plan order |
| Processes.OutputsStep | src/actions.rs:250-257 | a process that started adds its output at the end |
| Processes.Plan | src/actions.rs:229-262 | exactly `n` invocations, one per odometer state in visiting order; `PlanAt` and `PlanPrefix` state which |
| Processes.Planned | src/actions.rs:229-262 | one invocation for every state of the odometer |
| Processes.PlanAt | src/actions.rs:229-262 | the `k`th invocation runs the program with the `k`th combination of argument values, in the root directory, with the extra environment |
| Processes.PlanPrefix | src/actions.rs:229-262 | a shorter plan is a prefix of a longer one |
| Processes.Launch | src/actions.rs:230-248 | launches the `k`th planned process, advancing the loop's progress exactly as one pass of the loop does; a failed launch ends the loop |
| Processes.Collect | src/actions.rs:250-257 | the collected stdout and stderr grow to those of the first `k + 1` outputs |
| Processes.Pass | src/actions.rs:229-261 | one pass keeps the loop's invariant, or ends the loop with the failure of the `k + 1`th launch |
| Processes.Iterate | src/actions.rs:229-262 | the loop attempts the planned invocations in order, stopping at the first that cannot be started; on completion the collected output is that of all the planned processes |
| Processes.RunLoop | src/actions.rs:225-262 | the processes launched are a prefix of the plan, one per odometer state; the progress is that of the loop over the whole plan; on completion the output is the collected output of every process |
| Config.IsValidId | src/config.rs:16-20 | true exactly when the id is not empty and every character is a lower-case ASCII letter, a digit or `_` |
| Config.NoNonIdChar | src/config.rs:16-20 | having no character outside `[a-z0-9_]` is the same as every character being allowed |
| Config.ValidIdExamples | src/config.rs:667-674 | `foo`, `_foo_` and `bar_123_foo` are valid ids; `Bar_123_foo`, `123_Bar` and the empty text are not |
| Config.NewActionId | src/config.rs:29-36 | succeeds exactly on a valid id, keeping its text; otherwise fails with "`<input>` is not a valid action id" |
| Config.NewActionSource | src/config.rs:79-86 | succeeds exactly on a valid id, keeping its text; otherwise fails with "`<input>` is not a valid action source" |
| Config.Parse | src/config.rs:143-152 | a parsed id has valid halves and displays as the input; without `/` it succeeds exactly on a valid id, has no source and otherwise fails with the context "Failed to parse qualified action id"; with `/` the text splits at the first `/` into source and id, a bad source is reported before a bad id |
| Config.Format | src/config.rs:165-173 | definition only: `source/id`, or the id alone; `ParseFormat` proves that parsing it gives the id back |
| Config.ParseFormat | src/config.rs:143-173 | displaying a qualified id with valid halves and parsing the text gives the same id back |
| Config.ActionNames | src/config.rs:279-288 | the names of the action tables, one per table, in order |
| Config.GroupNames | src/config.rs:293-302 | the names of the group tables, one per table, in order |
| Config.FirstDuplicate | src/config.rs:276-305 | `None` exactly when the names are distinct; otherwise the first position whose name occurred before it |
| Config.FromString | src/config.rs:272-311 | unparsable text fails with "Failed to parse toml"; the source is accepted exactly when action names and group names are each distinct; a repeated action name is reported before a repeated group name, each with the first repeated name |
| Config.MapCommand | src/config.rs:519-533 | a command the shell splitter rejects fails naming the command; a leading `{BEAUTY_TIPS}` word becomes the running binary's path (failing when that is unknown) and every other word is kept |
| Config.Added | src/config.rs:440-465 | an added action has the table's name, the configuration's source and the mapped command; unset keys default to an empty description, output shown on failure, sequential running, exit code 0 and no input filters |
| Config.ChangedDefinition | src/config.rs:380-408 | a failing new command gives its own error; otherwise the change fails exactly when the new inputs do not apply, with "While changing `<id>`"; a success is the old definition with each set key replaced and the id and source kept |
| Config.ActionTable.constructor | src/config.rs:474-491 | the table `merge_actions` works on holds the configuration's definitions and index |
| Config.ActionTable.HideAction | src/config.rs:321-341 | a table with extra keys fails and changes nothing; otherwise the plain key is marked hidden even when it named no action, and that case fails with "is hiding an action that does not exist"; the definitions never change |
| Config.ActionTable.ChangeAction | src/config.rs:352-416 | fails, in this order, without extra keys, on a missing key, on a hidden key, on a bad command, and on inputs that do not apply; a failure changes nothing; a success appends the changed definition and points the plain and the source-qualified key at it |
| Config.ActionTable.AddAction | src/config.rs:418-472 | fails without a command, when a live action has the name, with the literal context `Processing command of {qid}` on a bad command, and on bad input patterns; a failure changes nothing; a success appends the defaulted definition and points both keys at it |
| Config.HideSpec | src/config.rs:321-341 | definition only: `hide_action` on a table value: extra keys fail and change nothing; otherwise the plain key is mapped to the hidden index, failing when it was absent |
| Config.ChangeSpec | src/config.rs:352-416 | definition only: `change_action` on a table value, with its errors in the source's order and the changed copy appended under both keys; `StepKeeps` states what it keeps |
| Config.AddSpec | src/config.rs:418-472 | definition only: `add_action` on a table value, with its errors in the source's order and the new definition appended under both keys; `StepKeeps` states what it keeps |
| Config.StepSpec | src/config.rs:474-491 | definition only: hide, change or add, as the definition's `merge` key says; `MergeOne` equals it on the table's state |
| Config.ChangedFromIsChanged | src/config.rs:380-408 | the field-by-field description of a change determines the changed definition: each field given in the update replaces the old one, and every other field stays |
| Config.GrownIndexed | src/config.rs:411-413 | appending a definition with the name's id and pointing both keys at it keeps the index consistent and the old definitions a prefix |
| Config.HideKeeps | src/config.rs:321-341 | hiding keeps the index consistent, the definitions and the keys |
| Config.ChangeKeeps | src/config.rs:352-416 | changing keeps the index consistent, appends at most one definition and drops no key; on success the name is a key |
| Config.AddKeeps | src/config.rs:418-472 | adding keeps the index consistent, appends at most one definition and drops no key; on success the name is a key |
| Config.StepKeeps | src/config.rs:474-491 | hiding, changing or adding one definition keeps the index consistent, appends at most one definition, drops no key, and on success makes the table's name a key |
| Config.MergeSpec | src/config.rs:474-491 | merging the definitions in order, stopping at the first failure, keeps the index consistent, keeps the old definitions as a prefix and the old keys, and on success makes every table's name a key |
| Config.ActionTable.MergeOne | src/config.rs:474-491 | the outcome and new table are those of `hide_action`, `change_action` or `add_action` as the `merge` key says, with each one's error cases in the source's order; the index stays consistent, at most one definition is appended, the old definitions and keys stay, and on success the table's name is a key |
| Config.ActionTable.MergeActions | src/config.rs:474-491 | the outcome and new table are those of merging the definitions in order and stopping at the first failure, whose error is returned; the index stays consistent, the old definitions are a prefix of the new ones, no key is lost, and on success every table's name is a key |
| Config.RewriteThis | src/config.rs:499-510 | each member from the source `this` is qualified by the configuration's source instead; every other member is kept, in order |
| Config.RewriteThisResolves | src/config.rs:499-510 | after rewriting, no member names `this` as its source, member ids are unchanged, and members from other sources are untouched |
| Config.RegisteredKeys | src/config.rs:493-517 | registering groups adds exactly each group's plain and source-qualified key and keeps every other group as it was |
| Config.RegisteredMembers | src/config.rs:493-517 | with distinct group names, both keys of each group map to its rewritten member list |
| Config.AddNewActionGroups | src/config.rs:493-517 | the result is the groups with each new group registered under both keys |
| Config.FirstUnknownMember | src/config.rs:537-544 | `None` exactly when every member of the group is a known action or group; otherwise the position of the first unknown one |
| Config.ValidateState | src/config.rs:535-547 | passes exactly when every member of every group is a known action or group; a failure names a group, in the map's unspecified order, and the first of its unknown members |
| Config.Merge | src/config.rs:549-567 | the actions are merged first, and a failing definition's error is the result; after they merge, the result is a configuration exactly when every group member is a known action or group, and otherwise the error names a group and the first of its unknown members; a merged configuration keeps a consistent index, has only known group members, has the registered groups, keeps the old definitions as a prefix and the old keys, and has every new action's name as a key |
| Config.ReachesSelf | src/config.rs:569-599 | every name brings in itself |
| Config.ReachesThrough | src/config.rs:569-599 | a name brings in whatever its direct members bring in |
| Config.ChainInside | src/config.rs:569-599 | a chain of members that starts inside a closed set of names stays inside it |
| Config.ClosedHoldsReached | src/config.rs:569-599 | a set closed under membership holds everything its names bring in |
| Config.IndicesUnion | src/config.rs:569-599 | the positions of a union of names are the union of their positions |
| Config.Expansion | src/config.rs:569-599 | definition only: what a selected name brings in: nothing for an action, the members of a group, and for an `_all` name that is neither every action key whose text starts with its prefix |
| Config.AddActions | src/config.rs:569-599 | the name ends up visited; newly visited names are all brought in by it and their positions are added; on success each of them is known and what it brings in is visited; a failure names an unknown name brought in by it, as "Unknown action `<name>`" |
| Config.AddMembers | src/config.rs:577-583 | visiting a group's members in order adds exactly what they bring in; on success every member is visited; a failure names an unknown name |
| Config.AddAll | src/config.rs:584-594 | visiting the actions an `_all` name selects adds exactly what they bring in; on success each is visited; a failure names an unknown name |
| Config.SelectedStep | src/config.rs:601-616 | names visited for one selected name are themselves selected |
| Config.SelectedFailure | src/config.rs:601-616 | a failure while visiting a selected name names an unknown name that is selected |
| Config.SelectionComplete | src/config.rs:601-616 | once every selected name is visited and all visited names are settled, the visited names are exactly the selected ones and none is unknown |
| Config.IndicesSelected | src/config.rs:601-616 | a position is in the result exactly when some selected name is an action at that position |
| Config.SelectionStart | src/config.rs:601-616 | before the first name, nothing is visited and no position is gathered, which meets the loop's invariant |
| Config.SelectionAdvance | src/config.rs:601-616 | a name whose visit passes keeps the loop's invariant for one more name |
| Config.SelectionIndices | src/config.rs:601-616 | after the last name, the gathered positions are exactly those of the selected names, and no selected name is unknown |
| Config.SelectedIndices | src/config.rs:601-616 | on success no selected name is unknown and the positions are exactly those of the selected actions, through groups and `_all` names included; otherwise the error is "Unknown action `<name>`" for some selected unknown name |
| Reporter.Indented | src/reporter.rs:63-68 | one piece per input piece, each with four spaces in front |
| Reporter.JoinIndented | src/reporter.rs:63-68 | an indentation followed by the pieces joined with `"\n    "` equals the indented pieces joined with `"\n"` |
| Reporter.DropNewline | src/reporter.rs:52-56 | the input, or the input without one trailing newline, which is dropped whenever it is there |
| Reporter.ToStr | src/reporter.rs:51-69 | empty exactly when the trimmed text is empty; otherwise it starts with the indentation |
| Reporter.ToStrLines | src/reporter.rs:51-69 | the lines of a non-empty result are the lines of the trimmed text, each indented |
| Reporter.ToStrIndented | src/reporter.rs:51-69 | a result is empty, or every one of its lines is indented |
| Reporter.StdoutAndErrToStr | src/reporter.rs:71-83 | definition only: `Combine` of the two decoded, trimmed and indented streams; `OutputLinesIndented` states its shape |
| Reporter.Combine | src/reporter.rs:71-83 | empty exactly when both parts are; otherwise it starts with a newline; it is stderr alone when stdout is empty, and otherwise stdout, a newline and stderr |
| Reporter.CombineIndented | src/reporter.rs:71-83 | after the leading newline, every line of the combined output is indented or empty |
| Reporter.OutputLinesIndented | src/reporter.rs:71-83 | the output printed under a result line is indented line by line, apart from empty lines |
| Reporter.MaxRunningAsWritten | src/reporter.rs:18-20 | definition only: `width - 15` in `usize`, with no value where the subtraction overflows; `NarrowTerminalOverflows` exhibits the overflow |
| Reporter.NarrowTerminalOverflows | src/reporter.rs:18-20 | a 10-column terminal makes the `usize` subtraction `width - 15` overflow |
| Reporter.MaxRunning | src/reporter.rs:18-20 | equals `width - 15` whenever that does not overflow, and is 0 on narrower terminals |
| Reporter.RunningText | src/reporter.rs:19-25 | the comma-joined list when it fits; otherwise its first `max` characters followed by `...` |
| Reporter.StatusText | src/reporter.rs:15-25 | definition only: `Running ` followed by the running list cut to `MaxRunning`; `StatusFits` bounds its length |
| Reporter.StatusFits | src/reporter.rs:15-25 | on a terminal at least 15 columns wide the status line is at most `width - 4` characters long |
| Reporter.Without | src/reporter.rs:94-99 | holds exactly the running entries other than the id, with each one's multiplicity kept, and no copy of the id |
| Reporter.WithoutAppend | src/reporter.rs:94-99 | removal distributes over concatenation, so the other entries keep their order |
| Reporter.WithoutAbsent | src/reporter.rs:94-99 | removing an id that is not running changes nothing |
| Reporter.WithoutStarted | src/reporter.rs:86-99 | starting an action that was not running and then finishing it gives the old running list back |
| Reporter.DoneText | src/reporter.rs:91-160 | definition only: the line for each kind of result, with its symbol, id and tag; the output follows for `OK` and `WARN`, and the message for `ERROR` |
| Reporter.Reporter.constructor | src/reporter.rs:8-12 | nothing running, no status shown, nothing printed |
| Reporter.Reporter.ClearStatus | src/reporter.rs:38-48 | the status is gone; the running list and the printed lines are unchanged |
| Reporter.Reporter.PrintStatus | src/reporter.rs:15-36 | prints one status line, the status text for the width, and marks the status as shown |
| Reporter.Reporter.ReportStart | src/reporter.rs:86-89 | the id is appended to the running list, and the new status line is printed |
| Reporter.Reporter.ReportDone | src/reporter.rs:91-160 | the id leaves the running list; the result text is printed, followed by a status line exactly when others are still running; the status is shown exactly when the running list is non-empty |
| Reporter.Reporter.Finish | src/reporter.rs:162-164 | the status is cleared and nothing else changes |
| VcsOutput.OutputToString | src/vcs.rs:22-31 | the text is a prefix of the decoded output, at most two characters shorter; exactly a trailing `\r\n`, a lone trailing `\n` or a lone trailing `\r` is removed, anything else is kept |
| VcsOutput.OutputToStringStripsNewline | src/vcs.rs:27-28 | a line printed with a `\n` ending, and no `\r` before it, reads back as the line |
| VcsOutput.OutputToStringStripsCrLf | src/vcs.rs:27-28 | a line printed with a `\r\n` ending reads back as the line |
| VcsOutput.OutputToStringKeeps | src/vcs.rs:27-28 | text that does not end in a line-ending character is unchanged |
| Vcs.FindByName | src/vcs.rs:83-86 | `None` exactly when no back end has the name; otherwise one of the back ends, with that name |
| Vcs.VcsByName | src/vcs.rs:84-87 | definition only: the known back end with the name; `VcsByNameKnown` states its cases |
| Vcs.VcsByNameKnown | src/vcs.rs:55-86 | `jj` selects jj, `git` selects git, and every other name selects nothing |
| Vcs.FirstWithRoot | src/vcs.rs:64-81 | `None` exactly when no back end reports a root; otherwise the first back end that reports a root, together with that root |
| Vcs.AutoDetect | src/vcs.rs:71-81 | definition only: the first known back end that reports a root; `AutoDetectOrder` states its cases |
| Vcs.AutoDetectOrder | src/vcs.rs:55-81 | jj's root wins; git's root is used only when jj reports none; with neither there is no result |
| Vcs.VcsForConfiguration | src/vcs.rs:88-108 | a found tool reports the returned root and, when one was named, has that name; an unknown name and a named tool without a repository give the two "not supported" and "No repository" messages; without a name the result fails exactly when auto-detection finds nothing, and otherwise it is what detection found |
| Vcs.VcsEnvironment | src/vcs.rs:133-147 | exactly the four `BEAUTYTIPS_*` keys, holding `vcs`, the tool's name, and the revisions or the empty text |
| Vcs.ChangedFiles | src/vcs.rs:44-51 | definition only: the changed files as the tool's own `changed_files` lists them |
| Vcs.FindFilesChanged | src/vcs.rs:115-149 | a tool-selection failure is passed through; with a tool, the result fails exactly when listing its changed files fails; a success holds the tool's repository root, its changed files for the configured revisions, and the tool's environment |
| Git.ZeroSplit | src/vcs/git.rs:10-12 | at least one piece, and no piece holds a zero byte |
| Git.ZeroSplitJoin | src/vcs/git.rs:10-12 | joining the pieces with zero bytes gives the output back |
| Git.ZeroSplitFirst | src/vcs/git.rs:10-12 | a zero-free piece followed by a zero byte is split off unchanged |
| Git.NonEmptyPieces | src/vcs/git.rs:13 | at most as many pieces, which are exactly the non-empty pieces of the input |
| Git.TerminatedRoundTrip | src/vcs/git.rs:10-16 | non-empty, zero-free names that are each followed by a zero byte (as `git diff -z` prints them) are read back as the same names, in order |
| Git.ZeroSplitFiles | src/vcs/git.rs:10-16 | one path per non-empty piece, in order; each piece is zero-free, and its path is that piece's text |
| Git.RevisionArgs | src/vcs/git.rs:47-58 | definition only: the revision arguments of `git diff`; `RevisionArgsRange` states its cases |
| Git.RevisionArgsRange | src/vcs/git.rs:47-58 | two revision arguments when `to` is given, one when only `from` is given, and none otherwise; `from` comes first and `to` last, and `to` on its own is compared with `to~` |
| Git.DiffArgs | src/vcs/git.rs:40-60 | the pushes build the `diff --name-only --no-ext-diff -z` prefix followed by the revision arguments |
| Git.DiffResult | src/vcs/git.rs:62-75 | fails, with "Failed to run git", exactly when git could not be run; a failed exit gives no files; a successful one gives the zero-split files |
| Git.ChangedFiles | src/vcs/git.rs:34-75 | definition only: `git diff` with the arguments of `DiffArgs`, run in the directory, its result read as `DiffResult` says |
| Git.RepositoryRoot | src/vcs/git.rs:77-91 | a root exactly when `git rev-parse --show-toplevel` ran and succeeded; the root is its printed text |
| Jj.FromFlag | src/vcs/jj.rs:32 | `--from=` followed by the given revision, or by `@-` when none is given |
| Jj.ToFlag | src/vcs/jj.rs:33 | `--to=` followed by the given revision, or by `@` when none is given |
| Jj.StatusPaths | src/vcs/jj.rs:56-60 | at most one path per line; a path is listed exactly when some line longer than two characters, and not starting with `D `, names it after its two-character status |
| Jj.StatusPathsAppend | src/vcs/jj.rs:56-60 | the paths of two blocks of lines are those of the first block followed by those of the second |
| Jj.InterdiffResult | src/vcs/jj.rs:35-60 | jj not starting gives "Could not run jj"; a reported non-zero exit code gives an unexpected-exit-code error that expects 0; a missing or zero code gives the status paths of the output |
| Jj.ChangedFiles | src/vcs/jj.rs:26-60 | definition only: `jj --color=never interdiff -s` with the `--from` and `--to` flags, run in the directory, its result read as `InterdiffResult` says |
| Jj.RepositoryRoot | src/vcs/jj.rs:63-78 | a root exactly when `jj workspace root` ran and succeeded; the root is its printed text |

## Left out

- Concurrency: the tokio runtime, its spawned futures, the `JoinSet` of the parallel phase and the mpsc/oneshot channels are not modelled. Reports become an ordered log of updates. The cache's `select!` loop becomes a sequence of single events. Replies to waiters become an outbox log. The parallel phase is modelled as if its actions finished in iterator order.
- `handle_reports` and the `unsafe` lifetime change in `src/lib.rs` are not modelled: they only connect the concurrently running parts.
- Process execution, directory changes and environment reads are not modelled; their results are oracle parameters. The `SKIP` variable is a string parameter, empty when unset.
- The file system walk that collects input files (`collect_input_files_impl` in `src/lib.rs`) is not modelled.
- Reading and parsing a `Cargo.toml` is not modelled; the manifest lookup is an oracle from directory to package name.
- TOML deserialisation is not modelled: `from_string` takes the parsed tables, or `None` for text that does not parse, including unknown keys.
- `from_path`, `load_user_configuration` and the built-in configuration (`src/config.rs:313-318`, `src/config.rs:639-660`) are not modelled; they read files and embedded text.
- Glob patterns, `shell_words::split` / `quote` and `current_exe` are not modelled; they are oracles.
- UTF-8 decoding is not modelled: the lossy decoding of process output is an oracle from bytes to text. `OsString` and `PathBuf` are plain strings and component sequences.
- Message rendering in `src/errors.rs` and the `anyhow` context chain are not modelled. An error keeps only its outermost message, the context text where the source adds one.
- Colours, cursor movement and flushing in the reporter are not modelled. The terminal width is a parameter, and 80 is used when its query fails.
- Command-line parsing in `src/arg_parse.rs`, `crates/cli`, and the earlier copies of the core under `crates/beautytips` other than `cargo.rs` are not part of this model.
- `tracing` calls and `Args::print` (`src/actions/args.rs:65-71`) are not modelled; they only produce log text.
- `match_output_condition` (`src/config.rs:343-350`) is not modelled separately: the configuration's output condition and the runner's are the same type, `Actions.OutputCondition`.
- Integer widths: ids, lengths and exit codes are unbounded integers. The `usize::MAX` index that marks a hidden action is the constant `HIDDEN`.
- Lengths: string lengths count characters, where the source counts bytes, for example in the status line's truncation and in `output_to_string`. Ids contain only ASCII characters, so they are not affected.
- Sorting of Cargo targets: `PathBuf` ordering is modelled as the order of the package names' text.
- Config.ActionTable.ChangeAction: requires fewer than `usize::MAX` definitions, so that a new index is never the hidden sentinel.
- Config.ActionTable.AddAction: requires fewer than `usize::MAX` definitions, for the same reason.
- Config.Merge: requires that the configuration's index is consistent. The empty configuration has a consistent index, and every merge keeps it so. Merge also requires that the number of definitions stays below `usize::MAX`.
- Config.ActionTable.AddAction: the context on a failing command is the literal text `Processing command of {qid}`, since the source passes a plain string rather than a format string.
- ArgTemplates.ParseArgSpec: is built on the corrected split (see "## Findings"). The word `a{` gives the argument `a{`, where the source's `split_arg` gives `a` and `parse_arg` (`src/actions/args.rs:201-223`) passes `a`. The word `{` gives the argument `{`, where the source splits it into no parts and passes one empty argument (`src/actions/args.rs:225-264`).
- ArgTemplates.ParseArg: follows `ParseArgSpec`, so it differs from the source on the words `a{` and `{` in the same way.
- ArgTemplates.ParseWords: follows `ParseArgSpec`, so a word ending in a single `{` keeps that `{`.
- ArgTemplates.ParseArgs: follows `ParseArgSpec`, so a word ending in a single `{` keeps that `{`.
- Actions.RunSingleAction: parses arguments with `ParseArgs`, so a command word ending in a single `{` is passed with that `{`; for `a{` the source passes `a`, and for `{` it passes an empty argument.
- Reporter.Reporter.PrintStatus: uses the saturating `MaxRunning` (see "## Findings"). On a terminal 10 columns wide it prints `Running ...` for a non-empty running list, where `src/reporter.rs:20` panics in a debug build and prints the list untruncated in a release build.
- Reporter.Reporter.ReportStart: prints the status line of `PrintStatus`, so it differs on terminals narrower than 15 columns in the same way.
- Reporter.Reporter.ReportDone: prints the status line of `PrintStatus`, so it differs on terminals narrower than 15 columns in the same way.
- Inputs.Quoted: writes the input name between double quotes without escaping, where `{input_name:?}` (`src/actions/args.rs:171`) escapes quotes, backslashes and control characters; messages about such a name differ.
- Inputs.InputCache.HandleGeneratorReply: requires that a reply is for a name still being generated. The source treats any other case as unreachable.

## Findings

| source | as written | input that shows it | evidently intended | confidence | as-written member | corrected member |
|---|---|---|---|---|---|---|
| src/actions/args.rs:138-142 | at the end of the word only the pending text is flushed; a `{` waiting for a second `{` is in neither the text nor the parts, so it is lost | the word `a{` splits into `a`, and the word `{` into no parts | the trailing `{` stays part of the text, as it does when any other character follows it: `a{` stays `a{` | not executed | ArgTemplates.SplitArgAsWritten, ArgTemplates.TrailingBraceLost | ArgTemplates.SplitSpec, ArgTemplates.SplitArg |
| src/reporter.rs:20 | `usize::from(width) - 15` overflows on a terminal narrower than 15 columns, which panics in a debug build and wraps to a huge limit in a release build | a terminal 10 columns wide | the limit saturates at zero, and the status line fits the terminal | not executed | Reporter.MaxRunningAsWritten, Reporter.NarrowTerminalOverflows | Reporter.MaxRunning, Reporter.StatusFits |
