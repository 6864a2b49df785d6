/** Configuration (`src/config.rs`): action ids, merging configuration
    sources onto a base, action groups, and selecting the actions a list
    of names asks for. */
module Config {
  import opened Wrappers
  import Text
  import opened Paths
  import Inputs
  import Actions

  // ---------------------------------------------------------------
  // Action ids
  // ---------------------------------------------------------------

  /** A lower-case ASCII letter, an ASCII digit or `_`. */
  predicate IdChar(c: char) {
    ('a' <= c <= 'z') || ('0' <= c <= '9') || c == '_'
  }

  /** Some character of `id` is not allowed in an id. */
  predicate AnyNonIdChar(id: string) {
    |id| > 0 && (!IdChar(id[0]) || AnyNonIdChar(id[1..]))
  }

  /** `is_valid_id`: no character outside `[a-z0-9_]`, and not empty. */
  function IsValidId(id: string): (r: bool)
    ensures r <==> |id| > 0 && forall i :: 0 <= i < |id| ==> IdChar(id[i])
  {
    NoNonIdChar(id);
    !AnyNonIdChar(id) && |id| > 0
  }

  lemma {:induction false} NoNonIdChar(id: string)
    ensures !AnyNonIdChar(id) <==> forall i :: 0 <= i < |id| ==> IdChar(id[i])
  {
    if |id| > 0 {
      NoNonIdChar(id[1..]);
      assert forall i :: 0 < i < |id| ==> id[i] == id[1..][i - 1];
    }
  }

  /** The ids accepted and refused in the module's own unit test. */
  lemma ValidIdExamples()
    ensures IsValidId("foo") && IsValidId("_foo_") && IsValidId("bar_123_foo")
    ensures !IsValidId("Bar_123_foo") && !IsValidId("123_Bar") && !IsValidId("")
  {
    assert !IdChar("Bar_123_foo"[0]);
    assert !IdChar("123_Bar"[4]);
  }

  datatype ActionId = ActionId(text: string)

  datatype ActionSource = ActionSource(text: string)

  /** `ActionId::new`. */
  function NewActionId(input: string): (r: Result<ActionId>)
    ensures r.Ok? <==> IsValidId(input)
    ensures r.Ok? ==> r.value.text == input
    ensures r.Err? ==> r.error == input + " is not a valid action id"
  {
    if IsValidId(input) then Ok(ActionId(input)) else Err(input + " is not a valid action id")
  }

  /** `ActionSource::new`. */
  function NewActionSource(input: string): (r: Result<ActionSource>)
    ensures r.Ok? <==> IsValidId(input)
    ensures r.Ok? ==> r.value.text == input
    ensures r.Err? ==> r.error == input + " is not a valid action source"
  {
    if IsValidId(input) then Ok(ActionSource(input)) else Err(input + " is not a valid action source")
  }

  /** An action id, optionally qualified by the source that defined it. */
  datatype QualifiedActionId = QualifiedActionId(source: Option<ActionSource>, id: ActionId)

  /** The unqualified key of an action or group name. */
  function PlainKey(name: ActionId): QualifiedActionId {
    QualifiedActionId(None, name)
  }

  /** The key of a name qualified by its source. */
  function SourceKey(name: ActionId, source: ActionSource): QualifiedActionId {
    QualifiedActionId(Some(source), name)
  }

  /** Both halves of a qualified id are valid ids. */
  predicate ValidQualified(q: QualifiedActionId) {
    IsValidId(q.id.text) && (q.source.Some? ==> IsValidId(q.source.value.text))
  }

  /** `Display for QualifiedActionId`: `source/id`, or `id` alone. */
  function Format(q: QualifiedActionId): string {
    if q.source.Some? then q.source.value.text + "/" + q.id.text else q.id.text
  }

  const PARSE_CONTEXT := "Failed to parse qualified action id"

  /** `QualifiedActionId::parse`: a `/` splits the text at its first
      occurrence into a source and an id; without one the whole text is
      the id. Each half must be a valid id. */
  function Parse(input: string): (r: Result<QualifiedActionId>)
    ensures r.Ok? ==> ValidQualified(r.value) && Format(r.value) == input
    ensures '/' !in input ==> (r.Ok? <==> IsValidId(input))
    ensures '/' !in input && r.Ok? ==> r.value.source.None?
    ensures '/' !in input && r.Err? ==> r.error == PARSE_CONTEXT
    ensures '/' in input ==>
      var sep := Text.IndexOf(input, '/');
      && (r.Ok? <==> IsValidId(input[..sep]) && IsValidId(input[sep + 1..]))
      && (r.Ok? ==> r.value == SourceKey(ActionId(input[sep + 1..]), ActionSource(input[..sep])))
      && (!IsValidId(input[..sep]) ==> r == Err(input[..sep] + " is not a valid action source"))
      && (IsValidId(input[..sep]) && !IsValidId(input[sep + 1..]) ==>
            r == Err(input[sep + 1..] + " is not a valid action id"))
  {
    if '/' in input then
      var sep := Text.IndexOf(input, '/');
      assert input == input[..sep] + "/" + input[sep + 1..];
      match NewActionSource(input[..sep])
      case Err(e) => Err(e)
      case Ok(source) =>
        match NewActionId(input[sep + 1..])
        case Err(e) => Err(e)
        case Ok(id) => Ok(SourceKey(id, source))
    else
      match NewActionId(input)
      case Err(_) => Err(PARSE_CONTEXT)
      case Ok(id) => Ok(PlainKey(id))
  }

  /** Printing a qualified id of valid halves and parsing the text gives
      the same id back. */
  lemma ParseFormat(q: QualifiedActionId)
    requires ValidQualified(q)
    ensures Parse(Format(q)) == Ok(q)
  {
    assert '/' !in q.id.text by {
      assert !IdChar('/');
    }
    if q.source.Some? {
      var s := q.source.value.text;
      assert '/' !in s by {
        assert !IdChar('/');
      }
      Text.IndexOfAfter(s, '/', q.id.text);
      var t := s + "/" + q.id.text;
      assert t[..|s|] == s;
      assert t[|s| + 1..] == q.id.text;
    }
  }

  // ---------------------------------------------------------------
  // Configuration sources
  // ---------------------------------------------------------------

  /** How a definition combines with what the base already has. */
  datatype MergeAction = Hide | Change | Add

  /** An `[[actions]]` table: every key but `name` and `merge` may be
      absent. */
  datatype TomlActionDefinition = TomlActionDefinition(
    name: ActionId,
    merge: MergeAction,
    description: Option<string>,
    command: Option<string>,
    runSequentially: Option<bool>,
    exitCode: Option<int>,
    showOutput: Option<Actions.OutputCondition>,
    inputs: Option<map<string, seq<string>>>)

  /** An `[[action_groups]]` table. */
  datatype TomlActionGroup = TomlActionGroup(name: ActionId, actions: seq<QualifiedActionId>)

  /** A parsed TOML file. */
  datatype TomlConfiguration = TomlConfiguration(actionGroups: seq<TomlActionGroup>, actions: seq<TomlActionDefinition>)

  /** One configuration file, read under the name of its source. */
  datatype ConfigurationSource = ConfigurationSource(
    source: ActionSource,
    actionGroups: seq<TomlActionGroup>,
    actions: seq<TomlActionDefinition>)

  predicate Distinct(names: seq<ActionId>) {
    forall i, j :: 0 <= i < j < |names| ==> names[i] != names[j]
  }

  function ActionNames(defs: seq<TomlActionDefinition>): (r: seq<ActionId>)
    ensures |r| == |defs| && forall i :: 0 <= i < |defs| ==> r[i] == defs[i].name
  {
    seq(|defs|, i requires 0 <= i < |defs| => defs[i].name)
  }

  function GroupNames(groups: seq<TomlActionGroup>): (r: seq<ActionId>)
    ensures |r| == |groups| && forall i :: 0 <= i < |groups| ==> r[i] == groups[i].name
  {
    seq(|groups|, i requires 0 <= i < |groups| => groups[i].name)
  }

  /** The `known_names` loop of `from_string`: the position of the first
      name already seen, if any. */
  method FirstDuplicate(names: seq<ActionId>) returns (dup: Option<nat>)
    ensures dup.None? <==> Distinct(names)
    ensures dup.Some? ==>
      dup.value < |names| && names[dup.value] in names[..dup.value] && Distinct(names[..dup.value])
  {
    var known: set<ActionId> := {};
    var i := 0;
    while i < |names|
      invariant i <= |names|
      invariant Distinct(names[..i])
      invariant forall n :: n in known <==> n in names[..i]
    {
      if names[i] in known {
        return Some(i);
      }
      known := known + {names[i]};
      i := i + 1;
    }
    assert names[..i] == names;
    return None;
  }

  function DuplicateActionMessage(name: ActionId): string {
    "Duplicate action '" + name.text + "' found"
  }

  function DuplicateGroupMessage(name: ActionId): string {
    "Duplicate action group '" + name.text + "' found"
  }

  const TOML_CONTEXT := "Failed to parse toml"

  /** A name of `names` that recurs, every name before it being distinct. */
  predicate FirstRepeated(names: seq<ActionId>, n: ActionId) {
    exists j :: 0 <= j < |names| && names[j] == n && n in names[..j] && Distinct(names[..j])
  }

  /** `ConfigurationSource::from_string` after TOML parsing, which is the
      host's (`None` when the text does not parse): names of actions, and
      then names of groups, must not repeat. */
  method FromString(parsed: Option<TomlConfiguration>, source: ActionSource) returns (r: Result<ConfigurationSource>)
    ensures parsed.None? ==> r == Err(TOML_CONTEXT)
    ensures parsed.Some? ==>
      (r.Ok? <==> Distinct(ActionNames(parsed.value.actions)) && Distinct(GroupNames(parsed.value.actionGroups)))
    ensures r.Ok? ==> r.value == ConfigurationSource(source, parsed.value.actionGroups, parsed.value.actions)
    ensures parsed.Some? && !Distinct(ActionNames(parsed.value.actions)) ==>
      exists n :: FirstRepeated(ActionNames(parsed.value.actions), n) && r == Err(DuplicateActionMessage(n))
    ensures (parsed.Some? && Distinct(ActionNames(parsed.value.actions))
             && !Distinct(GroupNames(parsed.value.actionGroups))) ==>
      exists n :: FirstRepeated(GroupNames(parsed.value.actionGroups), n) && r == Err(DuplicateGroupMessage(n))
  {
    if parsed.None? {
      return Err(TOML_CONTEXT);
    }
    var names := ActionNames(parsed.value.actions);
    var dup := FirstDuplicate(names);
    if dup.Some? {
      assert FirstRepeated(names, names[dup.value]);
      return Err(DuplicateActionMessage(names[dup.value]));
    }
    var groupNames := GroupNames(parsed.value.actionGroups);
    dup := FirstDuplicate(groupNames);
    if dup.Some? {
      assert FirstRepeated(groupNames, groupNames[dup.value]);
      return Err(DuplicateGroupMessage(groupNames[dup.value]));
    }
    return Ok(ConfigurationSource(source, parsed.value.actionGroups, parsed.value.actions));
  }

  // ---------------------------------------------------------------
  // Merging action definitions
  // ---------------------------------------------------------------

  /** `usize::MAX` on a 64-bit host: the index an action map keeps for a
      hidden action. */
  const HIDDEN: nat := 0xFFFF_FFFF_FFFF_FFFF

  /** What the host provides to read a definition: `shell_words::split`
      (`None` when the text does not split), the running binary's path
      (`None` when it cannot be found) and the glob library. */
  datatype Host = Host(split: string -> Option<seq<string>>, currentExe: Option<string>, glob: Glob)

  const BEAUTY_TIPS := "{BEAUTY_TIPS}"
  const EXE_CONTEXT := "Failed to get beauty_tips binary location"

  function SplitCommandMessage(command: string): string {
    "Failed to parse command '" + command + "'"
  }

  /** `map_command`: the words of the trimmed command, a leading
      `{BEAUTY_TIPS}` standing for the running binary. */
  function MapCommand(command: string, host: Host): (r: Result<seq<string>>)
    ensures host.split(Text.Trim(command)).None? ==> r == Err(SplitCommandMessage(command))
    ensures host.split(Text.Trim(command)).Some? ==>
      var words := host.split(Text.Trim(command)).value;
      if |words| > 0 && words[0] == BEAUTY_TIPS then
        if host.currentExe.None? then r == Err(EXE_CONTEXT)
        else r.Ok? && |r.value| == |words| && r.value[0] == host.currentExe.value && r.value[1..] == words[1..]
      else r == Ok(words)
  {
    match host.split(Text.Trim(command))
    case None => Err(SplitCommandMessage(command))
    case Some(words) =>
      if |words| > 0 && words[0] == BEAUTY_TIPS then
        match host.currentExe
        case None => Err(EXE_CONTEXT)
        case Some(exe) => Ok(words[0 := exe])
      else Ok(words)
  }

  /** A definition sets some key besides `name` and `merge`. */
  predicate HasExtraKeys(d: TomlActionDefinition) {
    d.description.Some? || d.showOutput.Some? || d.runSequentially.Some?
    || d.command.Some? || d.exitCode.Some? || d.inputs.Some?
  }

  /** What the map and the vector of definitions keep between them: every
      key is hidden or names a definition of its own id. */
  predicate IndexedBy(actions: seq<Actions.ActionDefinition>, actionMap: map<QualifiedActionId, nat>) {
    |actions| <= HIDDEN
    && forall k :: k in actionMap ==>
      (actionMap[k] == HIDDEN || (actionMap[k] < |actions| && actions[actionMap[k]].id == k.id.text))
  }

  /** The key names a definition that is not hidden. */
  predicate Live(actionMap: map<QualifiedActionId, nat>, k: QualifiedActionId) {
    k in actionMap && actionMap[k] != HIDDEN
  }

  /** The definition `change_action` derives: each key the update sets
      replaces that field, every other field, the id and the source
      included, stays. */
  predicate ChangedFrom(ad: Actions.ActionDefinition, update: TomlActionDefinition, host: Host, nd: Actions.ActionDefinition) {
    && nd.id == ad.id && nd.source == ad.source
    && nd.description == (if update.description.Some? then update.description.value else ad.description)
    && nd.showOutput == (if update.showOutput.Some? then update.showOutput.value else ad.showOutput)
    && nd.runSequentially == (if update.runSequentially.Some? then update.runSequentially.value else ad.runSequentially)
    && (if update.command.Some? then MapCommand(update.command.value, host) == Ok(nd.command) else nd.command == ad.command)
    && nd.expectedExitCode == (if update.exitCode.Some? then update.exitCode.value else ad.expectedExitCode)
    && nd.inputFilters == (if update.inputs.Some?
                           then Inputs.InputFilters(Inputs.Updated(ad.inputFilters.patterns, update.inputs.value))
                           else ad.inputFilters)
  }

  /** The update's inputs can be applied to `filters`. */
  ghost predicate InputsApply(filters: Inputs.InputFilters, inputs: map<string, seq<string>>, glob: Glob) {
    Inputs.AllCompile(inputs, glob) && forall k :: !Inputs.MissingRemoval(filters.patterns, inputs, k)
  }

  /** The definition `add_action` builds from a table with a command:
      unset keys take their defaults. */
  function Added(update: TomlActionDefinition, source: ActionSource, command: seq<string>): (ad: Actions.ActionDefinition)
    ensures ad.id == update.name.text && ad.source == source.text && ad.command == command
    ensures ad.description == (if update.description.Some? then update.description.value else "")
    ensures ad.showOutput == (if update.showOutput.Some? then update.showOutput.value else Actions.Failure)
    ensures ad.runSequentially == (update.runSequentially.None? || update.runSequentially.value)
    ensures ad.expectedExitCode == (if update.exitCode.Some? then update.exitCode.value else 0)
    ensures update.inputs.None? ==> ad.inputFilters.patterns == map[]
    ensures update.inputs.Some? ==> ad.inputFilters.patterns == update.inputs.value
  {
    Actions.ActionDefinition(
      update.name.text, source.text,
      if update.description.Some? then update.description.value else "",
      if update.runSequentially.Some? then update.runSequentially.value else true,
      command,
      if update.showOutput.Some? then update.showOutput.value else Actions.Failure,
      if update.exitCode.Some? then update.exitCode.value else 0,
      Inputs.InputFilters(if update.inputs.Some? then update.inputs.value else map[]))
  }

  function HideExtraKeysMessage(q: QualifiedActionId): string {
    Format(q) + " is hiding an existing action, but has extra keys set"
  }

  function HideMissingMessage(q: QualifiedActionId): string {
    Format(q) + " is hiding an action that does not exist"
  }

  function ChangeNoKeysMessage(q: QualifiedActionId): string {
    Format(q) + " is changing an existing action, but has no extra keys set"
  }

  function ChangeMissingMessage(q: QualifiedActionId): string {
    Format(q) + " is changing an action that does not exist"
  }

  function ChangeHiddenMessage(q: QualifiedActionId): string {
    Format(q) + " is changing an action that was hidden before"
  }

  function ChangeInputsMessage(q: QualifiedActionId): string {
    "While changing " + Format(q)
  }

  function AddNoCommandMessage(name: ActionId): string {
    "Can not add " + name.text + ": No command"
  }

  function AddExistsMessage(name: ActionId): string {
    name.text + " already exists, can not add"
  }

  /** The context `add_action` puts on a failing command. The text is a
      plain string, so `{qid}` is not replaced. */
  const ADD_COMMAND_CONTEXT := "Processing command of {qid}"

  /** The copy `change_action` makes of `ad`, field by field: a failing
      command gives its own error, failing inputs the context naming
      `qid`. */
  method ChangedDefinition(ad: Actions.ActionDefinition, update: TomlActionDefinition, qid: QualifiedActionId, host: Host)
    returns (r: Result<Actions.ActionDefinition>)
    ensures update.command.Some? && MapCommand(update.command.value, host).Err? ==>
      r == Err(MapCommand(update.command.value, host).error)
    ensures (update.command.Some? ==> MapCommand(update.command.value, host).Ok?) ==>
      (r.Ok? <==> (update.inputs.Some? ==> InputsApply(ad.inputFilters, update.inputs.value, host.glob)))
    ensures (update.command.Some? ==> MapCommand(update.command.value, host).Ok?) && r.Err? ==>
      r == Err(ChangeInputsMessage(qid))
    ensures r.Ok? ==> ChangedFrom(ad, update, host, r.value)
  {
    var command := ad.command;
    if update.command.Some? {
      var mapped := MapCommand(update.command.value, host);
      if mapped.Err? {
        return Err(mapped.error);
      }
      command := mapped.value;
    }
    var filters := ad.inputFilters;
    if update.inputs.Some? {
      var updated := Inputs.UpdateFrom(ad.inputFilters, update.inputs.value, host.glob);
      if updated.Err? {
        return Err(ChangeInputsMessage(qid));
      }
      filters := updated.value;
    }
    return Ok(ad.(
      description := if update.description.Some? then update.description.value else ad.description,
      showOutput := if update.showOutput.Some? then update.showOutput.value else ad.showOutput,
      runSequentially := if update.runSequentially.Some? then update.runSequentially.value else ad.runSequentially,
      command := command,
      expectedExitCode := if update.exitCode.Some? then update.exitCode.value else ad.expectedExitCode,
      inputFilters := filters));
  }

  // ---------------------------------------------------------------
  // What merging one definition, and a list of them, does to the table
  // ---------------------------------------------------------------

  /** The vector of definitions and the map from keys to positions, as
      a value. */
  datatype TableState = TableState(actions: seq<Actions.ActionDefinition>, actionMap: map<QualifiedActionId, nat>)

  /** The definition `change_action` derives from `ad`: each key the
      update sets replaces that field. */
  function Changed(ad: Actions.ActionDefinition, update: TomlActionDefinition, host: Host): Actions.ActionDefinition {
    ad.(
      description := if update.description.Some? then update.description.value else ad.description,
      showOutput := if update.showOutput.Some? then update.showOutput.value else ad.showOutput,
      runSequentially := if update.runSequentially.Some? then update.runSequentially.value else ad.runSequentially,
      command := if update.command.Some? && MapCommand(update.command.value, host).Ok?
                 then MapCommand(update.command.value, host).value else ad.command,
      expectedExitCode := if update.exitCode.Some? then update.exitCode.value else ad.expectedExitCode,
      inputFilters := if update.inputs.Some?
                      then Inputs.InputFilters(Inputs.Updated(ad.inputFilters.patterns, update.inputs.value))
                      else ad.inputFilters)
  }

  /** The field-by-field description of a change determines the
      changed definition. */
  lemma ChangedFromIsChanged(ad: Actions.ActionDefinition, update: TomlActionDefinition, host: Host, nd: Actions.ActionDefinition)
    requires ChangedFrom(ad, update, host, nd)
    ensures nd == Changed(ad, update, host)
  {
  }

  /** The table with `d` appended and both keys of `name` pointing at it. */
  function Grown(t: TableState, name: ActionId, source: ActionSource, d: Actions.ActionDefinition): TableState {
    TableState(t.actions + [d], t.actionMap[PlainKey(name) := |t.actions|][SourceKey(name, source) := |t.actions|])
  }

  /** `hide_action` on a table. */
  function HideSpec(t: TableState, action: TomlActionDefinition): (Outcome, TableState) {
    var qid := PlainKey(action.name);
    if HasExtraKeys(action) then (Fail(HideExtraKeysMessage(qid)), t)
    else
      (if qid in t.actionMap then Pass else Fail(HideMissingMessage(qid)), t.(actionMap := t.actionMap[qid := HIDDEN]))
  }

  /** `change_action` on a table. */
  ghost function ChangeSpec(t: TableState, update: TomlActionDefinition, source: ActionSource, host: Host): (Outcome, TableState)
    requires IndexedBy(t.actions, t.actionMap)
  {
    var qid := PlainKey(update.name);
    if !HasExtraKeys(update) then (Fail(ChangeNoKeysMessage(qid)), t)
    else if qid !in t.actionMap then (Fail(ChangeMissingMessage(qid)), t)
    else if t.actionMap[qid] == HIDDEN then (Fail(ChangeHiddenMessage(qid)), t)
    else if update.command.Some? && MapCommand(update.command.value, host).Err? then
      (Fail(MapCommand(update.command.value, host).error), t)
    else
      var ad := t.actions[t.actionMap[qid]];
      if update.inputs.Some? && !InputsApply(ad.inputFilters, update.inputs.value, host.glob) then
        (Fail(ChangeInputsMessage(qid)), t)
      else (Pass, Grown(t, update.name, source, Changed(ad, update, host)))
  }

  /** `add_action` on a table. */
  function AddSpec(t: TableState, update: TomlActionDefinition, source: ActionSource, host: Host): (Outcome, TableState) {
    if update.command.None? then (Fail(AddNoCommandMessage(update.name)), t)
    else if Live(t.actionMap, PlainKey(update.name)) then (Fail(AddExistsMessage(update.name)), t)
    else if MapCommand(update.command.value, host).Err? then (Fail(ADD_COMMAND_CONTEXT), t)
    else if update.inputs.Some? && !Inputs.AllCompile(update.inputs.value, host.glob) then
      (Fail(Inputs.PARSING_FILTERS_CONTEXT), t)
    else (Pass, Grown(t, update.name, source, Added(update, source, MapCommand(update.command.value, host).value)))
  }

  /** One definition of `merge_actions`, as its `merge` key says. */
  ghost function StepSpec(t: TableState, def: TomlActionDefinition, source: ActionSource, host: Host): (Outcome, TableState)
    requires IndexedBy(t.actions, t.actionMap)
  {
    match def.merge
    case Hide => HideSpec(t, def)
    case Change => ChangeSpec(t, def, source, host)
    case Add => AddSpec(t, def, source, host)
  }

  /** What a step keeps: the index consistent, at most one definition
      appended, no key dropped, and after a pass the name a key. */
  predicate Keeps(t: TableState, def: TomlActionDefinition, r: (Outcome, TableState)) {
    && IndexedBy(r.1.actions, r.1.actionMap)
    && |t.actions| <= |r.1.actions| <= |t.actions| + 1 && r.1.actions[..|t.actions|] == t.actions
    && t.actionMap.Keys <= r.1.actionMap.Keys
    && (r.0.Pass? ==> PlainKey(def.name) in r.1.actionMap)
  }

  /** Appending a definition of `name`'s id under both keys of `name`
      keeps the index consistent. */
  lemma GrownIndexed(t: TableState, name: ActionId, source: ActionSource, d: Actions.ActionDefinition)
    requires IndexedBy(t.actions, t.actionMap) && |t.actions| < HIDDEN && d.id == name.text
    ensures IndexedBy(Grown(t, name, source, d).actions, Grown(t, name, source, d).actionMap)
    ensures Grown(t, name, source, d).actions[..|t.actions|] == t.actions
  {
    var n := Grown(t, name, source, d);
    assert n.actions[..|t.actions|] == t.actions;
    forall k | k in n.actionMap
      ensures n.actionMap[k] == HIDDEN || (n.actionMap[k] < |n.actions| && n.actions[n.actionMap[k]].id == k.id.text)
    {
      if k != PlainKey(name) && k != SourceKey(name, source) {
        assert n.actionMap[k] == t.actionMap[k];
      }
    }
  }

  lemma HideKeeps(t: TableState, def: TomlActionDefinition)
    requires IndexedBy(t.actions, t.actionMap)
    ensures Keeps(t, def, HideSpec(t, def))
  {
    assert t.actions[..|t.actions|] == t.actions;
  }

  lemma ChangeKeeps(t: TableState, def: TomlActionDefinition, source: ActionSource, host: Host)
    requires IndexedBy(t.actions, t.actionMap) && |t.actions| < HIDDEN
    ensures Keeps(t, def, ChangeSpec(t, def, source, host))
  {
    var r := ChangeSpec(t, def, source, host);
    if r.0.Pass? {
      var ad := t.actions[t.actionMap[PlainKey(def.name)]];
      GrownIndexed(t, def.name, source, Changed(ad, def, host));
    } else {
      assert t.actions[..|t.actions|] == t.actions;
    }
  }

  lemma AddKeeps(t: TableState, def: TomlActionDefinition, source: ActionSource, host: Host)
    requires IndexedBy(t.actions, t.actionMap) && |t.actions| < HIDDEN
    ensures Keeps(t, def, AddSpec(t, def, source, host))
  {
    if def.command.None? || Live(t.actionMap, PlainKey(def.name)) || MapCommand(def.command.value, host).Err?
      || (def.inputs.Some? && !Inputs.AllCompile(def.inputs.value, host.glob))
    {
      assert AddSpec(t, def, source, host).1 == t;
      assert t.actions[..|t.actions|] == t.actions;
    } else {
      var d := Added(def, source, MapCommand(def.command.value, host).value);
      assert AddSpec(t, def, source, host) == (Pass, Grown(t, def.name, source, d));
      GrownIndexed(t, def.name, source, d);
    }
  }

  /** Every step keeps what `Keeps` says. */
  lemma StepKeeps(t: TableState, def: TomlActionDefinition, source: ActionSource, host: Host)
    requires IndexedBy(t.actions, t.actionMap) && |t.actions| < HIDDEN
    ensures Keeps(t, def, StepSpec(t, def, source, host))
  {
    match def.merge
    case Hide => HideKeeps(t, def);
    case Change => ChangeKeeps(t, def, source, host);
    case Add => AddKeeps(t, def, source, host);
  }

  /** `merge_actions`: the steps in order, up to the first that fails,
      whose outcome and table are then the result. */
  ghost function MergeSpec(t: TableState, defs: seq<TomlActionDefinition>, source: ActionSource, host: Host): (r: (Outcome, TableState))
    requires IndexedBy(t.actions, t.actionMap) && |t.actions| + |defs| <= HIDDEN
    ensures IndexedBy(r.1.actions, r.1.actionMap)
    ensures |t.actions| <= |r.1.actions| <= |t.actions| + |defs| && r.1.actions[..|t.actions|] == t.actions
    ensures t.actionMap.Keys <= r.1.actionMap.Keys
    ensures r.0.Pass? ==> forall i :: 0 <= i < |defs| ==> PlainKey(defs[i].name) in r.1.actionMap
    decreases |defs|
  {
    if |defs| == 0 then (Pass, t)
    else
      StepKeeps(t, defs[0], source, host);
      var (o, n) := StepSpec(t, defs[0], source, host);
      if o.Fail? then (o, n)
      else
        var r := MergeSpec(n, defs[1..], source, host);
        assert r.1.actions[..|n.actions|] == n.actions;
        assert forall i :: 1 <= i < |defs| ==> defs[i] == defs[1..][i - 1];
        r
  }

  /** The vector of definitions and the map from keys to positions in
      it that `merge_actions` updates in place. */
  class ActionTable {
    var actions: seq<Actions.ActionDefinition>
    var actionMap: map<QualifiedActionId, nat>

    predicate Valid()
      reads this
    {
      IndexedBy(actions, actionMap)
    }

    function State(): TableState
      reads this
    {
      TableState(actions, actionMap)
    }

    constructor (actions: seq<Actions.ActionDefinition>, actionMap: map<QualifiedActionId, nat>)
      ensures this.actions == actions && this.actionMap == actionMap
    {
      this.actions := actions;
      this.actionMap := actionMap;
    }

    /** `hide_action`: only a definition without extra keys hides, and it
        maps the unqualified key to `HIDDEN`, also when that key was not
        there, which is then the error. */
    method HideAction(action: TomlActionDefinition) returns (r: Outcome)
      requires Valid()
      modifies this
      ensures Valid() && actions == old(actions)
      ensures HasExtraKeys(action) ==> r == Fail(HideExtraKeysMessage(PlainKey(action.name))) && actionMap == old(actionMap)
      ensures !HasExtraKeys(action) ==> actionMap == old(actionMap)[PlainKey(action.name) := HIDDEN]
      ensures !HasExtraKeys(action) ==>
        r == if PlainKey(action.name) in old(actionMap) then Pass else Fail(HideMissingMessage(PlainKey(action.name)))
    {
      var qid := PlainKey(action.name);
      if HasExtraKeys(action) {
        return Fail(HideExtraKeysMessage(qid));
      }
      var existed := qid in actionMap;
      actionMap := actionMap[qid := HIDDEN];
      if !existed {
        return Fail(HideMissingMessage(qid));
      }
      return Pass;
    }

    /** `change_action`: a definition with extra keys for a live action
        appends a changed copy, and both keys of the name then point at
        the copy; the original stays where it was. */
    method ChangeAction(update: TomlActionDefinition, source: ActionSource, host: Host) returns (r: Outcome)
      requires Valid() && |actions| < HIDDEN
      modifies this
      ensures Valid()
      ensures !HasExtraKeys(update) ==> r == Fail(ChangeNoKeysMessage(PlainKey(update.name)))
      ensures HasExtraKeys(update) && PlainKey(update.name) !in old(actionMap) ==>
        r == Fail(ChangeMissingMessage(PlainKey(update.name)))
      ensures (HasExtraKeys(update) && PlainKey(update.name) in old(actionMap)
               && old(actionMap)[PlainKey(update.name)] == HIDDEN) ==>
        r == Fail(ChangeHiddenMessage(PlainKey(update.name)))
      ensures (HasExtraKeys(update) && Live(old(actionMap), PlainKey(update.name)) && update.command.Some?
               && MapCommand(update.command.value, host).Err?) ==>
        r == Fail(MapCommand(update.command.value, host).error)
      ensures (HasExtraKeys(update) && Live(old(actionMap), PlainKey(update.name))
               && (update.command.Some? ==> MapCommand(update.command.value, host).Ok?)) ==>
        var ad := old(actions)[old(actionMap)[PlainKey(update.name)]];
        (r.Pass? <==> (update.inputs.Some? ==> InputsApply(ad.inputFilters, update.inputs.value, host.glob)))
      ensures (HasExtraKeys(update) && Live(old(actionMap), PlainKey(update.name))
               && (update.command.Some? ==> MapCommand(update.command.value, host).Ok?) && r.Fail?) ==>
        r == Fail(ChangeInputsMessage(PlainKey(update.name)))
      ensures r.Fail? ==> actions == old(actions) && actionMap == old(actionMap)
      ensures r.Pass? ==>
        && Live(old(actionMap), PlainKey(update.name))
        && |actions| == |old(actions)| + 1 && actions[..|old(actions)|] == old(actions)
        && ChangedFrom(old(actions)[old(actionMap)[PlainKey(update.name)]], update, host, actions[|old(actions)|])
        && actionMap == old(actionMap)[PlainKey(update.name) := |old(actions)|][SourceKey(update.name, source) := |old(actions)|]
    {
      var qid := PlainKey(update.name);
      var sQid := SourceKey(update.name, source);
      if !HasExtraKeys(update) {
        return Fail(ChangeNoKeysMessage(qid));
      }
      if qid !in actionMap {
        return Fail(ChangeMissingMessage(qid));
      }
      var index := actionMap[qid];
      if index == HIDDEN {
        return Fail(ChangeHiddenMessage(qid));
      }
      var ad := actions[index];
      assert ad.id == update.name.text;
      var changed := ChangedDefinition(ad, update, qid, host);
      if changed.Err? {
        return Fail(changed.error);
      }
      var nd := changed.value;
      var newIndex := |actions|;
      GrownIndexed(State(), update.name, source, nd);
      actions := actions + [nd];
      actionMap := actionMap[qid := newIndex][sQid := newIndex];
      return Pass;
    }

    /** `add_action`: a definition with a command whose unqualified key is
        not live appends a new definition, and both keys of the name then
        point at it. */
    method AddAction(update: TomlActionDefinition, source: ActionSource, host: Host) returns (r: Outcome)
      requires Valid() && |actions| < HIDDEN
      modifies this
      ensures Valid()
      ensures update.command.None? ==> r == Fail(AddNoCommandMessage(update.name))
      ensures update.command.Some? && Live(old(actionMap), PlainKey(update.name)) ==>
        r == Fail(AddExistsMessage(update.name))
      ensures (update.command.Some? && !Live(old(actionMap), PlainKey(update.name))
               && MapCommand(update.command.value, host).Err?) ==>
        r == Fail(ADD_COMMAND_CONTEXT)
      ensures (update.command.Some? && !Live(old(actionMap), PlainKey(update.name))
               && MapCommand(update.command.value, host).Ok?) ==>
        (r.Pass? <==> (update.inputs.Some? ==> Inputs.AllCompile(update.inputs.value, host.glob)))
      ensures (update.command.Some? && !Live(old(actionMap), PlainKey(update.name))
               && MapCommand(update.command.value, host).Ok? && r.Fail?) ==>
        r == Fail(Inputs.PARSING_FILTERS_CONTEXT)
      ensures r.Fail? ==> actions == old(actions) && actionMap == old(actionMap)
      ensures r.Pass? ==>
        && update.command.Some? && !Live(old(actionMap), PlainKey(update.name))
        && MapCommand(update.command.value, host).Ok?
        && actions == old(actions) + [Added(update, source, MapCommand(update.command.value, host).value)]
        && actionMap == old(actionMap)[PlainKey(update.name) := |old(actions)|][SourceKey(update.name, source) := |old(actions)|]
    {
      var qid := PlainKey(update.name);
      var sQid := SourceKey(update.name, source);
      if update.command.None? {
        return Fail(AddNoCommandMessage(update.name));
      }
      if qid in actionMap && actionMap[qid] != HIDDEN {
        return Fail(AddExistsMessage(update.name));
      }
      var command := MapCommand(update.command.value, host);
      if command.Err? {
        return Fail(ADD_COMMAND_CONTEXT);
      }
      if update.inputs.Some? {
        var filters := Inputs.TryFrom(update.inputs.value, host.glob);
        if filters.Err? {
          return Fail(filters.error);
        }
      }
      var index := |actions|;
      var nd := Added(update, source, command.value);
      GrownIndexed(State(), update.name, source, nd);
      actions := actions + [nd];
      actionMap := actionMap[qid := index][sQid := index];
      return Pass;
    }

    /** One definition of `merge_actions`, as its `merge` key says. */
    method MergeOne(def: TomlActionDefinition, source: ActionSource, host: Host) returns (r: Outcome)
      requires Valid() && |actions| < HIDDEN
      modifies this
      ensures Valid()
      ensures |actions| <= |old(actions)| + 1
      ensures |old(actions)| <= |actions| && actions[..|old(actions)|] == old(actions)
      ensures old(actionMap).Keys <= actionMap.Keys
      ensures r.Pass? ==> PlainKey(def.name) in actionMap
      ensures (r, State()) == StepSpec(old(State()), def, source, host)
    {
      match def.merge {
        case Hide =>
          r := HideAction(def);
          assert (r, State()) == HideSpec(old(State()), def);
        case Change =>
          r := ChangeAction(def, source, host);
          if r.Pass? {
            ChangedFromIsChanged(old(actions)[old(actionMap)[PlainKey(def.name)]], def, host, actions[|old(actions)|]);
            assert actions == old(actions) + [actions[|old(actions)|]];
          }
          assert (r, State()) == ChangeSpec(old(State()), def, source, host);
        case Add =>
          r := AddAction(def, source, host);
          assert (r, State()) == AddSpec(old(State()), def, source, host);
      }
      StepKeeps(old(State()), def, source, host);
    }

    /** `merge_actions`: the definitions in order, each hidden, changed or
        added as its `merge` key says, up to the first that fails.
        Definitions only accumulate and keys are never dropped. */
    method MergeActions(defs: seq<TomlActionDefinition>, source: ActionSource, host: Host) returns (r: Outcome)
      requires Valid() && |actions| + |defs| <= HIDDEN
      modifies this
      ensures Valid()
      ensures |old(actions)| <= |actions| && actions[..|old(actions)|] == old(actions)
      ensures old(actionMap).Keys <= actionMap.Keys
      ensures r.Pass? ==> forall i :: 0 <= i < |defs| ==> PlainKey(defs[i].name) in actionMap
      ensures (r, State()) == MergeSpec(old(State()), defs, source, host)
    {
      var i := 0;
      while i < |defs|
        invariant i <= |defs| && Valid() && |actions| <= |old(actions)| + i
        invariant |old(actions)| <= |actions| && actions[..|old(actions)|] == old(actions)
        invariant old(actionMap).Keys <= actionMap.Keys
        invariant forall j :: 0 <= j < i ==> PlainKey(defs[j].name) in actionMap
        invariant MergeSpec(old(State()), defs, source, host) == MergeSpec(State(), defs[i..], source, host)
      {
        assert defs[i..][0] == defs[i] && defs[i..][1..] == defs[i + 1..];
        var step := MergeOne(defs[i], source, host);
        if step.Fail? {
          return step;
        }
        i := i + 1;
      }
      return Pass;
    }
  }

  // ---------------------------------------------------------------
  // Action groups and the merged configuration
  // ---------------------------------------------------------------

  type ActionGroups = map<QualifiedActionId, seq<QualifiedActionId>>

  const THIS := ActionSource("this")

  /** The members of a group read from `source`: a member qualified by
      the source `this` is qualified by `source` instead. */
  function RewriteThis(members: seq<QualifiedActionId>, source: ActionSource): (r: seq<QualifiedActionId>)
    ensures |r| == |members|
    ensures forall i :: 0 <= i < |r| ==>
      r[i] == if members[i].source == Some(THIS) then SourceKey(members[i].id, source) else members[i]
  {
    seq(|members|, i requires 0 <= i < |members| =>
      if members[i].source == Some(THIS) then SourceKey(members[i].id, source) else members[i])
  }

  /** After the rewrite no member refers to `this`, unless the source is
      itself called `this`; members qualified otherwise are kept. */
  lemma RewriteThisResolves(members: seq<QualifiedActionId>, source: ActionSource, i: nat)
    requires i < |members| && source != THIS
    ensures RewriteThis(members, source)[i].source != Some(THIS)
    ensures RewriteThis(members, source)[i].id == members[i].id
    ensures members[i].source != Some(THIS) ==> RewriteThis(members, source)[i] == members[i]
  {
  }

  /** One group registered under both of its keys. */
  function Register(groups: ActionGroups, g: TomlActionGroup, source: ActionSource): ActionGroups {
    var ids := RewriteThis(g.actions, source);
    groups[PlainKey(g.name) := ids][SourceKey(g.name, source) := ids]
  }

  /** The groups after registering `defs` one after the other. */
  function Registered(groups: ActionGroups, defs: seq<TomlActionGroup>, source: ActionSource): ActionGroups
    decreases |defs|
  {
    if |defs| == 0 then groups
    else Register(Registered(groups, defs[..|defs| - 1], source), defs[|defs| - 1], source)
  }

  /** A key that one of the groups of `defs` is registered under. */
  predicate GroupKey(defs: seq<TomlActionGroup>, source: ActionSource, k: QualifiedActionId) {
    exists i :: 0 <= i < |defs| && (k == PlainKey(defs[i].name) || k == SourceKey(defs[i].name, source))
  }

  /** Registering adds exactly the two keys of every group and keeps the
      groups already there. */
  lemma {:induction false} RegisteredKeys(groups: ActionGroups, defs: seq<TomlActionGroup>, source: ActionSource, k: QualifiedActionId)
    ensures k in Registered(groups, defs, source) <==> k in groups || GroupKey(defs, source, k)
    ensures !GroupKey(defs, source, k) && k in groups ==> Registered(groups, defs, source)[k] == groups[k]
    decreases |defs|
  {
    if |defs| > 0 {
      var init := defs[..|defs| - 1];
      RegisteredKeys(groups, init, source, k);
      assert forall j :: 0 <= j < |init| ==> init[j] == defs[j];
      if GroupKey(defs, source, k) && !GroupKey(init, source, k) {
        var i :| 0 <= i < |defs| && (k == PlainKey(defs[i].name) || k == SourceKey(defs[i].name, source));
        assert i == |defs| - 1;
      }
    }
  }

  /** With names that do not repeat, as `from_string` ensures, both keys
      of each group hold its rewritten members. */
  lemma {:induction false} RegisteredMembers(groups: ActionGroups, defs: seq<TomlActionGroup>, source: ActionSource, i: nat)
    requires Distinct(GroupNames(defs)) && i < |defs|
    ensures PlainKey(defs[i].name) in Registered(groups, defs, source)
    ensures Registered(groups, defs, source)[PlainKey(defs[i].name)] == RewriteThis(defs[i].actions, source)
    ensures SourceKey(defs[i].name, source) in Registered(groups, defs, source)
    ensures Registered(groups, defs, source)[SourceKey(defs[i].name, source)] == RewriteThis(defs[i].actions, source)
    decreases |defs|
  {
    var init := defs[..|defs| - 1];
    if i < |defs| - 1 {
      assert GroupNames(init) == GroupNames(defs)[..|defs| - 1];
      assert init[i] == defs[i];
      assert GroupNames(defs)[i] != GroupNames(defs)[|defs| - 1];
      RegisteredMembers(groups, init, source, i);
    }
  }

  /** `add_new_action_groups`: every group of `other`, in order, under
      both of its keys. */
  method AddNewActionGroups(groups: ActionGroups, other: ConfigurationSource) returns (r: ActionGroups)
    ensures r == Registered(groups, other.actionGroups, other.source)
  {
    r := groups;
    var i := 0;
    while i < |other.actionGroups|
      invariant i <= |other.actionGroups|
      invariant r == Registered(groups, other.actionGroups[..i], other.source)
    {
      var ag := other.actionGroups[i];
      var ids := RewriteThis(ag.actions, other.source);
      r := r[PlainKey(ag.name) := ids];
      r := r[SourceKey(ag.name, other.source) := ids];
      assert other.actionGroups[..i + 1][..i] == other.actionGroups[..i];
      i := i + 1;
    }
    assert other.actionGroups[..i] == other.actionGroups;
  }

  /** A group member names an action or a group. */
  predicate KnownDependency(groups: ActionGroups, actionMap: map<QualifiedActionId, nat>, q: QualifiedActionId) {
    q in actionMap || q in groups
  }

  /** Every member of every group is known. */
  predicate ValidState(groups: ActionGroups, actionMap: map<QualifiedActionId, nat>) {
    forall k, j :: k in groups && 0 <= j < |groups[k]| ==> KnownDependency(groups, actionMap, groups[k][j])
  }

  function UnknownDependencyMessage(k: QualifiedActionId, q: QualifiedActionId): string {
    "Action Group " + Format(k) + " has unknown dependency " + Format(q)
  }

  /** The inner loop of `validate_state`: the first member of one group
      that is unknown. */
  method FirstUnknownMember(groups: ActionGroups, actionMap: map<QualifiedActionId, nat>, k: QualifiedActionId)
    returns (r: Option<nat>)
    requires k in groups
    ensures r.None? <==> forall j :: 0 <= j < |groups[k]| ==> KnownDependency(groups, actionMap, groups[k][j])
    ensures r.Some? ==> r.value < |groups[k]| && !KnownDependency(groups, actionMap, groups[k][r.value])
    ensures r.Some? ==> forall m :: 0 <= m < r.value ==> KnownDependency(groups, actionMap, groups[k][m])
  {
    var members := groups[k];
    var j := 0;
    while j < |members|
      invariant j <= |members|
      invariant forall m :: 0 <= m < j ==> KnownDependency(groups, actionMap, members[m])
    {
      if members[j] !in actionMap && members[j] !in groups {
        return Some(j);
      }
      j := j + 1;
    }
    return None;
  }

  /** `validate_state`: the groups, in the map's (unspecified) order,
      up to the first with an unknown member. */
  method ValidateState(groups: ActionGroups, actionMap: map<QualifiedActionId, nat>) returns (r: Outcome)
    ensures r.Pass? <==> ValidState(groups, actionMap)
    ensures r.Fail? ==> exists k, j :: (k in groups && 0 <= j < |groups[k]|
      && !KnownDependency(groups, actionMap, groups[k][j]) && r.error == UnknownDependencyMessage(k, groups[k][j])
      && forall m :: 0 <= m < j ==> KnownDependency(groups, actionMap, groups[k][m]))
  {
    var todo := groups.Keys;
    while todo != {}
      invariant todo <= groups.Keys
      invariant forall k, j :: k in groups && k !in todo && 0 <= j < |groups[k]| ==>
        KnownDependency(groups, actionMap, groups[k][j])
      decreases |todo|
    {
      var k :| k in todo;
      var bad := FirstUnknownMember(groups, actionMap, k);
      if bad.Some? {
        return Fail(UnknownDependencyMessage(k, groups[k][bad.value]));
      }
      todo := todo - {k};
    }
    return Pass;
  }

  /** The merged configuration: the groups, the definitions, and the
      map from keys to positions among them. */
  datatype Configuration = Configuration(
    actionGroups: ActionGroups,
    actions: seq<Actions.ActionDefinition>,
    actionMap: map<QualifiedActionId, nat>)

  /** `Configuration::default`. */
  const EMPTY := Configuration(map[], [], map[])

  /** `Configuration::merge`: the definitions of `other` merged onto the
      base, its groups registered, and every group member checked. */
  method Merge(config: Configuration, other: ConfigurationSource, host: Host) returns (r: Result<Configuration>)
    requires IndexedBy(config.actions, config.actionMap)
    requires |config.actions| + |other.actions| <= HIDDEN
    ensures r.Ok? ==> IndexedBy(r.value.actions, r.value.actionMap)
    ensures r.Ok? ==> ValidState(r.value.actionGroups, r.value.actionMap)
    ensures r.Ok? ==> r.value.actionGroups == Registered(config.actionGroups, other.actionGroups, other.source)
    ensures r.Ok? ==> |config.actions| <= |r.value.actions| && r.value.actions[..|config.actions|] == config.actions
    ensures r.Ok? ==> config.actionMap.Keys <= r.value.actionMap.Keys
    ensures r.Ok? ==> forall i :: 0 <= i < |other.actions| ==> PlainKey(other.actions[i].name) in r.value.actionMap
    ensures var m := MergeSpec(TableState(config.actions, config.actionMap), other.actions, other.source, host);
      var groups := Registered(config.actionGroups, other.actionGroups, other.source);
      && (m.0.Fail? ==> r == Err(m.0.error))
      && (m.0.Pass? ==> (r.Ok? <==> ValidState(groups, m.1.actionMap)))
      && (r.Ok? ==> r.value == Configuration(groups, m.1.actions, m.1.actionMap))
      && (m.0.Pass? && r.Err? ==> exists k, j :: (k in groups && 0 <= j < |groups[k]|
            && !KnownDependency(groups, m.1.actionMap, groups[k][j]) && r.error == UnknownDependencyMessage(k, groups[k][j])
            && forall i :: 0 <= i < j ==> KnownDependency(groups, m.1.actionMap, groups[k][i])))
  {
    var table := new ActionTable(config.actions, config.actionMap);
    var merged := table.MergeActions(other.actions, other.source, host);
    if merged.Fail? {
      return Err(merged.error);
    }
    var groups := AddNewActionGroups(config.actionGroups, other);
    var valid := ValidateState(groups, table.actionMap);
    if valid.Fail? {
      return Err(valid.error);
    }
    return Ok(Configuration(groups, table.actions, table.actionMap));
  }

  // ---------------------------------------------------------------
  // Selecting actions
  // ---------------------------------------------------------------

  /** A name whose text ends in `_all`. */
  predicate IsAllName(q: QualifiedActionId) {
    Text.EndsWith(Format(q), "_all")
  }

  /** What the keys `<prefix>_all` selects start with: `<prefix>_`. */
  function AllPrefix(q: QualifiedActionId): string
    requires IsAllName(q)
  {
    Format(q)[..|Format(q)| - 4] + "_"
  }

  /** The names a name brings in when it is selected: nothing for an
      action, the members of a group, and for a `<prefix>_all` name that
      is neither, every action key whose text starts with `<prefix>_`. */
  function Expansion(config: Configuration, q: QualifiedActionId): set<QualifiedActionId> {
    if q in config.actionMap then {}
    else if q in config.actionGroups then set m | m in config.actionGroups[q]
    else if IsAllName(q) then set k | k in config.actionMap && Text.StartsWith(Format(k), AllPrefix(q))
    else {}
  }

  /** A name that is no action, no group and no `_all` name. */
  predicate Unknown(config: Configuration, q: QualifiedActionId) {
    q !in config.actionMap && q !in config.actionGroups && !IsAllName(q)
  }

  function UnknownMessage(q: QualifiedActionId): string {
    "Unknown action " + Format(q)
  }

  /** A sequence of names each brought in by the one before it. */
  ghost predicate IsChain(config: Configuration, p: seq<QualifiedActionId>) {
    |p| >= 1 && forall i :: 0 <= i < |p| - 1 ==> p[i + 1] in Expansion(config, p[i])
  }

  /** Selecting `a` brings in `b`, directly or through other names. */
  ghost predicate Reaches(config: Configuration, a: QualifiedActionId, b: QualifiedActionId) {
    exists p :: IsChain(config, p) && p[0] == a && p[|p| - 1] == b
  }

  lemma ReachesSelf(config: Configuration, a: QualifiedActionId)
    ensures Reaches(config, a, a)
  {
    assert IsChain(config, [a]);
  }

  lemma ReachesThrough(config: Configuration, a: QualifiedActionId, b: QualifiedActionId, n: QualifiedActionId)
    requires b in Expansion(config, a) && Reaches(config, b, n)
    ensures Reaches(config, a, n)
  {
    var p :| IsChain(config, p) && p[0] == b && p[|p| - 1] == n;
    var q := [a] + p;
    assert forall i :: 0 < i < |q| ==> q[i] == p[i - 1];
    assert IsChain(config, q);
  }

  /** Every name of `visited` has what it brings in inside `visited`. */
  predicate Closed(config: Configuration, visited: set<QualifiedActionId>) {
    forall q :: q in visited ==> Expansion(config, q) <= visited
  }

  lemma {:induction false} ChainInside(config: Configuration, visited: set<QualifiedActionId>, p: seq<QualifiedActionId>, k: nat)
    requires Closed(config, visited) && IsChain(config, p) && p[0] in visited && k < |p|
    ensures p[k] in visited
  {
    if k > 0 {
      ChainInside(config, visited, p, k - 1);
    }
  }

  /** A closed set holds everything its names bring in. */
  lemma ClosedHoldsReached(config: Configuration, visited: set<QualifiedActionId>, a: QualifiedActionId, n: QualifiedActionId)
    requires Closed(config, visited) && a in visited && Reaches(config, a, n)
    ensures n in visited
  {
    var p :| IsChain(config, p) && p[0] == a && p[|p| - 1] == n;
    ChainInside(config, visited, p, |p| - 1);
  }

  /** The positions the action keys of `names` map to. */
  function Indices(config: Configuration, names: set<QualifiedActionId>): set<nat> {
    set q | q in names && q in config.actionMap :: config.actionMap[q]
  }

  lemma IndicesUnion(config: Configuration, a: set<QualifiedActionId>, b: set<QualifiedActionId>)
    ensures Indices(config, a + b) == Indices(config, a) + Indices(config, b)
  {
  }

  /** Every name selection can visit apart from the first. */
  function Universe(config: Configuration): set<QualifiedActionId> {
    config.actionMap.Keys + set k, m | k in config.actionGroups && m in config.actionGroups[k] :: m
  }

  lemma {:induction false} SubsetCard(a: set<QualifiedActionId>, b: set<QualifiedActionId>)
    requires a <= b
    ensures |a| <= |b|
    decreases |a|
  {
    if a != {} {
      var x :| x in a;
      SubsetCard(a - {x}, b - {x});
    }
  }

  /** Marking `name` visited leaves fewer names to visit. */
  lemma VisitShrinks(u: set<QualifiedActionId>, visited: set<QualifiedActionId>, name: QualifiedActionId)
    requires name !in visited
    ensures |u - (visited + {name})| < |(u + {name}) - visited|
  {
    var b := (u + {name}) - visited;
    SubsetCard(u - (visited + {name}), b - {name});
  }

  /** Visiting more names never leaves more to visit. */
  lemma VisitNoGrow(u: set<QualifiedActionId>, visited: set<QualifiedActionId>, later: set<QualifiedActionId>, g: QualifiedActionId)
    requires g in u && visited <= later
    ensures |(u + {g}) - later| <= |u - visited|
  {
    assert u + {g} == u;
    SubsetCard(u - later, u - visited);
  }

  /** The names visited after `visited` are all brought in by `root`. */
  ghost predicate Explored(config: Configuration, root: QualifiedActionId, visited: set<QualifiedActionId>, vis: set<QualifiedActionId>) {
    visited <= vis && forall q :: q in vis - visited ==> Reaches(config, root, q)
  }

  /** The names visited after `visited` are known and have what they
      bring in visited. */
  predicate Settled(config: Configuration, visited: set<QualifiedActionId>, vis: set<QualifiedActionId>) {
    forall q :: q in vis - visited ==> !Unknown(config, q) && Expansion(config, q) <= vis
  }

  /** A failure names an unknown name visited after `visited`. */
  predicate FailsOnUnknown(config: Configuration, visited: set<QualifiedActionId>, vis: set<QualifiedActionId>, r: Outcome) {
    r.Fail? ==> exists q :: q in vis - visited && Unknown(config, q) && r.error == UnknownMessage(q)
  }

  /** The result gains the positions of the actions visited after
      `visited`. */
  predicate Gained(config: Configuration, result: set<nat>, visited: set<QualifiedActionId>, res: set<nat>, vis: set<QualifiedActionId>) {
    res == result + Indices(config, vis - visited)
  }

  lemma ExploredChild(config: Configuration, parent: QualifiedActionId, child: QualifiedActionId,
                      visited: set<QualifiedActionId>, vis: set<QualifiedActionId>, vis': set<QualifiedActionId>)
    requires child in Expansion(config, parent)
    requires Explored(config, parent, visited, vis) && Explored(config, child, vis, vis')
    ensures Explored(config, parent, visited, vis')
  {
    forall q | q in vis' - vis ensures Reaches(config, parent, q) {
      ReachesThrough(config, parent, child, q);
    }
  }

  lemma GainedChild(config: Configuration, result: set<nat>, visited: set<QualifiedActionId>,
                    res: set<nat>, vis: set<QualifiedActionId>, res': set<nat>, vis': set<QualifiedActionId>)
    requires visited <= vis <= vis'
    requires Gained(config, result, visited, res, vis) && Gained(config, res, vis, res', vis')
    ensures Gained(config, result, visited, res', vis')
  {
    assert vis' - visited == (vis - visited) + (vis' - vis);
    IndicesUnion(config, vis - visited, vis' - vis);
  }

  lemma SettledChild(config: Configuration, visited: set<QualifiedActionId>, vis: set<QualifiedActionId>, vis': set<QualifiedActionId>)
    requires vis <= vis'
    requires Settled(config, visited, vis) && Settled(config, vis, vis')
    ensures Settled(config, visited, vis')
  {
  }

  lemma FailsChild(config: Configuration, visited: set<QualifiedActionId>, vis: set<QualifiedActionId>, vis': set<QualifiedActionId>, r: Outcome)
    requires visited <= vis
    requires FailsOnUnknown(config, vis, vis', r)
    ensures FailsOnUnknown(config, visited, vis', r)
  {
  }

  lemma ExploredParent(config: Configuration, name: QualifiedActionId, visited: set<QualifiedActionId>,
                       vis: set<QualifiedActionId>, vis': set<QualifiedActionId>)
    requires vis == visited + {name} && Explored(config, name, vis, vis')
    ensures Explored(config, name, visited, vis')
  {
    ReachesSelf(config, name);
  }

  lemma GainedParent(config: Configuration, name: QualifiedActionId, result: set<nat>, visited: set<QualifiedActionId>,
                     vis: set<QualifiedActionId>, res: set<nat>, vis': set<QualifiedActionId>)
    requires name !in config.actionMap && name !in visited && vis == visited + {name} && vis <= vis'
    requires Gained(config, result, vis, res, vis')
    ensures Gained(config, result, visited, res, vis')
  {
    assert Indices(config, {name}) == {};
    assert vis' - visited == (vis' - vis) + {name};
    IndicesUnion(config, vis' - vis, {name});
  }

  lemma SettledParent(config: Configuration, name: QualifiedActionId, visited: set<QualifiedActionId>,
                      vis: set<QualifiedActionId>, vis': set<QualifiedActionId>)
    requires !Unknown(config, name) && vis == visited + {name} && vis <= vis'
    requires Expansion(config, name) <= vis' && Settled(config, vis, vis')
    ensures Settled(config, visited, vis')
  {
  }

  lemma FailsParent(config: Configuration, name: QualifiedActionId, visited: set<QualifiedActionId>,
                    vis: set<QualifiedActionId>, vis': set<QualifiedActionId>, r: Outcome)
    requires vis == visited + {name} && FailsOnUnknown(config, vis, vis', r)
    ensures FailsOnUnknown(config, visited, vis', r)
  {
  }

  /** `u` holds every action key and every group member: all the names
      selection can visit after the first. */
  predicate Bounded(config: Configuration, u: set<QualifiedActionId>) {
    config.actionMap.Keys <= u
    && forall k, j :: k in config.actionGroups && 0 <= j < |config.actionGroups[k]| ==> config.actionGroups[k][j] in u
  }

  lemma UniverseBounded(config: Configuration)
    ensures exists u :: Bounded(config, u)
  {
    UniverseBoundsAll(config);
  }

  lemma UniverseBoundsAll(config: Configuration)
    ensures Bounded(config, Universe(config))
  {
    forall k, j | k in config.actionGroups && 0 <= j < |config.actionGroups[k]|
      ensures config.actionGroups[k][j] in Universe(config)
    {
      assert config.actionGroups[k][j] in config.actionGroups[k];
    }
  }

  /** `Configuration::add_actions`: a name already visited adds nothing;
      otherwise it is visited and resolved as an action, else as a group,
      else as an `_all` name, else it is an error.

      The names it visits are brought in by `name`; on success each of
      them is known and has what it brings in visited as well, and the
      result gains the positions of the actions among them. */
  method AddActions(config: Configuration, ghost u: set<QualifiedActionId>, name: QualifiedActionId,
                    result: set<nat>, visited: set<QualifiedActionId>)
    returns (r: Outcome, res: set<nat>, vis: set<QualifiedActionId>)
    requires Bounded(config, u)
    ensures name in vis && Explored(config, name, visited, vis) && Gained(config, result, visited, res, vis)
    ensures name in visited ==> r == Pass && vis == visited
    ensures r.Pass? ==> Settled(config, visited, vis)
    ensures FailsOnUnknown(config, visited, vis, r)
    decreases |(u + {name}) - visited|, 0
  {
    if name in visited {
      return Pass, result, visited;
    }
    vis := visited + {name};
    ReachesSelf(config, name);
    assert vis - visited == {name};
    if name in config.actionMap {
      assert Indices(config, {name}) == {config.actionMap[name]};
      return Pass, result + {config.actionMap[name]}, vis;
    }
    if Unknown(config, name) {
      return Fail(UnknownMessage(name)), result, vis;
    }
    VisitShrinks(u, visited, name);
    ghost var before := vis;
    if name in config.actionGroups {
      r, res, vis := AddMembers(config, u, name, config.actionGroups[name], result, vis);
    } else {
      r, res, vis := AddAll(config, u, name, Expansion(config, name), result, vis);
    }
    ExploredParent(config, name, visited, before, vis);
    GainedParent(config, name, result, visited, before, res, vis);
    FailsParent(config, name, visited, before, vis, r);
    if r.Pass? {
      SettledParent(config, name, visited, before, vis);
    }
  }

  /** The group branch of `add_actions`: each member in order, up to the
      first that fails. */
  method AddMembers(config: Configuration, ghost u: set<QualifiedActionId>, ghost parent: QualifiedActionId, members: seq<QualifiedActionId>,
                    result: set<nat>, visited: set<QualifiedActionId>)
    returns (r: Outcome, res: set<nat>, vis: set<QualifiedActionId>)
    requires Bounded(config, u)
    requires parent !in config.actionMap && parent in config.actionGroups && members == config.actionGroups[parent]
    ensures Explored(config, parent, visited, vis) && Gained(config, result, visited, res, vis)
    ensures r.Pass? ==> Expansion(config, parent) <= vis && Settled(config, visited, vis)
    ensures FailsOnUnknown(config, visited, vis, r)
    decreases |u - visited|, 1
  {
    res, vis := result, visited;
    var i := 0;
    while i < |members|
      invariant i <= |members|
      invariant Explored(config, parent, visited, vis) && Gained(config, result, visited, res, vis)
      invariant Settled(config, visited, vis)
      invariant forall j :: 0 <= j < i ==> members[j] in vis
    {
      VisitNoGrow(u, visited, vis, members[i]);
      var step, res', vis' := AddActions(config, u, members[i], res, vis);
      assert members[i] in Expansion(config, parent);
      ExploredChild(config, parent, members[i], visited, vis, vis');
      GainedChild(config, result, visited, res, vis, res', vis');
      FailsChild(config, visited, vis, vis', step);
      if step.Pass? {
        SettledChild(config, visited, vis, vis');
      }
      res, vis := res', vis';
      if step.Fail? {
        return step, res, vis;
      }
      i := i + 1;
    }
    assert forall m :: m in Expansion(config, parent) ==> m in members;
    return Pass, res, vis;
  }

  /** The `_all` branch of `add_actions`: the action keys with the
      prefix, in the map's (unspecified) order, up to the first that
      fails. */
  method AddAll(config: Configuration, ghost u: set<QualifiedActionId>, ghost parent: QualifiedActionId, children: set<QualifiedActionId>,
                result: set<nat>, visited: set<QualifiedActionId>)
    returns (r: Outcome, res: set<nat>, vis: set<QualifiedActionId>)
    requires Bounded(config, u)
    requires parent !in config.actionMap && parent !in config.actionGroups && IsAllName(parent)
    requires children == Expansion(config, parent)
    ensures Explored(config, parent, visited, vis) && Gained(config, result, visited, res, vis)
    ensures r.Pass? ==> Expansion(config, parent) <= vis && Settled(config, visited, vis)
    ensures FailsOnUnknown(config, visited, vis, r)
    decreases |u - visited|, 1
  {
    res, vis := result, visited;
    var todo := children;
    while todo != {}
      invariant todo <= children
      invariant Explored(config, parent, visited, vis) && Gained(config, result, visited, res, vis)
      invariant Settled(config, visited, vis)
      invariant forall c :: c in children && c !in todo ==> c in vis
      decreases |todo|
    {
      var c :| c in todo;
      assert c in config.actionMap;
      VisitNoGrow(u, visited, vis, c);
      var step, res', vis' := AddActions(config, u, c, res, vis);
      ExploredChild(config, parent, c, visited, vis, vis');
      GainedChild(config, result, visited, res, vis, res', vis');
      FailsChild(config, visited, vis, vis', step);
      if step.Pass? {
        SettledChild(config, visited, vis, vis');
      }
      res, vis := res', vis';
      if step.Fail? {
        return step, res, vis;
      }
      todo := todo - {c};
    }
    return Pass, res, vis;
  }

  /** Some name of `names` brings in `q`. */
  ghost predicate Selected(config: Configuration, names: seq<QualifiedActionId>, q: QualifiedActionId) {
    exists j :: 0 <= j < |names| && Reaches(config, names[j], q)
  }

  /** Every name of `visited` is brought in by some name of `names`. */
  ghost predicate AllSelected(config: Configuration, names: seq<QualifiedActionId>, visited: set<QualifiedActionId>) {
    forall q :: q in visited ==> Selected(config, names, q)
  }

  lemma SelectedStep(config: Configuration, names: seq<QualifiedActionId>, i: nat,
                     visited: set<QualifiedActionId>, vis: set<QualifiedActionId>)
    requires i < |names| && AllSelected(config, names, visited) && Explored(config, names[i], visited, vis)
    ensures AllSelected(config, names, vis)
  {
    forall q | q in vis ensures Selected(config, names, q) {
      if q !in visited {
        assert Reaches(config, names[i], q);
      }
    }
  }

  lemma SelectedFailure(config: Configuration, names: seq<QualifiedActionId>, i: nat,
                        visited: set<QualifiedActionId>, vis: set<QualifiedActionId>, r: Outcome)
    requires i < |names| && Explored(config, names[i], visited, vis)
    requires r.Fail? && FailsOnUnknown(config, visited, vis, r)
    ensures exists q :: Selected(config, names, q) && Unknown(config, q) && r.error == UnknownMessage(q)
  {
    var q :| q in vis - visited && Unknown(config, q) && r.error == UnknownMessage(q);
    assert Reaches(config, names[i], q);
  }

  /** Once every name is visited and what each visited name brings in
      is visited too, the visited names are exactly those selected. */
  lemma SelectionComplete(config: Configuration, names: seq<QualifiedActionId>, visited: set<QualifiedActionId>)
    requires Settled(config, {}, visited) && AllSelected(config, names, visited)
    requires forall j :: 0 <= j < |names| ==> names[j] in visited
    ensures forall q :: Selected(config, names, q) <==> q in visited
    ensures forall q :: q in visited ==> !Unknown(config, q)
  {
    assert Closed(config, visited);
    forall q | Selected(config, names, q) ensures q in visited {
      var j :| 0 <= j < |names| && Reaches(config, names[j], q);
      ClosedHoldsReached(config, visited, names[j], q);
    }
  }

  lemma IndicesSelected(config: Configuration, names: seq<QualifiedActionId>, visited: set<QualifiedActionId>, i: nat)
    requires forall q :: Selected(config, names, q) <==> q in visited
    ensures i in Indices(config, visited) <==>
      exists q :: Selected(config, names, q) && q in config.actionMap && config.actionMap[q] == i
  {
  }

  /** The selection loop's invariant after `i` names: the positions
      gathered are those of the visited names, every visited name is
      selected and settled, and the first `i` names are visited. */
  ghost predicate SelectionProgress(config: Configuration, names: seq<QualifiedActionId>, i: nat,
                                    indices: set<nat>, visited: set<QualifiedActionId>) {
    && i <= |names|
    && Gained(config, {}, {}, indices, visited)
    && AllSelected(config, names, visited)
    && (forall j :: 0 <= j < i ==> names[j] in visited)
    && Settled(config, {}, visited)
  }

  lemma SelectionStart(config: Configuration, names: seq<QualifiedActionId>)
    ensures SelectionProgress(config, names, 0, {}, {})
  {
    assert Indices(config, {} - {}) == {};
  }

  /** A name whose visit passes moves the loop on by one name. */
  lemma SelectionAdvance(config: Configuration, names: seq<QualifiedActionId>, i: nat,
                         indices: set<nat>, visited: set<QualifiedActionId>,
                         indices': set<nat>, visited': set<QualifiedActionId>)
    requires i < |names| && SelectionProgress(config, names, i, indices, visited)
    requires names[i] in visited' && Explored(config, names[i], visited, visited')
    requires Gained(config, indices, visited, indices', visited') && Settled(config, visited, visited')
    ensures SelectionProgress(config, names, i + 1, indices', visited')
  {
    SelectedStep(config, names, i, visited, visited');
    GainedChild(config, {}, {}, indices, visited, indices', visited');
    SettledChild(config, {}, visited, visited');
  }

  /** After the selection loop, the positions gathered are exactly those
      of the selected names, and no selected name is unknown. */
  lemma SelectionIndices(config: Configuration, names: seq<QualifiedActionId>, indices: set<nat>, visited: set<QualifiedActionId>)
    requires SelectionProgress(config, names, |names|, indices, visited)
    ensures forall q :: Selected(config, names, q) ==> !Unknown(config, q)
    ensures forall q :: Selected(config, names, q) && q in config.actionMap ==> config.actionMap[q] in indices
    ensures forall i :: i in indices ==>
      exists q :: Selected(config, names, q) && q in config.actionMap && config.actionMap[q] == i
  {
    assert visited - {} == visited;
    SelectionComplete(config, names, visited);
    forall n | n in indices
      ensures exists q :: Selected(config, names, q) && q in config.actionMap && config.actionMap[q] == n
    {
      IndicesSelected(config, names, visited, n);
    }
  }

  /** `Configuration::actions`: the positions of the actions that `names`
      bring in, directly or through groups and `_all` names, which the
      iterator over the definitions is then built from; an error when
      they bring in an unknown name. */
  method SelectedIndices(config: Configuration, names: seq<QualifiedActionId>) returns (r: Result<set<nat>>)
    ensures r.Ok? ==> forall q :: Selected(config, names, q) ==> !Unknown(config, q)
    ensures r.Ok? ==> forall q :: Selected(config, names, q) && q in config.actionMap ==> config.actionMap[q] in r.value
    ensures r.Ok? ==> forall i :: i in r.value ==>
      exists q :: Selected(config, names, q) && q in config.actionMap && config.actionMap[q] == i
    ensures r.Err? ==> exists q :: Selected(config, names, q) && Unknown(config, q) && r.error == UnknownMessage(q)
  {
    var indices: set<nat> := {};
    var visited: set<QualifiedActionId> := {};
    UniverseBounded(config);
    ghost var u :| Bounded(config, u);
    SelectionStart(config, names);
    var i := 0;
    while i < |names|
      invariant SelectionProgress(config, names, i, indices, visited)
    {
      var step, indices', visited' := AddActions(config, u, names[i], indices, visited);
      if step.Fail? {
        SelectedFailure(config, names, i, visited, visited', step);
        return Err(step.error);
      }
      SelectionAdvance(config, names, i, indices, visited, indices', visited');
      indices, visited := indices', visited';
      i := i + 1;
    }
    SelectionIndices(config, names, indices, visited);
    return Ok(indices);
  }
}
