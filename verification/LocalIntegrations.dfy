/** Merging the program's hooks into the settings files of other tools. */
module ClaudeCodeHooks {
  import opened Basics

  datatype Json =
    | Null
    | Bool(bool)
    | Number(int)
    | String(text: string)
    | Array(items: seq<Json>)
    | Object(fields: map<string, Json>)

  datatype SettingsError =
    | RootNotObject
    | HooksDisabled
    | HooksNotObject
    | EventNotArray
    | HookNotObject
    | CommandsNotArray
    | CommandNotObject

  const EVENTS: seq<string> := ["SessionStart", "UserPromptSubmit", "Stop", "Notification"]

  const TIMEOUT_SECONDS := 10

  /** The entry that runs `command`. */
  function Entry(command: string): Json {
    Object(map["hooks" := Array([Object(map[
      "type" := String("command"), "command" := String(command), "timeout" := Number(TIMEOUT_SECONDS)])])])
  }

  predicate RunsCommand(fields: map<string, Json>, command: string) {
    && "type" in fields && fields["type"] == String("command")
    && "command" in fields && fields["command"] == String(command)
  }

  /** Scanning one list of commands: the first match or the first malformed element decides. */
  function ScanCommands(commands: seq<Json>, command: string): Result<bool, SettingsError> {
    if commands == [] then Ok(false)
    else if !commands[0].Object? then Err(CommandNotObject)
    else if RunsCommand(commands[0].fields, command) then Ok(true)
    else ScanCommands(commands[1..], command)
  }

  function ScanHook(hook: Json, command: string): Result<bool, SettingsError> {
    if !hook.Object? then Err(HookNotObject)
    else if "hooks" !in hook.fields then Ok(false)
    else if !hook.fields["hooks"].Array? then Err(CommandsNotArray)
    else ScanCommands(hook.fields["hooks"].items, command)
  }

  function ScanHooks(hooks: seq<Json>, command: string): Result<bool, SettingsError> {
    if hooks == [] then Ok(false)
    else
      var first := ScanHook(hooks[0], command);
      if first == Ok(false) then ScanHooks(hooks[1..], command) else first
  }

  function EventHooks(hooks: map<string, Json>, event: string): Json {
    if event in hooks then hooks[event] else Array([])
  }

  /** One event: its array gets the entry appended unless the command is already there. */
  function EnsureEvent(hooks: map<string, Json>, event: string, command: string)
    : Result<map<string, Json>, SettingsError>
  {
    var existing := EventHooks(hooks, event);
    if !existing.Array? then Err(EventNotArray)
    else
      match ScanHooks(existing.items, command)
      case Err(e) => Err(e)
      case Ok(true) => Ok(hooks)
      case Ok(false) => Ok(hooks[event := Array(existing.items + [Entry(command)])])
  }

  function EnsureEvents(hooks: map<string, Json>, n: nat, command: string): Result<map<string, Json>, SettingsError>
    requires n <= |EVENTS|
  {
    if n == 0 then Ok(hooks)
    else
      match EnsureEvents(hooks, n - 1, command)
      case Err(e) => Err(e)
      case Ok(h) => EnsureEvent(h, EVENTS[n - 1], command)
  }

  function HooksOf(root: map<string, Json>): Json {
    if "hooks" in root then root["hooks"] else Object(map[])
  }

  /** The merged settings, or why they cannot be merged. */
  function Merge(settings: Json, command: string): Result<Json, SettingsError> {
    if !settings.Object? then Err(RootNotObject)
    else
      var root := settings.fields;
      if "disableAllHooks" in root && root["disableAllHooks"] == Bool(true) then Err(HooksDisabled)
      else if !HooksOf(root).Object? then Err(HooksNotObject)
      else
        match EnsureEvents(HooksOf(root).fields, |EVENTS|, command)
        case Err(e) => Err(e)
        case Ok(h) => Ok(Object(root["hooks" := Object(h)]))
  }

  // ---- the editing methods ----

  method HasHookCommand(eventHooks: seq<Json>, command: string) returns (r: Result<bool, SettingsError>)
    ensures r == ScanHooks(eventHooks, command)
  {
    var i := 0;
    while i < |eventHooks|
      invariant i <= |eventHooks|
      invariant ScanHooks(eventHooks[i..], command) == ScanHooks(eventHooks, command)
    {
      var hook := eventHooks[i];
      assert eventHooks[i..][1..] == eventHooks[i + 1..];
      i := i + 1;
      if !hook.Object? {
        return Err(HookNotObject);
      }
      if "hooks" !in hook.fields {
        continue;
      }
      if !hook.fields["hooks"].Array? {
        return Err(CommandsNotArray);
      }
      var commands := hook.fields["hooks"].items;
      var j := 0;
      while j < |commands|
        invariant j <= |commands|
        invariant ScanCommands(commands[j..], command) == ScanCommands(commands, command)
      {
        assert commands[j..][1..] == commands[j + 1..];
        if !commands[j].Object? {
          return Err(CommandNotObject);
        }
        if RunsCommand(commands[j].fields, command) {
          return Ok(true);
        }
        j := j + 1;
      }
    }
    r := Ok(false);
  }

  class Settings {
    var root: Json

    constructor (root: Json)
      ensures this.root == root
    {
      this.root := root;
    }

    method EnsureHooks(command: string) returns (r: Result<(), SettingsError>)
      modifies this
      ensures Merge(old(root), command).Ok? ==> r == Ok(()) && root == Merge(old(root), command).value
      ensures Merge(old(root), command).Err? ==> r == Err(Merge(old(root), command).error)
    {
      if !root.Object? {
        return Err(RootNotObject);
      }
      var fields := root.fields;
      if "disableAllHooks" in fields && fields["disableAllHooks"] == Bool(true) {
        return Err(HooksDisabled);
      }
      if "hooks" !in fields {
        fields := fields["hooks" := Object(map[])];
      }
      if !fields["hooks"].Object? {
        return Err(HooksNotObject);
      }
      var hooks := fields["hooks"].fields;
      ghost var start := hooks;
      var i := 0;
      while i < |EVENTS|
        invariant i <= |EVENTS|
        invariant EnsureEvents(start, i, command) == Ok(hooks)
        invariant root == old(root)
      {
        var event := EVENTS[i];
        i := i + 1;
        ghost var before := hooks;
        if event !in hooks {
          hooks := hooks[event := Array([])];
        }
        if !hooks[event].Array? {
          StopsAtError(start, i, |EVENTS|, command);
          return Err(EventNotArray);
        }
        var found := HasHookCommand(hooks[event].items, command);
        if found.Err? {
          StopsAtError(start, i, |EVENTS|, command);
          return Err(found.error);
        }
        if !found.value {
          hooks := hooks[event := Array(hooks[event].items + [Entry(command)])];
          assert hooks == before[event := Array(EventHooks(before, event).items + [Entry(command)])];
        }
        assert EnsureEvent(before, event, command) == Ok(hooks);
      }
      root := Object(fields["hooks" := Object(hooks)]);
      r := Ok(());
    }
  }

  lemma {:induction false} StopsAtError(hooks: map<string, Json>, n: nat, m: nat, command: string)
    requires n <= m <= |EVENTS| && EnsureEvents(hooks, n, command).Err?
    ensures EnsureEvents(hooks, m, command) == EnsureEvents(hooks, n, command)
  {
    if n == m {
    } else {
      StopsAtError(hooks, n, m - 1, command);
    }
  }

  // ---- what a merge guarantees ----

  /** An entry runs its command and nothing else, for at most ten seconds. */
  lemma EntryRunsOnlyCommand(command: string)
    ensures var entry := Entry(command);
      && RunsAt([entry], 0, 0, command)
      && entry.fields.Keys == {"hooks"} && |entry.fields["hooks"].items| == 1
      && var fields := entry.fields["hooks"].items[0].fields;
         fields.Keys == {"type", "command", "timeout"} && fields["timeout"] == Number(10)
  {
    assert "type" != "command" && "type" != "timeout" && "command" != "timeout";
  }

  lemma EntryIsFound(command: string)
    ensures ScanHook(Entry(command), command) == Ok(true)
  {
  }

  lemma {:induction false} ScanAfterAppend(hooks: seq<Json>, command: string)
    requires ScanHooks(hooks, command) == Ok(false)
    ensures ScanHooks(hooks + [Entry(command)], command) == Ok(true)
  {
    if hooks == [] {
      assert hooks + [Entry(command)] == [Entry(command)];
      EntryIsFound(command);
    } else {
      ScanAfterAppend(hooks[1..], command);
      assert (hooks + [Entry(command)])[1..] == hooks[1..] + [Entry(command)];
    }
  }

  /** Command `j` of hook `i` is an object that runs the command. */
  predicate RunsAt(hooks: seq<Json>, i: nat, j: nat, command: string) {
    && i < |hooks| && hooks[i].Object? && "hooks" in hooks[i].fields && hooks[i].fields["hooks"].Array?
    && var commands := hooks[i].fields["hooks"].items;
    && j < |commands| && commands[j].Object?
    && "type" in commands[j].fields && commands[j].fields["type"] == String("command")
    && "command" in commands[j].fields && commands[j].fields["command"] == String(command)
  }

  /** One hook of the array runs the command. */
  ghost predicate IsInstalled(hooks: seq<Json>, command: string) {
    exists i: nat, j: nat :: RunsAt(hooks, i, j, command)
  }

  lemma {:induction false} ScanCommandsFinds(commands: seq<Json>, command: string) returns (j: nat)
    requires ScanCommands(commands, command) == Ok(true)
    ensures j < |commands| && commands[j].Object? && RunsCommand(commands[j].fields, command)
  {
    if RunsCommand(commands[0].fields, command) {
      j := 0;
    } else {
      var rest := ScanCommandsFinds(commands[1..], command);
      j := rest + 1;
    }
  }

  lemma {:induction false} ScanCommandsMisses(commands: seq<Json>, command: string)
    requires ScanCommands(commands, command) == Ok(false)
    ensures forall c :: c in commands ==> c.Object? && !RunsCommand(c.fields, command)
  {
    if commands == [] {
    } else {
      ScanCommandsMisses(commands[1..], command);
    }
  }

  /** A scan that succeeds has found a hook that runs the command. */
  lemma {:induction false} ScanFinds(hooks: seq<Json>, command: string)
    requires ScanHooks(hooks, command) == Ok(true)
    ensures IsInstalled(hooks, command)
  {
    if ScanHook(hooks[0], command) == Ok(true) {
      var j := ScanCommandsFinds(hooks[0].fields["hooks"].items, command);
      assert RunsAt(hooks, 0, j, command);
    } else {
      ScanFinds(hooks[1..], command);
      var i: nat, j: nat :| RunsAt(hooks[1..], i, j, command);
      assert RunsAt(hooks, i + 1, j, command);
    }
  }

  /** A scan that ends without a match has found every hook well formed and none that runs the command. */
  lemma {:induction false} ScanMisses(hooks: seq<Json>, command: string)
    requires ScanHooks(hooks, command) == Ok(false)
    ensures !IsInstalled(hooks, command) && forall h :: h in hooks ==> h.Object?
  {
    if hooks == [] {
    } else {
      ScanMisses(hooks[1..], command);
      if "hooks" in hooks[0].fields {
        ScanCommandsMisses(hooks[0].fields["hooks"].items, command);
      }
      if i: nat, j: nat :| RunsAt(hooks, i, j, command) && i > 0 {
        assert RunsAt(hooks[1..], i - 1, j, command);
      }
    }
  }

  /** A scan that reaches a verdict tells exactly whether the command is installed. */
  lemma ScanTellsInstalled(hooks: seq<Json>, command: string)
    requires ScanHooks(hooks, command).Ok?
    ensures ScanHooks(hooks, command).value <==> IsInstalled(hooks, command)
  {
    if ScanHooks(hooks, command).value {
      ScanFinds(hooks, command);
    } else {
      ScanMisses(hooks, command);
    }
  }

  /** The merged settings run the command on this event. */
  ghost predicate RunsOn(settings: Json, event: string, command: string) {
    && settings.Object? && "hooks" in settings.fields && settings.fields["hooks"].Object?
    && event in settings.fields["hooks"].fields && settings.fields["hooks"].fields[event].Array?
    && IsInstalled(settings.fields["hooks"].fields[event].items, command)
  }

  lemma MergeInstallsOne(settings: Json, command: string, n: nat)
    requires Merge(settings, command).Ok? && n < |EVENTS|
    ensures RunsOn(Merge(settings, command).value, EVENTS[n], command)
  {
    MergeExtends(settings, command);
    var after := Merge(settings, command).value.fields["hooks"].fields;
    assert ExtendsEvent(HooksOf(settings.fields).fields, after, EVENTS[n], command);
    ScanTellsInstalled(after[EVENTS[n]].items, command);
  }

  /** After a successful merge the command runs on all four events. */
  lemma MergeInstalls(settings: Json, command: string)
    requires Merge(settings, command).Ok?
    ensures var merged := Merge(settings, command).value;
      && RunsOn(merged, "SessionStart", command) && RunsOn(merged, "UserPromptSubmit", command)
      && RunsOn(merged, "Stop", command) && RunsOn(merged, "Notification", command)
  {
    MergeInstallsOne(settings, command, 0);
    MergeInstallsOne(settings, command, 1);
    MergeInstallsOne(settings, command, 2);
    MergeInstallsOne(settings, command, 3);
  }

  /** Settings that switch all hooks off are refused. */
  lemma DisabledIsRefused(settings: Json, command: string)
    requires settings.Object? && "disableAllHooks" in settings.fields
      && settings.fields["disableAllHooks"] == Bool(true)
    ensures Merge(settings, command) == Err(HooksDisabled)
  {
  }

  /** The array of one event: at most one entry is appended, and the command is then found. */
  predicate ExtendsEvent(before: map<string, Json>, after: map<string, Json>, event: string, command: string) {
    && EventHooks(before, event).Array? && event in after && after[event].Array?
    && (after[event] == EventHooks(before, event)
        || after[event].items == EventHooks(before, event).items + [Entry(command)])
    && ScanHooks(after[event].items, command) == Ok(true)
  }

  lemma EventIsExtended(hooks: map<string, Json>, event: string, command: string)
    requires EnsureEvent(hooks, event, command).Ok?
    ensures var after := EnsureEvent(hooks, event, command).value;
      && ExtendsEvent(hooks, after, event, command)
      && forall k :: k != event ==> (k in after <==> k in hooks) && (k in hooks ==> after[k] == hooks[k])
  {
    var items := EventHooks(hooks, event).items;
    if ScanHooks(items, command) == Ok(false) {
      ScanAfterAppend(items, command);
    }
  }

  lemma EventsDiffer()
    ensures forall i, j :: 0 <= i < j < |EVENTS| ==> EVENTS[i] != EVENTS[j]
  {
    assert |"SessionStart"| == 12 && |"UserPromptSubmit"| == 16 && |"Stop"| == 4;
    assert "SessionStart"[0] != "Notification"[0];
  }

  /** The first `n` events are extended and no other key is changed. */
  ghost predicate ExtendsEvents(before: map<string, Json>, after: map<string, Json>, n: nat, command: string)
    requires n <= |EVENTS|
  {
    && (forall i :: 0 <= i < n ==> ExtendsEvent(before, after, EVENTS[i], command))
    && (forall k :: k !in EVENTS[..n] ==> (k in after <==> k in before) && (k in before ==> after[k] == before[k]))
  }

  lemma NextEventIsExtended(start: map<string, Json>, before: map<string, Json>, n: nat, command: string)
    requires n < |EVENTS| && ExtendsEvents(start, before, n, command) && EnsureEvent(before, EVENTS[n], command).Ok?
    ensures ExtendsEvents(start, EnsureEvent(before, EVENTS[n], command).value, n + 1, command)
  {
    var event, after := EVENTS[n], EnsureEvent(before, EVENTS[n], command).value;
    EventIsExtended(before, event, command);
    EventsDiffer();
    assert EVENTS[..n + 1] == EVENTS[..n] + [event];
    assert event !in EVENTS[..n];
    assert EventHooks(before, event) == EventHooks(start, event);
    forall i | 0 <= i < n
      ensures ExtendsEvent(start, after, EVENTS[i], command)
    {
      assert ExtendsEvent(start, before, EVENTS[i], command);
      assert after[EVENTS[i]] == before[EVENTS[i]];
    }
  }

  lemma {:induction false} EventsAreExtended(hooks: map<string, Json>, n: nat, command: string)
    requires n <= |EVENTS| && EnsureEvents(hooks, n, command).Ok?
    ensures ExtendsEvents(hooks, EnsureEvents(hooks, n, command).value, n, command)
  {
    if n == 0 {
    } else {
      EventsAreExtended(hooks, n - 1, command);
      NextEventIsExtended(hooks, EnsureEvents(hooks, n - 1, command).value, n - 1, command);
    }
  }

  /** A successful merge keeps everything else in the file, keeps every old array as a prefix with
      at most one entry after it, and leaves the command findable under all four events. */
  lemma MergeExtends(settings: Json, command: string)
    requires Merge(settings, command).Ok?
    ensures var merged := Merge(settings, command).value;
      && settings.Object? && merged.Object? && "hooks" in merged.fields && merged.fields["hooks"].Object?
      && merged.fields.Keys == settings.fields.Keys + {"hooks"}
      && (forall k :: k in settings.fields && k != "hooks" ==> merged.fields[k] == settings.fields[k])
      && var before, after := HooksOf(settings.fields).fields, merged.fields["hooks"].fields;
         && (forall i :: 0 <= i < |EVENTS| ==> ExtendsEvent(before, after, EVENTS[i], command))
         && (forall k :: k !in EVENTS ==> (k in after <==> k in before) && (k in before ==> after[k] == before[k]))
  {
    EventsAreExtended(HooksOf(settings.fields).fields, |EVENTS|, command);
    assert EVENTS[..|EVENTS|] == EVENTS;
  }

  lemma {:induction false} FoundEverywhereIsFixed(hooks: map<string, Json>, n: nat, command: string)
    requires n <= |EVENTS|
    requires forall i :: 0 <= i < |EVENTS| ==>
      EVENTS[i] in hooks && hooks[EVENTS[i]].Array? && ScanHooks(hooks[EVENTS[i]].items, command) == Ok(true)
    ensures EnsureEvents(hooks, n, command) == Ok(hooks)
  {
    if n == 0 {
    } else {
      FoundEverywhereIsFixed(hooks, n - 1, command);
    }
  }

  /** Merging twice is merging once. */
  lemma MergeIsIdempotent(settings: Json, command: string)
    requires Merge(settings, command).Ok?
    ensures Merge(Merge(settings, command).value, command) == Merge(settings, command)
  {
    MergeExtends(settings, command);
    var merged := Merge(settings, command).value;
    var after := merged.fields["hooks"].fields;
    forall i | 0 <= i < |EVENTS|
      ensures EVENTS[i] in after && after[EVENTS[i]].Array? && ScanHooks(after[EVENTS[i]].items, command) == Ok(true)
    {
      assert ExtendsEvent(HooksOf(settings.fields).fields, after, EVENTS[i], command);
    }
    FoundEverywhereIsFixed(after, |EVENTS|, command);
    assert "disableAllHooks" in merged.fields
      ==> merged.fields["disableAllHooks"] == settings.fields["disableAllHooks"];
    assert merged.fields["hooks" := Object(after)] == merged.fields;
  }
}

/** The Codex CLI configuration: a feature flag and a stop hook. */
module CodexStopHook {
  import opened Basics

  datatype Toml =
    | Boolean(bool)
    | Text(string)
    | Integer(int)
    | OtherValue(string)
    | Table(entries: map<string, Toml>)
    | InlineTable(inline: map<string, Toml>)
    | ArrayOfTables(tables: seq<map<string, Toml>>)
  {
    predicate TableLike() { Table? || InlineTable? }

    function Entries(): map<string, Toml>
      requires TableLike()
    {
      if Table? then entries else inline
    }

    function With(e: map<string, Toml>): Toml
      requires TableLike()
    {
      if Table? then Table(e) else InlineTable(e)
    }
  }

  type Document = map<string, Toml>

  datatype ConfigError = FeaturesNotTable | HooksNotTable | StopNotArrayOfTables

  function ItemOr(t: map<string, Toml>, key: string, default: Toml): Toml {
    if key in t then t[key] else default
  }

  /** `features` loses the old flag and has `hooks = true`. */
  function EnableHooks(d: Document): Result<Document, ConfigError> {
    var features := ItemOr(d, "features", Table(map[]));
    if !features.TableLike() then Err(FeaturesNotTable)
    else
      var kept := features.Entries() - {"codex_hooks"};
      Ok(d["features" := features.With(kept["hooks" := Boolean(true)])])
  }

  predicate RunsCommand(t: map<string, Toml>, command: string) {
    && "type" in t && t["type"] == Text("command")
    && "command" in t && t["command"] == Text(command)
  }

  predicate HookRuns(hook: map<string, Toml>, command: string) {
    && "hooks" in hook && hook["hooks"].ArrayOfTables?
    && exists t :: t in hook["hooks"].tables && RunsCommand(t, command)
  }

  predicate HasStopHook(d: Document, command: string) {
    && "hooks" in d && d["hooks"].TableLike()
    && "Stop" in d["hooks"].Entries() && d["hooks"].Entries()["Stop"].ArrayOfTables?
    && exists h :: h in d["hooks"].Entries()["Stop"].tables && HookRuns(h, command)
  }

  function NewHook(command: string): map<string, Toml> {
    map["hooks" := ArrayOfTables([map[
      "type" := Text("command"), "command" := Text(command), "timeout" := Integer(10),
      "statusMessage" := Text("Forwarding completion to Agents Router")]])]
  }

  function AppendStopHook(d: Document, command: string): Result<Document, ConfigError> {
    var hooks := ItemOr(d, "hooks", Table(map[]));
    if !hooks.TableLike() then Err(HooksNotTable)
    else
      var stop := ItemOr(hooks.Entries(), "Stop", ArrayOfTables([]));
      if !stop.ArrayOfTables? then Err(StopNotArrayOfTables)
      else Ok(d["hooks" := hooks.With(hooks.Entries()["Stop" := ArrayOfTables(stop.tables + [NewHook(command)])])])
  }

  function Ensure(d: Document, command: string): Result<Document, ConfigError> {
    match EnableHooks(d)
    case Err(e) => Err(e)
    case Ok(enabled) => if HasStopHook(enabled, command) then Ok(enabled) else AppendStopHook(enabled, command)
  }

  class Config {
    var document: Document

    constructor (document: Document)
      ensures this.document == document
    {
      this.document := document;
    }

    method EnableLifecycleHooks() returns (r: Result<(), ConfigError>)
      modifies this
      ensures EnableHooks(old(document)).Ok? ==> r == Ok(()) && document == EnableHooks(old(document)).value
      ensures EnableHooks(old(document)).Err? ==> r == Err(EnableHooks(old(document)).error)
    {
      if "features" !in document {
        document := document["features" := Table(map[])];
      }
      var features := document["features"];
      if !features.TableLike() {
        return Err(FeaturesNotTable);
      }
      var entries := features.Entries() - {"codex_hooks"};
      if !("hooks" in entries && entries["hooks"] == Boolean(true)) {
        entries := entries["hooks" := Boolean(true)];
      }
      assert entries == (features.Entries() - {"codex_hooks"})["hooks" := Boolean(true)];
      document := document["features" := features.With(entries)];
      r := Ok(());
    }

    method EnsureStopHook(command: string) returns (r: Result<(), ConfigError>)
      modifies this
      ensures Ensure(old(document), command).Ok? ==> r == Ok(()) && document == Ensure(old(document), command).value
      ensures Ensure(old(document), command).Err? ==> r == Err(Ensure(old(document), command).error)
    {
      r := EnableLifecycleHooks();
      if r.Err? || HasStopHook(document, command) {
        return;
      }
      var hooks := ItemOr(document, "hooks", Table(map[]));
      if !hooks.TableLike() {
        return Err(HooksNotTable);
      }
      var stop := ItemOr(hooks.Entries(), "Stop", ArrayOfTables([]));
      if !stop.ArrayOfTables? {
        return Err(StopNotArrayOfTables);
      }
      document := document["hooks" :=
        hooks.With(hooks.Entries()["Stop" := ArrayOfTables(stop.tables + [NewHook(command)])])];
    }
  }

  /** Command `j` of stop hook `i` runs the command. */
  predicate StopRunsAt(d: Document, i: nat, j: nat, command: string) {
    && "hooks" in d && d["hooks"].TableLike()
    && "Stop" in d["hooks"].Entries() && d["hooks"].Entries()["Stop"].ArrayOfTables?
    && i < |d["hooks"].Entries()["Stop"].tables|
    && var hook := d["hooks"].Entries()["Stop"].tables[i];
    && "hooks" in hook && hook["hooks"].ArrayOfTables? && j < |hook["hooks"].tables|
    && var entry := hook["hooks"].tables[j];
    && "type" in entry && entry["type"] == Text("command") && "command" in entry && entry["command"] == Text(command)
  }

  /** The stop scan says yes exactly when some entry of some stop hook runs the command. */
  lemma StopScanIsExact(d: Document, command: string)
    ensures HasStopHook(d, command) <==> exists i: nat, j: nat :: StopRunsAt(d, i, j, command)
  {
    if HasStopHook(d, command) {
      var hooks: seq<map<string, Toml>> := d["hooks"].Entries()["Stop"].tables;
      var i: nat :| i < |hooks| && HookRuns(hooks[i], command);
      var j: nat :| j < |hooks[i]["hooks"].tables| && RunsCommand(hooks[i]["hooks"].tables[j], command);
      assert StopRunsAt(d, i, j, command);
    }
    if i: nat, j: nat :| StopRunsAt(d, i, j, command) {
      var hooks: seq<map<string, Toml>> := d["hooks"].Entries()["Stop"].tables;
      assert RunsCommand(hooks[i]["hooks"].tables[j], command)
        && hooks[i]["hooks"].tables[j] in hooks[i]["hooks"].tables;
      assert HookRuns(hooks[i], command) && hooks[i] in hooks;
    }
  }

  /** The appended stop hook runs its command and nothing else, for at most ten seconds, and says what it does. */
  lemma NewHookRunsOnlyCommand(command: string)
    ensures var hook := NewHook(command);
      && HookRuns(hook, command) && hook.Keys == {"hooks"} && |hook["hooks"].tables| == 1
      && var entry := hook["hooks"].tables[0];
         && entry.Keys == {"type", "command", "timeout", "statusMessage"} && entry["timeout"] == Integer(10)
         && entry["statusMessage"] == Text("Forwarding completion to Agents Router")
  {
    var entry := NewHook(command)["hooks"].tables[0];
    assert "type"[0] == 't' && "type"[1] == 'y' && "timeout"[1] == 'i' && "command"[0] == 'c'
      && "statusMessage"[0] == 's';
    assert RunsCommand(entry, command);
  }

  lemma AppendedHookIsFound(d: Document, command: string)
    requires AppendStopHook(d, command).Ok?
    ensures HasStopHook(AppendStopHook(d, command).value, command)
  {
    var hook := NewHook(command);
    assert hook["hooks"].tables[0] in hook["hooks"].tables && RunsCommand(hook["hooks"].tables[0], command);
    assert HookRuns(hook, command);
    var tables := AppendStopHook(d, command).value["hooks"].Entries()["Stop"].tables;
    assert tables[|tables| - 1] == hook;
  }

  /** The two tables hold the same entries, except possibly those named. */
  ghost predicate SameExcept(before: map<string, Toml>, after: map<string, Toml>, names: set<string>) {
    forall k :: k !in names ==> (k in after <==> k in before) && (k in before ==> after[k] == before[k])
  }

  /** The old flag is gone, hooks are on, and nothing else in the document or in its feature table changed. */
  ghost predicate ExtendsDocument(d: Document, after: Document) {
    && SameExcept(d, after, {"features", "hooks"})
    && ItemOr(d, "features", Table(map[])).TableLike() && "features" in after && after["features"].TableLike()
    && SameExcept(ItemOr(d, "features", Table(map[])).Entries(), after["features"].Entries(), {"codex_hooks", "hooks"})
    && "codex_hooks" !in after["features"].Entries()
    && "hooks" in after["features"].Entries() && after["features"].Entries()["hooks"] == Boolean(true)
  }

  lemma EnsureEnablesHooks(d: Document, command: string)
    requires Ensure(d, command).Ok?
    ensures ExtendsDocument(d, Ensure(d, command).value)
  {
  }

  /** The old flag is gone, hooks are on, and the stop hook is there afterwards. If it was there before,
      the hook table is untouched; otherwise one entry is appended to the stop hooks and nothing else
      in the table changes. */
  lemma EnsureConfigures(d: Document, command: string)
    requires Ensure(d, command).Ok?
    ensures ExtendsDocument(d, Ensure(d, command).value)
    ensures var after := Ensure(d, command).value;
      && HasStopHook(after, command)
      && (HasStopHook(d, command) ==> after["hooks"] == d["hooks"])
      && (!HasStopHook(d, command) ==>
            var was := ItemOr(d, "hooks", Table(map[]));
            && was.TableLike() && SameExcept(was.Entries(), after["hooks"].Entries(), {"Stop"})
            && after["hooks"].Entries()["Stop"]
               == ArrayOfTables(ItemOr(was.Entries(), "Stop", ArrayOfTables([])).tables + [NewHook(command)]))
  {
    EnsureEnablesHooks(d, command);
    var enabled := EnableHooks(d).value;
    assert HasStopHook(enabled, command) <==> HasStopHook(d, command);
    if !HasStopHook(enabled, command) {
      AppendedHookIsFound(enabled, command);
    }
  }

  /** Configuring twice is configuring once. */
  lemma EnsureIsIdempotent(d: Document, command: string)
    requires Ensure(d, command).Ok?
    ensures Ensure(Ensure(d, command).value, command) == Ensure(d, command)
  {
    EnsureConfigures(d, command);
    var after := Ensure(d, command).value;
    var features := after["features"];
    assert features.Entries() - {"codex_hooks"} == features.Entries();
    assert features.Entries()["hooks" := Boolean(true)] == features.Entries();
    assert after["features" := features] == after;
  }
}
