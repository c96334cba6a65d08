/** The config edits of `fleet init`, on parsed trees: Claude's settings and Codex's
    config, each merged with whatever is there. */
module Inject {
  import opened Protocol

  // ------------------------------------------------------------ config trees

  datatype HookEvent =
    | SessionStart | UserPromptSubmit | PreToolUse | PostToolUse | Stop | SessionEnd | PermissionRequest

  /** Field names: the ones Fleet reads or writes, and any other. */
  datatype Field =
    | Hooks | Tags | Command | Kind | Description | Features | Tui | Notifications
    | OnEvent(event: HookEvent)
    | Named(text: string)

  datatype Tree =
    | Null
    | Bool(on: bool)
    | Text(text: string)
    | List(items: seq<Tree>)
    | Table(fields: map<Field, Tree>)

  type Fields = map<Field, Tree>

  function Get(t: Tree, f: Field): Option<Tree> {
    if t.Table? && f in t.fields then Some(t.fields[f]) else None
  }

  function GetList(t: Tree, f: Field): Option<seq<Tree>> {
    var v := Get(t, f);
    if v.Some? && v.value.List? then Some(v.value.items) else None
  }

  // ------------------------------------------------------- Claude settings

  const FLEET_MARKER := "fleet-managed"

  const CLAUDE_EVENTS := [Stop, UserPromptSubmit, PreToolUse, SessionStart, SessionEnd]

  function EventName(event: HookEvent): string {
    match event
    case SessionStart => "SessionStart"
    case UserPromptSubmit => "UserPromptSubmit"
    case PreToolUse => "PreToolUse"
    case PostToolUse => "PostToolUse"
    case Stop => "Stop"
    case SessionEnd => "SessionEnd"
    case PermissionRequest => "PermissionRequest"
  }

  /** One relay hook; the relay text depends on the reporter socket. */
  function ClaudeEntry(event: HookEvent, relay: string): Tree {
    Table(map[Kind := Text("command"), Command := Text(relay),
              Description := Text("fleet: relay " + EventName(event) + " to reporter"),
              Tags := List([Text(FLEET_MARKER)])])
  }

  predicate IsTagged(entry: Tree) {
    var tags := GetList(entry, Tags);
    tags.Some? && Text(FLEET_MARKER) in tags.value
  }

  predicate HookHasFleet(hook: Tree) {
    var entries := GetList(hook, Hooks);
    entries.Some? && exists i :: 0 <= i < |entries.value| && IsTagged(entries.value[i])
  }

  predicate HasFleetHooks(settings: Tree) {
    var hooks := Get(settings, Hooks);
    hooks.Some? && hooks.value.Table? && exists f | f in hooks.value.fields :: HookHasFleet(hooks.value.fields[f])
  }

  /** The hook object an event carries, an empty one if it has none. */
  function HookFor(hooks: Fields, event: HookEvent): Tree {
    if OnEvent(event) in hooks then hooks[OnEvent(event)] else Table(map[])
  }

  /** The hook with Fleet's entry appended; a `hooks` that is not a list is left alone. */
  function WithEntry(hook: Tree, event: HookEvent, relay: string): Tree
    requires hook.Table?
  {
    var inner := if Hooks in hook.fields then hook.fields[Hooks] else List([]);
    Table(hook.fields[Hooks := if inner.List? then List(inner.items + [ClaudeEntry(event, relay)]) else inner])
  }

  /** The shape injection takes for granted: without it the code panics. */
  predicate ClaudeShape(settings: Tree) {
    && settings.Table?
    && (Hooks in settings.fields ==>
          && settings.fields[Hooks].Table?
          && forall e | e in CLAUDE_EVENTS :: HookFor(settings.fields[Hooks].fields, e).Table?)
  }

  function ClaudeHooks(settings: Tree): Fields
    requires ClaudeShape(settings)
  {
    if Hooks in settings.fields then settings.fields[Hooks].fields else map[]
  }

  function WithAllEntries(hooks: Fields, events: seq<HookEvent>, relay: string): Fields
    requires forall e | e in events :: HookFor(hooks, e).Table?
  {
    if events == [] then hooks
    else
      var n := |events| - 1;
      var before := WithAllEntries(hooks, events[..n], relay);
      var hook := HookFor(before, events[n]);
      if hook.Table? then before[OnEvent(events[n]) := WithEntry(hook, events[n], relay)] else before
  }

  /** `None` where the code panics; otherwise the settings and whether they were modified. */
  function InjectClaude(settings: Tree, relay: string): Option<(Tree, bool)> {
    if HasFleetHooks(settings) then Some((settings, false))
    else if !ClaudeShape(settings) then None
    else
      var hooks := Table(WithAllEntries(ClaudeHooks(settings), CLAUDE_EVENTS, relay));
      Some((Table(settings.fields[Hooks := hooks]), true))
  }

  lemma {:induction false} EntriesMeaning(hooks: Fields, events: seq<HookEvent>, relay: string)
    requires forall e | e in events :: HookFor(hooks, e).Table?
    requires forall i, j :: 0 <= i < j < |events| ==> events[i] != events[j]
    ensures var added := WithAllEntries(hooks, events, relay);
      && (forall e :: e in events ==>
            OnEvent(e) in added && added[OnEvent(e)] == WithEntry(HookFor(hooks, e), e, relay))
      && (forall e :: e !in events ==> HookFor(added, e) == HookFor(hooks, e))
      && (forall f :: f in added && !(f.OnEvent? && f.event in events) ==> f in hooks && added[f] == hooks[f])
      && (forall f :: f in hooks ==> f in added)
  {
    if events != [] {
      var n := |events| - 1;
      EntriesMeaning(hooks, events[..n], relay);
      assert events == events[..n] + [events[n]];
      assert events[n] !in events[..n];
    }
  }

  /** The two tables agree on every field but those of `except`. */
  ghost predicate SameBut(a: Fields, b: Fields, except: set<Field>) {
    forall f :: f !in except ==> (f in a <==> f in b) && (f in a ==> a[f] == b[f])
  }

  /** A hook of Fleet's: it runs the relay, says which event it is for, and carries the
      marker. */
  predicate RunsRelay(entry: Tree, event: string, relay: string) {
    entry == Table(map[Kind := Text("command"), Command := Text(relay),
                       Description := Text("fleet: relay " + event + " to reporter"),
                       Tags := List([Text("fleet-managed")])])
  }

  /** The list under a name, empty if there is nothing under it. */
  function ListUnder(t: Tree, f: Field): Tree {
    if t.Table? && f in t.fields then t.fields[f] else List([])
  }

  /** `after` is `before` with exactly one element more, the relay hook, at the end of its
      hook list; or with nothing more, if that is no list. */
  ghost predicate GainsRelay(before: Tree, after: Tree, event: string, relay: string) {
    && before.Table? && after.Table? && SameBut(before.fields, after.fields, {Hooks})
    && var was, now := ListUnder(before, Hooks), ListUnder(after, Hooks);
    if was.List? then
      && now.List? && |now.items| == |was.items| + 1 && was.items < now.items
      && RunsRelay(now.items[|was.items|], event, relay)
    else now == was
  }

  lemma WithEntryGains(hook: Tree, event: HookEvent, relay: string)
    requires hook.Table?
    ensures GainsRelay(hook, WithEntry(hook, event, relay), EventName(event), relay)
  {
  }

  function TableUnder(t: Tree, f: Field): Fields {
    if t.Table? && f in t.fields && t.fields[f].Table? then t.fields[f].fields else map[]
  }

  /** `after` is the user's settings with every hook of theirs in its place, the relay hook
      behind those of the five relayed events, and everything else as it was. */
  ghost predicate KeepsSettings(before: Tree, after: Tree, relay: string) {
    && before.Table? && after.Table? && SameBut(before.fields, after.fields, {Hooks})
    && Hooks in after.fields && after.fields[Hooks].Table?
    && var was, now := TableUnder(before, Hooks), TableUnder(after, Hooks);
    && SameBut(was, now, {OnEvent(Stop), OnEvent(UserPromptSubmit), OnEvent(PreToolUse), OnEvent(SessionStart),
                          OnEvent(SessionEnd)})
    && GainsRelay(HookFor(was, Stop), HookFor(now, Stop), "Stop", relay)
    && GainsRelay(HookFor(was, UserPromptSubmit), HookFor(now, UserPromptSubmit), "UserPromptSubmit", relay)
    && GainsRelay(HookFor(was, PreToolUse), HookFor(now, PreToolUse), "PreToolUse", relay)
    && GainsRelay(HookFor(was, SessionStart), HookFor(now, SessionStart), "SessionStart", relay)
    && GainsRelay(HookFor(was, SessionEnd), HookFor(now, SessionEnd), "SessionEnd", relay)
  }

  /** Read off the tree: the `j`-th tag of the `i`-th entry under the event `f` is the marker. */
  predicate MarkedAt(settings: Tree, f: Field, i: int, j: int) {
    && settings.Table? && Hooks in settings.fields && settings.fields[Hooks].Table?
    && f in settings.fields[Hooks].fields
    && var hook := settings.fields[Hooks].fields[f];
    && hook.Table? && Hooks in hook.fields && hook.fields[Hooks].List?
    && 0 <= i < |hook.fields[Hooks].items|
    && var entry := hook.fields[Hooks].items[i];
    && entry.Table? && Tags in entry.fields && entry.fields[Tags].List?
    && 0 <= j < |entry.fields[Tags].items| && entry.fields[Tags].items[j] == Text("fleet-managed")
  }

  lemma MarkersAreFound(settings: Tree)
    ensures HasFleetHooks(settings) <==> exists f, i, j :: MarkedAt(settings, f, i, j)
  {
    if HasFleetHooks(settings) {
      var hooks := settings.fields[Hooks].fields;
      var f :| f in hooks && HookHasFleet(hooks[f]);
      var entries := hooks[f].fields[Hooks].items;
      var i :| 0 <= i < |entries| && IsTagged(entries[i]);
      var j :| 0 <= j < |entries[i].fields[Tags].items| && entries[i].fields[Tags].items[j] == Text(FLEET_MARKER);
      assert MarkedAt(settings, f, i, j);
    }
    if f, i, j :| MarkedAt(settings, f, i, j) {
      var hook := settings.fields[Hooks].fields[f];
      assert IsTagged(hook.fields[Hooks].items[i]);
      assert HookHasFleet(hook);
    }
  }

  /** Injection keeps the user's settings; it leaves them alone, and says so, exactly if the
      marker is there already. */
  lemma InjectionKeepsHooks(settings: Tree, relay: string)
    requires InjectClaude(settings, relay).Some?
    ensures var (once, modified) := InjectClaude(settings, relay).value;
      && (if modified then KeepsSettings(settings, once, relay) else once == settings)
      && (modified <==> forall f, i, j :: !MarkedAt(settings, f, i, j))
  {
    MarkersAreFound(settings);
    hide WithAllEntries, WithEntry, GainsRelay, HasFleetHooks, SameBut, MarkedAt;
    if !HasFleetHooks(settings) {
      var was := ClaudeHooks(settings);
      FiveEvents();
      EachEventGains(was, relay);
      HooksReplaced(settings.fields, Table(WithAllEntries(was, CLAUDE_EVENTS, relay)));
    }
  }

  lemma HooksReplaced(fields: Fields, hooks: Tree)
    ensures SameBut(fields, fields[Hooks := hooks], {Hooks})
  {
  }

  lemma FiveEvents()
    ensures forall e :: e in CLAUDE_EVENTS <==>
      e in {Stop, UserPromptSubmit, PreToolUse, SessionStart, SessionEnd}
  {
    assert CLAUDE_EVENTS[0] == Stop && CLAUDE_EVENTS[1] == UserPromptSubmit && CLAUDE_EVENTS[2] == PreToolUse;
    assert CLAUDE_EVENTS[3] == SessionStart && CLAUDE_EVENTS[4] == SessionEnd;
  }

  lemma EachEventGains(was: Fields, relay: string)
    requires forall e | e in CLAUDE_EVENTS :: HookFor(was, e).Table?
    ensures var now := WithAllEntries(was, CLAUDE_EVENTS, relay);
      && SameBut(was, now, {OnEvent(Stop), OnEvent(UserPromptSubmit), OnEvent(PreToolUse), OnEvent(SessionStart),
                            OnEvent(SessionEnd)})
      && forall e | e in CLAUDE_EVENTS :: GainsRelay(HookFor(was, e), HookFor(now, e), EventName(e), relay)
  {
    hide WithAllEntries, WithEntry, GainsRelay, EventName;
    FiveEvents();
    EntriesMeaning(was, CLAUDE_EVENTS, relay);
    forall e | e in CLAUDE_EVENTS { WithEntryGains(HookFor(was, e), e, relay); }
  }

  method InjectClaudeHooks(settings: Tree, relay: string) returns (result: Option<(Tree, bool)>)
    ensures result == InjectClaude(settings, relay)
  {
    if HasFleetHooks(settings) {
      return Some((settings, false));
    }
    if !ClaudeShape(settings) {
      return None;
    }
    var hooks := ClaudeHooks(settings);
    ghost var start := hooks;
    for i := 0 to |CLAUDE_EVENTS|
      invariant hooks == WithAllEntries(start, CLAUDE_EVENTS[..i], relay)
    {
      assert CLAUDE_EVENTS[..i + 1][..i] == CLAUDE_EVENTS[..i];
      var hook := HookFor(hooks, CLAUDE_EVENTS[i]);
      if hook.Table? {
        hooks := hooks[OnEvent(CLAUDE_EVENTS[i]) := WithEntry(hook, CLAUDE_EVENTS[i], relay)];
      }
    }
    assert CLAUDE_EVENTS[..|CLAUDE_EVENTS|] == CLAUDE_EVENTS;
    result := Some((Table(settings.fields[Hooks := Table(hooks)]), true));
  }

  lemma EntryShows(hook: Tree, event: HookEvent, relay: string)
    requires hook.Table?
    ensures var with' := WithEntry(hook, event, relay);
      if Hooks in hook.fields && !hook.fields[Hooks].List? then with' == hook else HookHasFleet(with')
  {
    var with' := WithEntry(hook, event, relay);
    if Hooks in hook.fields && !hook.fields[Hooks].List? {
      assert with'.fields == hook.fields;
    } else {
      var items := with'.fields[Hooks].items;
      assert IsTagged(items[|items| - 1]);
    }
  }

  /** If no marker shows after appending, nothing could be appended anywhere, and
      appending again, whatever the relay, does nothing either. */
  lemma UnmarkedMeansUntouched(start: Fields, relay: string, again: string)
    requires forall e | e in CLAUDE_EVENTS :: HookFor(start, e).Table?
    requires var added := WithAllEntries(start, CLAUDE_EVENTS, relay);
      forall f :: f in added ==> !HookHasFleet(added[f])
    ensures var added := WithAllEntries(start, CLAUDE_EVENTS, relay);
      && (forall e | e in CLAUDE_EVENTS :: HookFor(added, e).Table?)
      && WithAllEntries(added, CLAUDE_EVENTS, again) == added
  {
    hide WithAllEntries, WithEntry, HookHasFleet;
    var added := WithAllEntries(start, CLAUDE_EVENTS, relay);
    EntriesMeaning(start, CLAUDE_EVENTS, relay);
    forall e | e in CLAUDE_EVENTS
      ensures HookFor(added, e).Table? && WithEntry(HookFor(added, e), e, again) == added[OnEvent(e)] {
      EntryShows(HookFor(start, e), e, relay);
      EntryShows(HookFor(added, e), e, again);
    }
    EntriesMeaning(added, CLAUDE_EVENTS, again);
    assert WithAllEntries(added, CLAUDE_EVENTS, again) == added;
  }

  /** Injecting twice is injecting once, even if the relay changed in between: either
      the marker is found, or nothing could be appended and the tree is unchanged. */
  lemma InjectClaudeTwice(settings: Tree, relay: string, again: string)
    requires InjectClaude(settings, relay).Some?
    ensures var once := InjectClaude(settings, relay).value.0;
      InjectClaude(once, again).Some? && InjectClaude(once, again).value.0 == once
  {
    var once := InjectClaude(settings, relay).value.0;
    if !HasFleetHooks(settings) && !HasFleetHooks(once) {
      var hooks := WithAllEntries(ClaudeHooks(settings), CLAUDE_EVENTS, relay);
      assert Get(once, Hooks) == Some(Table(hooks));
      UnmarkedMeansUntouched(ClaudeHooks(settings), relay, again);
      assert ClaudeHooks(once) == hooks;
      assert once.fields[Hooks := Table(hooks)] == once.fields;
    }
  }

  /** Whether injection goes through, and whether it modifies, does not depend on the
      relay. */
  lemma RelayDoesNotDecide(settings: Tree, relay: string, again: string)
    ensures InjectClaude(settings, relay).None? <==> InjectClaude(settings, again).None?
    ensures InjectClaude(settings, relay).Some? ==>
        InjectClaude(settings, relay).value.1 == InjectClaude(settings, again).value.1
  {
    hide WithAllEntries;
  }

  /** A fresh file ends up marked, so a second run leaves it alone. */
  lemma FreshClaudeIsMarked(relay: string)
    ensures var once := InjectClaude(Table(map[]), relay);
      once.Some? && once.value.1 && HasFleetHooks(once.value.0)
  {
    hide WithAllEntries, WithEntry, HookHasFleet;
    EntriesMeaning(map[], CLAUDE_EVENTS, relay);
    EntryShows(Table(map[]), Stop, relay);
    var hooks := WithAllEntries(map[], CLAUDE_EVENTS, relay);
    assert Stop in CLAUDE_EVENTS;
    assert HookHasFleet(hooks[OnEvent(Stop)]);
  }

  // ---------------------------------------------------------- Codex config

  const CODEX_MARKER := "fleet-managed-codex-hook"

  const CODEX_RELAY_PREFIX :=
    "printf 'codex %s\\n' \"$(cat | tr -d '\\r\\n')\" | nc -U \"$FLEET_REPORTER_SOCKET\" 2>/dev/null || true # "

  const CODEX_EVENTS := [SessionStart, UserPromptSubmit, PreToolUse, PostToolUse, Stop, SessionEnd, PermissionRequest]

  predicate Contains(text: string, part: string) {
    exists i :: 0 <= i <= |text| && part <= text[i..]
  }

  function CodexGroup(): Tree {
    Table(map[Hooks := List([Table(map[Kind := Text("command"), Command := Text(CODEX_RELAY_PREFIX + CODEX_MARKER)])])])
  }

  predicate IsFleetCommand(hook: Tree) {
    var c := Get(hook, Command);
    c.Some? && c.value.Text? && Contains(c.value.text, CODEX_MARKER)
  }

  predicate GroupHasFleet(group: Tree) {
    var hooks := GetList(group, Hooks);
    hooks.Some? && exists i :: 0 <= i < |hooks.value| && IsFleetCommand(hooks.value[i])
  }

  predicate GroupsHaveFleet(groups: seq<Tree>) {
    exists i :: 0 <= i < |groups| && GroupHasFleet(groups[i])
  }

  function SectionOf(config: Fields, section: Field): Tree {
    if section in config then config[section] else Table(map[])
  }

  function SwitchedOn(held: Tree, key: Field): Tree {
    if held.Table? then Table(held.fields[key := Bool(true)]) else held
  }

  predicate IsOff(held: Tree, key: Field) {
    held.Table? && Get(held, key) != Some(Bool(true))
  }

  /** Switch a flag on in a named section; a section that is not a table is left alone. */
  function WithSwitch(config: Fields, section: Field, key: Field): Fields {
    config[section := SwitchedOn(SectionOf(config, section), key)]
  }

  predicate SwitchIsOff(config: Fields, section: Field, key: Field) {
    IsOff(SectionOf(config, section), key)
  }

  function GroupsFor(hooks: Fields, event: HookEvent): Tree {
    if OnEvent(event) in hooks then hooks[OnEvent(event)] else List([])
  }

  predicate LacksFleet(hooks: Fields, event: HookEvent) {
    GroupsFor(hooks, event).List? && !GroupsHaveFleet(GroupsFor(hooks, event).items)
  }

  function WithGroup(hooks: Fields, event: HookEvent): Fields {
    var groups := GroupsFor(hooks, event);
    hooks[OnEvent(event) := if LacksFleet(hooks, event) then List(groups.items + [CodexGroup()]) else groups]
  }

  function WithGroups(hooks: Fields, events: seq<HookEvent>): Fields {
    if events == [] then hooks else WithGroup(WithGroups(hooks, events[..|events| - 1]), events[|events| - 1])
  }

  predicate AnyLacksFleet(hooks: Fields, events: seq<HookEvent>) {
    exists e | e in events :: LacksFleet(hooks, e)
  }

  function WithHookGroups(config: Fields): Fields {
    var held := SectionOf(config, Hooks);
    config[Hooks := if held.Table? then Table(WithGroups(held.fields, CODEX_EVENTS)) else held]
  }

  predicate HooksIncomplete(config: Fields) {
    var held := SectionOf(config, Hooks);
    held.Table? && AnyLacksFleet(held.fields, CODEX_EVENTS)
  }

  /** The three edits in order, and whether any of them modified the table. */
  function InjectCodex(config: Fields): (Fields, bool) {
    var c1 := WithSwitch(config, Features, Hooks);
    var c2 := WithSwitch(c1, Tui, Notifications);
    (WithHookGroups(c2),
     SwitchIsOff(config, Features, Hooks) || SwitchIsOff(c1, Tui, Notifications) || HooksIncomplete(c2))
  }

  /** Fleet's group: one command hook, whose text carries the marker. */
  predicate IsRelayGroup(group: Tree) {
    group == Table(map[Hooks := List([Table(map[
      Kind := Text("command"), Command := Text(CODEX_RELAY_PREFIX + "fleet-managed-codex-hook")])])])
  }

  /** Read off the list: the `j`-th hook of the `i`-th group runs a command with the marker
      in it, at `n`. */
  predicate RelayedAt(groups: seq<Tree>, i: int, j: int, n: int) {
    && 0 <= i < |groups| && groups[i].Table? && Hooks in groups[i].fields && groups[i].fields[Hooks].List?
    && 0 <= j < |groups[i].fields[Hooks].items|
    && var hook := groups[i].fields[Hooks].items[j];
    && hook.Table? && Command in hook.fields && hook.fields[Command].Text?
    && 0 <= n <= |hook.fields[Command].text| && "fleet-managed-codex-hook" <= hook.fields[Command].text[n..]
  }

  lemma RelaysAreFound(groups: seq<Tree>)
    ensures GroupsHaveFleet(groups) <==> exists i, j, n :: RelayedAt(groups, i, j, n)
  {
    if GroupsHaveFleet(groups) {
      var i :| 0 <= i < |groups| && GroupHasFleet(groups[i]);
      var hooks := groups[i].fields[Hooks].items;
      var j :| 0 <= j < |hooks| && IsFleetCommand(hooks[j]);
      var text := hooks[j].fields[Command].text;
      var n :| 0 <= n <= |text| && CODEX_MARKER <= text[n..];
      assert RelayedAt(groups, i, j, n);
    }
    if i, j, n :| RelayedAt(groups, i, j, n) {
      var hook := groups[i].fields[Hooks].items[j];
      assert Contains(hook.fields[Command].text, CODEX_MARKER);
      assert IsFleetCommand(hook);
      assert GroupHasFleet(groups[i]);
    }
  }

  /** `after` is `before` with exactly one group more, Fleet's, at the end; or with nothing
      more, if Fleet's is there already or `before` is no list. */
  ghost predicate GainsGroup(before: Tree, after: Tree) {
    if before.List? && forall i, j, n :: !RelayedAt(before.items, i, j, n) then
      && after.List? && |after.items| == |before.items| + 1 && before.items < after.items
      && IsRelayGroup(after.items[|before.items|])
    else after == before
  }

  lemma WithGroupGains(hooks: Fields, event: HookEvent)
    ensures GainsGroup(GroupsFor(hooks, event), GroupsFor(WithGroup(hooks, event), event))
  {
    if GroupsFor(hooks, event).List? { RelaysAreFound(GroupsFor(hooks, event).items); }
    hide GroupsHaveFleet, RelayedAt;
  }

  lemma {:induction false} GroupsMeaning(hooks: Fields, events: seq<HookEvent>)
    requires forall i, j :: 0 <= i < j < |events| ==> events[i] != events[j]
    ensures var added := WithGroups(hooks, events);
      && (forall e :: e in events ==>
            OnEvent(e) in added && !LacksFleet(added, e) && GainsGroup(GroupsFor(hooks, e), added[OnEvent(e)]))
      && (forall e :: e !in events ==> GroupsFor(added, e) == GroupsFor(hooks, e))
      && (forall e :: e in events && !LacksFleet(hooks, e) ==> added[OnEvent(e)] == GroupsFor(hooks, e))
      && (forall f :: f in added && !(f.OnEvent? && f.event in events) ==> f in hooks && added[f] == hooks[f])
      && (forall f :: f in hooks ==> f in added)
  {
    hide GroupsHaveFleet, CodexGroup, GainsGroup;
    if events != [] {
      var n := |events| - 1;
      var before := WithGroups(hooks, events[..n]);
      GroupsMeaning(hooks, events[..n]);
      assert events == events[..n] + [events[n]];
      assert events[n] !in events[..n];
      GroupAdded(before, events[n]);
      WithGroupGains(before, events[n]);
    }
  }

  lemma GroupAdded(hooks: Fields, event: HookEvent)
    ensures !LacksFleet(WithGroup(hooks, event), event)
  {
    if LacksFleet(hooks, event) {
      var items := WithGroup(hooks, event)[OnEvent(event)].items;
      FleetGroupIsMarked();
      assert GroupHasFleet(items[|items| - 1]);
    }
  }

  lemma FleetGroupIsMarked()
    ensures GroupHasFleet(CodexGroup())
  {
    var text := CODEX_RELAY_PREFIX + CODEX_MARKER;
    assert text[|CODEX_RELAY_PREFIX|..] == CODEX_MARKER;
    assert Contains(text, CODEX_MARKER);
    var hooks := CodexGroup().fields[Hooks].items;
    assert IsFleetCommand(hooks[0]);
  }

  lemma SevenEvents()
    ensures forall e: HookEvent :: e in CODEX_EVENTS
    ensures forall i, j :: 0 <= i < j < |CODEX_EVENTS| ==> CODEX_EVENTS[i] != CODEX_EVENTS[j]
  {
    assert CODEX_EVENTS[0] == SessionStart && CODEX_EVENTS[1] == UserPromptSubmit && CODEX_EVENTS[2] == PreToolUse;
    assert CODEX_EVENTS[3] == PostToolUse && CODEX_EVENTS[4] == Stop && CODEX_EVENTS[5] == SessionEnd;
    assert CODEX_EVENTS[6] == PermissionRequest;
    forall e: HookEvent ensures e in CODEX_EVENTS {
      match e case SessionStart => case UserPromptSubmit => case PreToolUse => case PostToolUse =>
      case Stop => case SessionEnd => case PermissionRequest =>
    }
  }

  /** A section with one flag switched on; a section that is no table is left alone. */
  ghost predicate TurnedOn(before: Tree, after: Tree, key: Field) {
    if before.Table? then
      && after.Table? && SameBut(before.fields, after.fields, {key})
      && key in after.fields && after.fields[key] == Bool(true)
    else after == before
  }

  /** Fleet's group behind the groups of every hook event, and every other field kept. */
  ghost predicate HooksGain(before: Tree, after: Tree) {
    if before.Table? then
      && after.Table?
      && (forall e: HookEvent ::
            OnEvent(e) in after.fields && GainsGroup(GroupsFor(before.fields, e), after.fields[OnEvent(e)]))
      && (forall f: Field :: !f.OnEvent? ==>
            (f in after.fields <==> f in before.fields) && (f in before.fields ==> after.fields[f] == before.fields[f]))
    else after == before
  }

  /** `after` is the user's Codex config with the two flags on, every hook group of theirs in
      its place with Fleet's behind, and everything else as it was. */
  ghost predicate KeepsConfig(before: Fields, after: Fields) {
    && SameBut(before, after, {Features, Tui, Hooks}) && {Features, Tui, Hooks} <= after.Keys
    && TurnedOn(SectionOf(before, Features), after[Features], Hooks)
    && TurnedOn(SectionOf(before, Tui), after[Tui], Notifications)
    && HooksGain(SectionOf(before, Hooks), after[Hooks])
  }

  lemma CodexKeepsGroups(config: Fields)
    ensures KeepsConfig(config, InjectCodex(config).0)
  {
    hide WithGroups, GainsGroup, GroupsHaveFleet;
    SevenEvents();
    var held := SectionOf(config, Hooks);
    if held.Table? { GroupsMeaning(held.fields, CODEX_EVENTS); }
  }

  lemma SwitchedOnTwice(held: Tree, key: Field)
    ensures SwitchedOn(SwitchedOn(held, key), key) == SwitchedOn(held, key) && !IsOff(SwitchedOn(held, key), key)
    ensures !IsOff(held, key) ==> SwitchedOn(held, key) == held
  {
    if held.Table? && Get(held, key) == Some(Bool(true)) {
      assert held.fields[key := Bool(true)] == held.fields;
    }
  }

  lemma SwitchedTwice(config: Fields, section: Field, key: Field)
    ensures var once := WithSwitch(config, section, key);
      WithSwitch(once, section, key) == once && !SwitchIsOff(once, section, key)
  {
    SwitchedOnTwice(SectionOf(config, section), key);
  }

  lemma GroupedTwice(config: Fields)
    ensures var once := WithHookGroups(config); WithHookGroups(once) == once && !HooksIncomplete(once)
  {
    hide GainsGroup, GroupsHaveFleet, WithGroups;
    SevenEvents();
    var held := SectionOf(config, Hooks);
    if held.Table? {
      GroupsMeaning(held.fields, CODEX_EVENTS);
      var added := WithGroups(held.fields, CODEX_EVENTS);
      GroupsMeaning(added, CODEX_EVENTS);
      assert WithGroups(added, CODEX_EVENTS) == added;
    }
  }

  /** Injecting the Codex config twice is injecting it once, and says so. */
  lemma InjectCodexTwice(config: Fields)
    ensures InjectCodex(InjectCodex(config).0) == (InjectCodex(config).0, false)
  {
    var c1 := WithSwitch(config, Features, Hooks);
    var c2 := WithSwitch(c1, Tui, Notifications);
    var c3 := WithHookGroups(c2);
    SwitchedTwice(config, Features, Hooks);
    SwitchedTwice(c1, Tui, Notifications);
    GroupedTwice(c2);
    assert c3[Features] == c2[Features] == c1[Features] && c3[Tui] == c2[Tui];
    assert WithSwitch(c3, Features, Hooks) == c3;
    assert WithSwitch(c3, Tui, Notifications) == c3;
  }

  lemma OnIsUnchanged(config: Fields, section: Field, key: Field)
    requires !SwitchIsOff(config, section, key)
    ensures WithSwitch(config, section, key) == config
  {
    SwitchedOnTwice(SectionOf(config, section), key);
  }

  lemma CompleteIsUnchanged(config: Fields)
    requires !HooksIncomplete(config)
    ensures WithHookGroups(config) == config
  {
    var held := SectionOf(config, Hooks);
    hide GainsGroup, WithGroups;
    SevenEvents();
    if held.Table? {
      forall e: HookEvent ensures !LacksFleet(held.fields, e) && OnEvent(e) in held.fields {
        assert e in CODEX_EVENTS;
        assert !LacksFleet(held.fields, e);
      }
      hide LacksFleet;
      GroupsMeaning(held.fields, CODEX_EVENTS);
      assert WithGroups(held.fields, CODEX_EVENTS) == held.fields;
      assert Hooks in config by { assert OnEvent(Stop) in held.fields; }
    }
  }

  /** The answer is exact: modified if and only if the table is another one. */
  lemma CodexAnswerIsExact(config: Fields)
    ensures InjectCodex(config).1 <==> InjectCodex(config).0 != config
  {
    hide WithSwitch, SwitchIsOff, WithHookGroups, HooksIncomplete;
    InjectCodexTwice(config);
    if !InjectCodex(config).1 {
      OnIsUnchanged(config, Features, Hooks);
      OnIsUnchanged(config, Tui, Notifications);
      CompleteIsUnchanged(config);
    }
  }

  lemma AnyLacksSnoc(hooks: Fields, events: seq<HookEvent>, event: HookEvent)
    ensures AnyLacksFleet(hooks, events + [event]) <==> AnyLacksFleet(hooks, events) || LacksFleet(hooks, event)
  {
    if LacksFleet(hooks, event) { assert event in events + [event]; }
    if e :| e in events && LacksFleet(hooks, e) { assert e in events + [event]; }
  }

  /** One round of the loop: whether an event lacks Fleet's group does not depend on
      the groups already added for the others. */
  lemma GroupStep(hooks: Fields, i: nat)
    requires i < |CODEX_EVENTS|
    ensures var done, more, event := CODEX_EVENTS[..i], CODEX_EVENTS[..i + 1], CODEX_EVENTS[i];
      && WithGroups(hooks, more) == WithGroup(WithGroups(hooks, done), event)
      && LacksFleet(WithGroups(hooks, done), event) == LacksFleet(hooks, event)
      && (AnyLacksFleet(hooks, more) <==> AnyLacksFleet(hooks, done) || LacksFleet(hooks, event))
  {
    SevenEvents();
    OneEventMore(hooks, CODEX_EVENTS, i);
  }

  lemma OneEventMore(hooks: Fields, events: seq<HookEvent>, i: nat)
    requires i < |events| && forall j, k :: 0 <= j < k < |events| ==> events[j] != events[k]
    ensures var done, more, event := events[..i], events[..i + 1], events[i];
      && WithGroups(hooks, more) == WithGroup(WithGroups(hooks, done), event)
      && LacksFleet(WithGroups(hooks, done), event) == LacksFleet(hooks, event)
      && (AnyLacksFleet(hooks, more) <==> AnyLacksFleet(hooks, done) || LacksFleet(hooks, event))
  {
    hide AnyLacksFleet, GroupsHaveFleet, WithGroup, GainsGroup;
    var done, event := events[..i], events[i];
    GroupsMeaning(hooks, done);
    AnyLacksSnoc(hooks, done, event);
    assert events[..i + 1] == done + [event] && events[..i + 1][..i] == done && event !in done;
  }

  method AddHookGroups(held: Fields) returns (hooks: Fields, modified: bool)
    ensures hooks == WithGroups(held, CODEX_EVENTS)
    ensures modified == AnyLacksFleet(held, CODEX_EVENTS)
  {
    hide LacksFleet, WithGroup;
    hooks, modified := held, false;
    for i := 0 to |CODEX_EVENTS|
      invariant hooks == WithGroups(held, CODEX_EVENTS[..i])
      invariant modified == AnyLacksFleet(held, CODEX_EVENTS[..i])
    {
      GroupStep(held, i);
      if LacksFleet(hooks, CODEX_EVENTS[i]) {
        modified := true;
      }
      hooks := WithGroup(hooks, CODEX_EVENTS[i]);
    }
    assert CODEX_EVENTS[..|CODEX_EVENTS|] == CODEX_EVENTS;
  }

  method InjectCodexConfig(config: Fields) returns (edited: Fields, modified: bool)
    ensures (edited, modified) == InjectCodex(config)
  {
    modified := SwitchIsOff(config, Features, Hooks);
    edited := WithSwitch(config, Features, Hooks);
    modified := modified || SwitchIsOff(edited, Tui, Notifications);
    edited := WithSwitch(edited, Tui, Notifications);
    var held := SectionOf(edited, Hooks);
    if held.Table? {
      var hooks, added := AddHookGroups(held.fields);
      modified := modified || added;
      edited := edited[Hooks := Table(hooks)];
    } else {
      edited := edited[Hooks := held];
    }
  }
}
