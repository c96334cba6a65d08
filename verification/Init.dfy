/** `fleet init` and `fleet uninit` over a map-valued file tree. Config text is a parsed
    tree together with its layout, so "byte-identical" means the same tree in the same
    layout. */
module Init {
  import opened Protocol
  import opened Inject

  datatype Tool = Claude | Codex

  /** The files the two commands touch, and any other. */
  datatype Path = ConfigFile(tool: Tool) | BackupFile(tool: Tool) | ManifestFile | OtherFile(name: string)

  datatype Entry = Entry(target: Path, backup: Option<Path>)

  datatype Content =
    | JsonText(layout: string, tree: Tree)
    | TomlText(layout: string, table: Fields)
    | ManifestText(entries: seq<Entry>)
    | Bytes(raw: string)

  type Files = map<Path, Content>

  const PRETTY := "pretty"

  /** Parsing either config, an absent one counting as empty. */
  function ClaudeTree(files: Files): Option<Tree> {
    if ConfigFile(Claude) !in files then Some(Table(map[]))
    else if files[ConfigFile(Claude)].JsonText? then Some(files[ConfigFile(Claude)].tree) else None
  }

  function CodexTable(files: Files): Option<Fields> {
    if ConfigFile(Codex) !in files then Some(map[])
    else if files[ConfigFile(Codex)].TomlText? then Some(files[ConfigFile(Codex)].table) else None
  }

  function LoadManifest(files: Files): Option<seq<Entry>> {
    if ManifestFile !in files then Some([])
    else if files[ManifestFile].ManifestText? then Some(files[ManifestFile].entries) else None
  }

  /** Keep the first pre-Fleet state; an absent target has nothing to keep. */
  function BackedUp(files: Files, tool: Tool): Files {
    if ConfigFile(tool) in files && BackupFile(tool) !in files then files[BackupFile(tool) := files[ConfigFile(tool)]]
    else files
  }

  predicate Listed(entries: seq<Entry>, tool: Tool) {
    exists i :: 0 <= i < |entries| && entries[i].target == ConfigFile(tool)
  }

  function EntryFor(files: Files, tool: Tool): Entry {
    Entry(ConfigFile(tool), if ConfigFile(tool) in files then Some(BackupFile(tool)) else None)
  }

  function Recorded(entries: seq<Entry>, files: Files, tool: Tool): seq<Entry> {
    if Listed(entries, tool) then entries else entries + [EntryFor(files, tool)]
  }

  /** One config's step: the files and the manifest after it, and whether it wrote. */
  datatype Progress = Progress(files: Files, entries: seq<Entry>, modified: bool)

  function Rewrite(files: Files, entries: seq<Entry>, tool: Tool, content: Content): Progress {
    Progress(BackedUp(files, tool)[ConfigFile(tool) := content], Recorded(entries, files, tool), true)
  }

  /** `None` where parsing or the assumed shape fails. */
  function ClaudeStep(files: Files, entries: seq<Entry>, relay: string): Option<Progress> {
    var tree := ClaudeTree(files);
    if tree.None? then None
    else
      var injected := InjectClaude(tree.value, relay);
      if injected.None? then None
      else if !injected.value.1 then Some(Progress(files, entries, false))
      else Some(Rewrite(files, entries, Claude, JsonText(PRETTY, injected.value.0)))
  }

  function CodexStep(files: Files, entries: seq<Entry>): Option<Progress> {
    var table := CodexTable(files);
    if table.None? then None
    else
      var (edited, modified) := InjectCodex(table.value);
      if !modified then Some(Progress(files, entries, false))
      else Some(Rewrite(files, entries, Codex, TomlText(PRETTY, edited)))
  }

  datatype InitResult = InitResult(files: Files, ok: bool)

  /** `do_init`: the manifest is written last, and only if both configs went through. */
  function DoInit(files: Files, relay: string): InitResult {
    var entries := LoadManifest(files);
    if entries.None? then InitResult(files, false)
    else
      var claude := ClaudeStep(files, entries.value, relay);
      if claude.None? then InitResult(files, false)
      else
        var codex := CodexStep(claude.value.files, claude.value.entries);
        if codex.None? then InitResult(claude.value.files, false)
        else if claude.value.modified || codex.value.modified then
          InitResult(codex.value.files[ManifestFile := ManifestText(codex.value.entries)], true)
        else InitResult(codex.value.files, true)
  }

  /** Running init once per relay; the reporter socket may move between runs. */
  function InitTimes(files: Files, relays: seq<string>): Files {
    if relays == [] then files
    else DoInit(InitTimes(files, relays[..|relays| - 1]), relays[|relays| - 1]).files
  }

  /** The directories the commands may create. */
  datatype Dir = ToolDir(tool: Tool) | ConfigRoot | FleetDir

  /** The directories one init makes sure of: each config's own before it is read, and
      the manifest's when something was written. */
  function NeededDirs(files: Files, relay: string): set<Dir> {
    var entries := LoadManifest(files);
    if entries.None? then {}
    else
      var claude := ClaudeStep(files, entries.value, relay);
      if claude.None? then {ToolDir(Claude)}
      else
        var codex := CodexStep(claude.value.files, claude.value.entries);
        {ToolDir(Claude), ToolDir(Codex)}
          + (if codex.Some? && (claude.value.modified || codex.value.modified) then {ConfigRoot, FleetDir} else {})
  }

  /** The directories after the same runs; uninit removes none. */
  function DirsTimes(files: Files, dirs: set<Dir>, relays: seq<string>): set<Dir> {
    if relays == [] then dirs
    else
      var n := |relays| - 1;
      DirsTimes(files, dirs, relays[..n]) + NeededDirs(InitTimes(files, relays[..n]), relays[n])
  }

  /** Undo one manifest entry. */
  function Undone(files: Files, e: Entry): Files {
    if e.backup.Some? && e.backup.value in files then
      files[e.target := files[e.backup.value]] - {e.backup.value}
    else files - {e.target}
  }

  function AllUndone(files: Files, entries: seq<Entry>): Files {
    if entries == [] then files else Undone(AllUndone(files, entries[..|entries| - 1]), entries[|entries| - 1])
  }

  function DoUninit(files: Files): Files {
    var entries := LoadManifest(files);
    if entries.None? then files else AllUndone(files, entries.value) - {ManifestFile}
  }

  // ----------------------------------------------------- step-by-step form

  class FileTree {
    var files: Files
    var dirs: set<Dir>

    constructor (files: Files, dirs: set<Dir>)
      ensures this.files == files && this.dirs == dirs
    {
      this.files, this.dirs := files, dirs;
    }

    method MaybeBackup(tool: Tool) returns (backup: Option<Path>)
      modifies this`files
      ensures files == BackedUp(old(files), tool)
      ensures backup == EntryFor(old(files), tool).backup
    {
      if ConfigFile(tool) !in files {
        return None;
      }
      if BackupFile(tool) !in files {
        files := files[BackupFile(tool) := files[ConfigFile(tool)]];
      }
      backup := Some(BackupFile(tool));
    }

    method RewriteConfig(entries: seq<Entry>, tool: Tool, content: Content) returns (recorded: seq<Entry>)
      modifies this`files
      ensures Progress(files, recorded, true) == Rewrite(old(files), entries, tool, content)
    {
      var backup := MaybeBackup(tool);
      files := files[ConfigFile(tool) := content];
      recorded := if Listed(entries, tool) then entries else entries + [Entry(ConfigFile(tool), backup)];
    }

    method Init(relay: string) returns (ok: bool)
      modifies this
      ensures InitResult(files, ok) == DoInit(old(files), relay)
      ensures dirs == old(dirs) + NeededDirs(old(files), relay)
    {
      hide BackedUp, Recorded, InjectClaude, InjectCodex;
      var loaded := LoadManifest(files);
      if loaded.None? {
        return false;
      }
      var entries := loaded.value;
      var modified := false;
      dirs := dirs + {ToolDir(Claude)};
      var tree := ClaudeTree(files);
      if tree.None? {
        return false;
      }
      var injected := InjectClaudeHooks(tree.value, relay);
      if injected.None? {
        return false;
      }
      if injected.value.1 {
        entries := RewriteConfig(entries, Claude, JsonText(PRETTY, injected.value.0));
        modified := true;
      }
      dirs := dirs + {ToolDir(Codex)};
      var table := CodexTable(files);
      if table.None? {
        return false;
      }
      var edited, changed := InjectCodexConfig(table.value);
      if changed {
        entries := RewriteConfig(entries, Codex, TomlText(PRETTY, edited));
        modified := true;
      }
      if modified {
        dirs := dirs + {ConfigRoot, FleetDir};
        files := files[ManifestFile := ManifestText(entries)];
      }
      ok := true;
    }

    method Uninit()
      modifies this`files
      ensures files == DoUninit(old(files))
    {
      var loaded := LoadManifest(files);
      if loaded.None? {
        return;
      }
      var entries := loaded.value;
      ghost var start := files;
      for i := 0 to |entries|
        invariant files == AllUndone(start, entries[..i])
      {
        assert entries[..i + 1][..i] == entries[..i];
        var e := entries[i];
        if e.backup.Some? && e.backup.value in files {
          files := files[e.target := files[e.backup.value]];
          files := files - {e.backup.value};
        } else {
          files := files - {e.target};
        }
      }
      assert entries[..|entries|] == entries;
      files := files - {ManifestFile};
    }
  }

  // ------------------------------------------------ what init does to files

  predicate Untouched(f: Files, g: Files, path: Path) {
    (path in f <==> path in g) && (path in f ==> f[path] == g[path])
  }

  predicate SameConfig(f: Files, g: Files, tool: Tool) {
    Untouched(f, g, ConfigFile(tool)) && Untouched(f, g, BackupFile(tool))
  }

  /** The first content ever replaced is in the backup. */
  predicate KeptBehind(f: Files, g: Files, tool: Tool) {
    if ConfigFile(tool) in f && BackupFile(tool) !in f then
      BackupFile(tool) in g && g[BackupFile(tool)] == f[ConfigFile(tool)]
    else Untouched(f, g, BackupFile(tool))
  }

  /** The config and its backup are the same, absence included; or the config is rewritten,
      keeps what was the user's, and is kept behind. */
  ghost predicate ClaudeKept(f: Files, g: Files, relay: string) {
    || SameConfig(f, g, Claude)
    || (&& KeptBehind(f, g, Claude) && ConfigFile(Claude) in g && g[ConfigFile(Claude)].JsonText?
        && (ConfigFile(Claude) in f ==>
              && f[ConfigFile(Claude)].JsonText?
              && KeepsSettings(f[ConfigFile(Claude)].tree, g[ConfigFile(Claude)].tree, relay))
        && (ConfigFile(Claude) !in f ==> KeepsSettings(Table(map[]), g[ConfigFile(Claude)].tree, relay)))
  }

  ghost predicate CodexKept(f: Files, g: Files) {
    || SameConfig(f, g, Codex)
    || (&& KeptBehind(f, g, Codex) && ConfigFile(Codex) in g && g[ConfigFile(Codex)].TomlText?
        && (ConfigFile(Codex) in f ==>
              f[ConfigFile(Codex)].TomlText? && KeepsConfig(f[ConfigFile(Codex)].table, g[ConfigFile(Codex)].table))
        && (ConfigFile(Codex) !in f ==> KeepsConfig(map[], g[ConfigFile(Codex)].table)))
  }

  lemma ClaudeStepKeeps(f: Files, entries: seq<Entry>, relay: string)
    requires ClaudeStep(f, entries, relay).Some?
    ensures var g := ClaudeStep(f, entries, relay).value.files;
      && ClaudeKept(f, g, relay)
      && forall path :: path != ConfigFile(Claude) && path != BackupFile(Claude) ==> Untouched(f, g, path)
  {
    hide InjectClaude, KeepsSettings;
    InjectionKeepsHooks(ClaudeTree(f).value, relay);
  }

  lemma CodexStepKeeps(f: Files, entries: seq<Entry>)
    requires CodexStep(f, entries).Some?
    ensures var g := CodexStep(f, entries).value.files;
      && CodexKept(f, g)
      && forall path :: path != ConfigFile(Codex) && path != BackupFile(Codex) ==> Untouched(f, g, path)
  {
    hide InjectCodex, KeepsConfig;
    CodexKeepsGroups(CodexTable(f).value);
  }

  lemma KeptThroughout(f: Files, p: Files, q: Files, g: Files, relay: string)
    requires ClaudeKept(f, p, relay) && SameConfig(p, q, Claude) && SameConfig(q, g, Claude)
    requires SameConfig(f, p, Codex) && CodexKept(p, q) && SameConfig(q, g, Codex)
    ensures ClaudeKept(f, g, relay) && CodexKept(f, g)
  {
    hide KeepsSettings, KeepsConfig;
  }

  lemma OnlyOwnPaths(files: Files, relay: string)
    ensures var after := DoInit(files, relay).files;
      forall name :: Untouched(files, after, OtherFile(name))
  {
    hide InjectClaude, InjectCodex;
  }

  /** Init, whether it goes through or stops half-way: each config is left alone or keeps
      everything of the user's, its first content is kept behind, and no other file of
      theirs is touched. */
  lemma InitKeepsConfigs(files: Files, relay: string)
    ensures var after := DoInit(files, relay).files;
      ClaudeKept(files, after, relay) && CodexKept(files, after)
      && forall name :: Untouched(files, after, OtherFile(name))
  {
    OnlyOwnPaths(files, relay);
    hide ClaudeStep, CodexStep, ClaudeKept, CodexKept;
    NothingTouched(files, relay);
    var entries := LoadManifest(files);
    if entries.Some? && ClaudeStep(files, entries.value, relay).Some? {
      var p := ClaudeStep(files, entries.value, relay).value;
      ClaudeStepKeeps(files, entries.value, relay);
      var codex := CodexStep(p.files, p.entries);
      if codex.Some? {
        CodexStepKeeps(p.files, p.entries);
        KeptThroughout(files, p.files, codex.value.files, DoInit(files, relay).files, relay);
      } else {
        NothingTouched(p.files, relay);
        KeptThroughout(files, p.files, p.files, p.files, relay);
      }
    }
  }

  lemma NothingTouched(f: Files, relay: string)
    ensures ClaudeKept(f, f, relay) && CodexKept(f, f)
  {
    hide KeepsSettings, KeepsConfig;
  }

  // ------------------------------------------------------------ idempotence

  /** The files agree on one tool's config and backup. */
  predicate SameFor(f: Files, g: Files, tool: Tool) {
    && (ConfigFile(tool) in f <==> ConfigFile(tool) in g)
    && (ConfigFile(tool) in f ==> f[ConfigFile(tool)] == g[ConfigFile(tool)])
    && (BackupFile(tool) in f <==> BackupFile(tool) in g)
    && (BackupFile(tool) in f ==> f[BackupFile(tool)] == g[BackupFile(tool)])
  }

  lemma RewriteInPlace(g: Files, entries: seq<Entry>, tool: Tool, content: Content)
    requires ConfigFile(tool) in g && g[ConfigFile(tool)] == content && BackupFile(tool) in g && Listed(entries, tool)
    ensures Rewrite(g, entries, tool, content) == Progress(g, entries, true)
  {
    assert g[ConfigFile(tool) := content] == g;
  }

  /** Once a config went through, its step finds nothing more to do, ever. */
  lemma ClaudeSettles(f: Files, entries: seq<Entry>, relay: string, g: Files, entries': seq<Entry>, later: string)
    requires ClaudeStep(f, entries, relay).Some?
    requires var p := ClaudeStep(f, entries, relay).value;
      SameFor(p.files, g, Claude) && (p.modified ==> Listed(entries', Claude))
    ensures var p := ClaudeStep(f, entries, relay).value;
      exists again :: ClaudeStep(g, entries', later) == Some(Progress(g, entries', again)) && (again ==> p.modified)
  {
    var tree := ClaudeTree(f).value;
    var (injected, modified) := InjectClaude(tree, relay).value;
    InjectClaudeTwice(tree, relay, later);
    if modified {
      assert ClaudeTree(g) == Some(injected);
      if InjectClaude(injected, later).value.1 {
        if ConfigFile(Claude) !in f { FreshClaudeIsMarked(relay); }
        RewriteInPlace(g, entries', Claude, JsonText(PRETTY, injected));
        assert ClaudeStep(g, entries', later) == Some(Progress(g, entries', true));
      } else {
        assert ClaudeStep(g, entries', later) == Some(Progress(g, entries', false));
      }
    } else {
      assert ClaudeTree(g) == Some(tree);
      assert ClaudeStep(g, entries', later) == Some(Progress(g, entries', false));
    }
  }

  lemma CodexSettles(f: Files, entries: seq<Entry>, g: Files, entries': seq<Entry>)
    requires CodexStep(f, entries).Some? && SameFor(CodexStep(f, entries).value.files, g, Codex)
    ensures CodexStep(g, entries') == Some(Progress(g, entries', false))
  {
    InjectCodexTwice(CodexTable(f).value);
    var (edited, modified) := InjectCodex(CodexTable(f).value);
    assert CodexTable(g) == Some(if modified then edited else CodexTable(f).value);
  }

  lemma StepsListTheirs(files: Files, entries: seq<Entry>, relay: string)
    requires ClaudeStep(files, entries, relay).Some?
    ensures var p := ClaudeStep(files, entries, relay).value;
      && (p.modified ==> Listed(p.entries, Claude))
      && (p.modified || (p.files == files && p.entries == entries))
      && SameFor(p.files, files, Codex)
      && LoadManifest(p.files) == LoadManifest(files)
      && (CodexStep(p.files, p.entries).Some? ==>
            var q := CodexStep(p.files, p.entries).value;
            && (p.modified ==> Listed(q.entries, Claude))
            && (q.modified || (q.files == p.files && q.entries == p.entries))
            && SameFor(p.files, q.files, Claude)
            && LoadManifest(q.files) == LoadManifest(files))
  {
    hide InjectClaude, InjectCodex;
    var p := ClaudeStep(files, entries, relay).value;
    if p.modified && !Listed(entries, Claude) {
      assert p.entries[|entries|].target == ConfigFile(Claude);
    }
    if CodexStep(p.files, p.entries).Some? && p.modified {
      var q := CodexStep(p.files, p.entries).value;
      var i :| 0 <= i < |p.entries| && p.entries[i].target == ConfigFile(Claude);
      assert q.entries[i] == p.entries[i];
    }
  }

  /** Running `fleet init` again changes no file, whether the first run went through
      or not, and whether or not the reporter socket moved. It needs no new directory. */
  lemma InitIsIdempotent(files: Files, relay: string, later: string)
    ensures var once := DoInit(files, relay).files;
      DoInit(once, later).files == once && NeededDirs(once, later) <= NeededDirs(files, relay)
  {
    var loaded := LoadManifest(files);
    if loaded.Some? {
      ClaudeFailsAlike(files, loaded.value, relay, later);
      if ClaudeStep(files, loaded.value, relay).Some? {
        var p := ClaudeStep(files, loaded.value, relay).value;
        StepsListTheirs(files, loaded.value, relay);
        hide InjectClaude, InjectCodex;
        if CodexStep(p.files, p.entries).None? {
          InitStalls(files, relay, later);
        } else {
          InitSettles(files, relay, later);
        }
      }
    }
  }

  lemma ClaudeFailsAlike(files: Files, entries: seq<Entry>, relay: string, later: string)
    ensures ClaudeStep(files, entries, relay).None? <==> ClaudeStep(files, entries, later).None?
  {
    if ClaudeTree(files).Some? { RelayDoesNotDecide(ClaudeTree(files).value, relay, later); }
  }

  /** The Codex config does not parse: the second run stops at the same place. */
  lemma InitStalls(files: Files, relay: string, later: string)
    requires LoadManifest(files).Some? && ClaudeStep(files, LoadManifest(files).value, relay).Some?
    requires CodexTable(files).None?
    ensures var once := DoInit(files, relay).files;
      DoInit(once, later).files == once && NeededDirs(once, later) <= NeededDirs(files, relay)
  {
    var entries := LoadManifest(files).value;
    var p := ClaudeStep(files, entries, relay).value;
    StepsListTheirs(files, entries, relay);
    ClaudeStalls(files, entries, relay, later);
    hide InjectClaude, InjectCodex;
    var once := DoInit(files, relay).files;
    assert once == p.files && CodexTable(once).None?;
    var again := ClaudeStep(once, entries, later).value;
    assert CodexTable(again.files).None?;
  }

  lemma ClaudeStalls(files: Files, entries: seq<Entry>, relay: string, later: string)
    requires ClaudeStep(files, entries, relay).Some?
    ensures var p := ClaudeStep(files, entries, relay).value;
      ClaudeStep(p.files, entries, later).Some? && ClaudeStep(p.files, entries, later).value.files == p.files
  {
    var p := ClaudeStep(files, entries, relay).value;
    var tree := ClaudeTree(files).value;
    var (injected, modified) := InjectClaude(tree, relay).value;
    InjectClaudeTwice(tree, relay, later);
    RelayDoesNotDecide(tree, relay, later);
    if modified {
      assert ClaudeTree(p.files) == Some(injected);
      if InjectClaude(injected, later).value.1 {
        if ConfigFile(Claude) !in files { FreshClaudeIsMarked(relay); }
        assert p.files[ConfigFile(Claude) := JsonText(PRETTY, injected)] == p.files;
      }
    }
  }

  /** What a successful init leaves: both steps' files, and a manifest listing their
      entries if there are any new ones. */
  lemma InitLeaves(files: Files, relay: string, p: Progress, q: Progress)
    requires LoadManifest(files).Some? && ClaudeStep(files, LoadManifest(files).value, relay) == Some(p)
    requires CodexStep(p.files, p.entries) == Some(q)
    ensures var once := DoInit(files, relay).files;
      && LoadManifest(once) == Some(q.entries)
      && SameFor(p.files, once, Claude) && SameFor(q.files, once, Codex)
      && (p.modified || q.modified ==> once == q.files[ManifestFile := ManifestText(q.entries)])
      && (!p.modified && !q.modified ==> once == files)
      && (p.modified ==> Listed(q.entries, Claude))
  {
    StepsListTheirs(files, LoadManifest(files).value, relay);
  }

  /** Both configs went through: the second run finds both settled. */
  lemma InitSettles(files: Files, relay: string, later: string)
    requires LoadManifest(files).Some? && ClaudeStep(files, LoadManifest(files).value, relay).Some?
    requires var p := ClaudeStep(files, LoadManifest(files).value, relay).value; CodexStep(p.files, p.entries).Some?
    ensures var once := DoInit(files, relay).files;
      DoInit(once, later).files == once && NeededDirs(once, later) <= NeededDirs(files, relay)
  {
    hide InjectClaude, InjectCodex, SameFor;
    var once := DoInit(files, relay).files;
    var p := ClaudeStep(files, LoadManifest(files).value, relay).value;
    var q := CodexStep(p.files, p.entries).value;
    InitLeaves(files, relay, p, q);
    ClaudeSettles(files, LoadManifest(files).value, relay, once, q.entries, later);
    var again :| ClaudeStep(once, q.entries, later) == Some(Progress(once, q.entries, again)) && (again ==> p.modified);
    CodexSettles(p.files, p.entries, once, q.entries);
    hide ClaudeStep, CodexStep;
    InitChangesNothing(once, later, q.entries, again);
  }

  lemma InitChangesNothing(files: Files, relay: string, entries: seq<Entry>, again: bool)
    requires LoadManifest(files) == Some(entries)
    requires ClaudeStep(files, entries, relay) == Some(Progress(files, entries, again))
    requires CodexStep(files, entries) == Some(Progress(files, entries, false))
    requires again ==> ManifestFile in files
    ensures DoInit(files, relay).files == files
  {
    if again {
      assert files[ManifestFile := ManifestText(entries)] == files;
    }
  }

  /** Any number of runs, with whatever relays, leave what the first leaves. */
  lemma {:induction false} InitTimesIsOnce(files: Files, relays: seq<string>)
    requires relays != []
    ensures InitTimes(files, relays) == DoInit(files, relays[0]).files
  {
    hide DoInit;
    var n := |relays| - 1;
    if n > 0 {
      InitTimesIsOnce(files, relays[..n]);
      InitIsIdempotent(files, relays[0], relays[n]);
    } else {
      assert InitTimes(files, relays[..0]) == files;
    }
  }

  lemma {:induction false} DirsAreFirstRuns(files: Files, dirs: set<Dir>, relays: seq<string>)
    requires relays != []
    ensures DirsTimes(files, dirs, relays) == dirs + NeededDirs(files, relays[0])
  {
    hide DoInit, NeededDirs, InitTimes;
    var n := |relays| - 1;
    if n > 0 {
      DirsAreFirstRuns(files, dirs, relays[..n]);
      InitTimesIsOnce(files, relays[..n]);
      InitIsIdempotent(files, relays[0], relays[n]);
    } else {
      InitTimesNone(files);
    }
  }

  lemma InitTimesNone(files: Files)
    ensures InitTimes(files, []) == files
  {
  }

  /** Directories are never taken back: after init, any number of times, and uninit they
      are as before exactly when every directory init makes sure of was there. */
  lemma DirectoriesStay(files: Files, dirs: set<Dir>, relays: seq<string>)
    requires relays != []
    ensures DirsTimes(files, dirs, relays) == dirs <==> NeededDirs(files, relays[0]) <= dirs
    ensures LoadManifest(files).Some? ==> ToolDir(Claude) in NeededDirs(files, relays[0])
  {
    DirsAreFirstRuns(files, dirs, relays);
  }

  // ----------------------------------------------------------- reversibility

  predicate ClaudeWrites(files: Files, relay: string) {
    ClaudeTree(files).Some? && InjectClaude(ClaudeTree(files).value, relay).Some?
    && InjectClaude(ClaudeTree(files).value, relay).value.1
  }

  predicate CodexWrites(files: Files) {
    CodexTable(files).Some? && InjectCodex(CodexTable(files).value).1
  }

  /** The config exists and a backup from somewhere else is already in its place. */
  predicate StaleBackup(files: Files, tool: Tool) {
    ConfigFile(tool) in files && BackupFile(tool) in files
  }

  /** Claude's settings are already, byte for byte, what init would write. */
  predicate RewritesItself(files: Files, relay: string) {
    && StaleBackup(files, Claude) && ClaudeWrites(files, relay)
    && files[ConfigFile(Claude)] == JsonText(PRETTY, InjectClaude(ClaudeTree(files).value, relay).value.0)
  }

  /** When init followed by uninit restores every file: if both configs parse, no
      rewritten config had a foreign backup in place; if only Codex's fails to parse,
      Claude's settings, written before the failure, needed no writing. */
  predicate Reversible(files: Files, relay: string) {
    if CodexTable(files).Some? || ClaudeStep(files, [], relay).None? then
      ClaudeStep(files, [], relay).Some? ==>
        && !(ClaudeWrites(files, relay) && StaleBackup(files, Claude))
        && !(CodexWrites(files) && StaleBackup(files, Codex))
    else ClaudeWrites(files, relay) ==> RewritesItself(files, relay)
  }

  /** Rewriting one config and undoing its own manifest entry. */
  lemma UndoneRewrite(files: Files, entries: seq<Entry>, tool: Tool, content: Content, extra: Files)
    requires SameFor(extra, Rewrite(files, entries, tool, content).files, tool)
    ensures var undone := Undone(extra, EntryFor(files, tool));
      && (forall q :: q != ConfigFile(tool) && q != BackupFile(tool) ==>
            (q in undone <==> q in extra) && (q in undone ==> undone[q] == extra[q]))
      && (SameFor(undone, files, tool) <==> !StaleBackup(files, tool))
  {
  }

  /** Outside one tool's two files, nothing differs. */
  ghost predicate SameElsewhere(f: Files, g: Files, tool: Tool) {
    forall q :: q != ConfigFile(tool) && q != BackupFile(tool) ==> (q in f <==> q in g) && (q in f ==> f[q] == g[q])
  }

  /** One tool's step on `files`, later undone in `later`: what it leaves behind. */
  function UndoneIf(later: Files, files: Files, tool: Tool, modified: bool): Files {
    if modified then Undone(later, EntryFor(files, tool)) else later
  }

  lemma UndoneIfMeaning(files: Files, entries: seq<Entry>, p: Progress, tool: Tool, content: Content, later: Files)
    requires p == if p.modified then Rewrite(files, entries, tool, content) else Progress(files, entries, false)
    requires SameFor(later, p.files, tool)
    ensures var undone := UndoneIf(later, files, tool, p.modified);
      && SameElsewhere(undone, later, tool)
      && (SameFor(undone, files, tool) <==> !(p.modified && StaleBackup(files, tool)))
  {
    if p.modified {
      UndoneRewrite(files, entries, tool, content, later);
    }
  }

  /** The files of both steps, and the entries recorded for them. */
  lemma StepsRecord(files: Files, relay: string)
    requires ManifestFile !in files && ClaudeStep(files, [], relay).Some? && CodexTable(files).Some?
    ensures var p := ClaudeStep(files, [], relay).value;
      && SameElsewhere(p.files, files, Claude)
      && p.modified == ClaudeWrites(files, relay)
      && p.entries == (if p.modified then [EntryFor(files, Claude)] else [])
      && CodexStep(p.files, p.entries).Some?
      && var q := CodexStep(p.files, p.entries).value;
      && SameElsewhere(q.files, p.files, Codex)
      && q.modified == CodexWrites(files)
      && q.entries == p.entries + (if q.modified then [EntryFor(files, Codex)] else [])
  {
    var p := ClaudeStep(files, [], relay).value;
    assert !Listed([], Claude) && !Listed([], Codex);
    assert [] + [EntryFor(files, Claude)] == [EntryFor(files, Claude)];
    assert !Listed(p.entries, Codex);
    assert CodexTable(p.files) == CodexTable(files);
    assert p.entries + [] == p.entries;
  }

  lemma UndoneInOrder(done: Files, c: Entry, x: Entry)
    ensures AllUndone(done, []) == done
    ensures AllUndone(done, [c]) == Undone(done, c)
    ensures AllUndone(done, [c, x]) == Undone(Undone(done, c), x)
  {
    assert [c][..0] == [] && [c, x][..1] == [c];
  }

  /** What uninit leaves after a successful init, tool by tool. */
  lemma UninitParts(files: Files, relay: string)
    requires ManifestFile !in files && ClaudeStep(files, [], relay).Some? && CodexTable(files).Some?
    ensures var restored := DoUninit(DoInit(files, relay).files);
      && ManifestFile !in restored
      && SameOthers(restored, files)
      && (SameFor(restored, files, Claude) <==> !(ClaudeWrites(files, relay) && StaleBackup(files, Claude)))
      && (SameFor(restored, files, Codex) <==> !(CodexWrites(files) && StaleBackup(files, Codex)))
  {
    hide ClaudeStep, CodexStep, ClaudeWrites, CodexWrites, DoInit, DoUninit, UndoneIf, StaleBackup, SameOthers;
    var p := ClaudeStep(files, [], relay).value;
    StepsRecord(files, relay);
    var q := CodexStep(p.files, p.entries).value;
    InitLeaves(files, relay, p, q);
    var done := DoInit(files, relay).files;
    var r1 := UndoneIf(done, files, Claude, p.modified);
    var r2 := UndoneIf(r1, p.files, Codex, q.modified);
    assert EntryFor(files, Codex) == EntryFor(p.files, Codex);
    UninitUndoesBoth(files, p, q, done);
    UninitClaudePart(files, p, done, relay);
    UninitCodexPart(p, q, r1);
    OthersUntouched(files, p, q, done);
    PartsCombine(files, p.files, done, r1, r2);
  }

  ghost predicate SameOthers(f: Files, g: Files) {
    forall name :: var q := OtherFile(name); (q in f <==> q in g) && (q in f ==> f[q] == g[q])
  }

  lemma OthersUntouched(files: Files, p: Progress, q: Progress, done: Files)
    requires SameElsewhere(p.files, files, Claude) && SameElsewhere(q.files, p.files, Codex)
    requires done == files || done == q.files[ManifestFile := ManifestText(q.entries)]
    ensures SameOthers(done, files)
  {
    forall name ensures var o := OtherFile(name); (o in done <==> o in files) && (o in done ==> done[o] == files[o]) {
      var o := OtherFile(name);
      assert (o in p.files <==> o in files) && (o in q.files <==> o in p.files);
    }
  }

  lemma PartsCombine(files: Files, pf: Files, done: Files, r1: Files, r2: Files)
    requires SameElsewhere(pf, files, Claude) && SameOthers(done, files)
    requires SameElsewhere(r1, done, Claude) && SameElsewhere(r2, r1, Codex)
    ensures var restored := r2 - {ManifestFile};
      && SameOthers(restored, files)
      && (SameFor(restored, files, Claude) <==> SameFor(r1, files, Claude))
      && (SameFor(restored, files, Codex) <==> SameFor(r2, pf, Codex))
    ensures StaleBackup(pf, Codex) == StaleBackup(files, Codex)
  {
    var restored := r2 - {ManifestFile};
    forall name
      ensures var o := OtherFile(name); (o in restored <==> o in files) && (o in restored ==> restored[o] == files[o]) {
      var o := OtherFile(name);
      assert (o in r1 <==> o in done) && (o in r2 <==> o in r1);
    }
  }

  lemma UninitUndoesBoth(files: Files, p: Progress, q: Progress, done: Files)
    requires p.entries == (if p.modified then [EntryFor(files, Claude)] else [])
    requires q.entries == p.entries + (if q.modified then [EntryFor(p.files, Codex)] else [])
    requires LoadManifest(done) == Some(q.entries)
    ensures DoUninit(done) ==
      UndoneIf(UndoneIf(done, files, Claude, p.modified), p.files, Codex, q.modified) - {ManifestFile}
  {
    var c, x := EntryFor(files, Claude), EntryFor(p.files, Codex);
    UndoneInOrder(done, c, x);
    UndoneInOrder(done, x, x);
    if p.modified && q.modified {
      assert q.entries == [c, x];
    } else {
      assert q.entries == if p.modified then [c] else if q.modified then [x] else [];
    }
  }

  lemma UninitClaudePart(files: Files, p: Progress, done: Files, relay: string)
    requires ClaudeStep(files, [], relay) == Some(p) && SameFor(done, p.files, Claude)
    ensures var r1 := UndoneIf(done, files, Claude, p.modified);
      SameElsewhere(r1, done, Claude) && (SameFor(r1, files, Claude) <==> !(p.modified && StaleBackup(files, Claude)))
  {
    var injected := InjectClaude(ClaudeTree(files).value, relay).value.0;
    UndoneIfMeaning(files, [], p, Claude, JsonText(PRETTY, injected), done);
  }

  lemma UninitCodexPart(p: Progress, q: Progress, r1: Files)
    requires CodexStep(p.files, p.entries) == Some(q) && SameFor(r1, q.files, Codex)
    ensures var r2 := UndoneIf(r1, p.files, Codex, q.modified);
      SameElsewhere(r2, r1, Codex) && (SameFor(r2, p.files, Codex) <==> !(q.modified && StaleBackup(p.files, Codex)))
  {
    UndoneIfMeaning(p.files, p.entries, q, Codex, TomlText(PRETTY, InjectCodex(CodexTable(p.files).value).0), r1);
  }

  lemma UninitAfterSuccess(files: Files, relay: string)
    requires ManifestFile !in files && ClaudeStep(files, [], relay).Some? && CodexTable(files).Some?
    ensures DoUninit(DoInit(files, relay).files) == files <==> Reversible(files, relay)
  {
    hide DoInit, DoUninit, ClaudeStep, ClaudeWrites, CodexWrites;
    UninitParts(files, relay);
    var restored := DoUninit(DoInit(files, relay).files);
    if SameFor(restored, files, Claude) && SameFor(restored, files, Codex) {
      forall path: Path
        ensures path in restored <==> path in files
        ensures path in files ==> restored[path] == files[path] {
        match path
        case ConfigFile(tool) => assert tool == Claude || tool == Codex;
        case BackupFile(tool) => assert tool == Claude || tool == Codex;
        case ManifestFile =>
        case OtherFile(name) => assert path == OtherFile(name);
      }
    }
  }

  /** The Codex config does not parse: no manifest was written, so uninit does nothing. */
  lemma UninitAfterFailure(files: Files, relay: string)
    requires ManifestFile !in files && ClaudeStep(files, [], relay).Some? && CodexTable(files).None?
    ensures DoUninit(DoInit(files, relay).files) == files <==> Reversible(files, relay)
  {
    var p := ClaudeStep(files, [], relay).value;
    StepsListTheirs(files, [], relay);
    assert DoInit(files, relay).files == p.files;
    assert AllUndone(p.files, []) == p.files && p.files - {ManifestFile} == p.files;
    if ClaudeWrites(files, relay) {
      var content := JsonText(PRETTY, InjectClaude(ClaudeTree(files).value, relay).value.0);
      assert p.files == BackedUp(files, Claude)[ConfigFile(Claude) := content];
      if RewritesItself(files, relay) {
        assert files[ConfigFile(Claude) := content] == files;
      } else if ConfigFile(Claude) in files && BackupFile(Claude) !in files {
        assert BackupFile(Claude) in p.files;
      } else {
        assert p.files[ConfigFile(Claude)] == content;
      }
    }
  }

  /** `fleet init`, any number of times, then `fleet uninit`: every file is exactly as
      before, absent ones absent again and no backup or manifest left, if and only if
      the start was reversible. */
  lemma UninitRestores(files: Files, relays: seq<string>)
    requires ManifestFile !in files && relays != []
    ensures DoUninit(InitTimes(files, relays)) == files <==> Reversible(files, relays[0])
  {
    hide ClaudeWrites, CodexWrites, StaleBackup, RewritesItself, InjectClaude, InjectCodex;
    InitTimesIsOnce(files, relays);
    var relay := relays[0];
    if ClaudeStep(files, [], relay).None? {
      assert AllUndone(files, []) == files && files - {ManifestFile} == files;
    } else if CodexTable(files).None? {
      UninitAfterFailure(files, relay);
    } else {
      UninitAfterSuccess(files, relay);
    }
  }

  /** With both configs parseable and no backups beforehand, uninit always restores. */
  lemma CleanStartIsReversible(files: Files, relays: seq<string>)
    requires ManifestFile !in files && BackupFile(Claude) !in files && BackupFile(Codex) !in files && relays != []
    requires ClaudeTree(files).Some? && CodexTable(files).Some?
    ensures DoUninit(InitTimes(files, relays)) == files
  {
    UninitRestores(files, relays);
  }
}
