/**
 Discovery of agent definitions: the list of subagents that is advertised, and the search that
 resolves a name when one is launched. The two are written separately and are meant to agree. Models
 `discovery.rs` of `ezer-agent`, without plugins.
 */
module Discovery {
  import opened Prelude

  type DirPath = seq<string>

  datatype Scope = Project | User | Bundled | BuiltIn

  /** `body` stands for everything else a definition file declares. */
  datatype Definition = Definition(name: string, description: string, body: string, path: DirPath, scope: Scope)

  /** A directory entry; `agent` is what the file parses to, if it is a file and parses. */
  datatype File = File(name: string, agent: Option<Definition>)

  type FileSystem = map<DirPath, seq<File>>

  datatype Builtin =
    | EzerBuild | EzerBuildConcise | EzerBuildPlan | EzerBuildPlanNoSubagents | EzerBuildAskUser
    | Codex | Opencode | GeneralPurpose | Explore | Plan | BrowserUse | EzerBuildOrchestrator

  function NameOf(b: Builtin): (r: string)
    ensures r != ""
  {
    match b
    case EzerBuild => "ezer-build"
    case EzerBuildConcise => "ezer-build-concise"
    case EzerBuildPlan => "ezer-build-plan"
    case EzerBuildPlanNoSubagents => "ezer-build-plan-no-subagents"
    case EzerBuildAskUser => "ezer-build-ask-user"
    case Codex => "codex"
    case Opencode => "opencode"
    case GeneralPurpose => "general-purpose"
    case Explore => "explore"
    case Plan => "plan"
    case BrowserUse => "browser-use"
    case EzerBuildOrchestrator => "ezer-build-orchestrator"
  }

  const ALL_BUILTINS: seq<Builtin> := [
    EzerBuild, EzerBuildConcise, EzerBuildPlan, EzerBuildPlanNoSubagents, EzerBuildAskUser, Codex, Opencode,
    GeneralPurpose, Explore, Plan, BrowserUse, EzerBuildOrchestrator]

  const SUBAGENTS: seq<Builtin> := [GeneralPurpose, Explore, Plan]

  function Named(bs: seq<Builtin>, n: string): (r: Option<Builtin>)
    ensures r.Some? ==> r.value in bs && NameOf(r.value) == n
    ensures r.None? ==> forall b | b in bs :: NameOf(b) != n
  {
    if bs == [] then None else if NameOf(bs[0]) == n then Some(bs[0]) else Named(bs[1..], n)
  }

  function FromStr(n: string): Option<Builtin> { Named(ALL_BUILTINS, n) }

  /** The built-in subagent of that name; the other built-ins resolve by name but are not advertised. */
  function SubagentNamed(n: string): Option<Builtin> {
    var b := FromStr(n);
    if b.Some? && b.value in SUBAGENTS then b else None
  }

  /** The advertised built-in subagents. */
  predicate IsAdvertised(n: string) { n == "general-purpose" || n == "explore" || n == "plan" }

  /** The built-ins that resolve by name and are not advertised. */
  predicate IsUnadvertised(n: string) {
    || n == "ezer-build" || n == "ezer-build-concise" || n == "ezer-build-plan" || n == "ezer-build-plan-no-subagents"
    || n == "ezer-build-ask-user" || n == "codex" || n == "opencode" || n == "browser-use"
    || n == "ezer-build-orchestrator"
  }

  lemma BuiltinsAreListed(b: Builtin)
    ensures b in ALL_BUILTINS
  {
    var all := ALL_BUILTINS;
    assert all[0] == EzerBuild && all[1] == EzerBuildConcise && all[2] == EzerBuildPlan
           && all[3] == EzerBuildPlanNoSubagents && all[4] == EzerBuildAskUser && all[5] == Codex
           && all[6] == Opencode && all[7] == GeneralPurpose && all[8] == Explore && all[9] == Plan
           && all[10] == BrowserUse && all[11] == EzerBuildOrchestrator;
  }

  lemma AdvertisedAreNamed(n: string)
    requires IsAdvertised(n)
    ensures SubagentNamed(n).Some?
  {
    SubagentIsNamed(if n == "plan" then Plan else if n == "explore" then Explore else GeneralPurpose);
  }

  /** The built-in behind a name that is not advertised. */
  function Unadvertised(n: string): (b: Builtin)
    requires IsUnadvertised(n)
    ensures NameOf(b) == n
  {
    if n == "codex" then Codex else if n == "opencode" then Opencode
    else if n == "browser-use" then BrowserUse else if n == "ezer-build" then EzerBuild
    else if n == "ezer-build-concise" then EzerBuildConcise else if n == "ezer-build-plan" then EzerBuildPlan
    else if n == "ezer-build-plan-no-subagents" then EzerBuildPlanNoSubagents
    else if n == "ezer-build-ask-user" then EzerBuildAskUser else EzerBuildOrchestrator
  }

  lemma NamesAreSpelt(b: Builtin)
    ensures b in SUBAGENTS ==> IsAdvertised(NameOf(b))
    ensures b !in SUBAGENTS ==> IsUnadvertised(NameOf(b))
  {
    assert SUBAGENTS[0] == GeneralPurpose && SUBAGENTS[1] == Explore && SUBAGENTS[2] == Plan;
  }

  /** Which built-in a name stands for, with the names spelt out. */
  lemma BuiltinNamesExactly(n: string)
    ensures SubagentNamed(n).Some? <==> IsAdvertised(n)
    ensures FromStr(n).Some? <==> IsAdvertised(n) || IsUnadvertised(n)
  {
    if FromStr(n).Some? {
      NamesAreSpelt(FromStr(n).value);
    }
    if IsAdvertised(n) {
      AdvertisedAreNamed(n);
    }
    if IsUnadvertised(n) {
      BuiltinsAreListed(Unadvertised(n));
    }
  }

  /** The texts of the built-in definitions. */
  type Catalogue = Builtin -> (string, string)

  function BuiltinDefinition(cat: Catalogue, b: Builtin): Definition {
    Definition(NameOf(b), cat(b).0, cat(b).1, [], BuiltIn)
  }

  // ---------------------------------------------------------------- directories

  const MD: string := ".md"

  /** The path has the extension `md`, which `.md` alone does not have. */
  predicate IsMd(file: string) { |file| > 3 && file[|file| - 3..] == MD }

  function AgentAt(files: seq<File>, file: string): Option<Definition> {
    if files == [] then None else if files[0].name == file then files[0].agent else AgentAt(files[1..], file)
  }

  function FilesIn(fs: FileSystem, dir: DirPath): seq<File> { if dir in fs then fs[dir] else [] }

  /** `.ezer/agents` and `.claude/agents` below one directory, as far as they exist. */
  function AgentDirsUnder(fs: FileSystem, dir: DirPath): seq<DirPath> {
    var native, compat := dir + [".ezer", "agents"], dir + [".claude", "agents"];
    (if native in fs then [native] else []) + (if compat in fs then [compat] else [])
  }

  function ProjectDirs(fs: FileSystem, chain: seq<DirPath>): seq<DirPath> {
    if chain == [] then [] else AgentDirsUnder(fs, chain[0]) + ProjectDirs(fs, chain[1..])
  }

  function LegacyDotEzer(home: Option<DirPath>, ezerHome: Option<DirPath>): Option<DirPath> {
    if home.Some? && ezerHome != Some(home.value + [".ezer"]) then Some(home.value + [".ezer"]) else None
  }

  function Under(root: Option<DirPath>, tail: DirPath, scope: Scope): seq<(DirPath, Scope)> {
    if root.Some? then [(root.value + tail, scope)] else []
  }

  function UserAgentDirs(home: Option<DirPath>, ezerHome: Option<DirPath>): seq<(DirPath, Scope)> {
    var legacy := LegacyDotEzer(home, ezerHome);
    Under(ezerHome, ["agents"], User) + Under(legacy, ["agents"], User) + Under(home, [".claude", "agents"], User)
    + Under(ezerHome, ["bundled", "agents"], Bundled) + Under(legacy, ["bundled", "agents"], Bundled)
  }

  /** A directory to look in, with what it holds in the order it happens to be read. */
  datatype Source = Source(files: seq<File>, scope: Scope)

  function ProjectSources(fs: FileSystem, dirs: seq<DirPath>): seq<Source> {
    if dirs == [] then [] else [Source(FilesIn(fs, dirs[0]), Project)] + ProjectSources(fs, dirs[1..])
  }

  function UserSources(fs: FileSystem, dirs: seq<(DirPath, Scope)>): seq<Source> {
    if dirs == [] then [] else [Source(FilesIn(fs, dirs[0].0), dirs[0].1)] + UserSources(fs, dirs[1..])
  }

  // ---------------------------------------------------------------- lookup by name

  /** The first directory whose `n.md` parses. */
  function FirstIn(sources: seq<Source>, n: string): Option<Definition> {
    if sources == [] then None
    else
      var found := AgentAt(sources[0].files, n + MD);
      if found.Some? then Some(found.value.(scope := sources[0].scope)) else FirstIn(sources[1..], n)
  }

  /** Project, then built-in, then user and bundled. */
  function Lookup(cat: Catalogue, project: seq<Source>, user: seq<Source>, n: string): Option<Definition> {
    if FirstIn(project, n).Some? then FirstIn(project, n)
    else if FromStr(n).Some? then Some(BuiltinDefinition(cat, FromStr(n).value))
    else FirstIn(user, n)
  }

  lemma {:induction false} ProjectDirsSnoc(fs: FileSystem, chain: seq<DirPath>, dir: DirPath)
    ensures ProjectDirs(fs, chain + [dir]) == ProjectDirs(fs, chain) + AgentDirsUnder(fs, dir)
  {
    if chain == [] {
      assert (chain + [dir])[1..] == [];
    } else {
      assert (chain + [dir])[1..] == chain[1..] + [dir];
      ProjectDirsSnoc(fs, chain[1..], dir);
    }
  }

  /** Nearest directory first, and below it `.ezer/agents` before `.claude/agents`. */
  lemma ProjectDirsNearestFirst(fs: FileSystem, dir: DirPath, chain: seq<DirPath>)
    ensures var native, compat, farther := dir + [".ezer", "agents"], dir + [".claude", "agents"], ProjectDirs(fs, chain);
            ProjectDirs(fs, [dir] + chain) ==
            if native in fs && compat in fs then [native, compat] + farther
            else if native in fs then [native] + farther
            else if compat in fs then [compat] + farther
            else farther
  {
    assert ([dir] + chain)[1..] == chain;
  }

  method ProjectAgentDirs(fs: FileSystem, chain: seq<DirPath>) returns (found: seq<DirPath>)
    ensures found == ProjectDirs(fs, chain)
  {
    found := [];
    for i := 0 to |chain|
      invariant found == ProjectDirs(fs, chain[..i])
    {
      assert chain[..i + 1] == chain[..i] + [chain[i]];
      ProjectDirsSnoc(fs, chain[..i], chain[i]);
      ghost var before := found;
      var native, compat := chain[i] + [".ezer", "agents"], chain[i] + [".claude", "agents"];
      if native in fs { found := found + [native]; }
      if compat in fs { found := found + [compat]; }
      assert found == before + AgentDirsUnder(fs, chain[i]);
    }
    assert chain[..|chain|] == chain;
  }

  method LoadProjectDefinitionByName(fs: FileSystem, chain: seq<DirPath>, n: string) returns (r: Option<Definition>)
    ensures r == FirstIn(ProjectSources(fs, ProjectDirs(fs, chain)), n)
  {
    var dirs := ProjectAgentDirs(fs, chain);
    for i := 0 to |dirs|
      invariant FirstIn(ProjectSources(fs, dirs[i..]), n) == FirstIn(ProjectSources(fs, dirs), n)
    {
      assert dirs[i..][1..] == dirs[i + 1..];
      var found := AgentAt(FilesIn(fs, dirs[i]), n + MD);
      if found.Some? { return Some(found.value.(scope := Project)); }
    }
    return None;
  }

  method ByName(cat: Catalogue, fs: FileSystem, home: Option<DirPath>, ezerHome: Option<DirPath>, n: string)
    returns (r: Option<Definition>)
    ensures r == Lookup(cat, [], UserSources(fs, UserAgentDirs(home, ezerHome)), n)
  {
    var builtin := FromStr(n);
    if builtin.Some? { return Some(BuiltinDefinition(cat, builtin.value)); }
    var dirs := UserAgentDirs(home, ezerHome);
    for i := 0 to |dirs|
      invariant FirstIn(UserSources(fs, dirs[i..]), n) == FirstIn(UserSources(fs, dirs), n)
    {
      assert dirs[i..][1..] == dirs[i + 1..];
      var found := AgentAt(FilesIn(fs, dirs[i].0), n + MD);
      if found.Some? { return Some(found.value.(scope := dirs[i].1)); }
    }
    return None;
  }

  method ByNameInCwd(cat: Catalogue, fs: FileSystem, chain: seq<DirPath>, home: Option<DirPath>,
                     ezerHome: Option<DirPath>, n: string)
    returns (r: Option<Definition>)
    ensures r == Lookup(cat, ProjectSources(fs, ProjectDirs(fs, chain)), UserSources(fs, UserAgentDirs(home, ezerHome)), n)
  {
    r := LoadProjectDefinitionByName(fs, chain, n);
    if r.None? {
      r := ByName(cat, fs, home, ezerHome, n);
    }
  }

  // ---------------------------------------------------------------- discovery of everything

  function NamesIn(defs: seq<Definition>): (r: set<string>) {
    set d | d in defs :: d.name
  }

  /** One directory adds, after those found so far, the first definition of every name not taken yet. */
  function AddedFrom(files: seq<File>, scope: Scope, sofar: seq<Definition>): seq<Definition>
    decreases |files|
  {
    if files == [] then sofar
    else
      var f := files[0];
      if IsMd(f.name) && f.agent.Some? && f.agent.value.name !in NamesIn(sofar)
      then AddedFrom(files[1..], scope, sofar + [f.agent.value.(scope := scope)])
      else AddedFrom(files[1..], scope, sofar)
  }

  function Discovered(sources: seq<Source>, sofar: seq<Definition>): seq<Definition>
    decreases |sources|
  {
    if sources == [] then sofar
    else Discovered(sources[1..], AddedFrom(sources[0].files, sources[0].scope, sofar))
  }

  lemma NamesOfMore(defs: seq<Definition>, d: Definition)
    ensures NamesIn(defs + [d]) == NamesIn(defs) + {d.name}
  {
    forall n | n in NamesIn(defs) + {d.name} ensures n in NamesIn(defs + [d]) {
      if n == d.name {
        assert (defs + [d])[|defs|] == d;
      } else {
        var e :| e in defs && e.name == n;
        assert e in defs + [d];
      }
    }
  }

  method LoadDefinitionsFromDir(files: seq<File>, scope: Scope, definitions: seq<Definition>, seen: set<string>)
    returns (definitions': seq<Definition>, seen': set<string>)
    requires seen == NamesIn(definitions)
    ensures definitions' == AddedFrom(files, scope, definitions)
    ensures seen' == NamesIn(definitions')
  {
    definitions', seen' := definitions, seen;
    for i := 0 to |files|
      invariant seen' == NamesIn(definitions')
      invariant AddedFrom(files[i..], scope, definitions') == AddedFrom(files, scope, definitions)
    {
      assert files[i..][1..] == files[i + 1..];
      var f := files[i];
      if IsMd(f.name) && f.agent.Some? {
        var def := f.agent.value.(scope := scope);
        if def.name !in seen' {
          NamesOfMore(definitions', def);
          seen' := seen' + {def.name};
          definitions' := definitions' + [def];
        }
      }
    }
  }

  method LoadProjectDefinitions(fs: FileSystem, chain: seq<DirPath>, definitions: seq<Definition>, seen: set<string>)
    returns (definitions': seq<Definition>, seen': set<string>)
    requires seen == NamesIn(definitions)
    ensures definitions' == Discovered(ProjectSources(fs, ProjectDirs(fs, chain)), definitions)
    ensures seen' == NamesIn(definitions')
  {
    definitions', seen' := definitions, seen;
    var dirs := ProjectAgentDirs(fs, chain);
    for i := 0 to |dirs|
      invariant seen' == NamesIn(definitions')
      invariant Discovered(ProjectSources(fs, dirs[i..]), definitions') == Discovered(ProjectSources(fs, dirs), definitions)
    {
      assert dirs[i..][1..] == dirs[i + 1..];
      definitions', seen' := LoadDefinitionsFromDir(FilesIn(fs, dirs[i]), Project, definitions', seen');
    }
  }

  method LoadUserDefinitions(fs: FileSystem, dirs: seq<(DirPath, Scope)>, definitions: seq<Definition>, seen: set<string>)
    returns (definitions': seq<Definition>)
    requires seen == NamesIn(definitions)
    ensures definitions' == Discovered(UserSources(fs, dirs), definitions)
  {
    definitions' := definitions;
    var seen' := seen;
    for i := 0 to |dirs|
      invariant seen' == NamesIn(definitions')
      invariant Discovered(UserSources(fs, dirs[i..]), definitions') == Discovered(UserSources(fs, dirs), definitions)
    {
      assert dirs[i..][1..] == dirs[i + 1..];
      var (dir, scope) := dirs[i];
      if dir in fs {
        definitions', seen' := LoadDefinitionsFromDir(fs[dir], scope, definitions', seen');
      }
    }
  }

  lemma {:induction false} DiscoveredAcross(a: seq<Source>, b: seq<Source>, sofar: seq<Definition>)
    ensures Discovered(a + b, sofar) == Discovered(b, Discovered(a, sofar))
    decreases |a|
  {
    if a == [] {
      assert a + b == b;
    } else {
      assert (a + b)[1..] == a[1..] + b;
      DiscoveredAcross(a[1..], b, AddedFrom(a[0].files, a[0].scope, sofar));
    }
  }

  method DiscoverWithHome(fs: FileSystem, chain: seq<DirPath>, home: Option<DirPath>, ezerHome: Option<DirPath>)
    returns (definitions: seq<Definition>)
    ensures definitions == Discovered(ProjectSources(fs, ProjectDirs(fs, chain))
                                      + UserSources(fs, UserAgentDirs(home, ezerHome)), [])
  {
    var seen: set<string>;
    definitions, seen := LoadProjectDefinitions(fs, chain, [], {});
    definitions := LoadUserDefinitions(fs, UserAgentDirs(home, ezerHome), definitions, seen);
    DiscoveredAcross(ProjectSources(fs, ProjectDirs(fs, chain)), UserSources(fs, UserAgentDirs(home, ezerHome)), []);
  }

  // ---------------------------------------------------------------- the advertised list

  datatype ConfigSource = FromProject(path: DirPath) | FromUser(path: DirPath) | FromBuiltin

  datatype SubagentSource = ShippedAs(b: Builtin) | UserDefined(scope: Scope)

  datatype Entry = Entry(name: string, description: string, source: SubagentSource, shadows: Option<Builtin>,
                         config: ConfigSource)

  function Priority(scope: Scope): nat {
    match scope
    case Project => 3
    case User => 2
    case Bundled => 1
    case BuiltIn => 0
  }

  function SourceFromDef(def: Definition): ConfigSource {
    match def.scope
    case Project => FromProject(def.path)
    case User => FromUser(def.path)
    case Bundled => FromBuiltin
    case BuiltIn => FromBuiltin
  }

  function SeedEntry(cat: Catalogue, b: Builtin): Entry {
    Entry(NameOf(b), BuiltinDefinition(cat, b).description, ShippedAs(b), None, FromBuiltin)
  }

  function Seeds(cat: Catalogue): seq<Entry> {
    [SeedEntry(cat, GeneralPurpose), SeedEntry(cat, Explore), SeedEntry(cat, Plan)]
  }

  function FileEntry(def: Definition, shadows: Option<Builtin>): Entry {
    Entry(def.name, def.description, UserDefined(def.scope), shadows, SourceFromDef(def))
  }

  /** The position of the entry of that name, or the length. */
  function Position(entries: seq<Entry>, n: string): (k: nat)
    ensures k <= |entries| && (k < |entries| ==> entries[k].name == n)
    ensures forall i | 0 <= i < k :: entries[i].name != n
  {
    if entries == [] || entries[0].name == n then 0 else 1 + Position(entries[1..], n)
  }

  predicate ShouldReplace(source: SubagentSource, scope: Scope) {
    source.ShippedAs? || Priority(scope) > Priority(source.scope)
  }

  /** One turn of the loop over the discovered definitions. */
  function MergeOne(entries: seq<Entry>, def: Definition): seq<Entry> {
    var builtin := SubagentNamed(def.name);
    var pos := Position(entries, def.name);
    if def.scope.BuiltIn? || (builtin.Some? && !def.scope.Project?) then entries
    else if pos == |entries| then entries + [FileEntry(def, None)]
    else if ShouldReplace(entries[pos].source, def.scope) then entries[pos := FileEntry(def, builtin)]
    else entries
  }

  function MergedWith(entries: seq<Entry>, defs: seq<Definition>): seq<Entry>
    decreases |defs|
  {
    if defs == [] then entries else MergedWith(MergeOne(entries, defs[0]), defs[1..])
  }

  predicate IsOn(toggle: map<string, bool>, n: string) { n in toggle ==> toggle[n] }

  function Enabled(entries: seq<Entry>, toggle: map<string, bool>): seq<Entry> {
    if entries == [] then []
    else (if IsOn(toggle, entries[0].name) then [entries[0]] else []) + Enabled(entries[1..], toggle)
  }

  function Listing(cat: Catalogue, discovered: seq<Definition>, toggle: map<string, bool>): seq<Entry> {
    Enabled(MergedWith(Seeds(cat), discovered), toggle)
  }

  method MergeSubagents(cat: Catalogue, discovered: seq<Definition>, toggle: map<string, bool>)
    returns (r: seq<Entry>)
    ensures r == Listing(cat, discovered, toggle)
  {
    var entries := Seeds(cat);
    for i := 0 to |discovered|
      invariant MergedWith(entries, discovered[i..]) == MergedWith(Seeds(cat), discovered)
    {
      assert discovered[i..][1..] == discovered[i + 1..];
      var def := discovered[i];
      ghost var before := entries;
      if !def.scope.BuiltIn? {
        var builtin := SubagentNamed(def.name);
        if builtin.None? || def.scope.Project? {
          var pos := Position(entries, def.name);
          if pos < |entries| {
            if ShouldReplace(entries[pos].source, def.scope) {
              entries := entries[pos := FileEntry(def, builtin)];
            }
          } else {
            entries := entries + [FileEntry(def, None)];
          }
        }
      }
      assert entries == MergeOne(before, def);
    }
    r := Enabled(entries, toggle);
  }

  method AllSubagents(cat: Catalogue, fs: FileSystem, chain: seq<DirPath>, home: Option<DirPath>,
                      ezerHome: Option<DirPath>, toggle: map<string, bool>)
    returns (r: seq<Entry>)
    ensures r == Listing(cat, Discovered(ProjectSources(fs, ProjectDirs(fs, chain))
                                         + UserSources(fs, UserAgentDirs(home, ezerHome)), []), toggle)
  {
    var discovered := DiscoverWithHome(fs, chain, home, ezerHome);
    r := MergeSubagents(cat, discovered, toggle);
  }

  // ---------------------------------------------------------------- what the list holds

  predicate UniqueNames(entries: seq<Entry>) {
    forall i, j | 0 <= i < j < |entries| :: entries[i].name != entries[j].name
  }

  function EntryFor(entries: seq<Entry>, n: string): Option<Entry> {
    var k := Position(entries, n);
    if k < |entries| then Some(entries[k]) else None
  }

  /** Whether a definition may stand for `n`: a `shipped` name gives way to the project only. */
  predicate Eligible(def: Definition, n: string, shipped: bool) {
    def.name == n && !def.scope.BuiltIn? && (shipped ==> def.scope.Project?)
  }

  lemma OneEntryPerName(entries: seq<Entry>, def: Definition)
    requires UniqueNames(entries)
    ensures UniqueNames(MergeOne(entries, def))
  {}

  lemma EntryAppended(entries: seq<Entry>, e: Entry, n: string)
    ensures EntryFor(entries + [e], n)
         == if EntryFor(entries, n).Some? then EntryFor(entries, n) else if e.name == n then Some(e) else None
  {
    var all := entries + [e];
    assert all[|entries|] == e;
    assert forall i | 0 <= i < |entries| :: all[i] == entries[i];
    var k, k' := Position(all, n), Position(entries, n);
    assert k < |all| ==> all[k].name == n;
    if k' < |entries| {
      assert all[k'].name == n;
    }
  }

  lemma EntryReplaced(entries: seq<Entry>, pos: nat, e: Entry, n: string)
    requires UniqueNames(entries) && pos < |entries| && entries[pos].name == e.name
    ensures EntryFor(entries[pos := e], n) == if n == e.name then Some(e) else EntryFor(entries, n)
  {
    var all := entries[pos := e];
    var k, k' := Position(all, n), Position(entries, n);
    assert all[pos] == e;
    assert forall i | 0 <= i < |entries| :: all[i].name == entries[i].name;
    assert k < |all| ==> all[k].name == n;
    assert k' < |entries| ==> all[k'].name == n;
  }

  /** Merging a definition changes the entry of its own name only. */
  lemma MergeOneEntry(entries: seq<Entry>, def: Definition, n: string)
    requires UniqueNames(entries)
    ensures var next := EntryFor(MergeOne(entries, def), n);
            if !Eligible(def, n, SubagentNamed(n).Some?) then next == EntryFor(entries, n)
            else if EntryFor(entries, n).None? then next == Some(FileEntry(def, None))
            else if ShouldReplace(EntryFor(entries, n).value.source, def.scope)
            then next == Some(FileEntry(def, SubagentNamed(n)))
            else next == EntryFor(entries, n)
  {
    var pos := Position(entries, def.name);
    EntryAppended(entries, FileEntry(def, None), n);
    if pos < |entries| {
      EntryReplaced(entries, pos, FileEntry(def, SubagentNamed(def.name)), n);
    }
  }

  /** Of the definitions that may stand for `n`, the first among those of highest priority. */
  function Best(sofar: Option<Definition>, defs: seq<Definition>, n: string, shipped: bool): Option<Definition>
    decreases |defs|
  {
    if defs == [] then sofar
    else
      var d := defs[0];
      var better := Eligible(d, n, shipped) && (sofar.None? || Priority(d.scope) > Priority(sofar.value.scope));
      Best(if better then Some(d) else sofar, defs[1..], n, shipped)
  }

  /** The entry that stands for a definition. */
  function EntryOf(cat: Catalogue, def: Definition): Entry {
    if def.scope.BuiltIn? && FromStr(def.name).Some? then SeedEntry(cat, FromStr(def.name).value)
    else FileEntry(def, SubagentNamed(def.name))
  }

  /** Before any definition is merged a name is listed iff it is one of the built-in subagents. */
  function Shown(cat: Catalogue, n: string, best: Option<Definition>): Option<Entry> {
    if best.Some? then Some(EntryOf(cat, best.value))
    else if SubagentNamed(n).Some? then Some(SeedEntry(cat, SubagentNamed(n).value))
    else None
  }

  lemma {:induction false} MergedEntry(cat: Catalogue, entries: seq<Entry>, sofar: Option<Definition>,
                                       defs: seq<Definition>, n: string)
    requires UniqueNames(entries) && EntryFor(entries, n) == Shown(cat, n, sofar)
    requires sofar.Some? ==> Eligible(sofar.value, n, SubagentNamed(n).Some?)
    ensures EntryFor(MergedWith(entries, defs), n) == Shown(cat, n, Best(sofar, defs, n, SubagentNamed(n).Some?))
    ensures UniqueNames(MergedWith(entries, defs))
    decreases |defs|
  {
    if defs != [] {
      var d := defs[0];
      OneEntryPerName(entries, d);
      MergeOneEntry(entries, d, n);
      var better := Eligible(d, n, SubagentNamed(n).Some?) && (sofar.None? || Priority(d.scope) > Priority(sofar.value.scope));
      MergedEntry(cat, MergeOne(entries, d), if better then Some(d) else sofar, defs[1..], n);
    }
  }

  /** A built-in is the only one of its name. */
  lemma SubagentIsNamed(b: Builtin)
    requires b.GeneralPurpose? || b.Explore? || b.Plan?
    ensures SubagentNamed(NameOf(b)) == Some(b)
  {
    assert ALL_BUILTINS[7] == GeneralPurpose && ALL_BUILTINS[8] == Explore && ALL_BUILTINS[9] == Plan;
    assert SUBAGENTS[0] == GeneralPurpose && SUBAGENTS[1] == Explore && SUBAGENTS[2] == Plan;
    var found := FromStr(NameOf(b));
    assert b in ALL_BUILTINS && b in SUBAGENTS;
    NameIsOwn(b, found.value);
  }

  lemma NameIsOwn(b: Builtin, other: Builtin)
    requires b.GeneralPurpose? || b.Explore? || b.Plan?
    requires NameOf(other) == NameOf(b)
    ensures other == b
  {
    match b
    case GeneralPurpose => assert NameOf(b)[0] == 'g'; FirstLetter(other);
    case Explore => assert |NameOf(b)| == 7; FirstLetter(other);
    case Plan => assert |NameOf(b)| == 4; FirstLetter(other);
  }

  /** Initials and lengths tell the three built-in subagents from the other built-ins. */
  lemma FirstLetter(b: Builtin)
    ensures NameOf(b)[0] == 'g' <==> b.GeneralPurpose?
    ensures |NameOf(b)| == 7 <==> b.Explore?
    ensures |NameOf(b)| == 4 <==> b.Plan?
  {}

  lemma SeedsAreSubagents(n: string, b: Builtin)
    requires SubagentNamed(n) == Some(b)
    ensures NameOf(b) == n && (b == GeneralPurpose || b == Explore || b == Plan)
  {}

  lemma EntryAt(entries: seq<Entry>, k: nat)
    requires UniqueNames(entries) && k < |entries|
    ensures EntryFor(entries, entries[k].name) == Some(entries[k])
  {
    assert entries[Position(entries, entries[k].name)].name == entries[k].name;
  }

  lemma NoEntry(entries: seq<Entry>, n: string)
    requires forall i | 0 <= i < |entries| :: entries[i].name != n
    ensures EntryFor(entries, n).None?
  {}

  lemma SeedsAreUnique(cat: Catalogue)
    ensures UniqueNames(Seeds(cat))
  {
    var seeds := Seeds(cat);
    FirstLetter(GeneralPurpose);
    FirstLetter(Explore);
    FirstLetter(Plan);
  }

  lemma SeedsShown(cat: Catalogue, n: string)
    ensures UniqueNames(Seeds(cat)) && EntryFor(Seeds(cat), n) == Shown(cat, n, None)
  {
    var seeds := Seeds(cat);
    SeedsAreUnique(cat);
    if SubagentNamed(n).Some? {
      var b := SubagentNamed(n).value;
      SeedsAreSubagents(n, b);
      EntryAt(seeds, if b == GeneralPurpose then 0 else if b == Explore then 1 else 2);
    } else {
      forall i | 0 <= i < |seeds| ensures seeds[i].name != n {
        SubagentIsNamed(if i == 0 then GeneralPurpose else if i == 1 then Explore else Plan);
      }
      NoEntry(seeds, n);
    }
  }

  /** At `k` stands an eligible definition that no other one outranks, and that none before it equals. */
  predicate FirstHighest(all: seq<Definition>, k: nat, n: string, shipped: bool) {
    && k < |all| && Eligible(all[k], n, shipped)
    && forall j | 0 <= j < |all| && Eligible(all[j], n, shipped) ::
         Priority(all[j].scope) <= Priority(all[k].scope) && (j < k ==> Priority(all[j].scope) < Priority(all[k].scope))
  }

  predicate NoneEligible(all: seq<Definition>, n: string, shipped: bool) {
    forall d | d in all :: !Eligible(d, n, shipped)
  }

  function Candidates(sofar: Option<Definition>, defs: seq<Definition>): seq<Definition> {
    if sofar.Some? then [sofar.value] + defs else defs
  }

  lemma PrependLower(d: Definition, all: seq<Definition>, k: nat, n: string, shipped: bool)
    requires FirstHighest(all, k, n, shipped) && (Eligible(d, n, shipped) ==> Priority(d.scope) < Priority(all[k].scope))
    ensures FirstHighest([d] + all, k + 1, n, shipped) && ([d] + all)[k + 1] == all[k]
  {}

  /** A definition that does not outrank the first one changes nothing. */
  lemma InsertSecond(first: Definition, d: Definition, rest: seq<Definition>, k: nat, n: string, shipped: bool)
    requires FirstHighest([first] + rest, k, n, shipped) && Eligible(first, n, shipped)
    requires Eligible(d, n, shipped) ==> Priority(d.scope) <= Priority(first.scope)
    ensures var k' := if k == 0 then 0 else k + 1;
            FirstHighest([first, d] + rest, k', n, shipped) && ([first, d] + rest)[k'] == ([first] + rest)[k]
  {
    var all, all' := [first, d] + rest, [first] + rest;
    assert all'[0] == first;
    assert forall j | 2 <= j < |all| :: all[j] == all'[j - 1];
  }

  /** `best` is the choice among `all`, found at `k`. */
  predicate IsBest(all: seq<Definition>, best: Option<Definition>, k: nat, n: string, shipped: bool) {
    if best.None? then NoneEligible(all, n, shipped) else FirstHighest(all, k, n, shipped) && all[k] == best.value
  }

  /** Of a first choice and a definition that outranks it, the latter counts. */
  lemma BestOfBetter(first: Definition, d: Definition, rest: seq<Definition>, best: Option<Definition>, k: nat, n: string,
                     shipped: bool)
    requires Eligible(d, n, shipped) && Priority(d.scope) > Priority(first.scope)
    requires IsBest([d] + rest, best, k, n, shipped)
    ensures IsBest([first] + ([d] + rest), best, k + 1, n, shipped)
  {
    assert ([d] + rest)[0] == d;
    PrependLower(first, [d] + rest, k, n, shipped);
  }

  /** A definition that does not outrank the first choice is passed over. */
  lemma BestOfWorse(first: Definition, d: Definition, rest: seq<Definition>, best: Option<Definition>, k: nat, n: string,
                    shipped: bool)
    requires Eligible(first, n, shipped) && (Eligible(d, n, shipped) ==> Priority(d.scope) <= Priority(first.scope))
    requires IsBest([first] + rest, best, k, n, shipped)
    ensures IsBest([first] + ([d] + rest), best, if k == 0 then 0 else k + 1, n, shipped)
  {
    assert ([first] + rest)[0] == first;
    assert [first] + ([d] + rest) == [first, d] + rest;
    InsertSecond(first, d, rest, k, n, shipped);
  }

  /** Before there is a choice, a definition that may not stand for the name is passed over. */
  lemma BestOfIneligible(d: Definition, rest: seq<Definition>, best: Option<Definition>, k: nat, n: string, shipped: bool)
    requires !Eligible(d, n, shipped) && IsBest(rest, best, k, n, shipped)
    ensures IsBest([d] + rest, best, k + 1, n, shipped)
  {
    if best.Some? {
      PrependLower(d, rest, k, n, shipped);
    }
  }

  /** The choice made one definition at a time is the first of highest priority. */
  lemma {:induction false} BestIsFirstHighest(sofar: Option<Definition>, defs: seq<Definition>, n: string, shipped: bool)
    returns (k: nat)
    requires sofar.Some? ==> Eligible(sofar.value, n, shipped)
    ensures IsBest(Candidates(sofar, defs), Best(sofar, defs, n, shipped), k, n, shipped)
    decreases |defs|
  {
    if defs == [] {
      k := 0;
    } else {
      var d, rest := defs[0], defs[1..];
      var better := Eligible(d, n, shipped) && (sofar.None? || Priority(d.scope) > Priority(sofar.value.scope));
      k := BestIsFirstHighest(if better then Some(d) else sofar, rest, n, shipped);
      assert [d] + rest == defs;
      var best := Best(sofar, defs, n, shipped);
      if sofar.Some? && better {
        BestOfBetter(sofar.value, d, rest, best, k, n, shipped);
        k := k + 1;
      } else if sofar.Some? {
        BestOfWorse(sofar.value, d, rest, best, k, n, shipped);
        k := if k == 0 then 0 else k + 1;
      } else if !better {
        BestOfIneligible(d, rest, best, k, n, shipped);
        k := k + 1;
      }
    }
  }

  /** Listed names are unique, whatever was discovered and in whatever order. */
  lemma {:induction false} EnabledEntry(entries: seq<Entry>, toggle: map<string, bool>, n: string)
    requires UniqueNames(entries)
    ensures EntryFor(Enabled(entries, toggle), n) == if IsOn(toggle, n) then EntryFor(entries, n) else None
    ensures UniqueNames(Enabled(entries, toggle))
    ensures forall e | e in Enabled(entries, toggle) :: e in entries
  {
    if entries != [] {
      EnabledEntry(entries[1..], toggle, n);
      var rest := Enabled(entries[1..], toggle);
      forall i | 0 <= i < |rest| ensures rest[i].name != entries[0].name {
        assert rest[i] in entries[1..];
      }
      AfterFirst(entries, n);
      if IsOn(toggle, entries[0].name) {
        AfterFirst([entries[0]] + rest, n);
      } else {
        assert Enabled(entries, toggle) == rest;
      }
    }
  }

  lemma AfterFirst(entries: seq<Entry>, n: string)
    requires entries != []
    ensures EntryFor(entries, n) == if entries[0].name == n then Some(entries[0]) else EntryFor(entries[1..], n)
  {}

  lemma ListedNamesAreUnique(cat: Catalogue, discovered: seq<Definition>, toggle: map<string, bool>)
    ensures UniqueNames(Listing(cat, discovered, toggle))
  {
    SeedsShown(cat, "");
    MergedEntry(cat, Seeds(cat), None, discovered, "");
    EnabledEntry(MergedWith(Seeds(cat), discovered), toggle, "");
  }

  /** The list shows, under every name that is not switched off by name, the best definition or else the built-in subagent. */
  lemma ListingShowsBest(cat: Catalogue, discovered: seq<Definition>, toggle: map<string, bool>, n: string)
    ensures EntryFor(Listing(cat, discovered, toggle), n)
         == if n in toggle && !toggle[n] then None else Shown(cat, n, Best(None, discovered, n, SubagentNamed(n).Some?))
  {
    SeedsShown(cat, n);
    MergedEntry(cat, Seeds(cat), None, discovered, n);
    EnabledEntry(MergedWith(Seeds(cat), discovered), toggle, n);
  }

  // ---------------------------------------------------------------- visible equals callable

  /** Directory entries have distinct names, and every `X.md` that parses declares the name X. */
  predicate Honest(files: seq<File>) {
    && (forall i, j | 0 <= i < j < |files| :: files[i].name != files[j].name)
    && (forall f | f in files && IsMd(f.name) && f.agent.Some? :: f.agent.value.name == f.name[..|f.name| - 3])
  }

  predicate AllHonest(sources: seq<Source>) {
    forall src | src in sources :: Honest(src.files)
  }

  lemma NoSuchFile(files: seq<File>, file: string)
    requires forall f | f in files :: f.name != file
    ensures AgentAt(files, file).None?
  {}

  predicate Has(defs: seq<Definition>, n: string, def: Definition) { def in defs && def.name == n }

  /** What a directory adds under `n` is what the search would find in it. */
  lemma {:induction false} AddedIffNamed(files: seq<File>, scope: Scope, sofar: seq<Definition>, n: string, def: Definition)
    requires Honest(files) && n != ""
    ensures Has(AddedFrom(files, scope, sofar), n, def)
            <==> Has(sofar, n, def) || (n !in NamesIn(sofar) && AgentAt(files, n + MD).Some?
                                        && def == AgentAt(files, n + MD).value.(scope := scope))
    decreases |files|
  {
    if files != [] {
      var f := files[0];
      assert f in files;
      var taken := IsMd(f.name) && f.agent.Some? && f.agent.value.name !in NamesIn(sofar);
      if taken {
        NamesOfMore(sofar, f.agent.value.(scope := scope));
        AddedIffNamed(files[1..], scope, sofar + [f.agent.value.(scope := scope)], n, def);
      } else {
        AddedIffNamed(files[1..], scope, sofar, n, def);
      }
      if f.name == n + MD {
        assert IsMd(f.name) && f.name[..|f.name| - 3] == n;
        NoSuchFile(files[1..], n + MD);
      } else if taken {
        assert f.name[..|f.name| - 3] + MD == f.name;
      }
    }
  }

  lemma {:induction false} FoundIsNamed(sources: seq<Source>, n: string, def: Definition)
    requires AllHonest(sources) && n != "" && FirstIn(sources, n) == Some(def)
    ensures def.name == n
    decreases |sources|
  {
    assert sources[0] in sources;
    if AgentAt(sources[0].files, n + MD).Some? {
      AddedIffNamed(sources[0].files, sources[0].scope, [], n, def);
    } else {
      FoundIsNamed(sources[1..], n, def);
    }
  }

  lemma TakenNames(files: seq<File>, scope: Scope, sofar: seq<Definition>, n: string)
    requires Honest(files) && n != ""
    ensures n in NamesIn(AddedFrom(files, scope, sofar)) <==> n in NamesIn(sofar) || AgentAt(files, n + MD).Some?
  {
    var added := AddedFrom(files, scope, sofar);
    if n in NamesIn(added) {
      var d :| d in added && d.name == n;
      AddedIffNamed(files, scope, sofar, n, d);
    } else if n in NamesIn(sofar) {
      var d :| d in sofar && d.name == n;
      AddedIffNamed(files, scope, sofar, n, d);
    } else if AgentAt(files, n + MD).Some? {
      AddedIffNamed(files, scope, sofar, n, AgentAt(files, n + MD).value.(scope := scope));
    }
  }

  /** What discovery keeps under `n` is what the search through the same directories finds. */
  lemma {:induction false} DiscoveredIffFirst(sources: seq<Source>, sofar: seq<Definition>, n: string, def: Definition)
    requires AllHonest(sources) && n != ""
    ensures Has(Discovered(sources, sofar), n, def)
            <==> Has(sofar, n, def) || (n !in NamesIn(sofar) && FirstIn(sources, n) == Some(def))
    decreases |sources|
  {
    if sources != [] {
      var src := sources[0];
      assert src in sources;
      AddedIffNamed(src.files, src.scope, sofar, n, def);
      TakenNames(src.files, src.scope, sofar, n);
      DiscoveredIffFirst(sources[1..], AddedFrom(src.files, src.scope, sofar), n, def);
    }
  }

  lemma {:induction false} NoFileIsNamedEmpty(files: seq<File>, scope: Scope, sofar: seq<Definition>)
    requires Honest(files) && "" !in NamesIn(sofar)
    ensures "" !in NamesIn(AddedFrom(files, scope, sofar))
    decreases |files|
  {
    if files != [] {
      var f := files[0];
      assert f in files;
      if IsMd(f.name) && f.agent.Some? && f.agent.value.name !in NamesIn(sofar) {
        NamesOfMore(sofar, f.agent.value.(scope := scope));
        NoFileIsNamedEmpty(files[1..], scope, sofar + [f.agent.value.(scope := scope)]);
      } else {
        NoFileIsNamedEmpty(files[1..], scope, sofar);
      }
    }
  }

  lemma {:induction false} NothingIsNamedEmpty(sources: seq<Source>, sofar: seq<Definition>)
    requires AllHonest(sources) && "" !in NamesIn(sofar)
    ensures "" !in NamesIn(Discovered(sources, sofar))
    decreases |sources|
  {
    if sources != [] {
      assert sources[0] in sources;
      NoFileIsNamedEmpty(sources[0].files, sources[0].scope, sofar);
      NothingIsNamedEmpty(sources[1..], AddedFrom(sources[0].files, sources[0].scope, sofar));
    }
  }

  predicate HasScopes(sources: seq<Source>, scopes: set<Scope>) {
    forall src | src in sources :: src.scope in scopes
  }

  lemma {:induction false} FirstAcross(project: seq<Source>, user: seq<Source>, n: string)
    requires HasScopes(project, {Project}) && HasScopes(user, {User, Bundled})
    ensures FirstIn(project + user, n) == if FirstIn(project, n).Some? then FirstIn(project, n) else FirstIn(user, n)
    ensures FirstIn(project, n).Some? ==> FirstIn(project, n).value.scope.Project?
    ensures FirstIn(user, n).Some? ==> FirstIn(user, n).value.scope.User? || FirstIn(user, n).value.scope.Bundled?
    decreases |project|, |user|
  {
    if project != [] {
      assert (project + user)[1..] == project[1..] + user;
      assert project[0] in project;
      FirstAcross(project[1..], user, n);
    } else {
      assert project + user == user;
      if user != [] {
        assert user[0] in user;
        FirstAcross(project, user[1..], n);
        assert project + user[1..] == user[1..];
      }
    }
  }

  /** A single definition under `n` is the best one if it is eligible. */
  lemma {:induction false} BestOfOne(sofar: Option<Definition>, defs: seq<Definition>, n: string, shipped: bool, only: Option<Definition>)
    requires forall d :: d in defs && d.name == n ==> only == Some(d)
    requires sofar.Some? ==> sofar == only
    ensures Best(sofar, defs, n, shipped)
         == if sofar.None? && only.Some? && only.value in defs && Eligible(only.value, n, shipped) then only else sofar
    decreases |defs|
  {
    if defs != [] {
      var d := defs[0];
      var better := Eligible(d, n, shipped) && (sofar.None? || Priority(d.scope) > Priority(sofar.value.scope));
      BestOfOne(if better then Some(d) else sofar, defs[1..], n, shipped, only);
    }
  }

  /** The definition that stands for `n` in the list. */
  lemma BestDiscovered(project: seq<Source>, user: seq<Source>, n: string)
    requires AllHonest(project) && AllHonest(user)
    requires HasScopes(project, {Project}) && HasScopes(user, {User, Bundled})
    ensures Best(None, Discovered(project + user, []), n, SubagentNamed(n).Some?)
         == Chosen(n, FirstIn(project, n), FirstIn(user, n))
  {
    var all := Discovered(project + user, []);
    FirstAcross(project, user, n);
    if n == "" {
      NothingIsNamedEmpty(project + user, []);
      forall d | d in all ensures d.name != n {
        assert d.name in NamesIn(all);
      }
      BestOfOne(None, all, n, SubagentNamed(n).Some?, None);
    } else {
      var first := FirstIn(project + user, n);
      forall d | d in all && d.name == n ensures first == Some(d) {
        DiscoveredIffFirst(project + user, [], n, d);
      }
      BestOfOne(None, all, n, SubagentNamed(n).Some?, first);
      if first.Some? {
        DiscoveredIffFirst(project + user, [], n, first.value);
      }
    }
  }

  /** What an entry says about the definition it stands for, and where a user would edit it. */
  predicate Describes(entry: Entry, def: Definition) {
    && entry.name == def.name && entry.description == def.description
    && match def.scope
       case BuiltIn =>
         entry.source.ShippedAs? && NameOf(entry.source.b) == def.name && entry.shadows.None? && entry.config.FromBuiltin?
       case _ =>
         && entry.source == UserDefined(def.scope)
         && (entry.shadows.Some? <==> IsAdvertised(def.name))
         && (entry.shadows.Some? ==> NameOf(entry.shadows.value) == def.name)
         && entry.config == (if def.scope.Project? then FromProject(def.path)
                             else if def.scope.User? then FromUser(def.path) else FromBuiltin)
  }

  lemma EntriesDescribe(cat: Catalogue, def: Definition)
    requires def.scope.BuiltIn? ==> FromStr(def.name).Some? && def == BuiltinDefinition(cat, FromStr(def.name).value)
    ensures Describes(EntryOf(cat, def), def)
  {
    BuiltinNamesExactly(def.name);
  }

  /** The entry shown for a name that is on or not, against the definition found for it. */
  predicate Matches(on: bool, shown: Option<Entry>, found: Option<Definition>) {
    && (shown.Some? <==> on && found.Some?)
    && (shown.Some? && found.Some? ==> Describes(shown.value, found.value))
  }

  /** A name is listed iff it is not switched off and the search finds it, and then for the definition found. */
  predicate Agree(cat: Catalogue, project: seq<Source>, user: seq<Source>, toggle: map<string, bool>, n: string) {
    Matches(n !in toggle || toggle[n], EntryFor(Listing(cat, Discovered(project + user, []), toggle), n),
            Lookup(cat, project, user, n))
  }

  /** A built-in that is not advertised, and that no project directory defines. */
  predicate HiddenBuiltin(project: seq<Source>, n: string) {
    IsUnadvertised(n) && FirstIn(project, n).None?
  }

  /** A file called just `.md`: the search for the empty name opens it, the listing does not read it. */
  predicate NamelessFile(project: seq<Source>, user: seq<Source>, n: string) {
    n == "" && (FirstIn(project, n).Some? || FirstIn(user, n).Some?)
  }

  /** Choosing among what the project (`p`) and the user directories (`u`) define, as the list does. */
  function Chosen(n: string, p: Option<Definition>, u: Option<Definition>): Option<Definition> {
    if n == "" then None else if p.Some? then p else if SubagentNamed(n).Some? then None else u
  }

  predicate Fits(def: Option<Definition>, n: string, scopes: set<Scope>) {
    def.Some? ==> def.value.scope in scopes && (n != "" ==> def.value.name == n)
  }

  /** What the search finds, given what the project (`p`) and the user directories (`u`) define. */
  function Found(cat: Catalogue, n: string, p: Option<Definition>, u: Option<Definition>): Option<Definition> {
    if p.Some? then p else if FromStr(n).Some? then Some(BuiltinDefinition(cat, FromStr(n).value)) else u
  }

  lemma FileAgrees(cat: Catalogue, n: string, def: Definition)
    requires !def.scope.BuiltIn?
    ensures Matches(true, Shown(cat, n, Some(def)), Some(def))
  {
    EntriesDescribe(cat, def);
  }

  lemma BuiltinAgreesIff(cat: Catalogue, n: string, u: Option<Definition>)
    requires FromStr(n).Some? && Fits(u, n, {User, Bundled})
    ensures Matches(true, Shown(cat, n, if SubagentNamed(n).Some? then None else u),
                    Some(BuiltinDefinition(cat, FromStr(n).value)))
            <==> SubagentNamed(n).Some?
  {
    EntriesDescribe(cat, BuiltinDefinition(cat, FromStr(n).value));
  }

  lemma EmptyNameIsNoBuiltin()
    ensures FromStr("").None? && SubagentNamed("").None? && !IsUnadvertised("")
  {}

  /** The entry shown for a name that is on matches what the search finds. */
  predicate AgreeOn(cat: Catalogue, n: string, p: Option<Definition>, u: Option<Definition>) {
    Matches(true, Shown(cat, n, Chosen(n, p, u)), Found(cat, n, p, u))
  }

  lemma ProjectFileAgrees(cat: Catalogue, n: string, p: Option<Definition>, u: Option<Definition>)
    requires n != "" && Fits(p, n, {Project}) && p.Some?
    ensures AgreeOn(cat, n, p, u)
  {
    FileAgrees(cat, n, p.value);
  }

  lemma UserFileAgrees(cat: Catalogue, n: string, u: Option<Definition>)
    requires n != "" && Fits(u, n, {User, Bundled}) && FromStr(n).None?
    ensures AgreeOn(cat, n, None, u)
  {
    if u.Some? {
      FileAgrees(cat, n, u.value);
    }
  }

  lemma EmptyNameAgreesIff(cat: Catalogue, p: Option<Definition>, u: Option<Definition>)
    ensures AgreeOn(cat, "", p, u) <==> p.None? && u.None?
  {
    EmptyNameIsNoBuiltin();
  }

  /** The list and the search agree on a name that is on, except in the two cases. */
  lemma AgreementCases(cat: Catalogue, n: string, p: Option<Definition>, u: Option<Definition>)
    requires Fits(p, n, {Project}) && Fits(u, n, {User, Bundled})
    ensures AgreeOn(cat, n, p, u)
            <==> !((FromStr(n).Some? && SubagentNamed(n).None? && p.None?) || (n == "" && (p.Some? || u.Some?)))
  {
    if n == "" {
      EmptyNameIsNoBuiltin();
      EmptyNameAgreesIff(cat, p, u);
    } else if p.Some? {
      ProjectFileAgrees(cat, n, p, u);
    } else if FromStr(n).Some? {
      BuiltinAgreesIff(cat, n, u);
    } else {
      UserFileAgrees(cat, n, u);
    }
  }

  lemma HiddenIsUnadvertised(n: string)
    ensures IsUnadvertised(n) <==> FromStr(n).Some? && SubagentNamed(n).None?
  {
    BuiltinNamesExactly(n);
    if FromStr(n).Some? {
      NamesAreSpelt(FromStr(n).value);
    }
  }

  lemma EntryShown(cat: Catalogue, project: seq<Source>, user: seq<Source>, toggle: map<string, bool>, n: string)
    requires AllHonest(project) && AllHonest(user)
    requires HasScopes(project, {Project}) && HasScopes(user, {User, Bundled})
    ensures EntryFor(Listing(cat, Discovered(project + user, []), toggle), n)
         == if IsOn(toggle, n) then Shown(cat, n, Chosen(n, FirstIn(project, n), FirstIn(user, n))) else None
  {
    ListingShowsBest(cat, Discovered(project + user, []), toggle, n);
    BestDiscovered(project, user, n);
  }

  lemma FoundFits(project: seq<Source>, user: seq<Source>, n: string)
    requires AllHonest(project) && AllHonest(user)
    requires HasScopes(project, {Project}) && HasScopes(user, {User, Bundled})
    ensures Fits(FirstIn(project, n), n, {Project}) && Fits(FirstIn(user, n), n, {User, Bundled})
  {
    var p, u := FirstIn(project, n), FirstIn(user, n);
    FirstAcross(project, user, n);
    if n != "" && p.Some? {
      FoundIsNamed(project, n, p.value);
    }
    if n != "" && u.Some? {
      FoundIsNamed(user, n, u.value);
    }
  }

  /** Visible equals callable, except for hidden built-ins and the empty name. */
  lemma VisibleIffCallable(cat: Catalogue, project: seq<Source>, user: seq<Source>, toggle: map<string, bool>, n: string)
    requires AllHonest(project) && AllHonest(user)
    requires HasScopes(project, {Project}) && HasScopes(user, {User, Bundled})
    ensures Agree(cat, project, user, toggle, n)
            <==> (n in toggle && !toggle[n]) || !(HiddenBuiltin(project, n) || NamelessFile(project, user, n))
  {
    FoundFits(project, user, n);
    EntryShown(cat, project, user, toggle, n);
    AgreementCases(cat, n, FirstIn(project, n), FirstIn(user, n));
    HiddenIsUnadvertised(n);
  }

  // ---------------------------------------------------------------- on the directories of a machine

  /** Directories are searched in falling scope priority, the configured home first. */
  lemma UserDirsFallInPriority(home: Option<DirPath>, ezerHome: Option<DirPath>)
    ensures var dirs := UserAgentDirs(home, ezerHome);
            && (forall i | 0 <= i < |dirs| :: dirs[i].1 in {User, Bundled})
            && (forall i, j | 0 <= i < j < |dirs| :: Priority(dirs[i].1) >= Priority(dirs[j].1))
            && (ezerHome.Some? ==> dirs != [] && dirs[0] == (ezerHome.value + ["agents"], User))
    ensures home.Some? && ezerHome == Some(home.value + [".ezer"]) ==>
              UserAgentDirs(home, ezerHome) ==
              [(home.value + [".ezer"] + ["agents"], User), (home.value + [".claude", "agents"], User),
               (home.value + [".ezer"] + ["bundled", "agents"], Bundled)]
    ensures home.Some? && ezerHome.Some? && ezerHome != Some(home.value + [".ezer"]) ==>
              UserAgentDirs(home, ezerHome) ==
              [(ezerHome.value + ["agents"], User), (home.value + [".ezer"] + ["agents"], User),
               (home.value + [".claude", "agents"], User), (ezerHome.value + ["bundled", "agents"], Bundled),
               (home.value + [".ezer"] + ["bundled", "agents"], Bundled)]
  {
    var legacy := LegacyDotEzer(home, ezerHome);
    var user := Under(ezerHome, ["agents"], User) + Under(legacy, ["agents"], User)
                + Under(home, [".claude", "agents"], User);
    var bundled := Under(ezerHome, ["bundled", "agents"], Bundled) + Under(legacy, ["bundled", "agents"], Bundled);
    assert UserAgentDirs(home, ezerHome) == user + bundled;
    assert forall k | 0 <= k < |user| :: user[k].1 == User;
    assert forall k | 0 <= k < |bundled| :: bundled[k].1 == Bundled;
  }

  predicate HonestDisk(fs: FileSystem) {
    forall dir | dir in fs :: Honest(fs[dir])
  }

  lemma {:induction false} ProjectSourcesFit(fs: FileSystem, dirs: seq<DirPath>)
    requires HonestDisk(fs)
    ensures AllHonest(ProjectSources(fs, dirs)) && HasScopes(ProjectSources(fs, dirs), {Project})
  {
    if dirs != [] {
      ProjectSourcesFit(fs, dirs[1..]);
    }
  }

  lemma {:induction false} UserSourcesFit(fs: FileSystem, dirs: seq<(DirPath, Scope)>)
    requires HonestDisk(fs) && forall i | 0 <= i < |dirs| :: dirs[i].1 in {User, Bundled}
    ensures AllHonest(UserSources(fs, dirs)) && HasScopes(UserSources(fs, dirs), {User, Bundled})
  {
    if dirs != [] {
      UserSourcesFit(fs, dirs[1..]);
    }
  }

  /** The same for the directories of a machine: what `AllSubagents` lists and `ByNameInCwd` finds. */
  lemma VisibleIffCallableOnDisk(cat: Catalogue, fs: FileSystem, chain: seq<DirPath>, home: Option<DirPath>,
                                 ezerHome: Option<DirPath>, toggle: map<string, bool>, n: string)
    requires HonestDisk(fs)
    ensures var project := ProjectSources(fs, ProjectDirs(fs, chain));
            var user := UserSources(fs, UserAgentDirs(home, ezerHome));
            Agree(cat, project, user, toggle, n)
            <==> (n in toggle && !toggle[n]) || !(HiddenBuiltin(project, n) || NamelessFile(project, user, n))
  {
    UserDirsFallInPriority(home, ezerHome);
    ProjectSourcesFit(fs, ProjectDirs(fs, chain));
    UserSourcesFit(fs, UserAgentDirs(home, ezerHome));
    VisibleIffCallable(cat, ProjectSources(fs, ProjectDirs(fs, chain)),
                       UserSources(fs, UserAgentDirs(home, ezerHome)), toggle, n);
  }
}
