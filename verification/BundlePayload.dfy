/**
 What a payload asks for and what an archive carries, spelt out: the tables of the JSON payload and the
 members of the archive by the literal paths they are installed at.
 */
module BundlePayload {
  import opened Prelude
  import opened BundleNames
  import opened BundleSync
  import opened BundleInputs

  function PersonaPath(n: string): string { "personas/" + n + ".toml" }
  function RolePath(n: string): string { "roles/" + n + ".toml" }
  function AgentPath(n: string): string { "agents/" + n + ".md" }
  function SkillPath(n: string): string { "skills/" + n + "/SKILL.md" }
  function WorkflowPath(n: string): string { "workflows/" + n + ".rhai" }

  lemma PathsAreSpelt(n: string)
    ensures RelativePathFor(Persona, n) == PersonaPath(n) && RelativePathFor(Role, n) == RolePath(n)
    ensures RelativePathFor(Agent, n) == AgentPath(n) && RelativePathFor(Skill, n) == SkillPath(n)
    ensures RelativePathFor(Workflow, n) == WorkflowPath(n)
  {
    PlainPathIsSpelt(Persona, n, "personas/", ".toml");
    PlainPathIsSpelt(Role, n, "roles/", ".toml");
    PlainPathIsSpelt(Agent, n, "agents/", ".md");
    PlainPathIsSpelt(Workflow, n, "workflows/", ".rhai");
    assert "skills" + "/" == "skills/";
  }

  lemma PlainPathIsSpelt(kind: Kind, n: string, front: string, back: string)
    requires kind != Skill && DirName(kind) + "/" == front && "." + Extension(kind) == back
    ensures RelativePathFor(kind, n) == front + n + back
  {
    assert DirName(kind) + "/" + (n + "." + Extension(kind)) == (DirName(kind) + "/") + n + ("." + Extension(kind));
  }

  /** Letters, digits, dashes and underscores make a name. */
  predicate IsPlain(n: string) {
    n != "" && forall i | 0 <= i < |n| ::
      'a' <= n[i] <= 'z' || 'A' <= n[i] <= 'Z' || '0' <= n[i] <= '9' || n[i] == '-' || n[i] == '_'
  }

  lemma PlainNamesAreValid(n: string)
    requires IsPlain(n)
    ensures ValidName(n)
  {
    assert n[0] != '.';
  }

  // ---------------------------------------------------------------- the JSON payload

  predicate AskedAs(entries: map<string, Content>, path: string -> string, p: string) {
    exists n :: n in entries && p == path(n)
  }

  /** The payload asks for exactly the files of its four tables, each below its own directory. */
  lemma PayloadExactly(bundle: Bundle, p: string)
    ensures p in BundleFiles(bundle) <==>
            || AskedAs(bundle.personas, PersonaPath, p) || AskedAs(bundle.roles, RolePath, p)
            || AskedAs(bundle.agents, AgentPath, p) || AskedAs(bundle.skills, SkillPath, p)
  {
    KindsOfPayload(bundle, p);
    AskedIsHasPath(Persona, bundle.personas, p);
    AskedIsHasPath(Role, bundle.roles, p);
    AskedIsHasPath(Agent, bundle.agents, p);
    AskedIsHasPath(Skill, bundle.skills, p);
  }

  /** The literal path function of a kind. */
  function PathFunction(kind: Kind): string -> string {
    match kind
    case Persona => PersonaPath
    case Role => RolePath
    case Agent => AgentPath
    case Skill => SkillPath
    case Workflow => WorkflowPath
  }

  lemma AskedIsHasPath(kind: Kind, entries: map<string, Content>, p: string)
    ensures AskedAs(entries, PathFunction(kind), p) <==> HasPath(kind, entries, p)
  {
    if n :| n in entries && p == PathFunction(kind)(n) {
      PathsAreSpelt(n);
      assert p == RelativePathFor(kind, n);
    }
    if n :| n in entries && p == RelativePathFor(kind, n) {
      PathsAreSpelt(n);
      assert p == PathFunction(kind)(n);
    }
  }

  lemma KindsOfPayload(bundle: Bundle, p: string)
    ensures p in BundleFiles(bundle) <==>
            || HasPath(Persona, bundle.personas, p) || HasPath(Role, bundle.roles, p)
            || HasPath(Agent, bundle.agents, p) || HasPath(Skill, bundle.skills, p)
  {
    var a, b, c, d := [Persona], [Persona, Role], [Persona, Role, Agent], [Persona, Role, Agent, Skill];
    var none: seq<Kind> := [];
    assert JSON_KINDS == d && d == c + [Skill] && c == b + [Agent] && b == a + [Role] && a == none + [Persona];
    FilesOfKindsSnoc(bundle, c, Skill);
    FilesOfKindsSnoc(bundle, b, Agent);
    FilesOfKindsSnoc(bundle, a, Role);
    FilesOfKindsSnoc(bundle, none, Persona);
    FilesOfKindPaths(Persona, bundle.personas, p);
    FilesOfKindPaths(Role, bundle.roles, p);
    FilesOfKindPaths(Agent, bundle.agents, p);
    FilesOfKindPaths(Skill, bundle.skills, p);
  }

  /** A file of one kind keeps its content when other kinds are added. */
  lemma {:induction false} ContentOfKind(bundle: Bundle, kinds: seq<Kind>, kind: Kind, n: string)
    requires kind in kinds && n in Section(bundle, kind)
    ensures RelativePathFor(kind, n) in FilesOfKinds(bundle, kinds)
    ensures FilesOfKinds(bundle, kinds)[RelativePathFor(kind, n)] == Section(bundle, kind)[n]
    decreases kinds
  {
    var k, last, path := |kinds| - 1, kinds[|kinds| - 1], RelativePathFor(kind, n);
    if last == kind {
      FilesOfKindAt(kind, Section(bundle, kind), n);
    } else {
      assert kinds == kinds[..k] + [last];
      ContentOfKind(bundle, kinds[..k], kind, n);
      FilesOfKindPaths(last, Section(bundle, last), path);
      if m :| m in Section(bundle, last) && path == RelativePathFor(last, m) {
        BundlePathsAreInjective(last, m, kind, n);
      }
    }
  }

  /** The content at each of those paths is that of the table it comes from. */
  lemma PayloadContents(bundle: Bundle, n: string)
    ensures n in bundle.personas ==> Recorded(BundleFiles(bundle), PersonaPath(n)) == Some(bundle.personas[n])
    ensures n in bundle.roles ==> Recorded(BundleFiles(bundle), RolePath(n)) == Some(bundle.roles[n])
    ensures n in bundle.agents ==> Recorded(BundleFiles(bundle), AgentPath(n)) == Some(bundle.agents[n])
    ensures n in bundle.skills ==> Recorded(BundleFiles(bundle), SkillPath(n)) == Some(bundle.skills[n])
  {
    PathsAreSpelt(n);
    assert JSON_KINDS[0] == Persona && JSON_KINDS[1] == Role && JSON_KINDS[2] == Agent && JSON_KINDS[3] == Skill;
    if n in bundle.personas { ContentOfKind(bundle, JSON_KINDS, Persona, n); }
    if n in bundle.roles { ContentOfKind(bundle, JSON_KINDS, Role, n); }
    if n in bundle.agents { ContentOfKind(bundle, JSON_KINDS, Agent, n); }
    if n in bundle.skills { ContentOfKind(bundle, JSON_KINDS, Skill, n); }
  }

  /** The payload is refused exactly when some name in some table is not a name. */
  lemma PayloadIsValid(bundle: Bundle)
    ensures ValidBundle(bundle) <==>
            forall n | n in bundle.personas || n in bundle.roles || n in bundle.agents || n in bundle.skills :: ValidName(n)
  {
    if forall n | n in bundle.personas || n in bundle.roles || n in bundle.agents || n in bundle.skills :: ValidName(n) {
      forall kind ensures ValidNames(Section(bundle, kind).Keys) {}
    } else {
      var n :| (n in bundle.personas || n in bundle.roles || n in bundle.agents || n in bundle.skills) && !ValidName(n);
      var kind := if n in bundle.personas then Persona else if n in bundle.roles then Role
                  else if n in bundle.agents then Agent else Skill;
      assert !ValidNames(Section(bundle, kind).Keys);
    }
  }

  /** A wanted file the user does not own holds the wanted content after the sync, and is recorded with its checksum. */
  predicate Installed(hash: Hash, disk: Disk, prev: Sums, done: Progress, p: string, content: Content) {
    p !in disk || (p in prev && prev[p] == hash(disk[p])) ==>
      Recorded(done.disk, p) == Some(content) && Recorded(done.sums, p) == Some(hash(content))
  }

  lemma WantedIsInstalled(hash: Hash, disk: Disk, prev: Sums, wanted: Disk, keepWorkflows: bool, p: string)
    requires p in wanted
    ensures Installed(hash, disk, prev, Sync(hash, disk, prev, wanted, keepWorkflows), p, wanted[p])
  {
    SyncAt(hash, disk, prev, wanted, keepWorkflows, p);
  }

  /** After a JSON sync every file of the payload that the user does not own is in place under its literal path. */
  lemma JsonSyncInstalls(hash: Hash, disk: Disk, prev: Sums, bundle: Bundle, n: string)
    ensures var done := Sync(hash, disk, prev, BundleFiles(bundle), true);
            && (n in bundle.personas ==> Installed(hash, disk, prev, done, PersonaPath(n), bundle.personas[n]))
            && (n in bundle.roles ==> Installed(hash, disk, prev, done, RolePath(n), bundle.roles[n]))
            && (n in bundle.agents ==> Installed(hash, disk, prev, done, AgentPath(n), bundle.agents[n]))
            && (n in bundle.skills ==> Installed(hash, disk, prev, done, SkillPath(n), bundle.skills[n]))
  {
    PayloadContents(bundle, n);
    var wanted := BundleFiles(bundle);
    if n in bundle.personas { WantedIsInstalled(hash, disk, prev, wanted, true, PersonaPath(n)); }
    if n in bundle.roles { WantedIsInstalled(hash, disk, prev, wanted, true, RolePath(n)); }
    if n in bundle.agents { WantedIsInstalled(hash, disk, prev, wanted, true, AgentPath(n)); }
    if n in bundle.skills { WantedIsInstalled(hash, disk, prev, wanted, true, SkillPath(n)); }
  }

  // ---------------------------------------------------------------- archives

  /** A member lands on `p` exactly when it is spelt `subagents/p`, or `p` itself below `skills/` or `workflows/`. */
  lemma ArchivePathsExactly(a: string, p: string)
    ensures MapArchivePath(a) == Some(p) <==>
            Sanitary(p) && (a == "subagents/" + p || (a == p && ("skills/" <= p || "workflows/" <= p)))
  {
    var prefix := "subagents/";
    SanitizeNeverRewrites(p);
    SanitizeNeverRewrites(a);
    if prefix <= a {
      SanitizeNeverRewrites(a[|prefix|..]);
      assert a == prefix + a[|prefix|..];
      assert a[1] == 'u' && a[0] == 's';
      assert !("skills/" <= a) by { assert "skills/"[1] == 'k'; }
      assert !("workflows/" <= a) by { assert "workflows/"[0] == 'w'; }
    }
    if a == prefix + p {
      assert prefix <= a && a[|prefix|..] == p;
    }
  }

  /** The path of a member without its leading dot. */
  function Stripped(path: string): string { if "./" <= path then path[2..] else path }

  /** Whether a regular member asks for a file, and which one. */
  ghost predicate Carries(e: Entry, f: File) {
    && e.regular && Stripped(e.path) != "bundle.json" && f.content == e.content
    && Sanitary(f.path)
    && var a := Stripped(e.path);
       a == "subagents/" + f.path || (a == f.path && ("skills/" <= f.path || "workflows/" <= f.path))
  }

  lemma RoleIsCarried(e: Entry, f: File)
    ensures e.regular && RoleOf(e) == Installs(f) <==> Carries(e, f)
  {
    assert |"./"| == 2;
    ArchivePathsExactly(Stripped(e.path), f.path);
  }

  lemma {:induction false} PlanFiles(items: seq<Item>, count: nat, total: nat, f: File)
    requires PlanOf(items, count, total).Some?
    ensures f in PlanOf(items, count, total).value.files <==>
            exists i :: 0 <= i < |items| && items[i].regular && items[i].role == Installs(f)
    decreases items
  {
    if items != [] {
      var rest := items[1..];
      if items[0].regular {
        PlanFiles(rest, count + 1, total + items[0].size, f);
      } else {
        PlanFiles(rest, count, total, f);
      }
      assert forall i | 0 <= i < |rest| :: rest[i] == items[i + 1];
      if i :| 0 <= i < |rest| && rest[i].regular && rest[i].role == Installs(f) {
        assert items[i + 1].regular && items[i + 1].role == Installs(f);
      }
    }
  }

  /** An archive that is accepted installs exactly the files its members carry. */
  lemma ArchiveFilesExactly(entries: seq<Entry>, f: File)
    requires ArchivePlan(entries).Some?
    ensures f in ArchivePlan(entries).value.files <==> exists i :: 0 <= i < |entries| && Carries(entries[i], f)
  {
    var items := ItemsOf(entries);
    PlanFiles(items, 0, 0, f);
    forall i | 0 <= i < |entries|
      ensures items[i].regular && items[i].role == Installs(f) <==> Carries(entries[i], f)
    {
      RoleIsCarried(entries[i], f);
    }
    if i :| 0 <= i < |items| && items[i].regular && items[i].role == Installs(f) {
      assert Carries(entries[i], f);
    }
  }

  function RegularCount(items: seq<Item>): nat {
    if items == [] then 0 else (if items[0].regular then 1 else 0) + RegularCount(items[1..])
  }

  function RegularSize(items: seq<Item>): nat {
    if items == [] then 0 else (if items[0].regular then items[0].size else 0) + RegularSize(items[1..])
  }

  predicate SizesAndVersionsAreGood(items: seq<Item>) {
    forall i | 0 <= i < |items| && items[i].regular ::
      items[i].size <= 1_048_576 && (items[i].role.Versions? ==> items[i].role.version.Some?)
  }

  /** Reading succeeds exactly within the limits: 1000 members, 50 MiB in all, 1 MiB each, every version file parsing. */
  lemma {:induction false} PlanWithinLimits(items: seq<Item>, count: nat, total: nat)
    ensures PlanOf(items, count, total).Some? <==>
            && SizesAndVersionsAreGood(items)
            && (RegularCount(items) > 0 ==> count + RegularCount(items) <= 1000)
            && (RegularCount(items) > 0 ==> total + RegularSize(items) <= 52_428_800)
    decreases items
  {
    if items != [] {
      var item, rest := items[0], items[1..];
      assert SizesAndVersionsAreGood(items) <==>
             (item.regular ==> item.size <= 1_048_576 && (item.role.Versions? ==> item.role.version.Some?))
             && SizesAndVersionsAreGood(rest) by {
        assert items == [item] + rest;
      }
      if item.regular {
        PlanWithinLimits(rest, count + 1, total + item.size);
        NoneHasNoSize(rest);
      } else {
        PlanWithinLimits(rest, count, total);
      }
    }
  }

  lemma {:induction false} NoneHasNoSize(items: seq<Item>)
    ensures RegularCount(items) == 0 ==> RegularSize(items) == 0
  {
    if items != [] {
      NoneHasNoSize(items[1..]);
    }
  }

  /** The last version file decides the version. */
  function LastVersion(items: seq<Item>): Option<string> {
    if items == [] then None
    else
      var later := LastVersion(items[1..]);
      if later.Some? || !items[0].regular || !items[0].role.Versions? then later else items[0].role.version
  }

  lemma {:induction false} PlanVersion(items: seq<Item>, count: nat, total: nat)
    requires PlanOf(items, count, total).Some?
    ensures PlanOf(items, count, total).value.version == LastVersion(items)
    decreases items
  {
    if items != [] {
      if items[0].regular {
        PlanVersion(items[1..], count + 1, total + items[0].size);
      } else {
        PlanVersion(items[1..], count, total);
      }
    }
  }

  /** An archive is accepted exactly when it keeps within the limits and names a version; the last name counts. */
  lemma ArchiveAcceptedExactly(entries: seq<Entry>)
    ensures var items := ItemsOf(entries);
            ArchivePlan(entries).Some? <==>
            && SizesAndVersionsAreGood(items) && RegularCount(items) <= 1000 && RegularSize(items) <= 52_428_800
            && LastVersion(items).Some? && LastVersion(items).value != ""
    ensures ArchivePlan(entries).Some? ==> ArchivePlan(entries).value.version == LastVersion(ItemsOf(entries))
  {
    var items := ItemsOf(entries);
    PlanWithinLimits(items, 0, 0);
    NoneHasNoSize(items);
    if PlanOf(items, 0, 0).Some? {
      PlanVersion(items, 0, 0);
    }
  }
}
