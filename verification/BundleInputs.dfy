/** The two inputs of a bundle sync: the JSON payload and the archive. */
module BundleInputs {
  import opened Prelude
  import opened BundleNames
  import opened BundleSync

  /** The JSON payload: one table of named files per kind, workflows excepted. */
  datatype Bundle = Bundle(
    version: string,
    personas: map<string, Content>,
    roles: map<string, Content>,
    agents: map<string, Content>,
    skills: map<string, Content>)

  function Section(bundle: Bundle, kind: Kind): map<string, Content> {
    match kind
    case Persona => bundle.personas
    case Role => bundle.roles
    case Agent => bundle.agents
    case Skill => bundle.skills
    case Workflow => map[]
  }

  const JSON_KINDS: seq<Kind> := [Persona, Role, Agent, Skill]

  predicate ValidBundle(bundle: Bundle) {
    forall kind :: ValidNames(Section(bundle, kind).Keys)
  }

  /** The files of some kinds of the bundle, by path. */
  function FilesOfKinds(bundle: Bundle, kinds: seq<Kind>): Disk {
    if kinds == [] then map[]
    else
      var n := |kinds| - 1;
      FilesOfKinds(bundle, kinds[..n]) + FilesOfKind(kinds[n], Section(bundle, kinds[n]))
  }

  function FilesOfKind(kind: Kind, entries: map<string, Content>): Disk {
    map p | p in (set n | n in entries :: RelativePathFor(kind, n)) && NameOf(kind, p) in entries ::
      entries[NameOf(kind, p)]
  }

  /** Every file the JSON payload asks for, by path. */
  function BundleFiles(bundle: Bundle): Disk {
    FilesOfKinds(bundle, JSON_KINDS)
  }

  lemma FilesOfKindAt(kind: Kind, entries: map<string, Content>, name: string)
    ensures RelativePathFor(kind, name) in FilesOfKind(kind, entries) <==> name in entries
    ensures name in entries ==> FilesOfKind(kind, entries)[RelativePathFor(kind, name)] == entries[name]
  {
    NameOfInverts(kind, name);
  }

  predicate HasPath(kind: Kind, entries: map<string, Content>, path: string) {
    exists name :: name in entries && path == RelativePathFor(kind, name)
  }

  lemma FilesOfKindPaths(kind: Kind, entries: map<string, Content>, path: string)
    ensures path in FilesOfKind(kind, entries) <==> HasPath(kind, entries, path)
  {
    if name :| name in entries && path == RelativePathFor(kind, name) {
      FilesOfKindAt(kind, entries, name);
    }
  }

  /** The kind whose section asks for `path`, if any. */
  function KindAsking(bundle: Bundle, kinds: seq<Kind>, path: string): (r: Option<Kind>)
    ensures r.Some? ==> r.value in kinds && path in FilesOfKind(r.value, Section(bundle, r.value))
  {
    if kinds == [] then None
    else
      var n := |kinds| - 1;
      if path in FilesOfKind(kinds[n], Section(bundle, kinds[n])) then Some(kinds[n])
      else KindAsking(bundle, kinds[..n], path)
  }

  lemma {:induction false} FilesOfKindsAt(bundle: Bundle, kinds: seq<Kind>, path: string)
    ensures path in FilesOfKinds(bundle, kinds) <==> KindAsking(bundle, kinds, path).Some?
  {
    if kinds != [] {
      FilesOfKindsAt(bundle, kinds[..|kinds| - 1], path);
    }
  }

  /** The payload's paths are accepted by the sanitiser, and none of them is a workflow. */
  lemma BundleFilePaths(bundle: Bundle, path: string)
    requires ValidBundle(bundle) && path in BundleFiles(bundle)
    ensures Sanitary(path) && !StartsWith(path, "workflows/")
  {
    FilesOfKindsAt(bundle, JSON_KINDS, path);
    var kind := KindAsking(bundle, JSON_KINDS, path).value;
    FilesOfKindPaths(kind, Section(bundle, kind), path);
    var name :| name in Section(bundle, kind) && path == RelativePathFor(kind, name);
    assert ValidNames(Section(bundle, kind).Keys);
    BundlePathsAreSanitary(kind, name);
    DirOfPath(kind, name);
  }

  /** `files` lists each file of `wanted` once, in some order. */
  predicate Lists(files: seq<File>, wanted: Disk) {
    DistinctPaths(files) && Wanted(files) == wanted
  }

  lemma {:induction false} WantedSnoc(files: seq<File>, f: File)
    requires f.path !in Wanted(files)
    ensures Wanted(files + [f]) == Wanted(files)[f.path := f.content]
    decreases files
  {
    var longer := files + [f];
    if files == [] {
      assert longer[1..] == [];
    } else {
      assert longer[0] == files[0] && longer[1..] == files[1..] + [f];
      WantedSnoc(files[1..], f);
    }
  }

  lemma ListsSnoc(files: seq<File>, wanted: Disk, f: File)
    requires Lists(files, wanted) && f.path !in wanted
    ensures Lists(files + [f], wanted[f.path := f.content])
  {
    WantedSnoc(files, f);
    WantedPaths(files);
  }

  lemma FilesOfKindAdd(kind: Kind, entries: map<string, Content>, name: string, content: Content)
    requires name !in entries
    ensures RelativePathFor(kind, name) !in FilesOfKind(kind, entries)
    ensures FilesOfKind(kind, entries[name := content]) ==
            FilesOfKind(kind, entries)[RelativePathFor(kind, name) := content]
  {
    var a := FilesOfKind(kind, entries[name := content]);
    var b := FilesOfKind(kind, entries)[RelativePathFor(kind, name) := content];
    NameOfInverts(kind, name);
    forall p ensures Recorded(a, p) == Recorded(b, p) {
      if n :| n in entries[name := content] && p == RelativePathFor(kind, n) {
        NameOfInverts(kind, n);
        FilesOfKindAt(kind, entries, n);
        FilesOfKindAt(kind, entries[name := content], n);
      }
    }
    SameRecords(a, b);
  }

  lemma UnionUpdate<K, V>(a: map<K, V>, b: map<K, V>, k: K, v: V)
    ensures (a + b)[k := v] == a + b[k := v]
  {}

  lemma ListKindStep(kind: Kind, files: seq<File>, wanted: Disk, done: map<string, Content>, f: File, name: string)
    requires Lists(files, wanted + FilesOfKind(kind, done))
    requires f.path == RelativePathFor(kind, name) && f.path !in wanted && name !in done
    ensures Lists(files + [f], wanted + FilesOfKind(kind, done[name := f.content]))
  {
    FilesOfKindAdd(kind, done, name, f.content);
    UnionUpdate(wanted, FilesOfKind(kind, done), f.path, f.content);
    ListsSnoc(files, wanted + FilesOfKind(kind, done), f);
  }

  predicate ValidNames(names: set<string>) {
    forall n | n in names :: ValidName(n)
  }

  ghost predicate NoneOfKind(kind: Kind, wanted: Disk) {
    forall n :: RelativePathFor(kind, n) !in wanted
  }

  /** Some files are listed: those of `wanted`, and those of this kind already seen. */
  ghost predicate ListedSoFar(kind: Kind, files: seq<File>, wanted: Disk, done: map<string, Content>) {
    NoneOfKind(kind, wanted) && Lists(files, wanted + FilesOfKind(kind, done)) && ValidNames(done.Keys)
  }

  method ListOne(kind: Kind, files0: seq<File>, name: string, content: Content,
                 ghost wanted: Disk, ghost done: map<string, Content>)
    returns (files: seq<File>)
    requires ListedSoFar(kind, files0, wanted, done) && name !in done && ValidName(name)
    ensures ListedSoFar(kind, files, wanted, done[name := content])
  {
    var f := File(RelativePathFor(kind, name), content);
    ListKindStep(kind, files0, wanted, done, f, name);
    files := files0 + [f];
  }

  /** The loop over one kind's table, in any order; an invalid name rejects the payload. */
  method ListKind(kind: Kind, entries: map<string, Content>, files0: seq<File>, ghost wanted: Disk)
    returns (r: Result<seq<File>>)
    requires ListedSoFar(kind, files0, wanted, map[])
    ensures r.Ok? <==> ValidNames(entries.Keys)
    ensures r.Ok? ==> ListedSoFar(kind, r.value, wanted, entries)
  {
    var files, todo := files0, entries.Keys;
    assert entries - todo == map[];
    while todo != {}
      invariant todo <= entries.Keys && ListedSoFar(kind, files, wanted, entries - todo)
      decreases todo
    {
      var name :| name in todo;
      if !ValidName(name) {
        return Err;
      }
      OneLessToDo(entries, todo, name);
      files := ListOne(kind, files, name, entries[name], wanted, entries - todo);
      todo := todo - {name};
    }
    assert entries - todo == entries;
    r := Ok(files);
  }

  lemma OneLessToDo(entries: map<string, Content>, todo: set<string>, name: string)
    requires name in todo && todo <= entries.Keys
    ensures entries - (todo - {name}) == (entries - todo)[name := entries[name]]
  {}

  /** A kind not listed yet shares no path with the kinds listed so far. */
  lemma NewKindIsDisjoint(bundle: Bundle, kinds: seq<Kind>, kind: Kind, name: string)
    requires kind !in kinds
    ensures RelativePathFor(kind, name) !in FilesOfKinds(bundle, kinds)
  {
    var path := RelativePathFor(kind, name);
    FilesOfKindsAt(bundle, kinds, path);
    if KindAsking(bundle, kinds, path).Some? {
      var k := KindAsking(bundle, kinds, path).value;
      FilesOfKindPaths(k, Section(bundle, k), path);
      var n :| n in Section(bundle, k) && path == RelativePathFor(k, n);
      BundlePathsAreInjective(k, n, kind, name);
    }
  }

  lemma FilesOfKindsSnoc(bundle: Bundle, kinds: seq<Kind>, kind: Kind)
    ensures FilesOfKinds(bundle, kinds + [kind]) == FilesOfKinds(bundle, kinds) + FilesOfKind(kind, Section(bundle, kind))
  {
    assert (kinds + [kind])[..|kinds|] == kinds;
  }

  lemma NothingOfKind(kind: Kind, wanted: Disk)
    ensures wanted + FilesOfKind(kind, map[]) == wanted
  {
    assert FilesOfKind(kind, map[]) == map[];
  }

  lemma StartKind(bundle: Bundle, kinds: seq<Kind>, kind: Kind, files: seq<File>)
    requires kind !in kinds && Lists(files, FilesOfKinds(bundle, kinds))
    ensures ListedSoFar(kind, files, FilesOfKinds(bundle, kinds), map[])
  {
    NothingOfKind(kind, FilesOfKinds(bundle, kinds));
    forall n ensures RelativePathFor(kind, n) !in FilesOfKinds(bundle, kinds) {
      NewKindIsDisjoint(bundle, kinds, kind, n);
    }
  }

  predicate ValidKinds(bundle: Bundle, kinds: seq<Kind>) {
    forall i | 0 <= i < |kinds| :: ValidNames(Section(bundle, kinds[i]).Keys)
  }

  /** One kind more: its files follow those of the kinds before. */
  method ListNextKind(bundle: Bundle, kinds: seq<Kind>, kind: Kind, files: seq<File>) returns (r: Result<seq<File>>)
    requires kind !in kinds && Lists(files, FilesOfKinds(bundle, kinds))
    ensures r.Ok? <==> ValidNames(Section(bundle, kind).Keys)
    ensures r.Ok? ==> Lists(r.value, FilesOfKinds(bundle, kinds + [kind]))
  {
    StartKind(bundle, kinds, kind, files);
    FilesOfKindsSnoc(bundle, kinds, kind);
    r := ListKind(kind, Section(bundle, kind), files, FilesOfKinds(bundle, kinds));
  }

  method ListKinds(bundle: Bundle, kinds: seq<Kind>) returns (r: Result<seq<File>>)
    requires forall i, j | 0 <= i < j < |kinds| :: kinds[i] != kinds[j]
    ensures r.Ok? <==> ValidKinds(bundle, kinds)
    ensures r.Ok? ==> Lists(r.value, FilesOfKinds(bundle, kinds))
  {
    var files: seq<File> := [];
    for k := 0 to |kinds|
      invariant Lists(files, FilesOfKinds(bundle, kinds[..k]))
      invariant ValidKinds(bundle, kinds[..k])
    {
      assert kinds[..k + 1] == kinds[..k] + [kinds[k]];
      var listed := ListNextKind(bundle, kinds[..k], kinds[k], files);
      if listed.Err? {
        return Err;
      }
      files := listed.value;
    }
    assert kinds[..|kinds|] == kinds;
    r := Ok(files);
  }

  /** `bundle_files`: every file of the payload once, or an error before anything is written. */
  method ListBundleFiles(bundle: Bundle) returns (r: Result<seq<File>>)
    ensures r.Ok? <==> ValidBundle(bundle)
    ensures r.Ok? ==> Lists(r.value, BundleFiles(bundle))
  {
    r := ListKinds(bundle, JSON_KINDS);
    assert ValidNames(Section(bundle, Workflow).Keys);
    assert JSON_KINDS[0] == Persona && JSON_KINDS[1] == Role && JSON_KINDS[2] == Agent && JSON_KINDS[3] == Skill;
  }

  // ---------------------------------------------------------------- archives

  const MAX_DECOMPRESSED_SIZE: nat := 50 * 1024 * 1024
  const MAX_ENTRIES: nat := 1000
  const MAX_ENTRY_SIZE: nat := 1024 * 1024

  /** One archive member; `version` is what parsing it as `bundle.json` gives. */
  datatype Entry = Entry(regular: bool, path: string, size: nat, content: Content, version: Option<string>)

  /** What a member is for: a file to install, the file that names the version, or neither. */
  datatype Role = Installs(file: File) | Versions(version: Option<string>) | Ignored

  datatype Item = Item(regular: bool, size: nat, role: Role)

  function RoleOf(e: Entry): Role {
    var path := StripPrefix(e.path, "./");
    if path == "bundle.json" then Versions(e.version)
    else
      var target := MapArchivePath(path);
      if target.Some? then Installs(File(target.value, e.content)) else Ignored
  }

  function ItemsOf(entries: seq<Entry>): (items: seq<Item>)
    ensures |items| == |entries|
    ensures forall i | 0 <= i < |entries| :: items[i] == Item(entries[i].regular, entries[i].size, RoleOf(entries[i]))
  {
    seq(|entries|, i requires 0 <= i < |entries| => Item(entries[i].regular, entries[i].size, RoleOf(entries[i])))
  }

  /** What reading a stretch of the archive yields: files to install, and the last version seen. */
  datatype Plan = Plan(files: seq<File>, version: Option<string>)

  /** `None` when a limit is exceeded or `bundle.json` does not parse. */
  function PlanOf(items: seq<Item>, count: nat, total: nat): Option<Plan>
    decreases items
  {
    if items == [] then Some(Plan([], None))
    else
      var item := items[0];
      if !item.regular then PlanOf(items[1..], count, total)
      else if count + 1 > MAX_ENTRIES || item.size > MAX_ENTRY_SIZE || total + item.size > MAX_DECOMPRESSED_SIZE then None
      else
        var later := PlanOf(items[1..], count + 1, total + item.size);
        if later.None? then None
        else match item.role
          case Ignored => later
          case Installs(file) => Some(Plan([file] + later.value.files, later.value.version))
          case Versions(version) =>
            if version.None? then None else Some(Plan(later.value.files, later.value.version.Or(version)))
  }

  function ArchivePlan(entries: seq<Entry>): Option<Plan> {
    var plan := PlanOf(ItemsOf(entries), 0, 0);
    if plan.Some? && plan.value.version.Some? && plan.value.version.value != "" then plan else None
  }

  predicate SanitaryFiles(files: seq<File>) {
    forall i | 0 <= i < |files| :: Sanitary(files[i].path)
  }

  predicate SanitaryItems(items: seq<Item>) {
    forall i | 0 <= i < |items| && items[i].role.Installs? :: Sanitary(items[i].role.file.path)
  }

  lemma {:induction false} PlanPathsAreSanitary(items: seq<Item>, count: nat, total: nat)
    requires SanitaryItems(items)
    ensures PlanOf(items, count, total).Some? ==> SanitaryFiles(PlanOf(items, count, total).value.files)
    decreases items
  {
    if items != [] && PlanOf(items, count, total).Some? {
      if items[0].regular {
        PlanPathsAreSanitary(items[1..], count + 1, total + items[0].size);
      } else {
        PlanPathsAreSanitary(items[1..], count, total);
      }
    }
  }

  /** Every file of an archive lands on a path the sanitiser accepts. */
  lemma ArchiveFilesAreSanitary(entries: seq<Entry>)
    ensures ArchivePlan(entries).Some? ==> SanitaryFiles(ArchivePlan(entries).value.files)
  {
    var items := ItemsOf(entries);
    forall i | 0 <= i < |items| && items[i].role.Installs? ensures Sanitary(items[i].role.file.path) {
      ArchivePathsAreSanitary(StripPrefix(entries[i].path, "./"));
    }
    PlanPathsAreSanitary(items, 0, 0);
  }
}
