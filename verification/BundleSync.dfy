/**
 What a bundle sync does to the disk and the checksum manifest, as order-free functions.

 A file belongs to the cache only while its checksum is the one the manifest records for its path;
 anything else on disk is the user's. The checksum is an arbitrary function of the content.
 */
module BundleSync {
  import opened Prelude
  import opened BundleNames

  type Content = string
  type Disk = map<string, Content>
  type Sums = map<string, string>
  type Hash = Content -> string

  datatype File = File(path: string, content: Content)
  datatype Manifest = Manifest(version: string, checksums: Sums)

  /** Disk and next manifest while a sync is under way. */
  datatype Progress = Progress(disk: Disk, sums: Sums)

  datatype FileState = AbsentFile | MatchesManaged | ModifiedOrUnmanaged

  function StateOf(hash: Hash, disk: Disk, path: string, previous: Option<string>): FileState {
    if path !in disk then AbsentFile
    else if previous == Some(hash(disk[path])) then MatchesManaged
    else ModifiedOrUnmanaged
  }

  function Recorded(sums: Sums, path: string): Option<string> {
    if path in sums then Some(sums[path]) else None
  }

  /** Absent, or exactly as the cache left it: the only files a sync may write. */
  predicate Writable(hash: Hash, disk: Disk, prev: Sums, path: string) {
    StateOf(hash, disk, path, Recorded(prev, path)) != ModifiedOrUnmanaged
  }

  /** Keys the sanitiser rejects are forgotten; it never rewrites the others. */
  function SanitizeSums(sums: Sums): Sums {
    map p | p in sums && Sanitary(p) :: sums[p]
  }

  // ---------------------------------------------------------------- one file after another

  function InstallOne(hash: Hash, prev: Sums, s: Progress, f: File): Progress {
    if Writable(hash, s.disk, prev, f.path) then
      Progress(s.disk[f.path := f.content], s.sums[f.path := hash(f.content)])
    else if f.path in prev then Progress(s.disk, s.sums[f.path := prev[f.path]])
    else s
  }

  function InstallAll(hash: Hash, prev: Sums, s: Progress, files: seq<File>): Progress
    decreases files
  {
    if files == [] then s else InstallAll(hash, prev, InstallOne(hash, prev, s, files[0]), files[1..])
  }

  /** Keep the workflows of an earlier archive, which a JSON payload cannot carry. */
  function KeepWorkflows(prev: Sums, s: Progress): Progress {
    Progress(s.disk, (map p | p in prev && StartsWith(p, "workflows/") :: prev[p]) + s.sums)
  }

  /** Managed files that are no longer wanted go; modified ones stay recorded. */
  function Prune(hash: Hash, prev: Sums, s: Progress): Progress {
    Progress(
      map p | p in s.disk && !(p in prev && p !in s.sums && hash(s.disk[p]) == prev[p]) :: s.disk[p],
      s.sums + map p | p in prev && p !in s.sums && p in s.disk && hash(s.disk[p]) != prev[p] :: prev[p])
  }

  // ---------------------------------------------------------------- closed form

  predicate DistinctPaths(files: seq<File>) {
    forall i, j | 0 <= i < j < |files| :: files[i].path != files[j].path
  }

  function Wanted(files: seq<File>): Disk {
    if files == [] then map[] else Wanted(files[1..])[files[0].path := files[0].content]
  }

  /** Installing every wanted file, each judged against the disk as it was before the sync. */
  function Install(hash: Hash, prev: Sums, s: Progress, wanted: Disk): Progress {
    Progress(
      map p | p in s.disk.Keys + wanted.Keys ::
        if p in wanted && Writable(hash, s.disk, prev, p) then wanted[p] else s.disk[p],
      s.sums + map p | p in wanted && (Writable(hash, s.disk, prev, p) || p in prev) ::
        if Writable(hash, s.disk, prev, p) then hash(wanted[p]) else prev[p])
  }

  lemma {:induction false} WantedPaths(files: seq<File>)
    ensures forall p :: p in Wanted(files) <==> exists i :: 0 <= i < |files| && files[i].path == p
    decreases files
  {
    if files != [] {
      WantedPaths(files[1..]);
      assert forall i | 0 <= i < |files[1..]| :: files[1..][i] == files[i + 1];
      forall p | p in Wanted(files) ensures exists i :: 0 <= i < |files| && files[i].path == p {
        if p == files[0].path {
          assert files[0].path == p;
        } else {
          assert p in Wanted(files[1..]);
          var i :| 0 <= i < |files[1..]| && files[1..][i].path == p;
          assert files[i + 1].path == p;
        }
      }
    }
  }

  /** Files with distinct paths may be installed in any order: the outcome depends on their set only. */
  lemma {:induction false} InstallAllIsInstall(hash: Hash, prev: Sums, s: Progress, files: seq<File>)
    requires DistinctPaths(files)
    ensures InstallAll(hash, prev, s, files) == Install(hash, prev, s, Wanted(files))
    decreases files
  {
    if files == [] {
      assert Install(hash, prev, s, map[]).disk == s.disk;
      assert Install(hash, prev, s, map[]).sums == s.sums;
    } else {
      var f, rest := files[0], Wanted(files[1..]);
      InstallAllIsInstall(hash, prev, InstallOne(hash, prev, s, f), files[1..]);
      WantedPaths(files[1..]);
      assert f.path !in rest;
      InstallOneThenRest(hash, prev, s, f, rest);
    }
  }

  /** What installing leaves at one path, read off that path alone. */
  lemma InstallAt(hash: Hash, prev: Sums, s: Progress, wanted: Disk, p: string)
    ensures var done := Install(hash, prev, s, wanted);
            && Recorded(done.disk, p) ==
               (if p in wanted && Writable(hash, s.disk, prev, p) then Some(wanted[p]) else Recorded(s.disk, p))
            && Recorded(done.sums, p) ==
               (if p !in wanted then Recorded(s.sums, p)
                else if Writable(hash, s.disk, prev, p) then Some(hash(wanted[p]))
                else if p in prev then Some(prev[p])
                else Recorded(s.sums, p))
  {}

  lemma InstallOneAt(hash: Hash, prev: Sums, s: Progress, f: File, rest: Disk, p: string)
    requires f.path !in rest
    ensures var a := Install(hash, prev, InstallOne(hash, prev, s, f), rest);
            var b := Install(hash, prev, s, rest[f.path := f.content]);
            Recorded(a.disk, p) == Recorded(b.disk, p) && Recorded(a.sums, p) == Recorded(b.sums, p)
  {
    var next := InstallOne(hash, prev, s, f);
    InstallAt(hash, prev, next, rest, p);
    InstallAt(hash, prev, s, rest[f.path := f.content], p);
    if p != f.path {
      assert Recorded(next.disk, p) == Recorded(s.disk, p) && Recorded(next.sums, p) == Recorded(s.sums, p);
    }
  }

  /** Maps that agree at every key are equal. */
  lemma SameRecords(a: map<string, string>, b: map<string, string>)
    requires forall p :: Recorded(a, p) == Recorded(b, p)
    ensures a == b
  {
    forall p ensures p in a <==> p in b {
      assert Recorded(a, p) == Recorded(b, p);
    }
    forall p | p in a ensures a[p] == b[p] {
      assert Recorded(a, p) == Recorded(b, p);
    }
  }

  lemma InstallOneThenRest(hash: Hash, prev: Sums, s: Progress, f: File, rest: Disk)
    requires f.path !in rest
    ensures Install(hash, prev, InstallOne(hash, prev, s, f), rest) == Install(hash, prev, s, rest[f.path := f.content])
  {
    var a := Install(hash, prev, InstallOne(hash, prev, s, f), rest);
    var b := Install(hash, prev, s, rest[f.path := f.content]);
    forall p ensures Recorded(a.disk, p) == Recorded(b.disk, p) && Recorded(a.sums, p) == Recorded(b.sums, p) {
      InstallOneAt(hash, prev, s, f, rest, p);
    }
    SameRecords(a.disk, b.disk);
    SameRecords(a.sums, b.sums);
  }

  /** A whole sync: install, then (for the JSON payload) keep workflows, then prune. */
  function Sync(hash: Hash, disk: Disk, prev: Sums, wanted: Disk, keepWorkflows: bool): Progress {
    var installed := Install(hash, prev, Progress(disk, map[]), wanted);
    Prune(hash, prev, if keepWorkflows then KeepWorkflows(prev, installed) else installed)
  }

  // ---------------------------------------------------------------- user content

  /** A file the manifest does not vouch for. */
  predicate UserOwned(hash: Hash, disk: Disk, prev: Sums, path: string) {
    path in disk && !(path in prev && hash(disk[path]) == prev[path])
  }

  /** Every file that was the user's in `before` is in `now` with the same content. */
  ghost predicate UserContentKept(hash: Hash, before: Disk, prev: Sums, now: Disk) {
    forall p | UserOwned(hash, before, prev, p) :: p in now && now[p] == before[p]
  }

  // ---------------------------------------------------------------- convergence

  /** A JSON sync leaves the workflows of an earlier archive alone. */
  predicate KeptWorkflow(keepWorkflows: bool, p: string) {
    keepWorkflows && StartsWith(p, "workflows/")
  }

  /** The content a sync leaves at one path, read off that path alone. */
  function SyncedContent(hash: Hash, disk: Disk, prev: Sums, wanted: Disk, keepWorkflows: bool, p: string): Option<Content> {
    if p in wanted && Writable(hash, disk, prev, p) then Some(wanted[p])
    else if p in wanted || KeptWorkflow(keepWorkflows, p) || UserOwned(hash, disk, prev, p) then Recorded(disk, p)
    else None
  }

  /** The checksum a sync records at one path. */
  function SyncedSum(hash: Hash, disk: Disk, prev: Sums, wanted: Disk, keepWorkflows: bool, p: string): Option<string> {
    if p in wanted && Writable(hash, disk, prev, p) then Some(hash(wanted[p]))
    else if p in wanted || KeptWorkflow(keepWorkflows, p) || UserOwned(hash, disk, prev, p) then Recorded(prev, p)
    else None
  }

  /** The pipeline of install, workflow retention and pruning has a closed form at every path. */
  lemma SyncAt(hash: Hash, disk: Disk, prev: Sums, wanted: Disk, keepWorkflows: bool, p: string)
    ensures var done := Sync(hash, disk, prev, wanted, keepWorkflows);
            && Recorded(done.disk, p) == SyncedContent(hash, disk, prev, wanted, keepWorkflows, p)
            && Recorded(done.sums, p) == SyncedSum(hash, disk, prev, wanted, keepWorkflows, p)
  {
    InstallAt(hash, prev, Progress(disk, map[]), wanted, p);
  }

  lemma SyncIsIdempotentAt(hash: Hash, disk: Disk, prev: Sums, wanted: Disk, keepWorkflows: bool, p: string)
    ensures var once := Sync(hash, disk, prev, wanted, keepWorkflows);
            var twice := Sync(hash, once.disk, once.sums, wanted, keepWorkflows);
            Recorded(twice.disk, p) == Recorded(once.disk, p) && Recorded(twice.sums, p) == Recorded(once.sums, p)
  {
    var once := Sync(hash, disk, prev, wanted, keepWorkflows);
    SyncAt(hash, disk, prev, wanted, keepWorkflows, p);
    SyncAt(hash, once.disk, once.sums, wanted, keepWorkflows, p);
  }

  /** A second identical sync changes neither the disk nor the recorded checksums. */
  lemma SyncIsIdempotent(hash: Hash, disk: Disk, prev: Sums, wanted: Disk, keepWorkflows: bool)
    ensures var once := Sync(hash, disk, prev, wanted, keepWorkflows);
            Sync(hash, once.disk, once.sums, wanted, keepWorkflows) == once
  {
    var once := Sync(hash, disk, prev, wanted, keepWorkflows);
    var twice := Sync(hash, once.disk, once.sums, wanted, keepWorkflows);
    forall p ensures Recorded(twice.disk, p) == Recorded(once.disk, p) && Recorded(twice.sums, p) == Recorded(once.sums, p)
    {
      SyncIsIdempotentAt(hash, disk, prev, wanted, keepWorkflows, p);
    }
    SameRecords(twice.disk, once.disk);
    SameRecords(twice.sums, once.sums);
  }
}
