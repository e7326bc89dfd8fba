/** Whole runs of the bundle cache: successful syncs interleaved with whatever the user does. */
module BundleRuns {
  import opened Prelude
  import opened BundleNames
  import opened BundleSync
  import opened BundleInputs
  import opened BundleMembers

  /** `lastWritten` remembers, per path, the last content the cache itself put there. */
  datatype State = State(disk: Disk, manifest: Option<Manifest>, lastWritten: Disk)

  datatype Event =
    | JsonSync(bundle: Bundle)
    | ArchiveSync(entries: seq<Entry>)
    | UserWrite(path: string, content: Content)
    | UserDelete(path: string)

  const START := State(map[], None, map[])

  function PreviousOf(s: State): Sums {
    if s.manifest.Some? then SanitizeSums(s.manifest.value.checksums) else map[]
  }

  function Synced(hash: Hash, s: State, wanted: Disk, version: string, keepWorkflows: bool): State {
    var prev := PreviousOf(s);
    var done := Sync(hash, s.disk, prev, wanted, keepWorkflows);
    State(done.disk, Some(Manifest(version, done.sums)),
          s.lastWritten + map p | p in wanted && Writable(hash, s.disk, prev, p) :: wanted[p])
  }

  /** The archive loop as it runs, members sharing a path included. */
  function Archived(hash: Hash, s: State, files: seq<File>, version: string): State {
    var prev, start := PreviousOf(s), Progress(s.disk, map[]);
    var done := Prune(hash, prev, InstallAll(hash, prev, start, files));
    State(done.disk, Some(Manifest(version, done.sums)), LastWritten(hash, prev, start, s.lastWritten, files))
  }

  predicate Succeeds(e: Event) {
    match e
    case JsonSync(bundle) => ValidBundle(bundle)
    case ArchiveSync(entries) => ArchivePlan(entries).Some?
    case UserWrite(_, _) => true
    case UserDelete(_) => true
  }

  function Step(hash: Hash, s: State, e: Event): State
    requires Succeeds(e)
  {
    match e
    case JsonSync(bundle) => Synced(hash, s, BundleFiles(bundle), bundle.version, true)
    case ArchiveSync(entries) =>
      var plan := ArchivePlan(entries).value;
      Archived(hash, s, plan.files, plan.version.value)
    case UserWrite(path, content) => s.(disk := s.disk[path := content])
    case UserDelete(path) => s.(disk := s.disk - {path})
  }

  function Run(hash: Hash, s: State, events: seq<Event>): State
    requires forall e | e in events :: Succeeds(e)
    decreases events
  {
    if events == [] then s else Run(hash, Step(hash, s, events[0]), events[1..])
  }

  /** Each recorded checksum is that of the last content the cache wrote there, at a sanitary path. */
  ghost predicate History(hash: Hash, s: State) {
    forall p :: RecordedIsLast(hash, s, p)
  }

  predicate RecordedIsLast(hash: Hash, s: State, p: string) {
    s.manifest.Some? && p in s.manifest.value.checksums ==>
      Sanitary(p) && p in s.lastWritten && s.manifest.value.checksums[p] == hash(s.lastWritten[p])
  }

  lemma SyncedKeepsHistory(hash: Hash, s: State, wanted: Disk, version: string, keepWorkflows: bool)
    requires History(hash, s)
    requires forall p | p in wanted :: Sanitary(p)
    ensures History(hash, Synced(hash, s, wanted, version, keepWorkflows))
  {
    forall p ensures RecordedIsLast(hash, Synced(hash, s, wanted, version, keepWorkflows), p) {
      if p in wanted {
        assert Sanitary(p);
      }
      SyncedKeepsRecord(hash, s, wanted, version, keepWorkflows, p);
    }
  }

  /** At one path: a new checksum is that of what was just written, an old one is kept with its content. */
  lemma SyncedKeepsRecord(hash: Hash, s: State, wanted: Disk, version: string, keepWorkflows: bool, p: string)
    requires RecordedIsLast(hash, s, p) && (p in wanted ==> Sanitary(p))
    ensures RecordedIsLast(hash, Synced(hash, s, wanted, version, keepWorkflows), p)
  {
    var prev, next := PreviousOf(s), Synced(hash, s, wanted, version, keepWorkflows);
    if p in next.manifest.value.checksums {
      SyncedSumsAreNotNew(hash, s.disk, prev, wanted, keepWorkflows, p);
      SyncedSumIs(hash, s.disk, prev, wanted, keepWorkflows, p);
    }
  }

  lemma SyncedSumIs(hash: Hash, disk: Disk, prev: Sums, wanted: Disk, keepWorkflows: bool, p: string)
    requires p in Sync(hash, disk, prev, wanted, keepWorkflows).sums
    ensures var sum := Sync(hash, disk, prev, wanted, keepWorkflows).sums[p];
            if p in wanted && Writable(hash, disk, prev, p) then sum == hash(wanted[p]) else p in prev && sum == prev[p]
  {
    var sums := Sync(hash, disk, prev, wanted, keepWorkflows).sums;
    SyncAt(hash, disk, prev, wanted, keepWorkflows, p);
    assert Recorded(sums, p) == Some(sums[p]);
  }

  // ---------------------------------------------------------------- archives, path by path

  lemma ArchivedAt(hash: Hash, s: State, files: seq<File>, version: string, p: string)
    ensures var next := Archived(hash, s, files, version);
            SpotAt(Progress(next.disk, next.manifest.value.checksums), next.lastWritten, p)
            == Extracted(hash, Recorded(PreviousOf(s), p), Recorded(s.disk, p), Recorded(s.lastWritten, p), Members(files, p))
  {
    var prev, start := PreviousOf(s), Progress(s.disk, map[]);
    var last := LastWritten(hash, prev, start, s.lastWritten, files);
    InstallAllAt(hash, prev, start, s.lastWritten, files, p);
    PruneAt(hash, prev, InstallAll(hash, prev, start, files), last, p);
  }

  lemma {:induction false} MembersAreFiles(files: seq<File>, p: string)
    requires SanitaryFiles(files) && Members(files, p) != []
    ensures Sanitary(p)
    decreases files
  {
    if files[0].path != p {
      MembersAreFiles(files[1..], p);
    }
  }

  /** A checksum is recorded after an archive only where there was one, or a member. */
  lemma ArchivedSumsAreSanitary(hash: Hash, s: State, files: seq<File>, version: string, p: string)
    requires SanitaryFiles(files) && p in Archived(hash, s, files, version).manifest.value.checksums
    ensures Sanitary(p)
  {
    ArchivedAt(hash, s, files, version, p);
    if Members(files, p) != [] {
      MembersAreFiles(files, p);
    } else {
      assert p in PreviousOf(s);
    }
  }

  /** The condition at one path, in terms of the state before the sync. */
  predicate TruthfulAt(hash: Hash, s: State, files: seq<File>, p: string) {
    Truthful(hash, Recorded(PreviousOf(s), p), Recorded(s.disk, p), Members(files, p))
  }

  /** At every path: the manifest still tells the truth after an archive sync exactly under the condition. */
  lemma ArchivedKeepsRecordExactly(hash: Hash, s: State, files: seq<File>, version: string, p: string)
    requires RecordedIsLast(hash, s, p) && SanitaryFiles(files)
    ensures RecordedIsLast(hash, Archived(hash, s, files, version), p) <==> TruthfulAt(hash, s, files, p)
  {
    var prev, file, last := Recorded(PreviousOf(s), p), Recorded(s.disk, p), Recorded(s.lastWritten, p);
    var next := Archived(hash, s, files, version);
    ArchivedAt(hash, s, files, version, p);
    ExtractedTellsTruth(hash, prev, file, last, Members(files, p));
    if p in next.manifest.value.checksums {
      ArchivedSumsAreSanitary(hash, s, files, version, p);
    }
  }

  ghost predicate TruthfulSync(hash: Hash, s: State, e: Event)
    requires Succeeds(e)
  {
    e.ArchiveSync? ==> forall p :: TruthfulAt(hash, s, ArchivePlan(e.entries).value.files, p)
  }

  lemma ArchiveKeepsHistoryExactly(hash: Hash, s: State, files: seq<File>, version: string)
    requires History(hash, s) && SanitaryFiles(files)
    ensures History(hash, Archived(hash, s, files, version)) <==> forall p :: TruthfulAt(hash, s, files, p)
  {
    forall p ensures RecordedIsLast(hash, Archived(hash, s, files, version), p) <==> TruthfulAt(hash, s, files, p) {
      assert RecordedIsLast(hash, s, p);
      ArchivedKeepsRecordExactly(hash, s, files, version, p);
    }
  }

  /** One event keeps the history invariant if and only if it is not an untruthful archive sync. */
  lemma StepKeepsHistoryExactly(hash: Hash, s: State, e: Event)
    requires Succeeds(e) && History(hash, s)
    ensures History(hash, Step(hash, s, e)) <==> TruthfulSync(hash, s, e)
  {
    match e
    case JsonSync(bundle) =>
      forall p | p in BundleFiles(bundle) ensures Sanitary(p) { BundleFilePaths(bundle, p); }
      SyncedKeepsHistory(hash, s, BundleFiles(bundle), bundle.version, true);
    case ArchiveSync(entries) =>
      ArchiveFilesAreSanitary(entries);
      ArchiveKeepsHistoryExactly(hash, s, ArchivePlan(entries).value.files, ArchivePlan(entries).value.version.value);
    case _ => UserStepKeepsHistory(hash, s, e);
  }

  lemma UserStepKeepsHistory(hash: Hash, s: State, e: Event)
    requires (e.UserWrite? || e.UserDelete?) && History(hash, s)
    ensures History(hash, Step(hash, s, e))
  {
    forall p ensures RecordedIsLast(hash, Step(hash, s, e), p) {
      assert RecordedIsLast(hash, s, p);
    }
  }

  /** Every archive sync of the run met the condition when it started. */
  ghost predicate TruthfulRun(hash: Hash, s: State, events: seq<Event>)
    requires forall e | e in events :: Succeeds(e)
    decreases events
  {
    events != [] ==> TruthfulSync(hash, s, events[0]) && TruthfulRun(hash, Step(hash, s, events[0]), events[1..])
  }

  /** The history invariant holds now and after every event of the run. */
  ghost predicate HistoryThroughout(hash: Hash, s: State, events: seq<Event>)
    requires forall e | e in events :: Succeeds(e)
    decreases events
  {
    History(hash, s) && (events != [] ==> HistoryThroughout(hash, Step(hash, s, events[0]), events[1..]))
  }

  lemma {:induction false} RunKeepsHistoryExactly(hash: Hash, s: State, events: seq<Event>)
    requires History(hash, s) && forall e | e in events :: Succeeds(e)
    ensures HistoryThroughout(hash, s, events) <==> TruthfulRun(hash, s, events)
    decreases events
  {
    if events != [] {
      StepKeepsHistoryExactly(hash, s, events[0]);
      if TruthfulSync(hash, s, events[0]) {
        RunKeepsHistoryExactly(hash, Step(hash, s, events[0]), events[1..]);
      } else {
        assert !HistoryThroughout(hash, Step(hash, s, events[0]), events[1..]);
      }
    }
  }

  lemma {:induction false} ThroughoutIsAtEnd(hash: Hash, s: State, events: seq<Event>)
    requires (forall e | e in events :: Succeeds(e)) && HistoryThroughout(hash, s, events)
    ensures History(hash, Run(hash, s, events))
    decreases events
  {
    if events != [] {
      ThroughoutIsAtEnd(hash, Step(hash, s, events[0]), events[1..]);
    }
  }

  /**
   Over every run from an empty cache: the manifest tells the truth at every moment if and only if
   every archive sync met, when it started, the condition on members that share a path.
   */
  lemma EveryRunHasHistory(hash: Hash, events: seq<Event>)
    requires forall e | e in events :: Succeeds(e)
    ensures HistoryThroughout(hash, START, events) <==> TruthfulRun(hash, START, events)
    ensures TruthfulRun(hash, START, events) ==> History(hash, Run(hash, START, events))
  {
    RunKeepsHistoryExactly(hash, START, events);
    if TruthfulRun(hash, START, events) {
      ThroughoutIsAtEnd(hash, START, events);
    }
  }

  /** Members on distinct paths always meet the condition. */
  lemma DistinctTargetsAreTruthful(hash: Hash, s: State, files: seq<File>, p: string)
    requires DistinctPaths(files)
    ensures TruthfulAt(hash, s, files, p)
  {
    OneMemberEach(files, p);
  }

  lemma {:induction false} OneMemberEach(files: seq<File>, p: string)
    requires DistinctPaths(files)
    ensures |Members(files, p)| <= 1
    ensures Members(files, p) != [] ==> exists i :: 0 <= i < |files| && files[i].path == p
    decreases files
  {
    if files != [] {
      var rest := files[1..];
      OneMemberEach(rest, p);
      if Members(rest, p) != [] {
        var i :| 0 <= i < |rest| && rest[i].path == p;
        assert files[i + 1].path == p;
      }
      assert files[0].path == p ==> Members(rest, p) == [];
    }
  }

  /**
   In every truthful run, a user edit that changes the checksum of what the cache last wrote at a path
   is neither overwritten nor pruned by the next sync, whatever its members.
   */
  lemma EditedFilesSurviveNextSync(hash: Hash, events: seq<Event>, e: Event, p: string)
    requires Succeeds(e) && (e.JsonSync? || e.ArchiveSync?) && forall x | x in events :: Succeeds(x)
    requires TruthfulRun(hash, START, events)
    requires var s := Run(hash, START, events);
             p in s.disk && (p in s.lastWritten ==> hash(s.disk[p]) != hash(s.lastWritten[p]))
    ensures Recorded(Step(hash, Run(hash, START, events), e).disk, p) == Some(Run(hash, START, events).disk[p])
  {
    var s := Run(hash, START, events);
    EveryRunHasHistory(hash, events);
    assert RecordedIsLast(hash, s, p);
    match e
    case JsonSync(bundle) => EditedFileSurvives(hash, s, BundleFiles(bundle), true, p);
    case ArchiveSync(entries) =>
      var plan := ArchivePlan(entries).value;
      EditedFileSurvivesArchive(hash, s, plan.files, plan.version.value, p);
  }

  lemma EditedFileSurvivesArchive(hash: Hash, s: State, files: seq<File>, version: string, p: string)
    requires RecordedIsLast(hash, s, p)
    requires p in s.disk && (p in s.lastWritten ==> hash(s.disk[p]) != hash(s.lastWritten[p]))
    ensures Recorded(Archived(hash, s, files, version).disk, p) == Some(s.disk[p])
  {
    var prev, cs := Recorded(PreviousOf(s), p), Members(files, p);
    ArchivedAt(hash, s, files, version, p);
    if cs != [] {
      PutAllRefused(hash, prev, Spot(Recorded(s.disk, p), None, Recorded(s.lastWritten, p)), cs);
    }
  }

  lemma EditedFileSurvives(hash: Hash, s: State, wanted: Disk, keepWorkflows: bool, p: string)
    requires RecordedIsLast(hash, s, p)
    requires p in s.disk && (p in s.lastWritten ==> hash(s.disk[p]) != hash(s.lastWritten[p]))
    ensures Recorded(Sync(hash, s.disk, PreviousOf(s), wanted, keepWorkflows).disk, p) == Some(s.disk[p])
  {
    assert UserOwned(hash, s.disk, PreviousOf(s), p);
    SyncAt(hash, s.disk, PreviousOf(s), wanted, keepWorkflows, p);
  }

  /** With distinct targets, what the archive loop computes member by member is the sync of the set of its files. */
  lemma ArchiveLoopIsSync(hash: Hash, disk: Disk, prev: Sums, entries: seq<Entry>)
    requires ArchivePlan(entries).Some? && DistinctPaths(ArchivePlan(entries).value.files)
    ensures var files := ArchivePlan(entries).value.files;
            Prune(hash, prev, InstallAll(hash, prev, Progress(disk, map[]), files)) ==
            Sync(hash, disk, prev, Wanted(files), false)
  {
    InstallAllIsInstall(hash, prev, Progress(disk, map[]), ArchivePlan(entries).value.files);
  }

  /** The order in which the payload's tables are walked does not matter. */
  lemma InstallOrderIsIrrelevant(hash: Hash, prev: Sums, s: Progress, files: seq<File>, others: seq<File>, wanted: Disk)
    requires Lists(files, wanted) && Lists(others, wanted)
    ensures InstallAll(hash, prev, s, files) == InstallAll(hash, prev, s, others)
  {
    InstallAllIsInstall(hash, prev, s, files);
    InstallAllIsInstall(hash, prev, s, others);
  }

  /** No JSON sync changes or removes a workflow file, managed or not. */
  lemma JsonSyncKeepsWorkflows(hash: Hash, disk: Disk, prev: Sums, bundle: Bundle, p: string)
    requires ValidBundle(bundle) && StartsWith(p, "workflows/")
    ensures Recorded(Sync(hash, disk, prev, BundleFiles(bundle), true).disk, p) == Recorded(disk, p)
    ensures Recorded(Sync(hash, disk, prev, BundleFiles(bundle), true).sums, p) == Recorded(prev, p)
  {
    SyncAt(hash, disk, prev, BundleFiles(bundle), true, p);
    if p in BundleFiles(bundle) {
      BundleFilePaths(bundle, p);
    }
  }

  /** A second identical JSON sync changes neither the disk nor the manifest file. */
  lemma RepeatedSyncChangesNothing(hash: Hash, s: State, bundle: Bundle)
    requires ValidBundle(bundle)
    ensures var once := Step(hash, s, JsonSync(bundle));
            var twice := Step(hash, once, JsonSync(bundle));
            twice.disk == once.disk && twice.manifest == once.manifest
  {
    forall p | p in BundleFiles(bundle) ensures Sanitary(p) { BundleFilePaths(bundle, p); }
    SyncedSumsAreSanitary(hash, s.disk, PreviousOf(s), BundleFiles(bundle), true);
    SyncIsIdempotent(hash, s.disk, PreviousOf(s), BundleFiles(bundle), true);
  }

  predicate RepeatableAt(hash: Hash, s: State, files: seq<File>, p: string) {
    Repeatable(hash, Recorded(PreviousOf(s), p), Recorded(s.disk, p), Members(files, p))
  }

  predicate SameAt(a: State, b: State, p: string)
    requires a.manifest.Some? && b.manifest.Some?
  {
    && Recorded(a.disk, p) == Recorded(b.disk, p)
    && Recorded(a.manifest.value.checksums, p) == Recorded(b.manifest.value.checksums, p)
  }

  /** What was recorded reads back as it is. */
  lemma ArchivedReadsBack(hash: Hash, s: State, files: seq<File>, version: string)
    requires SanitaryFiles(files)
    ensures PreviousOf(Archived(hash, s, files, version)) == Archived(hash, s, files, version).manifest.value.checksums
  {
    var sums := Archived(hash, s, files, version).manifest.value.checksums;
    forall p | p in sums ensures Sanitary(p) {
      ArchivedSumsAreSanitary(hash, s, files, version, p);
    }
  }

  lemma RepeatedArchiveAt(hash: Hash, s: State, files: seq<File>, version: string, p: string)
    requires SanitaryFiles(files)
    ensures var once := Archived(hash, s, files, version);
            SameAt(Archived(hash, once, files, version), once, p) <==> RepeatableAt(hash, s, files, p)
  {
    var once := Archived(hash, s, files, version);
    var prev, file, last := Recorded(PreviousOf(s), p), Recorded(s.disk, p), Recorded(s.lastWritten, p);
    ArchivedAt(hash, s, files, version, p);
    ArchivedAt(hash, once, files, version, p);
    ArchivedReadsBack(hash, s, files, version);
    ExtractedIsRepeatable(hash, prev, file, last, Members(files, p));
  }

  /** A second identical archive sync changes nothing if and only if every path is repeatable; distinct ones are. */
  lemma RepeatedArchiveChangesNothing(hash: Hash, s: State, files: seq<File>, version: string)
    requires SanitaryFiles(files)
    ensures var once := Archived(hash, s, files, version);
            var twice := Archived(hash, once, files, version);
            twice.disk == once.disk && twice.manifest == once.manifest <==> forall p :: RepeatableAt(hash, s, files, p)
    ensures DistinctPaths(files) ==> forall p :: RepeatableAt(hash, s, files, p)
  {
    var once := Archived(hash, s, files, version);
    var twice := Archived(hash, once, files, version);
    forall p ensures SameAt(twice, once, p) <==> RepeatableAt(hash, s, files, p) {
      RepeatedArchiveAt(hash, s, files, version, p);
    }
    if forall p :: SameAt(twice, once, p) {
      forall p ensures Recorded(twice.disk, p) == Recorded(once.disk, p)
        && Recorded(twice.manifest.value.checksums, p) == Recorded(once.manifest.value.checksums, p)
      {
        assert SameAt(twice, once, p);
      }
      SameRecords(twice.disk, once.disk);
      SameRecords(twice.manifest.value.checksums, once.manifest.value.checksums);
    }
    if DistinctPaths(files) {
      forall p ensures RepeatableAt(hash, s, files, p) {
        OneMemberEach(files, p);
      }
    }
  }

  /** The recorded paths are sanitary, so sanitising the manifest again changes nothing. */
  lemma SyncedSumsAreSanitary(hash: Hash, disk: Disk, prev: Sums, wanted: Disk, keepWorkflows: bool)
    requires forall p | p in wanted || p in prev :: Sanitary(p)
    ensures var sums := Sync(hash, disk, prev, wanted, keepWorkflows).sums; SanitizeSums(sums) == sums
  {
    var sums := Sync(hash, disk, prev, wanted, keepWorkflows).sums;
    forall p | p in sums ensures Sanitary(p) {
      SyncedSumsAreNotNew(hash, disk, prev, wanted, keepWorkflows, p);
    }
  }

  lemma SyncedSumsAreNotNew(hash: Hash, disk: Disk, prev: Sums, wanted: Disk, keepWorkflows: bool, p: string)
    requires p in Sync(hash, disk, prev, wanted, keepWorkflows).sums
    ensures p in wanted || p in prev
  {
    var sums := Sync(hash, disk, prev, wanted, keepWorkflows).sums;
    SyncAt(hash, disk, prev, wanted, keepWorkflows, p);
    assert Recorded(sums, p) == Some(sums[p]);
  }

  // ---------------------------------------------------------------- an archive that breaks the history

  /** A member landing on `p`, spelt with or without a leading dot. */
  function MemberOn(p: string, dotted: bool, c: Content): Entry {
    Entry(true, (if dotted then "./" else "") + "subagents/" + p, 1, c, None)
  }

  const VERSION_FILE := Entry(true, "bundle.json", 1, "", Some("1"))

  lemma MemberIsStripped(p: string, dotted: bool, c: Content)
    ensures StripPrefix(MemberOn(p, dotted, c).path, "./") == "subagents/" + p
  {
    var plain, path := "subagents/" + p, MemberOn(p, dotted, c).path;
    assert plain[0] == 's';
    if dotted {
      assert path == "./" + plain;
    } else {
      assert path == plain;
    }
  }

  lemma SubagentPathMaps(p: string)
    ensures "subagents/" + p != "bundle.json" && MapArchivePath("subagents/" + p) == SanitizeRelativePath(p)
  {
    var plain := "subagents/" + p;
    assert plain[0] == 's' && "bundle.json"[0] == 'b';
    assert plain[|"subagents/"|..] == p;
  }

  lemma MemberLands(p: string, dotted: bool, c: Content)
    requires Sanitary(p)
    ensures RoleOf(MemberOn(p, dotted, c)) == Installs(File(p, c))
  {
    MemberIsStripped(p, dotted, c);
    SubagentPathMaps(p);
  }

  lemma VersionFileVersions()
    ensures RoleOf(VERSION_FILE) == Versions(Some("1"))
  {
    assert "bundle.json"[0] == 'b';
  }

  const VERSION_ITEM := Item(true, 1, Versions(Some("1")))

  function FileItem(file: File): Item { Item(true, 1, Installs(file)) }

  lemma PlanWithFile(file: File, rest: seq<Item>, count: nat, total: nat)
    requires count < 10 && total < 10 && PlanOf(rest, count + 1, total + 1).Some?
    ensures var later := PlanOf(rest, count + 1, total + 1).value;
            PlanOf([FileItem(file)] + rest, count, total) == Some(Plan([file] + later.files, later.version))
  {
    assert ([FileItem(file)] + rest)[1..] == rest;
  }

  lemma PlanOfVersion(count: nat, total: nat)
    requires count < 10 && total < 10
    ensures PlanOf([VERSION_ITEM], count, total) == Some(Plan([], Some("1")))
  {
    assert [VERSION_ITEM][1..] == [];
  }

  /** The files of a list, as items ending with the version file. */
  lemma {:induction false} PlanOfFiles(files: seq<File>, count: nat, total: nat)
    requires |files| + count < 10 && |files| + total < 10
    ensures PlanOf(FileItems(files), count, total) == Some(Plan(files, Some("1")))
    decreases files
  {
    if files == [] {
      PlanOfVersion(count, total);
    } else {
      PlanOfFiles(files[1..], count + 1, total + 1);
      PlanWithFile(files[0], FileItems(files[1..]), count, total);
      assert [files[0]] + files[1..] == files;
    }
  }

  function FileItems(files: seq<File>): seq<Item> {
    if files == [] then [VERSION_ITEM] else [FileItem(files[0])] + FileItems(files[1..])
  }

  lemma PlanFromItems(entries: seq<Entry>, files: seq<File>)
    requires |files| < 10 && ItemsOf(entries) == FileItems(files)
    ensures ArchivePlan(entries) == Some(Plan(files, Some("1")))
  {
    PlanOfFiles(files, 0, 0);
    assert |"1"| == 1;
  }

  lemma PlanOfTwo(p: string, a: Content)
    requires Sanitary(p)
    ensures ArchivePlan([MemberOn(p, false, a), VERSION_FILE]) == Some(Plan([File(p, a)], Some("1")))
  {
    var entries, files := [MemberOn(p, false, a), VERSION_FILE], [File(p, a)];
    MemberLands(p, false, a);
    VersionFileVersions();
    assert files[1..] == [];
    assert ItemsOf(entries) == FileItems(files);
    PlanFromItems(entries, files);
  }

  lemma FileItemsOfTwo(f: File, g: File)
    ensures FileItems([f, g]) == [FileItem(f), FileItem(g), VERSION_ITEM]
  {
    var none: seq<File> := [];
    assert [f, g][1..] == [g] && [g][1..] == none;
    assert FileItems(none) == [VERSION_ITEM];
    assert FileItems([g]) == [FileItem(g)] + FileItems(none);
    assert FileItems([f, g]) == [FileItem(f)] + FileItems([g]);
  }

  lemma PlanOfThree(p: string, b: Content, c: Content)
    requires Sanitary(p)
    ensures ArchivePlan([MemberOn(p, true, b), MemberOn(p, false, c), VERSION_FILE])
         == Some(Plan([File(p, b), File(p, c)], Some("1")))
  {
    var entries := [MemberOn(p, true, b), MemberOn(p, false, c), VERSION_FILE];
    var files := [File(p, b), File(p, c)];
    MemberLands(p, true, b);
    MemberLands(p, false, c);
    VersionFileVersions();
    FileItemsOfTwo(files[0], files[1]);
    assert ItemsOf(entries) == FileItems(files);
    PlanFromItems(entries, files);
  }

  /** Install `a`, then sync an archive that carries the path twice, as `b` and as `c`. */
  function BreakingRun(p: string, a: Content, b: Content, c: Content): seq<Event> {
    [ArchiveSync([MemberOn(p, false, a), VERSION_FILE]),
     ArchiveSync([MemberOn(p, true, b), MemberOn(p, false, c), VERSION_FILE])]
  }

  /**
   The condition is needed: at every cache path, two members whose first has a new checksum leave, in
   a run from the empty cache, a manifest that does not tell the truth.
   */
  lemma DuplicateTargetsBreakHistory(hash: Hash, p: string, a: Content, b: Content, c: Content)
    requires Sanitary(p) && hash(a) != hash(b)
    ensures (forall e | e in BreakingRun(p, a, b, c) :: Succeeds(e))
            && !RecordedIsLast(hash, Run(hash, START, BreakingRun(p, a, b, c)), p)
  {
    var run := BreakingRun(p, a, b, c);
    PlanOfTwo(p, a);
    PlanOfThree(p, b, c);
    assert forall e | e in run :: e == run[0] || e == run[1];
    var one := Archived(hash, START, [File(p, a)], "1");
    var two := Archived(hash, one, [File(p, b), File(p, c)], "1");
    assert run[1..] == [run[1]] && run[1..][1..] == [];
    assert Run(hash, START, run) == two by {
      assert Step(hash, START, run[0]) == one;
      assert Step(hash, one, run[1]) == two;
      assert Run(hash, one, run[1..]) == Run(hash, two, []);
    }
    FirstArchive(hash, p, a);
    SecondArchive(hash, p, a, b, c);
  }

  lemma FirstArchive(hash: Hash, p: string, a: Content)
    requires Sanitary(p)
    ensures var one := Archived(hash, START, [File(p, a)], "1");
            && Recorded(one.disk, p) == Some(a) && Recorded(PreviousOf(one), p) == Some(hash(a))
            && RecordedIsLast(hash, one, p)
  {
    var files, cs := [File(p, a)], [a];
    assert files[1..] == [];
    assert Members(files, p) == cs;
    ArchivedAt(hash, START, files, "1", p);
    PutAllUnmanaged(hash, Spot(None, None, None), cs);
  }

  lemma MembersOfTwo(p: string, b: Content, c: Content)
    ensures Members([File(p, b), File(p, c)], p) == [b, c]
  {
    var files := [File(p, b), File(p, c)];
    assert files[1..] == [File(p, c)] && files[1..][1..] == [];
    assert Members(files[1..], p) == [c];
  }

  lemma SecondArchive(hash: Hash, p: string, a: Content, b: Content, c: Content)
    requires Sanitary(p) && hash(a) != hash(b)
    ensures !RecordedIsLast(hash, Archived(hash, Archived(hash, START, [File(p, a)], "1"), [File(p, b), File(p, c)], "1"), p)
  {
    var one, files := Archived(hash, START, [File(p, a)], "1"), [File(p, b), File(p, c)];
    FirstArchive(hash, p, a);
    MembersOfTwo(p, b, c);
    assert SanitaryFiles(files);
    assert !Truthful(hash, Some(hash(a)), Some(a), [b, c]) by {
      assert [b, c][0] == b;
    }
    ArchivedKeepsRecordExactly(hash, one, files, "1", p);
  }
}
