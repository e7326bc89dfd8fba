/**
 The managed bundle cache as an object over a disk it shares with the user. Every file-system call
 may fail, and a failing write may leave any content in the file it was writing.
 */
module BundleCache {
  import opened Prelude
  import opened BundleSync
  import opened BundleInputs
  import opened BundleRetry

  /** `manifest.json`: missing, not parseable, or holding a manifest. */
  datatype ManifestFile = Missing | Unparsable | Stored(manifest: Manifest)

  /** The sanitised checksums a sync starts from. */
  function PreviousSums(file: ManifestFile): Sums {
    if file.Stored? then SanitizeSums(file.manifest.checksums) else map[]
  }

  class Cache {
    const hash: Hash
    var disk: Disk
    var manifestFile: ManifestFile
    /** The disk after each change a sync makes, oldest first. */
    ghost var trace: seq<Disk>
    /** How many file-system calls have failed. */
    ghost var faults: nat

    constructor (hash: Hash)
      ensures this.hash == hash && disk == map[] && manifestFile == Missing && trace == [] && faults == 0
    {
      this.hash := hash;
      disk, manifestFile, trace, faults := map[], Missing, [], 0;
    }

    /** Every disk state since `mark` keeps the user's files of `before`. */
    ghost predicate KeptSince(mark: nat, before: Disk, prev: Sums)
      reads this
    {
      && mark <= |trace|
      && UserContentKept(hash, before, prev, disk)
      && forall i | mark <= i < |trace| :: UserContentKept(hash, before, prev, trace[i])
    }

    /** `std::fs::write` on a file the user does not own; on failure it may hold torn content. */
    method WriteFile(path: string, content: Content, prev: Sums, ghost mark: nat, ghost before: Disk)
      returns (ok: bool)
      requires KeptSince(mark, before, prev) && Writable(hash, disk, prev, path)
      modifies `disk, `trace, `faults
      ensures KeptSince(mark, before, prev) && old(trace) <= trace
      ensures OnlyWrites(old(disk), disk, {path})
      ensures ok ==> disk == old(disk)[path := content]
      ensures faults == old(faults) + if ok then 0 else 1
    {
      ghost var kept := disk;
      if * {
        ok, disk := true, disk[path := content];
      } else if * {
        var torn: Content := *;
        ok, disk := false, disk[path := torn];
      } else {
        ok := false;
      }
      trace := trace + [disk];
      faults := faults + if ok then 0 else 1;
      KeptByWrite(hash, before, prev, kept, disk, path);
    }

    method RemoveFile(path: string, prev: Sums, ghost mark: nat, ghost before: Disk) returns (ok: bool)
      requires KeptSince(mark, before, prev) && Writable(hash, disk, prev, path)
      modifies `disk, `trace, `faults
      ensures KeptSince(mark, before, prev) && old(trace) <= trace
      ensures disk == old(disk) || disk == old(disk) - {path}
      ensures ok ==> disk == old(disk) - {path}
      ensures faults == old(faults) + if ok then 0 else 1
    {
      ghost var kept := disk;
      if * {
        ok, disk := true, disk - {path};
      } else {
        ok := false;
      }
      trace := trace + [disk];
      faults := faults + if ok then 0 else 1;
      KeptByWrite(hash, before, prev, kept, disk, path);
    }

    method WriteManifest(manifest: Manifest) returns (ok: bool)
      modifies `manifestFile, `faults
      ensures ok ==> manifestFile == Stored(manifest)
      ensures !ok ==> manifestFile == old(manifestFile) || manifestFile == Unparsable
      ensures faults == old(faults) + if ok then 0 else 1
    {
      if * {
        ok, manifestFile := true, Stored(manifest);
      } else if * {
        ok, manifestFile := false, Unparsable;
      } else {
        ok := false;
      }
      faults := faults + if ok then 0 else 1;
    }

    /** The previous checksums; an unreadable or unparsable manifest is an error. */
    method ReadPrevious() returns (r: Result<Sums>)
      modifies `faults
      ensures r.Ok? ==> r.value == PreviousSums(manifestFile) && !manifestFile.Unparsable? && faults == old(faults)
      ensures r.Err? ==> manifestFile.Unparsable? || faults > old(faults)
    {
      if manifestFile.Unparsable? {
        return Err;
      } else if * {
        faults := faults + 1;
        return Err;
      }
      r := Ok(PreviousSums(manifestFile));
    }

    /** `bundle_file_state`; reading the file may fail. */
    method ReadState(path: string, previous: Option<string>) returns (r: Result<FileState>)
      modifies `faults
      ensures r.Ok? ==> r.value == StateOf(hash, disk, path, previous)
      ensures faults == old(faults) + if r.Ok? then 0 else 1
    {
      if * {
        faults := faults + 1;
        return Err;
      }
      r := Ok(StateOf(hash, disk, path, previous));
    }

    /** Install one file unless the user owns what is there. */
    method InstallFile(f: File, prev: Sums, sums0: Sums, ghost mark: nat, ghost before: Disk)
      returns (ok: bool, sums: Sums)
      requires KeptSince(mark, before, prev)
      modifies `disk, `trace, `faults
      ensures KeptSince(mark, before, prev) && old(trace) <= trace
      ensures OnlyWrites(old(disk), disk, {f.path})
      ensures ok ==> Progress(disk, sums) == InstallOne(hash, prev, Progress(old(disk), sums0), f)
      ensures if ok then faults == old(faults) else faults > old(faults)
    {
      sums := sums0;
      var previous := Recorded(prev, f.path);
      var state := ReadState(f.path, previous);
      if state.Err? {
        return false, sums;
      }
      if state.value.ModifiedOrUnmanaged? {
        if previous.Some? {
          sums := sums[f.path := previous.value];
        }
        return true, sums;
      }
      ok := WriteFile(f.path, f.content, prev, mark, before);
      sums := sums[f.path := hash(f.content)];
    }

    /** The pruning loop over the previous manifest, in any order. */
    method PruneRemovedFiles(prev: Sums, sums0: Sums, ghost mark: nat, ghost before: Disk)
      returns (ok: bool, sums: Sums)
      requires KeptSince(mark, before, prev)
      modifies `disk, `trace, `faults
      ensures KeptSince(mark, before, prev) && old(trace) <= trace
      ensures OnlyDrops(old(disk), disk, prev, sums0)
      ensures ok ==> Progress(disk, sums) == Prune(hash, prev, Progress(old(disk), sums0))
      ensures if ok then faults == old(faults) else faults > old(faults)
    {
      sums := sums0;
      var todo := prev.Keys;
      ghost var start := Progress(disk, sums0);
      while todo != {}
        invariant todo <= prev.Keys
        invariant KeptSince(mark, before, prev) && old(trace) <= trace
        invariant forall p :: PrunedAt(hash, prev, start, todo, Progress(disk, sums), p)
        invariant faults == old(faults)
        invariant sums0.Keys <= sums.Keys && OnlyDrops(old(disk), disk, prev, sums0)
        decreases todo
      {
        var path :| path in todo;
        ghost var now := Progress(disk, sums);
        assert PrunedAt(hash, prev, start, todo, now, path);
        if path !in sums {
          var state := ReadState(path, Some(prev[path]));
          if state.Err? {
            return false, sums;
          }
          match state.value
          case AbsentFile =>
          case MatchesManaged =>
            ghost var held := disk;
            var removed := RemoveFile(path, prev, mark, before);
            DroppingOne(old(disk), held, disk, prev, sums0, path);
            if !removed {
              return false, sums;
            }
          case ModifiedOrUnmanaged =>
            sums := sums[path := prev[path]];
        }
        PruneStep(hash, prev, start, todo, now, Progress(disk, sums), path);
        todo := todo - {path};
      }
      PruneIsPointwise(hash, prev, start, Progress(disk, sums));
      ok := true;
    }

    /** The end of both syncs: prune, then record what is managed now. */
    method Finish(version: string, prev: Sums, sums: Sums, ghost mark: nat, ghost before: Disk)
      returns (r: Result<Manifest>)
      requires KeptSince(mark, before, prev)
      modifies `disk, `trace, `faults, `manifestFile
      ensures KeptSince(mark, before, prev) && old(trace) <= trace
      ensures r.Ok? ==>
                && Progress(disk, r.value.checksums) == Prune(hash, prev, Progress(old(disk), sums))
                && r.value.version == version && manifestFile == Stored(r.value)
      ensures OnlyDrops(old(disk), disk, prev, sums)
      ensures if r.Ok? then faults == old(faults) else faults > old(faults)
      ensures r.Err? ==> manifestFile == old(manifestFile) || manifestFile == Unparsable
    {
      var ok, kept := PruneRemovedFiles(prev, sums, mark, before);
      if !ok {
        return Err;
      }
      var next := Manifest(version, kept);
      ok := WriteManifest(next);
      r := if ok then Ok(next) else Err;
    }

    /** `write_bundle_to_cache`. */
    method WriteBundleToCache(bundle: Bundle) returns (r: Result<Manifest>)
      modifies `disk, `trace, `faults, `manifestFile
      ensures old(trace) <= trace
      ensures KeptSince(|old(trace)|, old(disk), PreviousSums(old(manifestFile)))
      ensures r.Ok? ==>
                && ValidBundle(bundle) && !old(manifestFile).Unparsable?
                && Progress(disk, r.value.checksums) ==
                   Sync(hash, old(disk), PreviousSums(old(manifestFile)), BundleFiles(bundle), true)
                && r.value.version == bundle.version && manifestFile == Stored(r.value)
      ensures r.Err? ==> manifestFile == old(manifestFile) || manifestFile == Unparsable
      ensures faults == old(faults) ==> (r.Ok? <==> ValidBundle(bundle) && !old(manifestFile).Unparsable?)
      ensures r.Err? ==>
                Interrupted(hash, old(disk), PreviousSums(old(manifestFile)), BundleFiles(bundle), true, disk)
    {
      var previous := ReadPrevious();
      if previous.Err? {
        return Err;
      }
      var listed := ListBundleFiles(bundle);
      if listed.Err? {
        return Err;
      }
      r := SyncListed(listed.value, bundle.version, previous.value, BundleFiles(bundle));
    }

    /** A JSON sync once its files are listed. */
    method SyncListed(files: seq<File>, version: string, prev: Sums, ghost wanted: Disk) returns (r: Result<Manifest>)
      requires Lists(files, wanted)
      modifies `disk, `trace, `faults, `manifestFile
      ensures old(trace) <= trace && KeptSince(|old(trace)|, old(disk), prev)
      ensures r.Ok? ==>
                && Progress(disk, r.value.checksums) == Sync(hash, old(disk), prev, wanted, true)
                && r.value.version == version && manifestFile == Stored(r.value)
      ensures r.Err? ==> manifestFile == old(manifestFile) || manifestFile == Unparsable
      ensures if r.Ok? then faults == old(faults) else faults > old(faults)
      ensures Interrupted(hash, old(disk), prev, wanted, true, disk)
    {
      var ok, sums := InstallFiles(files, prev, |trace|, disk);
      if !ok {
        WritingIsInterrupted(hash, old(disk), prev, wanted, true, disk);
        return Err;
      }
      InstallAllIsInstall(hash, prev, Progress(old(disk), map[]), files);
      ghost var mid := disk;
      sums := KeepWorkflows(prev, Progress(disk, sums)).sums;
      r := Finish(version, prev, sums, |old(trace)|, old(disk));
      FailedIsInterrupted(hash, old(disk), prev, wanted, mid, sums, disk);
    }

    /** The installation loop of the JSON sync. */
    method InstallFiles(files: seq<File>, prev: Sums, ghost mark: nat, ghost before: Disk)
      returns (ok: bool, sums: Sums)
      requires KeptSince(mark, before, prev)
      modifies `disk, `trace, `faults
      ensures KeptSince(mark, before, prev) && old(trace) <= trace
      ensures OnlyWrites(old(disk), disk, Wanted(files).Keys)
      ensures ok ==> Progress(disk, sums) == InstallAll(hash, prev, Progress(old(disk), map[]), files)
      ensures if ok then faults == old(faults) else faults > old(faults)
    {
      sums := map[];
      WantedPaths(files);
      for i := 0 to |files|
        invariant KeptSince(mark, before, prev) && old(trace) <= trace
        invariant faults == old(faults)
        invariant OnlyWrites(old(disk), disk, Wanted(files).Keys)
        invariant InstallAll(hash, prev, Progress(old(disk), map[]), files) ==
                  InstallAll(hash, prev, Progress(disk, sums), files[i..])
      {
        assert files[i..][1..] == files[i + 1..];
        ghost var held := disk;
        ok, sums := InstallFile(files[i], prev, sums, mark, before);
        WritingOneMore(old(disk), held, disk, files[i].path, Wanted(files).Keys);
        if !ok {
          return;
        }
      }
      ok := true;
    }

    /** One turn of the extraction loop. */
    method ExtractEntry(item: Item, at: Cursor, prev: Sums, sums0: Sums, ghost mark: nat, ghost before: Disk)
      returns (ok: bool, next: Cursor, sums: Sums)
      requires KeptSince(mark, before, prev)
      modifies `disk, `trace, `faults
      ensures KeptSince(mark, before, prev) && old(trace) <= trace
      ensures ok ==> ItemTaken(hash, prev, item, at, Progress(old(disk), sums0), next, Progress(disk, sums))
      ensures ok ==> faults == old(faults)
      ensures !ok && faults == old(faults) ==> ItemRefused(item, at)
    {
      ok, next, sums := true, at, sums0;
      if !item.regular {
        return;
      }
      next := next.(count := at.count + 1);
      if next.count > MAX_ENTRIES || item.size > MAX_ENTRY_SIZE {
        ok := false;
        return;
      }
      next := next.(total := at.total + item.size);
      if next.total > MAX_DECOMPRESSED_SIZE {
        ok := false;
        return;
      }
      match item.role
      case Ignored =>
      case Versions(parsed) =>
        if parsed.None? {
          ok := false;
        } else {
          next := next.(version := parsed.value);
        }
      case Installs(file) =>
        ok, sums := InstallFile(file, prev, sums, mark, before);
    }

    /** The extraction loop. */
    method ExtractItems(items: seq<Item>, prev: Sums) returns (ok: bool, at: Cursor, sums: Sums)
      modifies `disk, `trace, `faults
      ensures old(trace) <= trace && KeptSince(|old(trace)|, old(disk), prev)
      ensures ok ==>
                && faults == old(faults) && PlanOf(items, 0, 0).Some?
                && var plan := PlanOf(items, 0, 0).value;
                && Progress(disk, sums) == InstallAll(hash, prev, Progress(old(disk), map[]), plan.files)
                && at.version == VersionOr(plan.version, "")
      ensures !ok && faults == old(faults) ==> PlanOf(items, 0, 0).None?
    {
      sums, at := map[], Cursor(0, 0, "");
      ghost var start := Progress(disk, map[]);
      for i := 0 to |items|
        invariant old(trace) <= trace && KeptSince(|old(trace)|, old(disk), prev)
        invariant PlanContinues(hash, prev, start, items, items[i..], at, Progress(disk, sums))
        invariant faults == old(faults) && StillPossible(items, items[i..], at)
      {
        ghost var now := Progress(disk, sums);
        var taken, next, sums' := ExtractEntry(items[i], at, prev, sums, |old(trace)|, old(disk));
        PossibleOn(hash, prev, items, i, at, now, next, Progress(disk, sums'), taken, faults == old(faults));
        if !taken {
          ok := false;
          return;
        }
        PlanContinuesOn(hash, prev, start, items, i, at, now, next, Progress(disk, sums'));
        at, sums := next, sums';
      }
      ok := true;
    }

    /** `extract_bundle_archive`, from the decoded members of the archive. */
    method ExtractBundleArchive(entries: seq<Entry>) returns (r: Result<Manifest>)
      modifies `disk, `trace, `faults, `manifestFile
      ensures old(trace) <= trace
      ensures KeptSince(|old(trace)|, old(disk), PreviousSums(old(manifestFile)))
      ensures r.Ok? ==>
                && ArchivePlan(entries).Some? && !old(manifestFile).Unparsable?
                && var plan := ArchivePlan(entries).value;
                   var prev := PreviousSums(old(manifestFile));
                && Progress(disk, r.value.checksums) ==
                   Prune(hash, prev, InstallAll(hash, prev, Progress(old(disk), map[]), plan.files))
                && Some(r.value.version) == plan.version && manifestFile == Stored(r.value)
      ensures r.Err? ==> manifestFile == old(manifestFile) || manifestFile == Unparsable
      ensures faults == old(faults) ==> (r.Ok? <==> ArchivePlan(entries).Some? && !old(manifestFile).Unparsable?)
    {
      var previous := ReadPrevious();
      if previous.Err? {
        return Err;
      }
      var prev := previous.value;
      var ok, at, sums := ExtractItems(ItemsOf(entries), prev);
      if !ok {
        return Err;
      }
      if at.version == "" {
        return Err;
      }
      r := Finish(at.version, prev, sums, |old(trace)|, old(disk));
    }
  }

  lemma WritingOneMore(a: Disk, b: Disk, c: Disk, path: string, paths: set<string>)
    requires OnlyWrites(a, b, paths) && OnlyWrites(b, c, {path}) && path in paths
    ensures OnlyWrites(a, c, paths)
  {
    assert OnlyWrites(b, c, paths) by {
      forall p ensures Recorded(c, p) == Recorded(b, p) || (p in paths && p in c) {
        assert Recorded(c, p) == Recorded(b, p) || (p in {path} && p in c);
      }
    }
    OnlyWritesThen(a, b, c, paths);
  }

  lemma DroppingOne(a: Disk, b: Disk, c: Disk, prev: Sums, sums: Sums, path: string)
    requires OnlyDrops(a, b, prev, sums) && (c == b || c == b - {path}) && path in prev && path !in sums
    ensures OnlyDrops(a, c, prev, sums)
  {
    forall p ensures Recorded(c, p) == Recorded(a, p) || (p in prev && p !in sums && p !in c) {
      assert Recorded(b, p) == Recorded(a, p) || (p in prev && p !in sums && p !in b);
    }
  }

  /** What a JSON sync leaves after its installation, whether it then fails or not. */
  lemma FailedIsInterrupted(hash: Hash, disk: Disk, prev: Sums, wanted: Disk, mid: Disk, sums: Sums, now: Disk)
    requires UserContentKept(hash, disk, prev, now)
    requires OnlyWrites(disk, mid, wanted.Keys) && OnlyDrops(mid, now, prev, sums)
    requires sums == KeepWorkflows(prev, Install(hash, prev, Progress(disk, map[]), wanted)).sums
    ensures Interrupted(hash, disk, prev, wanted, true, now)
  {
    forall p | p in prev && p !in sums ensures p !in wanted && !KeptWorkflow(true, p) {
      DroppedIsUnwanted(hash, prev, disk, wanted, p);
    }
    PruningIsInterrupted(hash, disk, prev, wanted, true, mid, sums, now);
  }

  /** Half-way through pruning: paths in `todo` are untouched, the others are as `Prune` leaves them. */
  predicate PrunedAt(hash: Hash, prev: Sums, start: Progress, todo: set<string>, now: Progress, p: string) {
    var goal := if p in todo then start else Prune(hash, prev, start);
    Recorded(now.disk, p) == Recorded(goal.disk, p) && Recorded(now.sums, p) == Recorded(goal.sums, p)
  }

  /** What pruning does about one recorded path. */
  function PruneOne(hash: Hash, prev: Sums, s: Progress, path: string): Progress
    requires path in prev
  {
    if path in s.sums then s
    else match StateOf(hash, s.disk, path, Some(prev[path]))
      case AbsentFile => s
      case MatchesManaged => Progress(s.disk - {path}, s.sums)
      case ModifiedOrUnmanaged => Progress(s.disk, s.sums[path := prev[path]])
  }

  lemma PruneStep(hash: Hash, prev: Sums, start: Progress, todo: set<string>, now: Progress, next: Progress, path: string)
    requires forall p :: PrunedAt(hash, prev, start, todo, now, p)
    requires path in todo && path in prev && next == PruneOne(hash, prev, now, path)
    ensures forall p :: PrunedAt(hash, prev, start, todo - {path}, next, p)
  {
    forall p ensures PrunedAt(hash, prev, start, todo - {path}, next, p) {
      assert PrunedAt(hash, prev, start, todo, now, p);
    }
  }

  lemma PruneIsPointwise(hash: Hash, prev: Sums, start: Progress, now: Progress)
    requires forall p :: PrunedAt(hash, prev, start, {}, now, p)
    ensures now == Prune(hash, prev, start)
  {
    var goal := Prune(hash, prev, start);
    forall p ensures Recorded(now.disk, p) == Recorded(goal.disk, p) && Recorded(now.sums, p) == Recorded(goal.sums, p) {
      assert PrunedAt(hash, prev, start, {}, now, p);
    }
    SameRecords(now.disk, goal.disk);
    SameRecords(now.sums, goal.sums);
  }

  /** The counters of the extraction loop, and the version seen last. */
  datatype Cursor = Cursor(count: nat, total: nat, version: string)

  /** If reading the rest of the archive succeeds, so does reading it all, and it ends alike. */
  ghost predicate PlanContinues(hash: Hash, prev: Sums, start: Progress, items: seq<Item>, rest: seq<Item>,
                                at: Cursor, now: Progress)
  {
    PlanOf(rest, at.count, at.total).Some? ==>
      && PlanOf(items, 0, 0).Some?
      && var all := PlanOf(items, 0, 0).value;
         var left := PlanOf(rest, at.count, at.total).value;
      && InstallAll(hash, prev, start, all.files) == InstallAll(hash, prev, now, left.files)
      && VersionOr(all.version, "") == VersionOr(left.version, at.version)
  }

  /** What taking one member does to the counters and the cache. */
  predicate ItemTaken(hash: Hash, prev: Sums, item: Item, at: Cursor, now: Progress, next: Cursor, then': Progress) {
    if !item.regular then next == at && then' == now
    else
      && next.count == at.count + 1 <= MAX_ENTRIES && item.size <= MAX_ENTRY_SIZE
      && next.total == at.total + item.size <= MAX_DECOMPRESSED_SIZE
      && match item.role
         case Ignored => next.version == at.version && then' == now
         case Versions(parsed) => parsed == Some(next.version) && then' == now
         case Installs(file) => next.version == at.version && then' == InstallOne(hash, prev, now, file)
  }

  /** The limits are exceeded, or the version file does not parse. */
  predicate ItemRefused(item: Item, at: Cursor) {
    && item.regular
    && (|| at.count + 1 > MAX_ENTRIES || item.size > MAX_ENTRY_SIZE || at.total + item.size > MAX_DECOMPRESSED_SIZE
        || (item.role.Versions? && item.role.version.None?))
  }

  /** Reading the whole archive succeeds if and only if reading the rest does. */
  predicate StillPossible(items: seq<Item>, rest: seq<Item>, at: Cursor) {
    PlanOf(items, 0, 0).Some? <==> PlanOf(rest, at.count, at.total).Some?
  }

  /** A member that is not a regular file changes nothing. */
  lemma SkippedUnfolds(rest: seq<Item>, at: Cursor)
    requires rest != [] && !rest[0].regular
    ensures PlanOf(rest, at.count, at.total) == PlanOf(rest[1..], at.count, at.total)
  {}

  /** A refused member stops the reading. */
  lemma RefusedUnfolds(rest: seq<Item>, at: Cursor)
    requires rest != [] && ItemRefused(rest[0], at)
    ensures PlanOf(rest, at.count, at.total).None?
  {
    var later := PlanOf(rest[1..], at.count + 1, at.total + rest[0].size);
    if later.Some? {
      assert PlanOf(rest, at.count, at.total).None?;
    }
  }

  /** Any other member lets it go on. */
  lemma TakenUnfolds(rest: seq<Item>, at: Cursor)
    requires rest != [] && rest[0].regular && !ItemRefused(rest[0], at)
    ensures PlanOf(rest, at.count, at.total).Some? <==> PlanOf(rest[1..], at.count + 1, at.total + rest[0].size).Some?
  {
    var later := PlanOf(rest[1..], at.count + 1, at.total + rest[0].size);
    if later.None? {
      assert PlanOf(rest, at.count, at.total).None?;
    }
  }

  lemma PossibleOn(hash: Hash, prev: Sums, items: seq<Item>, i: nat, at: Cursor, now: Progress, next: Cursor,
                   then': Progress, ok: bool, faultless: bool)
    requires i < |items| && StillPossible(items, items[i..], at)
    requires ok ==> ItemTaken(hash, prev, items[i], at, now, next, then')
    requires !ok && faultless ==> ItemRefused(items[i], at)
    ensures ok ==> StillPossible(items, items[i + 1..], next)
    ensures !ok && faultless ==> PlanOf(items, 0, 0).None?
  {
    var rest, whole := items[i..], PlanOf(items, 0, 0).Some?;
    assert rest[0] == items[i] && rest[1..] == items[i + 1..];
    assert whole <==> PlanOf(rest, at.count, at.total).Some?;
    if !items[i].regular {
      SkippedUnfolds(rest, at);
    } else if ItemRefused(items[i], at) {
      RefusedUnfolds(rest, at);
    } else {
      TakenUnfolds(rest, at);
    }
  }

  lemma PlanContinuesOn(hash: Hash, prev: Sums, start: Progress, items: seq<Item>, i: nat, at: Cursor, now: Progress,
                        next: Cursor, then': Progress)
    requires i < |items| && PlanContinues(hash, prev, start, items, items[i..], at, now)
    requires ItemTaken(hash, prev, items[i], at, now, next, then')
    ensures PlanContinues(hash, prev, start, items, items[i + 1..], next, then')
  {
    var rest := items[i..];
    assert rest[0] == items[i] && rest[1..] == items[i + 1..];
    var left := PlanOf(items[i + 1..], next.count, next.total);
    if left.Some? && items[i].regular && items[i].role.Installs? {
      var files := [items[i].role.file] + left.value.files;
      assert files[1..] == left.value.files;
    }
  }

  function VersionOr(version: Option<string>, default: string): string {
    if version.Some? then version.value else default
  }

  /** Changing only a path the cache may write keeps the user's content. */
  lemma KeptByWrite(hash: Hash, before: Disk, prev: Sums, now: Disk, next: Disk, path: string)
    requires UserContentKept(hash, before, prev, now) && Writable(hash, now, prev, path)
    requires next - {path} == now - {path}
    ensures UserContentKept(hash, before, prev, next)
  {
    forall p | UserOwned(hash, before, prev, p) ensures p in next && next[p] == before[p] {
      assert p in now && now[p] == before[p];
      assert p != path;
      assert p in now - {path} && (now - {path})[p] == now[p];
      assert p in next - {path};
    }
  }
}
