/**
 What a sync that failed half-way leaves behind, and when running it again makes up for it. The
 manifest is written last, so a retry judges the files already rewritten against the old checksums.
 */
module BundleRetry {
  import opened Prelude
  import opened BundleSync

  /** At one path: untouched, written to (in full or torn), or pruned. */
  predicate InterruptedAt(hash: Hash, disk: Disk, prev: Sums, wanted: Disk, keepWorkflows: bool, now: Disk, p: string) {
    || Recorded(now, p) == Recorded(disk, p)
    || (p in wanted && p in now && Writable(hash, disk, prev, p))
    || (p !in wanted && !KeptWorkflow(keepWorkflows, p) && p in disk && !UserOwned(hash, disk, prev, p) && p !in now)
  }

  ghost predicate Interrupted(hash: Hash, disk: Disk, prev: Sums, wanted: Disk, keepWorkflows: bool, now: Disk) {
    forall p :: InterruptedAt(hash, disk, prev, wanted, keepWorkflows, now, p)
  }

  /** The file the failed sync left at `p` is one the old manifest vouches for, if it changed at all. */
  predicate StillManaged(hash: Hash, disk: Disk, prev: Sums, wanted: Disk, now: Disk, p: string) {
    p in wanted && p in now && Recorded(now, p) != Recorded(disk, p) ==> Recorded(prev, p) == Some(hash(now[p]))
  }

  predicate SameOutcomeAt(a: Progress, b: Progress, p: string) {
    Recorded(a.disk, p) == Recorded(b.disk, p) && Recorded(a.sums, p) == Recorded(b.sums, p)
  }

  lemma RetryConvergesAt(hash: Hash, disk: Disk, prev: Sums, wanted: Disk, keepWorkflows: bool, now: Disk, p: string)
    requires InterruptedAt(hash, disk, prev, wanted, keepWorkflows, now, p)
    ensures SameOutcomeAt(Sync(hash, now, prev, wanted, keepWorkflows), Sync(hash, disk, prev, wanted, keepWorkflows), p)
            <==> StillManaged(hash, disk, prev, wanted, now, p)
  {
    SyncAt(hash, disk, prev, wanted, keepWorkflows, p);
    SyncAt(hash, now, prev, wanted, keepWorkflows, p);
  }

  /**
   Retrying after a failure ends as the sync would have ended at once, if and only if every file the
   failed attempt had changed still bears the checksum of the old manifest.
   */
  lemma RetryConvergesExactly(hash: Hash, disk: Disk, prev: Sums, wanted: Disk, keepWorkflows: bool, now: Disk)
    requires Interrupted(hash, disk, prev, wanted, keepWorkflows, now)
    ensures Sync(hash, now, prev, wanted, keepWorkflows) == Sync(hash, disk, prev, wanted, keepWorkflows)
            <==> forall p :: StillManaged(hash, disk, prev, wanted, now, p)
  {
    var retried, direct := Sync(hash, now, prev, wanted, keepWorkflows), Sync(hash, disk, prev, wanted, keepWorkflows);
    forall p ensures SameOutcomeAt(retried, direct, p) <==> StillManaged(hash, disk, prev, wanted, now, p) {
      assert InterruptedAt(hash, disk, prev, wanted, keepWorkflows, now, p);
      RetryConvergesAt(hash, disk, prev, wanted, keepWorkflows, now, p);
    }
    if forall p :: SameOutcomeAt(retried, direct, p) {
      forall p ensures Recorded(retried.disk, p) == Recorded(direct.disk, p)
                       && Recorded(retried.sums, p) == Recorded(direct.sums, p)
      {
        assert SameOutcomeAt(retried, direct, p);
      }
      SameRecords(retried.disk, direct.disk);
      SameRecords(retried.sums, direct.sums);
    }
  }

  /** An updated file and a failure before the manifest: the retry keeps the file under its old checksum. */
  lemma UpdatedFileIsOrphaned(hash: Hash, p: string, a: Content, b: Content, keepWorkflows: bool)
    requires hash(a) != hash(b)
    ensures var disk, prev, wanted, now: Disk := map[p := a], map[p := hash(a)], map[p := b], map[p := b];
            && Interrupted(hash, disk, prev, wanted, keepWorkflows, now)
            && var retried := Sync(hash, now, prev, wanted, keepWorkflows);
            && Recorded(retried.disk, p) == Some(b) && Recorded(retried.sums, p) == Some(hash(a))
  {
    var disk: Disk, prev: Sums, now: Disk := map[p := a], map[p := hash(a)], map[p := b];
    forall q ensures InterruptedAt(hash, disk, prev, now, keepWorkflows, now, q) {
      if q != p {
        assert Recorded(now, q) == Recorded(disk, q);
      }
    }
    SyncAt(hash, now, prev, now, keepWorkflows, p);
  }

  // ---------------------------------------------------------------- how a failed sync gets there

  /** Nothing changed but files at `paths`, and none of those was removed. */
  ghost predicate OnlyWrites(disk: Disk, now: Disk, paths: set<string>) {
    forall p :: Recorded(now, p) == Recorded(disk, p) || (p in paths && p in now)
  }

  /** Nothing changed but that some files at recorded, dropped paths are gone. */
  ghost predicate OnlyDrops(disk: Disk, now: Disk, prev: Sums, sums: Sums) {
    forall p :: Recorded(now, p) == Recorded(disk, p) || (p in prev && p !in sums && p !in now)
  }

  lemma OnlyWritesThen(a: Disk, b: Disk, c: Disk, paths: set<string>)
    requires OnlyWrites(a, b, paths) && OnlyWrites(b, c, paths)
    ensures OnlyWrites(a, c, paths)
  {
    forall p ensures Recorded(c, p) == Recorded(a, p) || (p in paths && p in c) {
      assert Recorded(b, p) == Recorded(a, p) || (p in paths && p in b);
      assert Recorded(c, p) == Recorded(b, p) || (p in paths && p in c);
    }
  }

  /** Failing during the installation. */
  lemma WritingIsInterrupted(hash: Hash, disk: Disk, prev: Sums, wanted: Disk, keepWorkflows: bool, now: Disk)
    requires UserContentKept(hash, disk, prev, now) && OnlyWrites(disk, now, wanted.Keys)
    ensures Interrupted(hash, disk, prev, wanted, keepWorkflows, now)
  {
    forall p ensures InterruptedAt(hash, disk, prev, wanted, keepWorkflows, now, p) {
      assert Recorded(now, p) == Recorded(disk, p) || (p in wanted.Keys && p in now);
      if UserOwned(hash, disk, prev, p) {
        assert p in now && now[p] == disk[p];
      }
    }
  }

  /** Failing during the pruning, or after it. */
  lemma PruningIsInterrupted(hash: Hash, disk: Disk, prev: Sums, wanted: Disk, keepWorkflows: bool, mid: Disk, sums: Sums,
                             now: Disk)
    requires UserContentKept(hash, disk, prev, now)
    requires OnlyWrites(disk, mid, wanted.Keys) && OnlyDrops(mid, now, prev, sums)
    requires forall p | p in prev && p !in sums :: p !in wanted && !KeptWorkflow(keepWorkflows, p)
    ensures Interrupted(hash, disk, prev, wanted, keepWorkflows, now)
  {
    forall p ensures InterruptedAt(hash, disk, prev, wanted, keepWorkflows, now, p) {
      assert Recorded(mid, p) == Recorded(disk, p) || (p in wanted.Keys && p in mid);
      assert Recorded(now, p) == Recorded(mid, p) || (p in prev && p !in sums && p !in now);
      if UserOwned(hash, disk, prev, p) {
        assert p in now && now[p] == disk[p];
      }
    }
  }

  /** Whatever is recorded and neither wanted nor a kept workflow is all that pruning may drop. */
  lemma DroppedIsUnwanted(hash: Hash, prev: Sums, disk: Disk, wanted: Disk, p: string)
    requires p in prev && p !in KeepWorkflows(prev, Install(hash, prev, Progress(disk, map[]), wanted)).sums
    ensures p !in wanted && !KeptWorkflow(true, p)
  {
    InstallAt(hash, prev, Progress(disk, map[]), wanted, p);
  }
}
