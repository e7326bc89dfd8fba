/**
 What success of a publication means: the file is in place, until the next publication replaces it.
 */
module PublishedLast {
  import opened Prelude
  import opened Publish

  /** The last writer to have published under `name`. */
  function LastFor(log: seq<Publication>, name: string): Option<Wid> {
    if log == [] then None
    else
      var n := |log| - 1;
      if log[n].name == name then Some(log[n].writer) else LastFor(log[..n], name)
  }

  predicate InLog(s: State, w: Wid) {
    exists i :: 0 <= i < |s.log| && s.log[i].writer == w
  }

  /** `name` holds what the last publication put there, or what it held at the start. */
  predicate HoldsLast(start: State, s: State, name: string) {
    match LastFor(s.log, name)
    case None =>
      && (Dest(name) in s.dir <==> Dest(name) in start.dir)
      && (Dest(name) in s.dir ==> s.dir[Dest(name)] == start.dir[Dest(name)])
    case Some(w) =>
      && At(s, w) && s.writers[w].dest == name
      && Dest(name) in s.dir && s.dir[Dest(name)] in s.objs && s.dir[Dest(name)] in s.past
      && s.objs[s.dir[Dest(name)]] == FileObj(s.writers[w].contents, true)
  }

  /** A writer is in the log iff it got its file published; it then reports success, unless it crashed. */
  predicate LogIsTrue(s: State) {
    && (forall i | 0 <= i < |s.log| ::
          && At(s, s.log[i].writer) && s.writers[s.log[i].writer].dest == s.log[i].name
          && (Succeeded(PhaseOf(s, s.log[i].writer)) || PhaseOf(s, s.log[i].writer).Dead?))
    && (forall w | w in s.writers && Succeeded(s.writers[w].phase) :: InLog(s, w))
  }

  predicate Publishes(s: State, e: Event) {
    e.RenameOver? || (e.HardLink? && e.w in s.writers && Dest(s.writers[e.w].dest) !in s.dir)
  }

  lemma LastForSnoc(log: seq<Publication>, p: Publication, name: string)
    ensures LastFor(log + [p], name) == if p.name == name then Some(p.writer) else LastFor(log, name)
  {
    assert (log + [p])[..|log|] == log;
  }

  lemma PublishingHoldsLast(hardLinks: bool, start: State, s: State, e: Event, name: string)
    requires WritersOk(s) && CanStep(hardLinks, s, e) && Publishes(s, e) && s.writers[e.w].dest == name
    ensures HoldsLast(start, Step(hardLinks, s, e), name)
  {
    assert WriterOk(s, e.w);
    LastForSnoc(s.log, Publication(name, e.w), name);
  }

  lemma LogAfter(hardLinks: bool, s: State, e: Event)
    requires CanStep(hardLinks, s, e)
    ensures Step(hardLinks, s, e).log ==
            if Publishes(s, e) then s.log + [Publication(s.writers[e.w].dest, e.w)] else s.log
  {}

  /** Steps that publish nothing under `name` leave its entry alone. */
  lemma OthersKeepEntry(hardLinks: bool, s: State, e: Event, name: string)
    requires WritersOk(s) && CanStep(hardLinks, s, e) && !e.PowerLoss?
    requires !(Publishes(s, e) && s.writers[e.w].dest == name)
    ensures var next := Step(hardLinks, s, e);
            && (Dest(name) in next.dir <==> Dest(name) in s.dir)
            && (Dest(name) in s.dir ==> next.dir[Dest(name)] == s.dir[Dest(name)])
            && (forall o | o in s.past :: o in next.past)
  {
    if !e.Spawn? {
      assert WriterOk(s, e.w);
    }
  }

  lemma OthersHoldLast(hardLinks: bool, start: State, s: State, e: Event, name: string)
    requires Inv(start, s) && CanStep(hardLinks, s, e) && !e.PowerLoss? && HoldsLast(start, s, name)
    requires !(Publishes(s, e) && s.writers[e.w].dest == name)
    ensures HoldsLast(start, Step(hardLinks, s, e), name)
  {
    LogAfter(hardLinks, s, e);
    if Publishes(s, e) {
      LastForSnoc(s.log, Publication(s.writers[e.w].dest, e.w), name);
    }
    OthersKeepEntry(hardLinks, s, e, name);
    if LastFor(s.log, name).Some? {
      WriterStays(hardLinks, s, e, LastFor(s.log, name).value);
      PublishedFilesAreFrozen(hardLinks, s, e, s.dir[Dest(name)]);
    }
  }

  /** Whoever succeeded stays successful, or dies. */
  lemma SuccessStays(hardLinks: bool, s: State, e: Event, w: Wid)
    requires CanStep(hardLinks, s, e) && w in s.writers && (Succeeded(s.writers[w].phase) || s.writers[w].phase.Dead?)
    ensures var next := Step(hardLinks, s, e);
            w in next.writers && (Succeeded(next.writers[w].phase) || next.writers[w].phase.Dead?)
  {}

  lemma SuccessIsPublishing(hardLinks: bool, s: State, e: Event, w: Wid)
    requires CanStep(hardLinks, s, e) && w in Step(hardLinks, s, e).writers
    requires Succeeded(Step(hardLinks, s, e).writers[w].phase)
    ensures (w in s.writers && Succeeded(s.writers[w].phase)) || (Publishes(s, e) && e.w == w)
  {}

  lemma PublisherSucceeds(hardLinks: bool, s: State, e: Event)
    requires CanStep(hardLinks, s, e) && Publishes(s, e)
    ensures var next := Step(hardLinks, s, e);
            && e.w in next.writers && Succeeded(next.writers[e.w].phase)
            && next.writers[e.w].dest == s.writers[e.w].dest
  {}

  lemma StepKeepsLogTrue(hardLinks: bool, s: State, e: Event)
    requires LogIsTrue(s) && CanStep(hardLinks, s, e)
    ensures LogIsTrue(Step(hardLinks, s, e))
  {
    var next := Step(hardLinks, s, e);
    LogAfter(hardLinks, s, e);
    forall i | 0 <= i < |next.log|
      ensures && At(next, next.log[i].writer) && next.writers[next.log[i].writer].dest == next.log[i].name
              && (Succeeded(PhaseOf(next, next.log[i].writer)) || PhaseOf(next, next.log[i].writer).Dead?)
    {
      if i < |s.log| {
        assert next.log[i] == s.log[i];
        WriterStays(hardLinks, s, e, s.log[i].writer);
        SuccessStays(hardLinks, s, e, s.log[i].writer);
      } else {
        PublisherSucceeds(hardLinks, s, e);
      }
    }
    forall w | w in next.writers && Succeeded(next.writers[w].phase) ensures InLog(next, w) {
      SuccessIsPublishing(hardLinks, s, e, w);
      if Publishes(s, e) && e.w == w {
        assert next.log[|s.log|].writer == w;
      } else {
        assert InLog(s, w);
        var i :| 0 <= i < |s.log| && s.log[i].writer == w;
        assert next.log[i] == s.log[i];
      }
    }
  }

  lemma {:induction false} ReachableHoldsLast(hardLinks: bool, start: State, events: seq<Event>, s: State, name: string)
    requires IsStart(start) && Reachable(hardLinks, start, events, s) && NoPowerLoss(events)
    ensures HoldsLast(start, s, name) && LogIsTrue(s)
    decreases |events|
  {
    if events == [] {
      assert s == start;
    } else {
      var before, e := LastStep(hardLinks, start, events, s);
      assert e in events;
      ReachableKeepsInv(hardLinks, start, events[..|events| - 1], before);
      ReachableHoldsLast(hardLinks, start, events[..|events| - 1], before, name);
      StepKeepsLogTrue(hardLinks, before, e);
      if Publishes(before, e) && before.writers[e.w].dest == name {
        PublishingHoldsLast(hardLinks, start, before, e, name);
      } else {
        OthersHoldLast(hardLinks, start, before, e, name);
      }
    }
  }

  /**
   Success means published, and the last publication wins: without power loss, a finished writer reported
   success iff it renamed or linked its file into place, and every destination holds the complete contents
   of the last writer to have done so there, or what it held at the start if nobody has.
   */
  lemma LastPublicationWins(hardLinks: bool, start: State, events: seq<Event>, s: State, name: string)
    requires IsStart(start) && Reachable(hardLinks, start, events, s) && NoPowerLoss(events)
    ensures match LastFor(s.log, name)
            case None =>
              && (Dest(name) in s.dir <==> Dest(name) in start.dir)
              && (Dest(name) in s.dir ==> s.dir[Dest(name)] == start.dir[Dest(name)])
            case Some(w) =>
              && w in s.writers && s.writers[w].dest == name && Dest(name) in s.dir && s.dir[Dest(name)] in s.objs
              && s.objs[s.dir[Dest(name)]] == FileObj(s.writers[w].contents, true)
    ensures forall w | w in s.writers && s.writers[w].phase.Finished? :: s.writers[w].phase.ok <==> InLog(s, w)
  {
    ReachableHoldsLast(hardLinks, start, events, s, name);
  }

  /** The writer holds its own file, filled up to `written`, under its temporary name. */
  predicate IsFilling(s: State, w: Wid, obj: Obj, written: nat) {
    && At(s, w) && PhaseOf(s, w).Filling? && PhaseOf(s, w).obj == obj && PhaseOf(s, w).written == written
    && s.writers[w].mode.Overwrite? && obj in s.objs
    && PhaseOf(s, w).temp in s.dir && s.dir[PhaseOf(s, w).temp] == obj
  }

  lemma CreateStep(hardLinks: bool, s: State, w: Wid, obj: Obj)
    requires At(s, w) && PhaseOf(s, w).Naming? && PhaseOf(s, w).tries < 32 && s.writers[w].mode.Overwrite? && obj !in s.objs
    requires s.writers[w].pid in s.nonces && Temp(s.writers[w].pid, s.nonces[s.writers[w].pid]) !in s.dir
    ensures CanStep(hardLinks, s, CreateTemp(w, obj)) && IsFilling(Step(hardLinks, s, CreateTemp(w, obj)), w, obj, 0)
  {}

  /** The next `k` temporary names of a process are taken, and the one after them is free. */
  predicate FreeAfter(s: State, pid: nat, k: nat) {
    && pid in s.nonces && Temp(pid, s.nonces[pid] + k) !in s.dir
    && forall n | s.nonces[pid] <= n < s.nonces[pid] + k :: Temp(pid, n) in s.dir
  }

  lemma TakenStep(hardLinks: bool, s: State, w: Wid, obj: Obj, k: nat)
    requires At(s, w) && PhaseOf(s, w).Naming? && PhaseOf(s, w).tries < 32 && obj !in s.objs
    requires k > 0 && FreeAfter(s, s.writers[w].pid, k)
    ensures CanStep(hardLinks, s, CreateTemp(w, obj))
    ensures var next := Step(hardLinks, s, CreateTemp(w, obj));
            && At(next, w) && next.writers[w] == s.writers[w].(phase := Naming(PhaseOf(s, w).tries + 1))
            && next.objs == s.objs && FreeAfter(next, s.writers[w].pid, k - 1)
  {
    assert Temp(s.writers[w].pid, s.nonces[s.writers[w].pid]) in s.dir;
  }

  /** A writer tries up to 32 names, and takes the first free one. */
  lemma {:induction false} FreeNameIsFound(hardLinks: bool, start: State, events: seq<Event>, s: State, w: Wid, obj: Obj, k: nat)
    returns (run: seq<Event>, last: State)
    requires Reachable(hardLinks, start, events, s) && At(s, w) && PhaseOf(s, w).Naming? && PhaseOf(s, w).tries + k < 32
    requires s.writers[w].mode.Overwrite? && obj !in s.objs && FreeAfter(s, s.writers[w].pid, k)
    ensures Reachable(hardLinks, start, run, last) && IsFilling(last, w, obj, 0)
    ensures last.writers[w].contents == s.writers[w].contents && last.writers[w].dest == s.writers[w].dest
    decreases k
  {
    var create := CreateTemp(w, obj);
    if k == 0 {
      CreateStep(hardLinks, s, w, obj);
      Extend(hardLinks, start, events, s, create);
      WriterStays(hardLinks, s, create, w);
      run, last := events + [create], Step(hardLinks, s, create);
    } else {
      TakenStep(hardLinks, s, w, obj, k);
      Extend(hardLinks, start, events, s, create);
      run, last := FreeNameIsFound(hardLinks, start, events + [create], Step(hardLinks, s, create), w, obj, k - 1);
    }
  }

  lemma WriteStep(hardLinks: bool, s: State, w: Wid, obj: Obj)
    requires IsFilling(s, w, obj, 0)
    ensures var e := WriteSome(w, |s.writers[w].contents|);
            && CanStep(hardLinks, s, e) && IsFilling(Step(hardLinks, s, e), w, obj, |s.writers[w].contents|)
            && Step(hardLinks, s, e).objs[obj].content == s.writers[w].contents
  {}

  /** Syncing a complete file and renaming it into place. */
  lemma SyncAndRename(hardLinks: bool, s: State, w: Wid, obj: Obj)
    requires At(s, w) && IsFilling(s, w, obj, |s.writers[w].contents|) && s.objs[obj].content == s.writers[w].contents
    ensures CanStep(hardLinks, s, Sync(w))
    ensures CanStep(hardLinks, Step(hardLinks, s, Sync(w)), RenameOver(w))
    ensures var last := Step(hardLinks, Step(hardLinks, s, Sync(w)), RenameOver(w));
            && At(last, w) && PhaseOf(last, w) == Finished(true) && Dest(s.writers[w].dest) in last.dir
            && last.dir[Dest(s.writers[w].dest)] == obj && obj in last.objs
            && last.objs[obj] == FileObj(s.writers[w].contents, true)
  {}

  /**
   A writer that nothing disturbs publishes, unless it meets 32 taken names in a row: its contents are what
   its destination holds, and it says so.
   */
  lemma UndisturbedWriterPublishes(hardLinks: bool, start: State, events: seq<Event>, s: State, w: Wid, obj: Obj, taken: nat)
    returns (run: seq<Event>, last: State)
    requires Reachable(hardLinks, start, events, s) && At(s, w) && PhaseOf(s, w) == Naming(0)
    requires s.writers[w].mode.Overwrite? && obj !in s.objs && taken < 32 && FreeAfter(s, s.writers[w].pid, taken)
    ensures Reachable(hardLinks, start, run, last)
    ensures At(last, w) && PhaseOf(last, w) == Finished(true) && Dest(s.writers[w].dest) in last.dir
    ensures last.dir[Dest(s.writers[w].dest)] == obj && obj in last.objs
    ensures last.objs[obj] == FileObj(s.writers[w].contents, true)
  {
    var write := WriteSome(w, |s.writers[w].contents|);
    var naming, named := FreeNameIsFound(hardLinks, start, events, s, w, obj, taken);
    WriteStep(hardLinks, named, w, obj);
    Extend(hardLinks, start, naming, named, write);
    WriterStays(hardLinks, named, write, w);
    var written := Step(hardLinks, named, write);
    run := SyncedAndRenamed(hardLinks, start, naming + [write], written, w, obj);
    last := Step(hardLinks, Step(hardLinks, written, Sync(w)), RenameOver(w));
  }

  lemma SyncedAndRenamed(hardLinks: bool, start: State, events: seq<Event>, s: State, w: Wid, obj: Obj)
    returns (run: seq<Event>)
    requires Reachable(hardLinks, start, events, s)
    requires At(s, w) && IsFilling(s, w, obj, |s.writers[w].contents|) && s.objs[obj].content == s.writers[w].contents
    ensures CanStep(hardLinks, s, Sync(w)) && CanStep(hardLinks, Step(hardLinks, s, Sync(w)), RenameOver(w))
    ensures var last := Step(hardLinks, Step(hardLinks, s, Sync(w)), RenameOver(w));
            && Reachable(hardLinks, start, run, last)
            && At(last, w) && PhaseOf(last, w) == Finished(true) && Dest(s.writers[w].dest) in last.dir
            && last.dir[Dest(s.writers[w].dest)] == obj && obj in last.objs
            && last.objs[obj] == FileObj(s.writers[w].contents, true)
  {
    SyncAndRename(hardLinks, s, w, obj);
    Extend(hardLinks, start, events, s, Sync(w));
    Extend(hardLinks, start, events + [Sync(w)], Step(hardLinks, s, Sync(w)), RenameOver(w));
    run := events + [Sync(w)] + [RenameOver(w)];
  }

  lemma Extend(hardLinks: bool, start: State, events: seq<Event>, s: State, e: Event)
    requires Reachable(hardLinks, start, events, s) && CanStep(hardLinks, s, e)
    ensures Reachable(hardLinks, start, events + [e], Step(hardLinks, s, e))
  {
    assert (events + [e])[..|events|] == events;
  }
}
