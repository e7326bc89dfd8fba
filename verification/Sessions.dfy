/**
 The registry of open sessions: any number of processes register and unregister under an advisory
 lock, replace the data file by rename, time out, fail and crash, while others read it unlocked.
 Models `with_locked_state`, `register_in`, `try_unregister_in` and `list_in` of
 `ezer-active-sessions`.
 */
module Sessions {
  import opened Prelude

  type Obj = nat
  type Wid = nat
  type Rid = nat

  /** `info` stands for the working directory and the opening time. */
  datatype Session = Session(id: string, pid: nat, info: string)

  datatype Op = Register(session: Session) | Unregister(id: string)

  /** What one call does to the list; a registration has asked which processes answer a signal. */
  datatype Change = Added(session: Session, answering: set<nat>) | Removed(id: string)

  const LOCK_ACQUIRE_TIMEOUT: nat := 2000
  const LOCK_POLL_INTERVAL: nat := 50
  const MAX_PID: nat := 0x7fff_ffff

  predicate PidAlive(pid: nat, answering: set<nat>) { 0 < pid <= MAX_PID && pid in answering }

  /** Whether a change leaves a session in the list that was there before. */
  predicate Spares(c: Change, x: Session) {
    if c.Removed? then x.id != c.id
    else x.id != c.session.id && 0 < x.pid <= 0x7fff_ffff && x.pid in c.answering
  }

  /** The retained sessions, in their old order. */
  function Retained(list: seq<Session>, c: Change): (r: seq<Session>)
    ensures forall x :: x in r <==> x in list && Spares(c, x)
  {
    if list == [] then []
    else
      var rest := Retained(list[1..], c);
      if Drops(c, list[0]) then rest else [list[0]] + rest
  }

  predicate Drops(c: Change, x: Session) {
    match c
    case Added(session, answering) => x.id == session.id || !PidAlive(x.pid, answering)
    case Removed(id) => x.id == id
  }

  function Apply(list: seq<Session>, c: Change): seq<Session> {
    if c.Added? then Retained(list, c) + [c.session] else Retained(list, c)
  }

  predicate DistinctIds(list: seq<Session>) {
    forall i, j | 0 <= i < j < |list| :: list[i].id != list[j].id
  }

  predicate Performs(op: Op, c: Change) {
    match op
    case Register(session) => c.Added? && c.session == session
    case Unregister(id) => c == Removed(id)
  }

  // ---------------------------------------------------------------- the processes

  /** File contents: a complete list, or text that does not parse as one (empty, torn, corrupted). */
  datatype Bytes = Json(sessions: seq<Session>) | Garbage

  datatype Outcome = Committed | TimedOut | Failed

  datatype Phase =
    | Polling
    | Sleeping(until: nat)
    | Holding
    | Opened(file: Option<Obj>)
    | Mutated(change: Change, next: seq<Session>)
    | Filling(change: Change, next: seq<Session>, obj: Obj)
    | Filled(change: Change, next: seq<Session>, obj: Obj)
    | Returning(outcome: Outcome)
    | Done(outcome: Outcome)
    | Dead

  datatype Call = Call(op: Op, deadline: nat, phase: Phase)

  /** An unlocked reader remembers how many changes were committed when it opened the file. */
  datatype Reader = Looking(file: Option<Obj>, at: nat) | Got(list: seq<Session>, at: nat)

  datatype Commit = Commit(caller: Wid, change: Change)

  /** `log` lists the renames in order; `past` is every file the data name ever referred to. */
  datatype State = State(
    now: nat,
    lock: Option<Wid>,
    data: Option<Obj>,
    tmp: Option<Obj>,
    objs: map<Obj, Bytes>,
    calls: map<Wid, Call>,
    readers: map<Rid, Reader>,
    log: seq<Commit>,
    past: set<Obj>)

  datatype Event =
    | Tick(elapsed: nat)
    | Start(w: Wid, op: Op)
    | LockFails(w: Wid)
    | Poll(w: Wid)
    | Wake(w: Wid)
    | OpenData(w: Wid)
    | ReadFails(w: Wid)
    | Mutate(w: Wid, answering: set<nat>)
    | OpenTmp(w: Wid, spare: Obj)
    | FinishTmp(w: Wid)
    | WriteFails(w: Wid)
    | Rename(w: Wid)
    | RenameFails(w: Wid, removed: bool)
    | Return(w: Wid)
    | Crash(w: Wid, stranded: bool)   // a network file system may keep a dead process's lock for ever
    | ReaderOpens(r: Rid)
    | ReaderReads(r: Rid)

  predicate In(s: State, w: Wid) { w in s.calls }

  function PhaseOf(s: State, w: Wid): Phase
    requires In(s, w)
  {
    s.calls[w].phase
  }

  /** A missing, empty or corrupted file reads as the empty list. */
  function Decode(s: State, file: Option<Obj>): seq<Session> {
    if file.Some? && file.value in s.objs && s.objs[file.value].Json? then s.objs[file.value].sessions else []
  }

  function Listed(s: State): seq<Session> { Decode(s, s.data) }

  predicate CanStep(s: State, e: Event) {
    match e
    case Tick(_) => true
    case Start(w, _) => w !in s.calls
    case LockFails(w) => In(s, w) && PhaseOf(s, w).Polling?
    case Poll(w) => In(s, w) && PhaseOf(s, w).Polling?
    case Wake(w) => In(s, w) && PhaseOf(s, w).Sleeping? && PhaseOf(s, w).until <= s.now
    case OpenData(w) => In(s, w) && PhaseOf(s, w).Holding?
    case ReadFails(w) => In(s, w) && (PhaseOf(s, w).Holding? || PhaseOf(s, w).Opened?)
    case Mutate(w, _) => In(s, w) && PhaseOf(s, w).Opened?
    case OpenTmp(w, spare) => In(s, w) && PhaseOf(s, w).Mutated? && spare !in s.objs
    case FinishTmp(w) => In(s, w) && PhaseOf(s, w).Filling?
    case WriteFails(w) => In(s, w) && (PhaseOf(s, w).Mutated? || PhaseOf(s, w).Filling?)
    case Rename(w) => In(s, w) && PhaseOf(s, w).Filled?
    case RenameFails(w, _) => In(s, w) && PhaseOf(s, w).Filled?
    case Return(w) => In(s, w) && PhaseOf(s, w).Returning?
    case Crash(w, _) => In(s, w) && !PhaseOf(s, w).Done? && !PhaseOf(s, w).Dead?
    case ReaderOpens(r) => r !in s.readers
    case ReaderReads(r) => r in s.readers && s.readers[r].Looking?
  }

  function Enter(s: State, w: Wid, phase: Phase): State
    requires In(s, w)
  {
    s.(calls := s.calls[w := s.calls[w].(phase := phase)])
  }

  function Timeout(op: Op): nat { if op.Register? then LOCK_ACQUIRE_TIMEOUT else 0 }

  /** One turn of the polling loop: take the lock, give up at the deadline, or sleep towards it. */
  function Polled(s: State, w: Wid): State
    requires In(s, w)
  {
    var deadline := s.calls[w].deadline;
    if s.lock.None? then Enter(s, w, Holding).(lock := Some(w))
    else if deadline <= s.now then Enter(s, w, Done(TimedOut))
    else
      var remaining := deadline - s.now;
      Enter(s, w, Sleeping(s.now + if remaining < LOCK_POLL_INTERVAL then remaining else LOCK_POLL_INTERVAL))
  }

  function ChangeOf(op: Op, answering: set<nat>): (c: Change)
    ensures Performs(op, c)
  {
    if op.Register? then Added(op.session, answering) else Removed(op.id)
  }

  function Step(s: State, e: Event): State
    requires CanStep(s, e)
  {
    match e
    case Tick(elapsed) => s.(now := s.now + elapsed)
    case Start(w, op) => s.(calls := s.calls[w := Call(op, s.now + Timeout(op), Polling)])
    case LockFails(w) => Enter(s, w, Done(Failed))
    case Poll(w) => Polled(s, w)
    case Wake(w) => Enter(s, w, Polling)
    case OpenData(w) => Enter(s, w, Opened(s.data))
    case ReadFails(w) => Enter(s, w, Returning(Failed))
    case Mutate(w, answering) =>
      var c := ChangeOf(s.calls[w].op, answering);
      Enter(s, w, Mutated(c, Apply(Decode(s, s.calls[w].phase.file), c)))
    case OpenTmp(w, spare) =>
      var ph := s.calls[w].phase;
      var obj := if s.tmp.Some? then s.tmp.value else spare;
      Enter(s.(tmp := Some(obj), objs := s.objs[obj := Garbage]), w, Filling(ph.change, ph.next, obj))
    case FinishTmp(w) =>
      var ph := s.calls[w].phase;
      Enter(s.(objs := s.objs[ph.obj := Json(ph.next)]), w, Filled(ph.change, ph.next, ph.obj))
    case WriteFails(w) => Enter(s, w, Returning(Failed))
    case Rename(w) =>
      Enter(s.(data := s.tmp, tmp := None,
               past := s.past + (if s.tmp.Some? then {s.tmp.value} else {}),
               log := s.log + [Commit(w, s.calls[w].phase.change)]),
            w, Returning(Committed))
    case RenameFails(w, removed) => Enter(s.(tmp := if removed then None else s.tmp), w, Returning(Failed))
    case Return(w) => Enter(s, w, Done(s.calls[w].phase.outcome)).(lock := None)
    case Crash(w, stranded) =>
      Enter(s, w, Dead).(lock := if s.lock == Some(w) && !stranded then None else s.lock)
    case ReaderOpens(r) => s.(readers := s.readers[r := Looking(s.data, |s.log|)])
    case ReaderReads(r) =>
      s.(readers := s.readers[r := Got(Decode(s, s.readers[r].file), s.readers[r].at)])
  }

  // ---------------------------------------------------------------- invariants

  /** The committed changes applied one after the other. */
  function Fold(base: seq<Session>, log: seq<Commit>): seq<Session> {
    if log == [] then base else Apply(Fold(base, log[..|log| - 1]), log[|log| - 1].change)
  }

  predicate HoldsLock(ph: Phase) {
    ph.Holding? || ph.Opened? || ph.Mutated? || ph.Filling? || ph.Filled? || ph.Returning?
  }

  predicate HasCommitted(s: State, w: Wid) {
    exists i :: 0 <= i < |s.log| && s.log[i].caller == w
  }

  predicate IsCommitted(ph: Phase) { ph == Returning(Committed) || ph == Done(Committed) }

  /** The pending change of a call that has read the list. */
  function Pending(ph: Phase): Option<(Change, seq<Session>)> {
    match ph
    case Mutated(c, next) => Some((c, next))
    case Filling(c, next, _) => Some((c, next))
    case Filled(c, next, _) => Some((c, next))
    case _ => None
  }

  predicate PendingOk(s: State, op: Op, ph: Phase) {
    && (ph.Opened? ==> ph.file == s.data)
    && (Pending(ph).Some? ==>
          var (c, next) := Pending(ph).value;
          Performs(op, c) && next == Apply(Listed(s), c))
    && (ph.Filling? || ph.Filled? ==> s.tmp == Some(ph.obj))
    && (ph.Filled? ==> ph.obj in s.objs && s.objs[ph.obj] == Json(ph.next))
  }

  predicate CallOk(s: State, w: Wid)
    requires In(s, w)
  {
    var call, ph := s.calls[w], s.calls[w].phase;
    && (HoldsLock(ph) ==> s.lock == Some(w))
    && (ph.Sleeping? ==> ph.until <= call.deadline && call.op.Register?)
    && (call.op.Unregister? && ph.Polling? ==> call.deadline <= s.now)
    && PendingOk(s, call.op, ph)
  }

  predicate FilesOk(s: State) {
    && (s.data.Some? ==> s.data.value in s.past)
    && (s.tmp.Some? ==> s.tmp.value in s.objs && s.tmp.value !in s.past)
    && (forall o | o in s.past :: o in s.objs)
  }

  predicate LogOk(s: State) {
    && (forall i | 0 <= i < |s.log| ::
          && In(s, s.log[i].caller) && Performs(s.calls[s.log[i].caller].op, s.log[i].change)
          && (IsCommitted(PhaseOf(s, s.log[i].caller)) || PhaseOf(s, s.log[i].caller).Dead?))
    && (forall i, j | 0 <= i < j < |s.log| :: s.log[i].caller != s.log[j].caller)
    && (forall w | w in s.calls && IsCommitted(s.calls[w].phase) :: HasCommitted(s, w))
  }

  ghost predicate ReaderOk(base: seq<Session>, s: State, r: Rid)
    requires r in s.readers
  {
    var reader := s.readers[r];
    && reader.at <= |s.log|
    && (reader.Looking? && reader.file.Some? ==> reader.file.value in s.past)
    && (if reader.Looking? then Decode(s, reader.file) else reader.list) == Fold(base, s.log[..reader.at])
  }

  ghost predicate Inv(base: seq<Session>, s: State) {
    && (forall w | w in s.calls :: CallOk(s, w))
    && FilesOk(s) && LogOk(s)
    && Listed(s) == Fold(base, s.log)
    && (forall r | r in s.readers :: ReaderOk(base, s, r))
  }

  /** Before any call: whatever an earlier crash or edit left behind. */
  predicate IsStart(s: State) {
    && s.calls == map[] && s.readers == map[] && s.log == [] && s.lock.None?
    && s.past == (if s.data.Some? then {s.data.value} else {})
    && FilesOk(s)
  }

  /** Published files are never written again, so decoding one gives what it gave before. */
  ghost predicate PastIsFrozen(s: State, next: State) {
    forall o | o in s.past :: o in next.past && (o in s.objs ==> o in next.objs && next.objs[o] == s.objs[o])
  }

  lemma ReadersAreKept(base: seq<Session>, s: State, next: State)
    requires Inv(base, s) && next.readers == s.readers && PastIsFrozen(s, next)
    requires |s.log| <= |next.log| && next.log[..|s.log|] == s.log
    ensures forall r | r in next.readers :: ReaderOk(base, next, r)
  {
    forall r | r in next.readers ensures ReaderOk(base, next, r) {
      assert ReaderOk(base, s, r);
      assert next.log[..s.readers[r].at] == s.log[..s.readers[r].at];
    }
  }

  /** A step of one call that commits nothing. */
  lemma LogIsKept(s: State, next: State, w: Wid)
    requires LogOk(s) && In(s, w) && next.log == s.log && next.calls.Keys == s.calls.Keys
    requires forall v | v in s.calls && v != w :: next.calls[v] == s.calls[v]
    requires next.calls[w].op == s.calls[w].op
    requires IsCommitted(PhaseOf(next, w)) ==> IsCommitted(PhaseOf(s, w))
    requires IsCommitted(PhaseOf(s, w)) || PhaseOf(s, w).Dead? ==> IsCommitted(PhaseOf(next, w)) || PhaseOf(next, w).Dead?
    ensures LogOk(next)
  {
    forall v | v in next.calls && IsCommitted(next.calls[v].phase) ensures HasCommitted(next, v) {
      assert HasCommitted(s, v);
    }
  }

  /** What a call past the lock relies on. */
  predicate SameForHolder(s: State, next: State) {
    && next.lock == s.lock && next.data == s.data && next.tmp == s.tmp && next.objs == s.objs
  }

  lemma OtherCallIsKept(s: State, next: State, v: Wid)
    requires In(s, v) && In(next, v) && CallOk(s, v) && next.calls[v] == s.calls[v] && s.now <= next.now
    requires HoldsLock(PhaseOf(s, v)) ==> SameForHolder(s, next)
    ensures CallOk(next, v)
  {}

  /** A step by `w` that commits nothing and leaves a lock held by somebody else alone. */
  lemma CallStepKeepsInv(base: seq<Session>, s: State, next: State, w: Wid)
    requires Inv(base, s) && In(s, w) && In(next, w) && next.calls == s.calls[w := s.calls[w].(phase := next.calls[w].phase)]
    requires next.log == s.log && next.past == s.past && next.data == s.data && next.readers == s.readers
    requires next.now == s.now && PastIsFrozen(s, next) && FilesOk(next) && CallOk(next, w)
    requires IsCommitted(PhaseOf(next, w)) ==> IsCommitted(PhaseOf(s, w))
    requires IsCommitted(PhaseOf(s, w)) || PhaseOf(s, w).Dead? ==> IsCommitted(PhaseOf(next, w)) || PhaseOf(next, w).Dead?
    requires SameForHolder(s, next) || HoldsLock(PhaseOf(s, w)) || s.lock.None?
    ensures Inv(base, next)
  {
    forall v | v in next.calls ensures CallOk(next, v) {
      if v != w {
        assert CallOk(s, v) && CallOk(s, w);
        OtherCallIsKept(s, next, v);
      }
    }
    LogIsKept(s, next, w);
    ReadersAreKept(base, s, next);
    assert Listed(next) == Listed(s);
  }

  /** The lock holder has seen the list as it is, so its pending change applies to the current one. */
  lemma MutatingKeepsInv(base: seq<Session>, s: State, e: Event)
    requires Inv(base, s) && CanStep(s, e) && e.Mutate?
    ensures Inv(base, Step(s, e))
  {
    assert CallOk(s, e.w);
    CallStepKeepsInv(base, s, Step(s, e), e.w);
  }

  lemma ReadingKeepsInv(base: seq<Session>, s: State, e: Event)
    requires Inv(base, s) && CanStep(s, e) && (e.OpenData? || e.ReadFails?)
    ensures Inv(base, Step(s, e))
  {
    assert CallOk(s, e.w);
    CallStepKeepsInv(base, s, Step(s, e), e.w);
  }

  /** Writing the temporary file: it is not, and never was, the data file. */
  lemma WritingKeepsInv(base: seq<Session>, s: State, e: Event)
    requires Inv(base, s) && CanStep(s, e) && (e.OpenTmp? || e.FinishTmp?)
    ensures Inv(base, Step(s, e))
  {
    assert CallOk(s, e.w);
    CallStepKeepsInv(base, s, Step(s, e), e.w);
  }

  /** Failing before or during the rename: the list stays as it was. */
  lemma FailingKeepsInv(base: seq<Session>, s: State, e: Event)
    requires Inv(base, s) && CanStep(s, e) && (e.WriteFails? || e.LockFails? || e.RenameFails?)
    ensures Inv(base, Step(s, e))
  {
    assert CallOk(s, e.w);
    CallStepKeepsInv(base, s, Step(s, e), e.w);
  }

  lemma ReturningKeepsInv(base: seq<Session>, s: State, e: Event)
    requires Inv(base, s) && CanStep(s, e) && e.Return?
    ensures Inv(base, Step(s, e))
  {
    assert CallOk(s, e.w);
    CallStepKeepsInv(base, s, Step(s, e), e.w);
  }

  lemma CrashingKeepsInv(base: seq<Session>, s: State, e: Event)
    requires Inv(base, s) && CanStep(s, e) && e.Crash?
    ensures Inv(base, Step(s, e))
  {
    assert CallOk(s, e.w);
    var next := Step(s, e);
    forall v | v in next.calls ensures CallOk(next, v) {
      if v != e.w {
        assert CallOk(s, v);
        OtherCallIsKept(s, next, v);
      }
    }
    LogIsKept(s, next, e.w);
    ReadersAreKept(base, s, next);
  }

  /** One turn of the polling loop, and waking up for the next. */
  lemma PollingKeepsInv(base: seq<Session>, s: State, w: Wid)
    requires Inv(base, s) && CanStep(s, Poll(w))
    ensures Inv(base, Step(s, Poll(w)))
  {
    assert CallOk(s, w);
    var next := Step(s, Poll(w));
    if s.lock.None? {
      assert next == Enter(s, w, Holding).(lock := Some(w));
    } else {
      assert SameForHolder(s, next);
    }
    CallStepKeepsInv(base, s, next, w);
  }

  lemma WakingKeepsInv(base: seq<Session>, s: State, w: Wid)
    requires Inv(base, s) && CanStep(s, Wake(w))
    ensures Inv(base, Step(s, Wake(w)))
  {
    assert CallOk(s, w);
    CallStepKeepsInv(base, s, Step(s, Wake(w)), w);
  }

  /** Nobody but `w` is past the lock. */
  lemma OthersAreOutside(base: seq<Session>, s: State, w: Wid, v: Wid)
    requires Inv(base, s) && In(s, w) && In(s, v) && v != w && HoldsLock(PhaseOf(s, w))
    ensures !HoldsLock(PhaseOf(s, v))
  {
    assert CallOk(s, w) && CallOk(s, v);
  }

  lemma RenamingCommits(base: seq<Session>, s: State, w: Wid)
    requires Inv(base, s) && CanStep(s, Rename(w))
    ensures LogOk(Step(s, Rename(w)))
    ensures Listed(Step(s, Rename(w))) == Fold(base, Step(s, Rename(w)).log)
  {
    var next := Step(s, Rename(w));
    var n := |s.log|;
    assert CallOk(s, w);
    assert next.log[..n] == s.log;
    forall v | v in next.calls && IsCommitted(next.calls[v].phase) ensures HasCommitted(next, v) {
      if v == w {
        assert next.log[n].caller == w;
      } else {
        assert HasCommitted(s, v);
        var i :| 0 <= i < n && s.log[i].caller == v;
        assert next.log[i].caller == v;
      }
    }
  }

  lemma RenamingKeepsInv(base: seq<Session>, s: State, w: Wid)
    requires Inv(base, s) && CanStep(s, Rename(w))
    ensures Inv(base, Step(s, Rename(w)))
  {
    var next := Step(s, Rename(w));
    assert CallOk(s, w);
    RenamingCommits(base, s, w);
    forall v | v in next.calls ensures CallOk(next, v) {
      assert CallOk(s, v);
      if v != w {
        OthersAreOutside(base, s, w, v);
      }
    }
    ReadersAreKept(base, s, next);
  }

  lemma StartingKeepsInv(base: seq<Session>, s: State, e: Event)
    requires Inv(base, s) && CanStep(s, e) && (e.Start? || e.Tick?)
    ensures Inv(base, Step(s, e))
  {
    var next := Step(s, e);
    forall v | v in next.calls ensures CallOk(next, v) {
      if In(s, v) {
        assert CallOk(s, v);
        OtherCallIsKept(s, next, v);
      }
    }
    LogIsShared(s, next);
    ReadersAreKept(base, s, next);
  }

  lemma LogIsShared(s: State, next: State)
    requires LogOk(s) && next.log == s.log && (forall v | v in s.calls :: v in next.calls && next.calls[v] == s.calls[v])
    requires forall v | v in next.calls && v !in s.calls :: next.calls[v].phase.Polling?
    ensures LogOk(next)
  {
    forall v | v in next.calls && IsCommitted(next.calls[v].phase) ensures HasCommitted(next, v) {
      assert HasCommitted(s, v);
    }
  }

  /** A reader holds on to the file it opened, which is never written again. */
  lemma ReaderKeepsInv(base: seq<Session>, s: State, e: Event)
    requires Inv(base, s) && CanStep(s, e) && (e.ReaderOpens? || e.ReaderReads?)
    ensures Inv(base, Step(s, e))
  {
    var next := Step(s, e);
    forall v | v in next.calls ensures CallOk(next, v) {
      assert CallOk(s, v);
      OtherCallIsKept(s, next, v);
    }
    LogIsShared(s, next);
    forall r | r in next.readers ensures ReaderOk(base, next, r) {
      ReaderStaysOk(base, s, e, r);
    }
  }

  lemma ReaderStaysOk(base: seq<Session>, s: State, e: Event, r: Rid)
    requires FilesOk(s) && Listed(s) == Fold(base, s.log) && (r in s.readers ==> ReaderOk(base, s, r))
    requires CanStep(s, e) && (e.ReaderOpens? || e.ReaderReads?) && r in Step(s, e).readers
    ensures ReaderOk(base, Step(s, e), r)
  {
    assert s.log[..|s.log|] == s.log;
  }

  lemma StepKeepsInv(base: seq<Session>, s: State, e: Event)
    requires Inv(base, s) && CanStep(s, e)
    ensures Inv(base, Step(s, e))
  {
    match e
    case Tick(_) => StartingKeepsInv(base, s, e);
    case Start(_, _) => StartingKeepsInv(base, s, e);
    case Poll(w) => PollingKeepsInv(base, s, w);
    case Wake(w) => WakingKeepsInv(base, s, w);
    case OpenData(_) => ReadingKeepsInv(base, s, e);
    case ReadFails(_) => ReadingKeepsInv(base, s, e);
    case Mutate(_, _) => MutatingKeepsInv(base, s, e);
    case OpenTmp(_, _) => WritingKeepsInv(base, s, e);
    case FinishTmp(_) => WritingKeepsInv(base, s, e);
    case Rename(w) => RenamingKeepsInv(base, s, w);
    case ReaderOpens(_) => ReaderKeepsInv(base, s, e);
    case ReaderReads(_) => ReaderKeepsInv(base, s, e);
    case Crash(_, _) => CrashingKeepsInv(base, s, e);
    case Return(_) => ReturningKeepsInv(base, s, e);
    case _ => FailingKeepsInv(base, s, e);
  }

  // ---------------------------------------------------------------- whole runs

  ghost predicate Reachable(start: State, events: seq<Event>, s: State)
    decreases |events|
  {
    if events == [] then s == start
    else
      var n := |events| - 1;
      exists before :: Reachable(start, events[..n], before) && CanStep(before, events[n])
                       && Step(before, events[n]) == s
  }

  lemma {:induction false} ReachableKeepsInv(start: State, events: seq<Event>, s: State)
    requires IsStart(start) && Reachable(start, events, s)
    ensures Inv(Listed(start), s)
    decreases |events|
  {
    if events != [] {
      var n := |events| - 1;
      var before :| Reachable(start, events[..n], before) && CanStep(before, events[n])
                    && Step(before, events[n]) == s;
      ReachableKeepsInv(start, events[..n], before);
      StepKeepsInv(Listed(start), before, events[n]);
    }
  }

  /**
   No lost update: after every run the data file lists exactly what the committed changes make of the
   list it started with, applied in rename order. A call that reports success is among them, each
   call at most once; one that timed out or failed is not.
   */
  lemma RunsAreSerial(start: State, events: seq<Event>, s: State)
    requires IsStart(start) && Reachable(start, events, s)
    ensures Listed(s) == Fold(Listed(start), s.log)
    ensures forall i, j | 0 <= i < j < |s.log| :: s.log[i].caller != s.log[j].caller
    ensures forall i | 0 <= i < |s.log| ::
              In(s, s.log[i].caller) && Performs(s.calls[s.log[i].caller].op, s.log[i].change)
    ensures forall w | w in s.calls && s.calls[w].phase.Done? ::
              s.calls[w].phase.outcome.Committed? <==> HasCommitted(s, w)
  {
    ReachableKeepsInv(start, events, s);
  }

  /** What the list was before the first call: that of the data file, and empty if there is none or it does not parse. */
  function FirstList(start: State): seq<Session> {
    match start.data
    case None => []
    case Some(o) =>
      if o !in start.objs then []
      else match start.objs[o]
        case Json(sessions) => sessions
        case Garbage => []
  }

  predicate DataIsWritten(s: State, list: seq<Session>) {
    s.data.Some? && s.data.value in s.objs && s.objs[s.data.value] == Json(list)
  }

  /** A step that renames nothing leaves the data file alone. */
  lemma DataStaysWritten(base: seq<Session>, s: State, e: Event, list: seq<Session>)
    requires Inv(base, s) && CanStep(s, e) && !e.Rename? && DataIsWritten(s, list)
    ensures DataIsWritten(Step(s, e), list)
  {
    if e.OpenTmp? || e.FinishTmp? {
      assert CallOk(s, e.w);
    }
  }

  lemma RenameWritesData(base: seq<Session>, s: State, w: Wid)
    requires Inv(base, s) && CanStep(s, Rename(w))
    ensures DataIsWritten(Step(s, Rename(w)), PhaseOf(s, w).next)
    ensures Listed(Step(s, Rename(w))) == PhaseOf(s, w).next
  {
    assert CallOk(s, w);
  }

  /** Once a change is committed the data file parses, and holds the committed changes applied to the first list. */
  lemma {:induction false} CommittedFileParses(start: State, events: seq<Event>, s: State)
    requires IsStart(start) && Reachable(start, events, s)
    ensures s.log != [] ==> DataIsWritten(s, Fold(FirstList(start), s.log))
    decreases |events|
  {
    if events != [] {
      var n := |events| - 1;
      var before, e :| e == events[n] && Reachable(start, events[..n], before) && CanStep(before, e) && Step(before, e) == s;
      ReachableKeepsInv(start, events[..n], before);
      ReachableKeepsInv(start, events, s);
      if e.Rename? {
        RenameWritesData(Listed(start), before, e.w);
      } else if s.log != [] {
        OnlyRenamesLog(before, e);
        CommittedFileParses(start, events[..n], before);
        DataStaysWritten(Listed(start), before, e, Fold(FirstList(start), before.log));
      }
    }
  }

  lemma OnlyRenamesLog(s: State, e: Event)
    requires CanStep(s, e) && !e.Rename?
    ensures Step(s, e).log == s.log
  {}

  /** An unlocked reader gets the whole list as it stood after the commits preceding its opening the file. */
  lemma ReadersSeeCommittedLists(start: State, events: seq<Event>, s: State, r: Rid)
    requires IsStart(start) && Reachable(start, events, s)
    requires r in s.readers && s.readers[r].Got?
    ensures s.readers[r].at <= |s.log|
    ensures s.readers[r].list == Fold(Listed(start), s.log[..s.readers[r].at])
  {
    ReachableKeepsInv(start, events, s);
    assert ReaderOk(Listed(start), s, r);
  }

  lemma LockIsExclusive(start: State, events: seq<Event>, s: State, v: Wid, w: Wid)
    requires IsStart(start) && Reachable(start, events, s)
    requires In(s, v) && In(s, w) && HoldsLock(PhaseOf(s, v)) && HoldsLock(PhaseOf(s, w))
    ensures v == w
  {
    ReachableKeepsInv(start, events, s);
    assert CallOk(s, v) && CallOk(s, w);
  }

  /** Nobody sleeps past its deadline, and an unregistration never sleeps. */
  lemma WaitingIsBounded(start: State, events: seq<Event>, s: State, w: Wid)
    requires IsStart(start) && Reachable(start, events, s)
    requires In(s, w) && PhaseOf(s, w).Sleeping?
    ensures s.calls[w].op.Register? && PhaseOf(s, w).until <= s.calls[w].deadline
  {
    ReachableKeepsInv(start, events, s);
    assert CallOk(s, w);
  }

  // ---------------------------------------------------------------- how long a call waits

  /** The call of `w` was made by event `k`, when the clock showed `t`. */
  ghost predicate CalledAt(start: State, events: seq<Event>, w: Wid, op: Op, k: nat, t: nat) {
    && k < |events| && events[k] == Start(w, op)
    && exists before :: Reachable(start, events[..k], before) && before.now == t
  }

  /** What the clock says about a call made at `t`, with the two seconds of a registration written out. */
  predicate WaitsFrom(s: State, w: Wid, t: nat)
    requires In(s, w)
  {
    var call, ph, wait := s.calls[w], s.calls[w].phase, if s.calls[w].op.Register? then 2000 else 0;
    && call.deadline == t + wait
    && t <= s.now
    && (ph.Sleeping? ==> ph.until <= t + wait && ph.until <= s.now + 50)
    && (ph == Done(TimedOut) || ph == Returning(TimedOut) ==> t + wait <= s.now)
  }

  lemma StepKeepsWaiting(s: State, e: Event, w: Wid, t: nat)
    requires CanStep(s, e) && In(s, w) && WaitsFrom(s, w, t)
    ensures In(Step(s, e), w) && Step(s, e).calls[w].op == s.calls[w].op && WaitsFrom(Step(s, e), w, t)
  {}

  lemma CallBegins(s: State, e: Event, w: Wid)
    requires CanStep(s, e) && !In(s, w) && In(Step(s, e), w)
    ensures e == Start(w, Step(s, e).calls[w].op) && WaitsFrom(Step(s, e), w, s.now)
  {}

  /** The call of `w` made during a run and when it was made. */
  lemma {:induction false} CallIsFound(start: State, events: seq<Event>, s: State, w: Wid) returns (k: nat, t: nat)
    requires Reachable(start, events, s) && In(s, w) && start.calls == map[]
    ensures CalledAt(start, events, w, s.calls[w].op, k, t) && WaitsFrom(s, w, t)
    decreases |events|
  {
    var n := |events| - 1;
    var before, e :| e == events[n] && Reachable(start, events[..n], before) && CanStep(before, e) && Step(before, e) == s;
    if In(before, w) {
      k, t := CallIsFound(start, events[..n], before, w);
      StepKeepsWaiting(before, e, w, t);
      CallStaysFound(start, events, n, w, before.calls[w].op, k, t);
    } else {
      k, t := n, before.now;
      CallBegins(before, e, w);
    }
  }

  lemma CallStaysFound(start: State, events: seq<Event>, n: nat, w: Wid, op: Op, k: nat, t: nat)
    requires n <= |events| && CalledAt(start, events[..n], w, op, k, t)
    ensures CalledAt(start, events, w, op, k, t)
  {
    assert events[..n][..k] == events[..k];
  }

  /**
   A registration that reports a timeout has waited two full seconds since its call and an unregistration
   not at all; nobody sleeps beyond that, nor longer than one polling interval at a time.
   */
  lemma WaitingIsExact(start: State, events: seq<Event>, s: State, w: Wid)
    requires IsStart(start) && Reachable(start, events, s) && In(s, w)
    ensures exists k: nat, t: nat :: CalledAt(start, events, w, s.calls[w].op, k, t) && WaitsFrom(s, w, t)
  {
    var k, t := CallIsFound(start, events, s, w);
  }

  // ---------------------------------------------------------------- what stays listed

  /** Session ids stay distinct if they start so. */
  lemma {:induction false} FoldKeepsIdsDistinct(base: seq<Session>, log: seq<Commit>)
    requires DistinctIds(base)
    ensures DistinctIds(Fold(base, log))
    decreases |log|
  {
    if log != [] {
      FoldKeepsIdsDistinct(base, log[..|log| - 1]);
      ApplyKeepsIdsDistinct(Fold(base, log[..|log| - 1]), log[|log| - 1].change);
    }
  }

  lemma {:induction false} RetainedIdsStayDistinct(list: seq<Session>, c: Change)
    requires DistinctIds(list)
    ensures DistinctIds(Retained(list, c))
  {
    if list != [] {
      RetainedIdsStayDistinct(list[1..], c);
      var rest := Retained(list[1..], c);
      forall i | 0 <= i < |rest| ensures rest[i].id != list[0].id {
        assert rest[i] in list[1..];
      }
    }
  }

  lemma ApplyKeepsIdsDistinct(list: seq<Session>, c: Change)
    requires DistinctIds(list)
    ensures DistinctIds(Apply(list, c))
  {
    var kept := Retained(list, c);
    RetainedIdsStayDistinct(list, c);
    if c.Added? {
      forall i | 0 <= i < |kept| ensures kept[i].id != c.session.id {
        assert kept[i] in kept;
      }
    }
  }

  lemma IdsStayDistinct(start: State, events: seq<Event>, s: State)
    requires IsStart(start) && Reachable(start, events, s) && DistinctIds(Listed(start))
    ensures DistinctIds(Listed(s))
    ensures forall r | r in s.readers && s.readers[r].Got? :: DistinctIds(s.readers[r].list)
  {
    RunsAreSerial(start, events, s);
    FoldKeepsIdsDistinct(Listed(start), s.log);
    forall r | r in s.readers && s.readers[r].Got? ensures DistinctIds(s.readers[r].list) {
      ReadersSeeCommittedLists(start, events, s, r);
      FoldKeepsIdsDistinct(Listed(start), s.log[..s.readers[r].at]);
    }
  }

  /** Unregistering removes that id and nothing else; registering prunes the dead, and the session itself comes last. */
  lemma ApplyExactly(list: seq<Session>, id: string, s: Session, answering: set<nat>, x: Session)
    ensures x in Apply(list, Removed(id)) <==> x in list && x.id != id
    ensures x in Apply(list, Added(s, answering)) <==>
            x == s || (x in list && x.id != s.id && 0 < x.pid <= 0x7fff_ffff && x.pid in answering)
    ensures Apply(list, Added(s, answering)) != [] && Apply(list, Added(s, answering))[|Apply(list, Added(s, answering))| - 1] == s
  {
    var added := Added(s, answering);
    var kept := Retained(list, added);
    assert Apply(list, added) == kept + [s];
    assert x in kept + [s] <==> x in kept || x == s;
  }

  /** What is retained keeps its order: retaining works on each stretch of the list by itself. */
  lemma {:induction false} RetainedInOrder(a: seq<Session>, b: seq<Session>, c: Change)
    ensures Retained(a + b, c) == Retained(a, c) + Retained(b, c)
  {
    if a == [] {
      assert a + b == b;
    } else {
      assert (a + b)[1..] == a[1..] + b;
      RetainedInOrder(a[1..], b, c);
    }
  }

  predicate Registers(c: Change, id: string) { c.Added? && c.session.id == id }

  /** An id that was removed stays away until it is registered again. */
  lemma {:induction false} RemovedStaysAway(base: seq<Session>, log: seq<Commit>, i: nat, id: string, x: Session)
    requires i < |log| && log[i].change == Removed(id)
    requires forall j | i < j < |log| :: !Registers(log[j].change, id)
    requires x in Fold(base, log)
    ensures x.id != id
    decreases |log|
  {
    var n := |log| - 1;
    var before := Fold(base, log[..n]);
    if i == n {
      ApplyExactly(before, id, x, {}, x);
    } else {
      assert !Registers(log[n].change, id);
      assert x in before || (log[n].change.Added? && x == log[n].change.session) by {
        if log[n].change.Added? {
          ApplyExactly(before, "", log[n].change.session, log[n].change.answering, x);
        } else {
          ApplyExactly(before, log[n].change.id, x, {}, x);
        }
      }
      if x in before {
        RemovedStaysAway(base, log[..n], i, id, x);
      }
    }
  }

  /**
   Over every run: once an unregistration has committed and until its id is registered again, neither the
   data file nor any list read afterwards holds that id.
   */
  lemma UnregisteredStaysAway(start: State, events: seq<Event>, s: State, i: nat, id: string, list: seq<Session>, at: nat)
    requires IsStart(start) && Reachable(start, events, s)
    requires i < at <= |s.log| && s.log[i].change == Removed(id)
    requires forall j | i < j < at :: !Registers(s.log[j].change, id)
    requires (list == Listed(s) && at == |s.log|) || exists r :: r in s.readers && s.readers[r] == Got(list, at)
    ensures forall x | x in list :: x.id != id
  {
    var log := s.log[..at];
    assert list == Fold(Listed(start), log) by {
      if list == Listed(s) && at == |s.log| {
        RunsAreSerial(start, events, s);
        assert log == s.log;
      } else {
        var r :| r in s.readers && s.readers[r] == Got(list, at);
        ReadersSeeCommittedLists(start, events, s, r);
      }
    }
    forall x | x in list ensures x.id != id {
      RemovedStaysAway(Listed(start), log, i, id, x);
    }
  }

  /** The list is known and the temporary file not yet opened. */
  predicate HasMutated(s: State, w: Wid, c: Change, next: seq<Session>) {
    In(s, w) && PhaseOf(s, w) == Mutated(c, next) && s.lock == Some(w)
  }

  lemma ReadSteps(start: State, events: seq<Event>, s: State, w: Wid, answering: set<nat>) returns (run: seq<Event>, last: State)
    requires Reachable(start, events, s) && In(s, w) && PhaseOf(s, w).Polling? && s.lock.None?
    ensures Reachable(start, run, last) && last.objs == s.objs
    ensures HasMutated(last, w, ChangeOf(s.calls[w].op, answering), Apply(Listed(s), ChangeOf(s.calls[w].op, answering)))
  {
    var locked := Step(s, Poll(w));
    Extend(start, events, s, Poll(w));
    run := events + [Poll(w)];
    var reading := Step(locked, OpenData(w));
    Extend(start, run, locked, OpenData(w));
    run := run + [OpenData(w)];
    last := Step(reading, Mutate(w, answering));
    Extend(start, run, reading, Mutate(w, answering));
    run := run + [Mutate(w, answering)];
  }

  /** The temporary file is complete and not yet renamed. */
  predicate HasFilled(s: State, w: Wid, c: Change, next: seq<Session>) {
    && In(s, w) && PhaseOf(s, w).Filled? && PhaseOf(s, w).change == c && s.lock == Some(w)
    && s.tmp == Some(PhaseOf(s, w).obj) && PhaseOf(s, w).obj in s.objs && s.objs[PhaseOf(s, w).obj] == Json(next)
  }

  lemma FillSteps(start: State, events: seq<Event>, s: State, w: Wid, spare: Obj, c: Change, next: seq<Session>)
    returns (run: seq<Event>, last: State)
    requires Reachable(start, events, s) && HasMutated(s, w, c, next) && spare !in s.objs
    ensures Reachable(start, run, last) && HasFilled(last, w, c, next)
  {
    var empty := Step(s, OpenTmp(w, spare));
    Extend(start, events, s, OpenTmp(w, spare));
    last := Step(empty, FinishTmp(w));
    Extend(start, events + [OpenTmp(w, spare)], empty, FinishTmp(w));
    run := events + [OpenTmp(w, spare)] + [FinishTmp(w)];
  }

  lemma CommitSteps(start: State, events: seq<Event>, s: State, w: Wid, c: Change, next: seq<Session>)
    returns (run: seq<Event>, last: State)
    requires Reachable(start, events, s) && HasFilled(s, w, c, next)
    ensures Reachable(start, run, last) && In(last, w) && PhaseOf(last, w) == Done(Committed) && last.lock.None?
    ensures Listed(last) == next
  {
    var renamed := Step(s, Rename(w));
    Extend(start, events, s, Rename(w));
    last := Step(renamed, Return(w));
    Extend(start, events + [Rename(w)], renamed, Return(w));
    run := events + [Rename(w)] + [Return(w)];
  }

  /** A call that finds the lock free and that nothing disturbs commits its change and lets go of the lock. */
  lemma UndisturbedCallCommits(start: State, events: seq<Event>, s: State, w: Wid, answering: set<nat>, spare: Obj)
    returns (run: seq<Event>, last: State)
    requires Reachable(start, events, s) && In(s, w) && PhaseOf(s, w).Polling? && s.lock.None? && spare !in s.objs
    ensures Reachable(start, run, last) && In(last, w) && PhaseOf(last, w) == Done(Committed) && last.lock.None?
    ensures match s.calls[w].op
            case Register(x) => Listed(last) == Apply(Listed(s), Added(x, answering))
            case Unregister(id) => Listed(last) == Apply(Listed(s), Removed(id))
  {
    var c := ChangeOf(s.calls[w].op, answering);
    var middle;
    run, middle := ReadSteps(start, events, s, w, answering);
    run, middle := FillSteps(start, run, middle, w, spare, c, Apply(Listed(s), c));
    run, last := CommitSteps(start, run, middle, w, c, Apply(Listed(s), c));
  }

  lemma Extend(start: State, events: seq<Event>, s: State, e: Event)
    requires Reachable(start, events, s) && CanStep(s, e)
    ensures Reachable(start, events + [e], Step(s, e))
  {
    assert (events + [e])[..|events|] == events;
  }

  predicate Survives(log: seq<Commit>, from: nat, x: Session) {
    forall j | from <= j < |log| :: Spares(log[j].change, x)
  }

  predicate AddedAt(log: seq<Commit>, i: nat, x: Session) {
    i < |log| && log[i].change.Added? && log[i].change.session == x && Survives(log, i + 1, x)
  }

  /** A session is listed iff it was registered, or there from the start, and no later change drops it. */
  lemma {:induction false} ListedIffRegistered(base: seq<Session>, log: seq<Commit>, x: Session)
    ensures x in Fold(base, log) <==> (x in base && Survives(log, 0, x)) || exists i: nat :: AddedAt(log, i, x)
    decreases |log|
  {
    if log != [] {
      var n := |log| - 1;
      var before, last := log[..n], log[n].change;
      ListedIffRegistered(base, before, x);
      assert x in Fold(base, log) <==> (x in Fold(base, before) && Spares(last, x)) || (last.Added? && last.session == x);
      forall i: nat | i <= n ensures Survives(log, i, x) <==> Survives(before, i, x) && Spares(last, x) {
        assert forall j | 0 <= j < n :: log[j] == before[j];
        assert Survives(log, i, x) ==> Spares(log[n].change, x);
      }
      if i: nat :| AddedAt(before, i, x) {
        assert Spares(last, x) ==> AddedAt(log, i, x);
      }
      assert last.Added? && last.session == x ==> AddedAt(log, n, x);
      if i: nat :| AddedAt(log, i, x) {
        assert i < n ==> AddedAt(before, i, x);
      }
    }
  }
}
