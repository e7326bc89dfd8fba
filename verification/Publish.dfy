/**
 Concurrent publication through temporary files: any number of writers create, fill, sync and then
 rename or hard-link a temporary file, interleaved at every system call, with process crashes and
 power loss. Models `write_via_temp`, `write_atomically_bound` and `write_atomically_if_absent` of
 `fs_atomic.rs` (Unix branch).
 */
module Publish {
  import opened Prelude

  type Obj = nat
  type Wid = nat
  type Content = string

  /** Temporary names carry the process id and a per-process nonce, and are never destinations. */
  datatype Path = Dest(name: string) | Temp(pid: nat, nonce: nat)

  datatype FileObj = FileObj(content: Content, synced: bool)

  datatype Mode = Overwrite | IfAbsent

  datatype LinkResult = Won | Exists | IoError

  datatype Phase =
    | Naming(tries: nat)
    | Filling(temp: Path, obj: Obj, written: nat)
    | Ready(temp: Path, obj: Obj)
    | Linked(temp: Path, obj: Obj, result: LinkResult)
    | CleaningUp(temp: Path)
    | Finished(ok: bool)
    | Dead

  datatype Writer = Writer(mode: Mode, pid: nat, dest: string, contents: Content, phase: Phase)

  datatype Publication = Publication(name: string, writer: Wid)

  /**
   `past` records every object a destination has ever named; `winners` who ever hard-linked to it; `log`
   every publication, by rename or by link, in order.
   */
  datatype State = State(
    dir: map<Path, Obj>,
    objs: map<Obj, FileObj>,
    writers: map<Wid, Writer>,
    nonces: map<nat, nat>,
    past: map<Obj, set<string>>,
    winners: set<(string, Wid)>,
    log: seq<Publication>)

  const TMP_NAME_RETRIES: nat := 32

  datatype Event =
    | Spawn(w: Wid, mode: Mode, pid: nat, dest: string, contents: Content)
    | CreateTemp(w: Wid, obj: Obj)
    | GiveUpNaming(w: Wid)            // an I/O error, or all names taken
    | WriteSome(w: Wid, upTo: nat)
    | Sync(w: Wid)
    | Fail(w: Wid)                    // a failing write, sync, chmod, identity check or rename
    | RenameOver(w: Wid)
    | HardLink(w: Wid)
    | HardLinkFails(w: Wid)           // an I/O error other than "unsupported"
    | RemoveTemp(w: Wid)
    | RemoveTempFails(w: Wid)
    | Crash(w: Wid)
    | PowerLoss(dir: map<Path, Obj>, objs: map<Obj, FileObj>)

  predicate Named(s: State, obj: Obj, dest: string) {
    obj in s.past && dest in s.past[obj]
  }

  /** After a power loss synced files are intact, others hold anything, and names may have reverted. */
  ghost predicate Survives(s: State, dir: map<Path, Obj>, objs: map<Obj, FileObj>) {
    && objs.Keys == s.objs.Keys
    && (forall o | o in s.objs && s.objs[o].synced :: objs[o] == s.objs[o])
    && (forall p | p in dir && p.Temp? :: p in s.dir && dir[p] == s.dir[p])
    && (forall p | p in dir && p.Dest? :: Named(s, dir[p], p.name))
  }

  predicate At(s: State, w: Wid) { w in s.writers }

  function PhaseOf(s: State, w: Wid): Phase
    requires At(s, w)
  {
    s.writers[w].phase
  }

  predicate PidIsLive(s: State, pid: nat) {
    exists w :: w in s.writers && s.writers[w].pid == pid && !s.writers[w].phase.Dead?
                && !s.writers[w].phase.Finished?
  }

  /** Without `hardLinks` the link call is refused as unsupported, and `IfAbsent` falls back to rename. */
  ghost predicate CanStep(hardLinks: bool, s: State, e: Event) {
    match e
    case Spawn(w, _, _, _, _) => w !in s.writers
    case CreateTemp(w, obj) =>
      && At(s, w) && PhaseOf(s, w).Naming? && PhaseOf(s, w).tries < TMP_NAME_RETRIES
      && obj !in s.objs && s.writers[w].pid in s.nonces
    case GiveUpNaming(w) => At(s, w) && PhaseOf(s, w).Naming?
    case WriteSome(w, upTo) =>
      At(s, w) && PhaseOf(s, w).Filling? && PhaseOf(s, w).written <= upTo <= |s.writers[w].contents|
      && PhaseOf(s, w).obj in s.objs
    case Sync(w) =>
      At(s, w) && PhaseOf(s, w).Filling? && PhaseOf(s, w).written == |s.writers[w].contents|
      && PhaseOf(s, w).obj in s.objs
    case Fail(w) => At(s, w) && (PhaseOf(s, w).Filling? || PhaseOf(s, w).Ready?)
    case RenameOver(w) =>
      At(s, w) && PhaseOf(s, w).Ready? && (s.writers[w].mode.Overwrite? || !hardLinks)
      && PhaseOf(s, w).temp in s.dir
    case HardLink(w) => At(s, w) && PhaseOf(s, w).Ready? && s.writers[w].mode.IfAbsent? && hardLinks
    case HardLinkFails(w) => At(s, w) && PhaseOf(s, w).Ready? && s.writers[w].mode.IfAbsent? && hardLinks
    case RemoveTemp(w) => At(s, w) && (PhaseOf(s, w).Linked? || PhaseOf(s, w).CleaningUp?)
    case RemoveTempFails(w) => At(s, w) && (PhaseOf(s, w).Linked? || PhaseOf(s, w).CleaningUp?)
    case Crash(w) => At(s, w)
    case PowerLoss(dir, objs) => Survives(s, dir, objs)
  }

  function Enter(s: State, w: Wid, phase: Phase): State
    requires At(s, w)
  {
    s.(writers := s.writers[w := s.writers[w].(phase := phase)])
  }

  /** `name` now refers to `obj`, and has done so from here on. */
  function PointDest(s: State, name: string, obj: Obj, w: Wid): State {
    s.(dir := s.dir[Dest(name) := obj],
       log := s.log + [Publication(name, w)],
       past := s.past[obj := (if obj in s.past then s.past[obj] else {}) + {name}])
  }

  /** After the removal of a temporary file: a failed link is cleaned up once more. */
  function AfterRemoval(phase: Phase): Phase
    requires phase.Linked? || phase.CleaningUp?
  {
    if phase.CleaningUp? then Finished(false)
    else if phase.result.Won? then Finished(true)
    else CleaningUp(phase.temp)
  }

  function Step(hardLinks: bool, s: State, e: Event): State
    requires CanStep(hardLinks, s, e)
  {
    match e
    case Spawn(w, mode, pid, dest, contents) =>
      s.(writers := s.writers[w := Writer(mode, pid, dest, contents, Naming(0))],
         nonces := s.nonces[pid := if PidIsLive(s, pid) && pid in s.nonces then s.nonces[pid] else 0])
    case CreateTemp(w, obj) =>
      var wr := s.writers[w];
      var nonce := s.nonces[wr.pid];
      var temp := Temp(wr.pid, nonce);
      var next := s.(nonces := s.nonces[wr.pid := nonce + 1]);
      if temp in s.dir then Enter(next, w, Naming(wr.phase.tries + 1))
      else Enter(next.(dir := s.dir[temp := obj], objs := s.objs[obj := FileObj("", false)]), w, Filling(temp, obj, 0))
    case GiveUpNaming(w) => Enter(s, w, Finished(false))
    case WriteSome(w, upTo) =>
      var ph := s.writers[w].phase;
      Enter(s.(objs := s.objs[ph.obj := FileObj(s.writers[w].contents[..upTo], false)]), w, ph.(written := upTo))
    case Sync(w) =>
      var ph := s.writers[w].phase;
      Enter(s.(objs := s.objs[ph.obj := s.objs[ph.obj].(synced := true)]), w, Ready(ph.temp, ph.obj))
    case Fail(w) => Enter(s, w, CleaningUp(s.writers[w].phase.temp))
    case RenameOver(w) =>
      var wr := s.writers[w];
      Enter(PointDest(s.(dir := s.dir - {wr.phase.temp}), wr.dest, s.dir[wr.phase.temp], w), w, Finished(true))
    case HardLink(w) =>
      var wr := s.writers[w];
      if Dest(wr.dest) in s.dir then Enter(s, w, Linked(wr.phase.temp, wr.phase.obj, Exists))
      else
        Enter(PointDest(s.(winners := s.winners + {(wr.dest, w)}), wr.dest, wr.phase.obj, w), w,
              Linked(wr.phase.temp, wr.phase.obj, Won))
    case HardLinkFails(w) =>
      Enter(s, w, Linked(s.writers[w].phase.temp, s.writers[w].phase.obj, IoError))
    case RemoveTemp(w) =>
      Enter(s.(dir := s.dir - {s.writers[w].phase.temp}), w, AfterRemoval(s.writers[w].phase))
    case RemoveTempFails(w) => Enter(s, w, AfterRemoval(s.writers[w].phase))
    case Crash(w) => Enter(s, w, Dead)
    case PowerLoss(dir, objs) =>
      s.(dir := dir, objs := objs, writers := map w | w in s.writers :: s.writers[w].(phase := Dead))
  }

  // ---------------------------------------------------------------- invariants

  /** The temporary name a writer is responsible for. */
  function TempOf(ph: Phase): Option<Path> {
    match ph
    case Filling(temp, _, _) => Some(temp)
    case Ready(temp, _) => Some(temp)
    case Linked(temp, _, _) => Some(temp)
    case CleaningUp(temp) => Some(temp)
    case _ => None
  }

  /** The object a writer has not published yet. */
  function PrivateObj(ph: Phase): Option<Obj> {
    match ph
    case Filling(_, obj, _) => Some(obj)
    case Ready(_, obj) => Some(obj)
    case _ => None
  }

  predicate Live(ph: Phase) { !ph.Dead? && !ph.Finished? }

  /** One writer: its temporary name is its own spelling, and its file holds what it has written. */
  predicate WriterOk(s: State, w: Wid)
    requires At(s, w)
  {
    var wr, ph := s.writers[w], s.writers[w].phase;
    && (Live(ph) ==> wr.pid in s.nonces)
    && (TempOf(ph).Some? ==>
          TempOf(ph).value.Temp? && TempOf(ph).value.pid == wr.pid && wr.pid in s.nonces
          && TempOf(ph).value.nonce < s.nonces[wr.pid])
    && (PrivateObj(ph).Some? ==>
          var obj := PrivateObj(ph).value;
          && obj in s.objs && obj !in s.past
          && TempOf(ph).value in s.dir && s.dir[TempOf(ph).value] == obj)
    && (ph.Filling? ==> ph.written <= |wr.contents| && s.objs[ph.obj].content == wr.contents[..ph.written])
    && (ph.Ready? ==> s.objs[ph.obj] == FileObj(wr.contents, true))
  }

  /** Two writers share neither a temporary name nor an unpublished file. */
  predicate Apart(s: State, a: Wid, b: Wid)
    requires At(s, a) && At(s, b)
  {
    var p, q := s.writers[a].phase, s.writers[b].phase;
    && (TempOf(p).Some? ==> TempOf(p) != TempOf(q))
    && (PrivateObj(p).Some? ==> PrivateObj(p) != PrivateObj(q))
  }

  /** Complete contents for `name`: those it started with, or one of its writers' in full. */
  ghost predicate Whole(start: State, s: State, name: string, obj: Obj) {
    && obj in s.objs && s.objs[obj].synced
    && ((Named(start, obj, name) && obj in start.objs && s.objs[obj].content == start.objs[obj].content)
        || exists w :: w in s.writers && s.writers[w].dest == name && s.writers[w].contents == s.objs[obj].content)
  }

  /** Every object a destination ever named is complete and durable. */
  ghost predicate PastIsWhole(start: State, s: State) {
    forall obj, name | Named(s, obj, name) :: Whole(start, s, name, obj)
  }

  predicate DestsAreNamed(s: State) {
    forall p | p in s.dir && p.Dest? :: Named(s, s.dir[p], p.name)
  }

  ghost predicate Inv(start: State, s: State) {
    && WritersOk(s)
    && PastIsWhole(start, s)
    && DestsAreNamed(s)
    && PastExists(s)
  }

  predicate PastExists(s: State) {
    forall o | o in s.past :: o in s.objs
  }

  /** Before any writer runs: every destination names a complete, durable file. */
  ghost predicate IsStart(s: State) {
    && s.writers == map[] && s.winners == {} && s.log == []
    && (forall p | p in s.dir && p.Dest? :: Named(s, s.dir[p], p.name))
    && forall o | o in s.past :: o in s.objs && s.objs[o].synced
  }

  lemma StartIsGood(s: State)
    requires IsStart(s)
    ensures Inv(s, s)
  {}

  /**
   `next` differs from `s` by one writer moving on: it touches no other writer's temporary name or
   unpublished file, and takes at most a fresh name and a fresh object.
   */
  ghost predicate Moves(s: State, next: State, w: Wid)
    requires At(s, w)
  {
    && next.writers.Keys == s.writers.Keys
    && (forall v | v in s.writers && v != w :: next.writers[v] == s.writers[v])
    && next.writers[w] == s.writers[w].(phase := next.writers[w].phase)
    && (forall pid | pid in s.nonces :: pid in next.nonces && s.nonces[pid] <= next.nonces[pid])
    && (forall p: Path | p in s.dir && p.Temp? && Some(p) != TempOf(PhaseOf(s, w)) ::
          p in next.dir && next.dir[p] == s.dir[p])
    && (forall o | o in s.objs && Some(o) != PrivateObj(PhaseOf(s, w)) :: o in next.objs && next.objs[o] == s.objs[o])
    && (forall o | o in next.past :: o in s.past || Some(o) == PrivateObj(PhaseOf(s, w)))
    && FreshOrSame(s, w, next.writers[w].phase)
  }

  ghost predicate FreshOrSame(s: State, w: Wid, ph: Phase)
    requires At(s, w)
  {
    var wr := s.writers[w];
    && (TempOf(ph).Some? && TempOf(ph) != TempOf(wr.phase) ==>
          wr.pid in s.nonces && TempOf(ph) == Some(Temp(wr.pid, s.nonces[wr.pid])))
    && (PrivateObj(ph).Some? && PrivateObj(ph) != PrivateObj(wr.phase) ==> PrivateObj(ph).value !in s.objs)
  }

  ghost predicate WritersOk(s: State) {
    && (forall w | w in s.writers :: WriterOk(s, w))
    && forall a, b | a in s.writers && b in s.writers && a != b :: Apart(s, a, b)
  }

  lemma MovesKeepsOthers(s: State, next: State, w: Wid, v: Wid)
    requires At(s, w) && At(s, v) && v != w && Moves(s, next, w)
    requires WriterOk(s, v) && WriterOk(s, w) && Apart(s, v, w)
    ensures WriterOk(next, v)
  {}

  lemma MovesKeepsApart(s: State, next: State, w: Wid, v: Wid)
    requires At(s, w) && At(s, v) && v != w && Moves(s, next, w)
    requires WriterOk(s, v) && WriterOk(s, w) && Apart(s, v, w) && Apart(s, w, v)
    ensures Apart(next, v, w) && Apart(next, w, v)
  {}

  lemma MovesKeepsWriters(s: State, next: State, w: Wid)
    requires WritersOk(s) && At(s, w) && Moves(s, next, w) && WriterOk(next, w)
    ensures WritersOk(next)
  {
    forall v | v in next.writers ensures WriterOk(next, v) {
      if v != w {
        MovesKeepsOthers(s, next, w, v);
      }
    }
    forall a, b | a in next.writers && b in next.writers && a != b ensures Apart(next, a, b) {
      assert Apart(s, a, b);
      if a == w {
        MovesKeepsApart(s, next, w, b);
      } else if b == w {
        MovesKeepsApart(s, next, w, a);
      }
    }
  }

  /** Steps of one writer, the naming of a new file first. */
  lemma NamingKeepsWriters(hardLinks: bool, s: State, e: Event)
    requires WritersOk(s) && PastExists(s) && CanStep(hardLinks, s, e) && e.CreateTemp?
    ensures WritersOk(Step(hardLinks, s, e))
  {
    var next := Step(hardLinks, s, e);
    assert WriterOk(s, e.w);
    MovesKeepsWriters(s, next, e.w);
  }

  lemma FillingKeepsWriters(hardLinks: bool, s: State, e: Event)
    requires WritersOk(s) && CanStep(hardLinks, s, e) && (e.WriteSome? || e.Sync?)
    ensures WritersOk(Step(hardLinks, s, e))
  {
    var next := Step(hardLinks, s, e);
    assert WriterOk(s, e.w);
    MovesKeepsWriters(s, next, e.w);
  }

  lemma RenamingKeepsWriters(hardLinks: bool, s: State, e: Event)
    requires WritersOk(s) && CanStep(hardLinks, s, e) && e.RenameOver?
    ensures WritersOk(Step(hardLinks, s, e))
  {
    var next := Step(hardLinks, s, e);
    assert WriterOk(s, e.w);
    MovesKeepsWriters(s, next, e.w);
  }

  lemma LinkingKeepsWriters(hardLinks: bool, s: State, e: Event)
    requires WritersOk(s) && CanStep(hardLinks, s, e) && (e.HardLink? || e.HardLinkFails?)
    ensures WritersOk(Step(hardLinks, s, e))
  {
    var next := Step(hardLinks, s, e);
    assert WriterOk(s, e.w);
    MovesKeepsWriters(s, next, e.w);
  }

  /** A writer that merely moves on, keeping at most its temporary name. */
  lemma EnterKeepsWriters(s: State, w: Wid, ph: Phase)
    requires WritersOk(s) && At(s, w) && PrivateObj(ph).None?
    requires TempOf(ph).None? || (Live(PhaseOf(s, w)) && TempOf(ph) == TempOf(PhaseOf(s, w)))
    requires Live(ph) ==> Live(PhaseOf(s, w))
    ensures WritersOk(Enter(s, w, ph))
  {
    assert WriterOk(s, w);
    MovesKeepsWriters(s, Enter(s, w, ph), w);
  }

  lemma LeavingKeepsWriters(hardLinks: bool, s: State, e: Event)
    requires WritersOk(s) && CanStep(hardLinks, s, e)
    requires e.GiveUpNaming? || e.Fail? || e.Crash? || e.RemoveTempFails?
    ensures WritersOk(Step(hardLinks, s, e))
  {
    match e
    case GiveUpNaming(w) => EnterKeepsWriters(s, w, Finished(false));
    case Fail(w) => EnterKeepsWriters(s, w, CleaningUp(s.writers[w].phase.temp));
    case Crash(w) => EnterKeepsWriters(s, w, Dead);
    case RemoveTempFails(w) => EnterKeepsWriters(s, w, AfterRemoval(s.writers[w].phase));
  }

  lemma RemovingKeepsWriters(hardLinks: bool, s: State, e: Event)
    requires WritersOk(s) && CanStep(hardLinks, s, e) && e.RemoveTemp?
    ensures WritersOk(Step(hardLinks, s, e))
  {
    var next := Step(hardLinks, s, e);
    assert WriterOk(s, e.w);
    MovesKeepsWriters(s, next, e.w);
  }

  /** A new writer, possibly of a new process under a recycled process id. */
  lemma SpawningKeepsWriters(hardLinks: bool, s: State, e: Event)
    requires WritersOk(s) && CanStep(hardLinks, s, e) && e.Spawn?
    ensures WritersOk(Step(hardLinks, s, e))
  {
    var next := Step(hardLinks, s, e);
    forall v | v in next.writers ensures WriterOk(next, v) {
      if v != e.w {
        assert WriterOk(s, v);
      }
    }
    forall a, b | a in next.writers && b in next.writers && a != b ensures Apart(next, a, b) {
      if a != e.w && b != e.w {
        assert Apart(s, a, b);
      }
    }
  }

  lemma PowerLossKeepsWriters(hardLinks: bool, s: State, e: Event)
    requires WritersOk(s) && CanStep(hardLinks, s, e) && e.PowerLoss?
    ensures WritersOk(Step(hardLinks, s, e))
  {}

  lemma StepKeepsWriters(hardLinks: bool, s: State, e: Event)
    requires WritersOk(s) && PastExists(s) && CanStep(hardLinks, s, e)
    ensures WritersOk(Step(hardLinks, s, e))
  {
    match e
    case Spawn(_, _, _, _, _) => SpawningKeepsWriters(hardLinks, s, e);
    case CreateTemp(_, _) => NamingKeepsWriters(hardLinks, s, e);
    case WriteSome(_, _) => FillingKeepsWriters(hardLinks, s, e);
    case Sync(_) => FillingKeepsWriters(hardLinks, s, e);
    case RenameOver(_) => RenamingKeepsWriters(hardLinks, s, e);
    case HardLink(_) => LinkingKeepsWriters(hardLinks, s, e);
    case HardLinkFails(_) => LinkingKeepsWriters(hardLinks, s, e);
    case RemoveTemp(_) => RemovingKeepsWriters(hardLinks, s, e);
    case PowerLoss(_, _) => PowerLossKeepsWriters(hardLinks, s, e);
    case _ => LeavingKeepsWriters(hardLinks, s, e);
  }

  // ---------------------------------------------------------------- crash atomicity

  /** Nobody's destination or contents change, and nobody disappears. */
  lemma WriterStays(hardLinks: bool, s: State, e: Event, w: Wid)
    requires CanStep(hardLinks, s, e) && w in s.writers
    ensures var next := Step(hardLinks, s, e);
            w in next.writers && next.writers[w].dest == s.writers[w].dest && next.writers[w].contents == s.writers[w].contents
  {}

  /** Contents once complete stay complete: files a destination ever named are never written again. */
  lemma WholeStaysWhole(hardLinks: bool, start: State, s: State, e: Event, name: string, obj: Obj)
    requires Inv(start, s) && CanStep(hardLinks, s, e) && Named(s, obj, name)
    ensures Whole(start, Step(hardLinks, s, e), name, obj)
  {
    var next := Step(hardLinks, s, e);
    assert Whole(start, s, name, obj);
    assert obj in next.objs && next.objs[obj] == s.objs[obj] by {
      PublishedFilesAreFrozen(hardLinks, s, e, obj);
    }
    if w :| w in s.writers && s.writers[w].dest == name && s.writers[w].contents == s.objs[obj].content {
      WriterStays(hardLinks, s, e, w);
    }
  }

  lemma PublishedFilesAreFrozen(hardLinks: bool, s: State, e: Event, obj: Obj)
    requires WritersOk(s) && CanStep(hardLinks, s, e)
    requires obj in s.past && obj in s.objs && s.objs[obj].synced
    ensures obj in Step(hardLinks, s, e).objs && Step(hardLinks, s, e).objs[obj] == s.objs[obj]
  {
    if e.WriteSome? || e.Sync? {
      assert WriterOk(s, e.w);
    }
  }

  /** A name newly taken by a file comes from a writer that had filled and synced it. */
  lemma NewNamesAreWhole(hardLinks: bool, start: State, s: State, e: Event, name: string, obj: Obj)
    requires Inv(start, s) && CanStep(hardLinks, s, e)
    requires Named(Step(hardLinks, s, e), obj, name) && !Named(s, obj, name)
    ensures Whole(start, Step(hardLinks, s, e), name, obj)
  {
    assert e.RenameOver? || e.HardLink?;
    assert WriterOk(s, e.w);
    assert Step(hardLinks, s, e).writers[e.w].dest == name;
  }

  lemma DestsStayNamed(hardLinks: bool, start: State, s: State, e: Event)
    requires Inv(start, s) && CanStep(hardLinks, s, e)
    ensures DestsAreNamed(Step(hardLinks, s, e))
    ensures PastExists(Step(hardLinks, s, e))
  {
    var next := Step(hardLinks, s, e);
    forall p | p in next.dir && p.Dest? ensures Named(next, next.dir[p], p.name) {
      DestStaysNamed(hardLinks, s, e, p.name);
    }
    forall o | o in next.past ensures o in next.objs {
      PastStaysThere(hardLinks, s, e, o);
    }
  }

  lemma DestStaysNamed(hardLinks: bool, s: State, e: Event, name: string)
    requires WritersOk(s) && DestsAreNamed(s) && CanStep(hardLinks, s, e) && Dest(name) in Step(hardLinks, s, e).dir
    ensures Named(Step(hardLinks, s, e), Step(hardLinks, s, e).dir[Dest(name)], name)
  {
    if Dest(name) in s.dir {
      assert Named(s, s.dir[Dest(name)], name);
    }
    if e.RenameOver? || e.HardLink? || e.RemoveTemp? || e.CreateTemp? {
      assert WriterOk(s, e.w);
    }
  }

  lemma PastStaysThere(hardLinks: bool, s: State, e: Event, obj: Obj)
    requires WritersOk(s) && PastExists(s) && CanStep(hardLinks, s, e) && obj in Step(hardLinks, s, e).past
    ensures obj in Step(hardLinks, s, e).objs
  {
    if e.RenameOver? || e.HardLink? {
      assert WriterOk(s, e.w);
    }
  }

  lemma StepKeepsInv(hardLinks: bool, start: State, s: State, e: Event)
    requires Inv(start, s) && CanStep(hardLinks, s, e)
    ensures Inv(start, Step(hardLinks, s, e))
  {
    var next := Step(hardLinks, s, e);
    StepKeepsWriters(hardLinks, s, e);
    DestsStayNamed(hardLinks, start, s, e);
    forall obj, name | Named(next, obj, name) ensures Whole(start, next, name, obj) {
      if Named(s, obj, name) {
        WholeStaysWhole(hardLinks, start, s, e, name, obj);
      } else {
        NewNamesAreWhole(hardLinks, start, s, e, name, obj);
      }
    }
  }

  ghost predicate Reachable(hardLinks: bool, start: State, events: seq<Event>, s: State)
    decreases |events|
  {
    if events == [] then s == start
    else
      var n := |events| - 1;
      exists before :: Reachable(hardLinks, start, events[..n], before) && CanStep(hardLinks, before, events[n])
                       && Step(hardLinks, before, events[n]) == s
  }

  lemma {:induction false} ReachableKeepsInv(hardLinks: bool, start: State, events: seq<Event>, s: State)
    requires IsStart(start) && Reachable(hardLinks, start, events, s)
    ensures Inv(start, s)
    decreases |events|
  {
    if events == [] {
      StartIsGood(start);
    } else {
      var n := |events| - 1;
      var before :| Reachable(hardLinks, start, events[..n], before) && CanStep(hardLinks, before, events[n])
                    && Step(hardLinks, before, events[n]) == s;
      ReachableKeepsInv(hardLinks, start, events[..n], before);
      StepKeepsInv(hardLinks, start, before, events[n]);
    }
  }

  /**
   Crash atomicity: after every run, whatever crashed and whenever the power failed, a destination
   names a synced file holding either what it held at the start or one of its writers' contents in full.
   */
  lemma DestinationIsNeverPartial(hardLinks: bool, start: State, events: seq<Event>, s: State, name: string)
    requires IsStart(start) && Reachable(hardLinks, start, events, s) && Dest(name) in s.dir
    ensures var obj := s.dir[Dest(name)];
            && obj in s.objs && s.objs[obj].synced
            && ((Named(start, obj, name) && obj in start.objs && s.objs[obj].content == start.objs[obj].content)
                || exists w :: w in s.writers && s.writers[w].dest == name && s.writers[w].contents == s.objs[obj].content)
  {
    ReachableKeepsInv(hardLinks, start, events, s);
    assert Whole(start, s, name, s.dir[Dest(name)]);
  }

  // ---------------------------------------------------------------- exclusive creation

  /** Everybody who publishes under `name` asked for exclusive creation. */
  predicate OnlyIfAbsent(s: State, name: string) {
    forall w | w in s.writers && s.writers[w].dest == name :: s.writers[w].mode.IfAbsent?
  }

  predicate Succeeded(ph: Phase) { ph == Finished(true) || (ph.Linked? && ph.result.Won?) }

  predicate IsWinner(s: State, name: string, w: Wid) { (name, w) in s.winners }

  /** The winner's contents are what `name` holds, and it reports success unless it crashed. */
  predicate WinnerHolds(s: State, name: string, w: Wid) {
    && At(s, w) && s.writers[w].dest == name
    && (Succeeded(PhaseOf(s, w)) || PhaseOf(s, w).Dead?)
    && Dest(name) in s.dir && s.dir[Dest(name)] in s.objs && s.dir[Dest(name)] in s.past
    && s.objs[s.dir[Dest(name)]] == FileObj(s.writers[w].contents, true)
  }

  /** Exactly one winner as soon as `name` exists; none before; and no success without winning. */
  ghost predicate Exclusive(s: State, name: string) {
    && (forall w | IsWinner(s, name, w) :: WinnerHolds(s, name, w))
    && (forall a, b | IsWinner(s, name, a) && IsWinner(s, name, b) :: a == b)
    && (Dest(name) in s.dir ==> exists w :: IsWinner(s, name, w))
    && (forall w | w in s.writers && s.writers[w].dest == name && Succeeded(s.writers[w].phase) ::
          IsWinner(s, name, w))
  }

  lemma EarlierWritersAreKept(hardLinks: bool, s: State, e: Event, name: string)
    requires CanStep(hardLinks, s, e) && OnlyIfAbsent(Step(hardLinks, s, e), name)
    ensures OnlyIfAbsent(s, name)
  {
    var next := Step(hardLinks, s, e);
    forall w | w in s.writers && s.writers[w].dest == name ensures s.writers[w].mode.IfAbsent? {
      assert next.writers[w].dest == name && next.writers[w].mode == s.writers[w].mode;
    }
  }

  /** Only a link step that found `name` free makes it appear; nothing makes it refer elsewhere. */
  lemma StepKeepsName(s: State, e: Event, name: string)
    requires WritersOk(s) && CanStep(true, s, e) && !e.PowerLoss? && OnlyIfAbsent(s, name)
    ensures var next := Step(true, s, e);
            if e.HardLink? && s.writers[e.w].dest == name && Dest(name) !in s.dir then
              && next.winners == s.winners + {(name, e.w)} && WinnerHolds(next, name, e.w)
            else
              && (Dest(name) in next.dir <==> Dest(name) in s.dir)
              && (Dest(name) in s.dir ==> next.dir[Dest(name)] == s.dir[Dest(name)])
              && (forall w :: IsWinner(next, name, w) <==> IsWinner(s, name, w))
  {
    if !e.Spawn? {
      assert WriterOk(s, e.w);
    }
  }

  lemma WinnerKeepsHolding(s: State, e: Event, name: string, w: Wid)
    requires WritersOk(s) && CanStep(true, s, e) && !e.PowerLoss? && OnlyIfAbsent(s, name)
    requires WinnerHolds(s, name, w)
    ensures WinnerHolds(Step(true, s, e), name, w)
  {
    StepKeepsName(s, e, name);
    PublishedFilesAreFrozen(true, s, e, s.dir[Dest(name)]);
  }

  /** A writer becomes successful only by creating its destination. */
  lemma SuccessNeedsTheLink(s: State, e: Event, name: string, w: Wid)
    requires CanStep(true, s, e) && OnlyIfAbsent(s, name)
    requires w in Step(true, s, e).writers
    requires Step(true, s, e).writers[w].dest == name && Succeeded(Step(true, s, e).writers[w].phase)
    ensures (w in s.writers && s.writers[w].dest == name && Succeeded(s.writers[w].phase))
            || (e == HardLink(w) && Dest(name) !in s.dir)
  {}

  lemma StepKeepsExclusive(s: State, e: Event, name: string)
    requires WritersOk(s) && CanStep(true, s, e) && !e.PowerLoss? && OnlyIfAbsent(s, name)
    requires Exclusive(s, name)
    ensures Exclusive(Step(true, s, e), name)
    ensures e.HardLink? && s.writers[e.w].dest == name ==> Dest(name) in Step(true, s, e).dir
  {
    var next := Step(true, s, e);
    StepKeepsName(s, e, name);
    forall w | IsWinner(next, name, w) ensures WinnerHolds(next, name, w) {
      if IsWinner(s, name, w) {
        WinnerKeepsHolding(s, e, name, w);
      }
    }
    forall a, b | IsWinner(next, name, a) && IsWinner(next, name, b) ensures a == b {
      if IsWinner(s, name, a) {
        assert WinnerHolds(s, name, a);
      }
      if IsWinner(s, name, b) {
        assert WinnerHolds(s, name, b);
      }
    }
    forall w | w in next.writers && next.writers[w].dest == name && Succeeded(next.writers[w].phase)
      ensures IsWinner(next, name, w)
    {
      SuccessNeedsTheLink(s, e, name, w);
    }
    if Dest(name) in next.dir {
      if Dest(name) in s.dir {
        var w :| IsWinner(s, name, w);
        assert IsWinner(next, name, w);
      } else {
        assert IsWinner(next, name, e.w);
      }
    }
  }

  /** Some caller publishing under `name` got as far as a link call that did not fail for other reasons. */
  predicate SomeLinkAttempt(events: seq<Event>, s: State, name: string) {
    exists i :: 0 <= i < |events| && LinksFor(events[i], s, name)
  }

  predicate LinksFor(e: Event, s: State, name: string) {
    e.HardLink? && e.w in s.writers && s.writers[e.w].dest == name
  }

  predicate NoPowerLoss(events: seq<Event>) {
    forall e | e in events :: !e.PowerLoss?
  }

  /** The last step of a run. */
  lemma LastStep(hardLinks: bool, start: State, events: seq<Event>, s: State) returns (before: State, e: Event)
    requires Reachable(hardLinks, start, events, s) && events != []
    ensures e == events[|events| - 1] && Reachable(hardLinks, start, events[..|events| - 1], before)
    ensures CanStep(hardLinks, before, e) && Step(hardLinks, before, e) == s
  {
    var n := |events| - 1;
    e := events[n];
    before :| Reachable(hardLinks, start, events[..n], before) && CanStep(hardLinks, before, events[n])
              && Step(hardLinks, before, events[n]) == s;
  }

  /** Nobody's destination changes, and nobody disappears. */
  lemma LinkAttemptsWereThere(hardLinks: bool, s: State, e: Event, link: Event, name: string)
    requires CanStep(hardLinks, s, e) && link.HardLink? && link.w in s.writers
    ensures LinksFor(link, Step(hardLinks, s, e), name) <==> LinksFor(link, s, name)
  {}

  /** A caller that linked during a run is one of its writers, at the end as well. */
  lemma {:induction false} LinkersWereThere(hardLinks: bool, start: State, events: seq<Event>, s: State, i: nat)
    requires Reachable(hardLinks, start, events, s) && i < |events| && events[i].HardLink?
    ensures events[i].w in s.writers
    decreases |events|
  {
    var before, e := LastStep(hardLinks, start, events, s);
    if i < |events| - 1 {
      LinkersWereThere(hardLinks, start, events[..|events| - 1], before, i);
      LinkAttemptsWereThere(hardLinks, before, e, events[i], before.writers[events[i].w].dest);
    }
  }

  lemma {:induction false} ReachableIsExclusive(start: State, events: seq<Event>, s: State, name: string)
    requires IsStart(start) && Dest(name) !in start.dir
    requires Reachable(true, start, events, s) && NoPowerLoss(events)
    requires OnlyIfAbsent(s, name)
    ensures Exclusive(s, name)
    decreases |events|
  {
    if events == [] {
      assert s == start;
    } else {
      var before, e := LastStep(true, start, events, s);
      assert e in events;
      EarlierWritersAreKept(true, before, e, name);
      ReachableKeepsInv(true, start, events[..|events| - 1], before);
      ReachableIsExclusive(start, events[..|events| - 1], before, name);
      StepKeepsExclusive(before, e, name);
    }
  }

  /** A link call that got through leaves the destination in place for good. */
  lemma {:induction false} LinkedIsThere(start: State, events: seq<Event>, s: State, name: string, i: nat)
    requires IsStart(start) && Dest(name) !in start.dir
    requires Reachable(true, start, events, s) && NoPowerLoss(events)
    requires OnlyIfAbsent(s, name) && i < |events| && LinksFor(events[i], s, name)
    ensures Dest(name) in s.dir
    decreases |events|
  {
    var before, e := LastStep(true, start, events, s);
    assert e in events;
    EarlierWritersAreKept(true, before, e, name);
    ReachableKeepsInv(true, start, events[..|events| - 1], before);
    StepKeepsName(before, e, name);
    if i < |events| - 1 {
      LinkersWereThere(true, start, events[..|events| - 1], before, i);
      LinkAttemptsWereThere(true, before, e, events[i], name);
      LinkedIsThere(start, events[..|events| - 1], before, name, i);
    } else {
      LinkAttemptsWereThere(true, before, e, e, name);
    }
  }

  /**
   Exclusive creation: with hard links and a destination that starts absent, at most one caller
   succeeds; as soon as anybody's link call gets through there is a winner, which succeeds unless it
   crashes; and whatever the losers do, the destination holds the winner's contents in full.
   */
  lemma AtMostOneCreatorSucceeds(start: State, events: seq<Event>, s: State, name: string)
    requires IsStart(start) && Dest(name) !in start.dir
    requires Reachable(true, start, events, s) && NoPowerLoss(events)
    requires OnlyIfAbsent(s, name)
    ensures forall a, b | a in s.writers && b in s.writers && s.writers[a].dest == name && s.writers[b].dest == name
                          && Succeeded(s.writers[a].phase) && Succeeded(s.writers[b].phase) :: a == b
    ensures forall w | w in s.writers && s.writers[w].dest == name && Succeeded(s.writers[w].phase) ::
              WinnerHolds(s, name, w)
    ensures SomeLinkAttempt(events, s, name) ==> exists w :: WinnerHolds(s, name, w)
  {
    ReachableIsExclusive(start, events, s, name);
    forall a, b | a in s.writers && b in s.writers && s.writers[a].dest == name && s.writers[b].dest == name
                  && Succeeded(s.writers[a].phase) && Succeeded(s.writers[b].phase)
      ensures a == b
    {
      assert IsWinner(s, name, a) && IsWinner(s, name, b);
    }
    if SomeLinkAttempt(events, s, name) {
      var i :| 0 <= i < |events| && LinksFor(events[i], s, name);
      LinkedIsThere(start, events, s, name, i);
      var w :| IsWinner(s, name, w);
      assert WinnerHolds(s, name, w);
    }
  }
}
