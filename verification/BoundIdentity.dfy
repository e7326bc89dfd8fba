/**
 A destination bound by inode identity, against an environment that unlinks, recreates, renames and
 symlinks files and whose kernel reuses inode numbers. Models `BoundDest` and `write_atomically_bound`
 of `fs_atomic.rs` (Unix branch). The checks on a follow destination go through symbolic links, the
 rename does not: a passing check reaches the very file that was opened, and the rename replaces that
 file exactly when the destination was not a link at that moment.
 */
module BoundIdentity {
  import opened Prelude

  /** A file object or symbolic link over its whole life; never reused, unlike its inode number. */
  type Obj = nat
  type Ino = nat
  type Handle = nat

  /** `links` gives the target of every object that is a symbolic link. */
  datatype World = World(names: map<string, Obj>, handles: map<Handle, Obj>, ids: map<Obj, Ino>, links: map<Obj, string>)

  /** An object exists while some name or some handle refers to it. */
  predicate Live(w: World, o: Obj) {
    o in w.names.Values || o in w.handles.Values
  }

  /** The kernel's guarantee: no two live objects share an inode number. */
  ghost predicate Valid(w: World) {
    && (forall o :: Live(w, o) ==> o in w.ids)
    && (forall a, b :: Live(w, a) && Live(w, b) && w.ids[a] == w.ids[b] ==> a == b)
    && (forall o | o in w.links :: o in w.ids)
    && (forall h | h in w.handles :: w.handles[h] !in w.links)
  }

  const KERNEL_LINK_LIMIT: nat := 40

  /** What following a path comes to. */
  datatype Followed = Reached(obj: Obj) | NoEntry | TooManyLinks

  function Follow(w: World, path: string, limit: nat): (r: Followed)
    ensures r.Reached? ==> Live(w, r.obj) && r.obj !in w.links
    decreases limit
  {
    if path !in w.names then NoEntry
    else if w.names[path] !in w.links then
      assert w.names[path] in w.names.Values;
      Reached(w.names[path])
    else if limit == 0 then TooManyLinks
    else Follow(w, w.links[w.names[path]], limit - 1)
  }

  function NamedBy(w: World, path: string): Option<Obj> {
    if path in w.names then Some(w.names[path]) else None
  }

  predicate IsLinkAt(w: World, path: string) {
    path in w.names && w.names[path] in w.links
  }

  /** What other processes may do. */
  datatype Action =
    | Create(path: string, obj: Obj, id: Ino)
    | Symlink(path: string, obj: Obj, id: Ino, target: string)
    | Unlink(path: string)
    | Rename(source: string, dest: string)
    | HardLink(source: string, dest: string)
    | Open(handle: Handle, path: string)
    | Close(handle: Handle)

  /** A new entry takes a new object and any inode number no live object holds, a freed one included. */
  ghost predicate IsNew(w: World, path: string, obj: Obj, id: Ino) {
    path !in w.names && obj !in w.ids && forall o :: Live(w, o) && o in w.ids ==> w.ids[o] != id
  }

  ghost predicate Enabled(w: World, a: Action) {
    match a
    case Create(path, obj, id) => IsNew(w, path, obj, id)
    case Symlink(path, obj, id, _) => IsNew(w, path, obj, id)
    case Unlink(path) => path in w.names
    case Rename(source, dest) => source in w.names && source != dest
    case HardLink(source, dest) => source in w.names && dest !in w.names
    case Open(handle, path) => Follow(w, path, KERNEL_LINK_LIMIT).Reached? && handle !in w.handles
    case Close(handle) => handle in w.handles
  }

  /** Renaming moves the entry itself, and does nothing between two names of one object. */
  function Renamed(w: World, source: string, dest: string): World
    requires source in w.names
  {
    if NamedBy(w, dest) == Some(w.names[source]) then w
    else w.(names := (w.names - {source})[dest := w.names[source]])
  }

  function Act(w: World, a: Action): World
    requires a.Rename? || a.HardLink? ==> a.source in w.names
    requires a.Open? ==> Follow(w, a.path, KERNEL_LINK_LIMIT).Reached?
  {
    match a
    case Create(path, obj, id) => w.(names := w.names[path := obj], ids := w.ids[obj := id])
    case Symlink(path, obj, id, target) =>
      w.(names := w.names[path := obj], ids := w.ids[obj := id], links := w.links[obj := target])
    case Unlink(path) => w.(names := w.names - {path})
    case Rename(source, dest) => Renamed(w, source, dest)
    case HardLink(source, dest) => w.(names := w.names[dest := w.names[source]])
    case Open(handle, path) => w.(handles := w.handles[handle := Follow(w, path, KERNEL_LINK_LIMIT).obj])
    case Close(handle) => w.(handles := w.handles - {handle})
  }

  // ---------------------------------------------------------------- the publisher

  /** A link's identity also carries a checksum of its target. */
  datatype FileId = FileId(ino: Ino, isLink: bool, cookie: nat)

  /** The fixed facts of one publication; a slot destination (`!follow`) is checked without following. */
  datatype Plan = Plan(dest: string, parentDir: string, temp: string, hold: Handle, follow: bool, cookie: string -> nat)

  function IdOf(p: Plan, w: World, o: Obj): FileId {
    FileId(if o in w.ids then w.ids[o] else 0, o in w.links, if o in w.links then p.cookie(w.links[o]) else 0)
  }

  /** `stat` or `lstat` of the destination. */
  function DestStat(p: Plan, w: World): Followed {
    if p.follow then Follow(w, p.dest, KERNEL_LINK_LIMIT)
    else if p.dest in w.names then Reached(w.names[p.dest])
    else NoEntry
  }

  function SeenBy(r: Followed): Option<Obj> {
    if r.Reached? then Some(r.obj) else None
  }

  function Identity(p: Plan, w: World, o: Option<Obj>): Option<FileId> {
    if o.Some? then Some(IdOf(p, w, o.value)) else None
  }

  /** What binding recorded: both identities, and the object the hold was opened on. */
  datatype Binding = Binding(parent: Option<FileId>, identity: Option<FileId>, pinned: Option<Obj>)

  /**
   The last look at the destination: the object it led to, the entry it named, whether that entry was
   a link, and whether nobody acted since.
   */
  datatype Look = Look(seen: Option<Obj>, named: Option<Obj>, link: bool, quiet: bool)

  datatype Phase =
    | Start
    | ParentStatted(parent: Option<FileId>)
    | Statted(parent: Option<FileId>, identity: Option<FileId>)
    | Bound(b: Binding)
    | ParentChecked(b: Binding)
    | DestChecked(b: Binding, look: Look)
    | Proved(b: Binding, look: Look)
    | Published(b: Binding, look: Look, replaced: Option<Obj>)

  datatype State = State(world: World, phase: Phase)

  datatype Event =
    | Env(action: Action)
    | StatParent
    | StatDest
    | OpenHold
    | NoHold        // a slot, an absent destination, or opening it failed
    | CheckParent
    | CheckDest
    | CheckHold
    | ProveAgain    // the next of the checks that precede the rename
    | Publish

  function ParentIdentity(p: Plan, w: World): Option<FileId> { Identity(p, w, NamedBy(w, p.parentDir)) }

  /** The environment never closes the publisher's handle nor takes its number. */
  ghost predicate CanStep(p: Plan, s: State, e: Event) {
    var w, ph := s.world, s.phase;
    match e
    case Env(a) => Enabled(w, a) && (a.Close? || a.Open? ==> a.handle != p.hold)
    case StatParent => ph.Start?
    case StatDest => ph.ParentStatted? && !DestStat(p, w).TooManyLinks?
    case OpenHold => ph.Statted? && p.follow && ph.identity.Some? && Enabled(w, Open(p.hold, p.dest))
    case NoHold => ph.Statted?
    case CheckParent =>
      ph.Bound? && (|| ParentIdentity(p, w) == ph.b.parent
                    || (ph.b.parent.None? && p.parentDir in w.names && !IsLinkAt(w, p.parentDir)))
    case CheckDest =>
      ph.ParentChecked? && !DestStat(p, w).TooManyLinks? && Identity(p, w, SeenBy(DestStat(p, w))) == ph.b.identity
    case CheckHold =>
      ph.DestChecked? && (ph.b.pinned.Some? ==>
        p.hold in w.handles && Some(IdOf(p, w, w.handles[p.hold])) == ph.b.identity)
    case ProveAgain => ph.Proved?
    case Publish => ph.Proved? && Enabled(w, Rename(p.temp, p.dest))
  }

  /** Any action of the environment ends the quiet spell since the last look. */
  function Disturb(ph: Phase): Phase {
    match ph
    case DestChecked(b, look) => DestChecked(b, look.(quiet := false))
    case Proved(b, look) => Proved(b, look.(quiet := false))
    case _ => ph
  }

  function LookNow(p: Plan, w: World): Look {
    Look(SeenBy(DestStat(p, w)), NamedBy(w, p.dest), IsLinkAt(w, p.dest), true)
  }

  function Step(p: Plan, s: State, e: Event): State
    requires CanStep(p, s, e)
  {
    var w, ph := s.world, s.phase;
    match e
    case Env(a) => State(Act(w, a), Disturb(ph))
    case StatParent => State(w, ParentStatted(ParentIdentity(p, w)))
    case StatDest => State(w, Statted(ph.parent, Identity(p, w, SeenBy(DestStat(p, w)))))
    case OpenHold =>
      State(Act(w, Open(p.hold, p.dest)),
            Bound(Binding(ph.parent, ph.identity, Some(Follow(w, p.dest, KERNEL_LINK_LIMIT).obj))))
    case NoHold => State(w, Bound(Binding(ph.parent, ph.identity, None)))
    case CheckParent => State(w, ParentChecked(ph.b))
    case CheckDest => State(w, DestChecked(ph.b, LookNow(p, w)))
    case CheckHold => State(w, Proved(ph.b, ph.look))
    case ProveAgain => State(w, Bound(ph.b))
    case Publish => State(Act(w, Rename(p.temp, p.dest)), Published(ph.b, ph.look, NamedBy(w, p.dest)))
  }

  ghost predicate Reachable(p: Plan, w: World, events: seq<Event>, s: State)
    decreases |events|
  {
    if events == [] then s == State(w, Start)
    else
      var n := |events| - 1;
      exists before :: Reachable(p, w, events[..n], before) && CanStep(p, before, events[n])
                       && Step(p, before, events[n]) == s
  }

  // ---------------------------------------------------------------- invariants

  /** Objects keep their number and their nature for life. */
  ghost predicate SameObjects(w: World, next: World) {
    && (forall o | o in w.ids :: o in next.ids && next.ids[o] == w.ids[o])
    && (forall o | o in w.links :: o in next.links && next.links[o] == w.links[o])
    && (forall o | o in w.ids && o !in w.links :: o !in next.links)
  }

  /** Whatever is live afterwards was live before, or is the new entry. */
  lemma LiveAfter(w: World, a: Action, o: Obj)
    requires Enabled(w, a) && Live(Act(w, a), o)
    ensures Live(w, o) || ((a.Create? || a.Symlink?) && o == a.obj)
  {
    var next := Act(w, a);
    if o in next.names.Values {
      var path :| path in next.names && next.names[path] == o;
      assert path in w.names && w.names[path] == o ==> o in w.names.Values;
      if a.Rename? || a.HardLink? {
        assert w.names[a.source] in w.names.Values;
      }
    } else {
      var h :| h in next.handles && next.handles[h] == o;
      assert h in w.handles && w.handles[h] == o ==> o in w.handles.Values;
    }
  }

  /** Every step of the environment keeps inode numbers distinct among live objects. */
  lemma ActKeepsValid(w: World, a: Action)
    requires Valid(w) && Enabled(w, a)
    ensures Valid(Act(w, a)) && SameObjects(w, Act(w, a))
  {
    var next := Act(w, a);
    forall o | Live(next, o) ensures Live(w, o) || ((a.Create? || a.Symlink?) && o == a.obj) {
      LiveAfter(w, a, o);
    }
    forall h | h in next.handles ensures next.handles[h] !in next.links {
      if h in w.handles && next.handles[h] == w.handles[h] {
        assert w.handles[h] in w.handles.Values;
        assert Live(w, w.handles[h]);
      }
    }
  }

  /** The hold is still open on the object it was opened on. */
  predicate Holds(p: Plan, w: World, b: Binding) {
    b.pinned.Some? ==> p.follow && p.hold in w.handles && w.handles[p.hold] == b.pinned.value
  }

  /** What a look says about the entry and the object behind it, for as long as the objects last. */
  ghost predicate LookIsTrue(p: Plan, w: World, b: Binding, look: Look) {
    && Identity(p, w, look.seen) == b.identity
    && (look.seen.Some? ==> look.seen.value in w.ids)
    && (look.named.Some? ==> look.named.value in w.ids)
    && (look.link <==> look.named.Some? && look.named.value in w.links)
    && (p.follow && look.seen.Some? ==> look.seen.value !in w.links)
    && (!p.follow || !look.link ==> look.named == look.seen)
  }

  /**
   Moreover the held object, if it bears the bound identity, is the one seen; and while nobody acts
   the destination still names the entry looked at.
   */
  ghost predicate LookIsGood(p: Plan, w: World, b: Binding, look: Look) {
    && LookIsTrue(p, w, b, look)
    && (b.pinned.Some? && Some(IdOf(p, w, b.pinned.value)) == b.identity ==> look.seen == b.pinned)
    && (look.quiet ==> NamedBy(w, p.dest) == look.named)
  }

  ghost predicate Inv(p: Plan, s: State) {
    var w, ph := s.world, s.phase;
    && Valid(w)
    && match ph
       case Start => true
       case ParentStatted(_) => true
       case Statted(_, _) => true
       case Bound(b) => Holds(p, w, b)
       case ParentChecked(b) => Holds(p, w, b)
       case DestChecked(b, look) => Holds(p, w, b) && LookIsGood(p, w, b, look)
       case Proved(b, look) =>
         Holds(p, w, b) && LookIsGood(p, w, b, look) && (b.pinned.Some? ==> look.seen == b.pinned)
       case Published(b, look, replaced) =>
         && LookIsTrue(p, w, b, look) && (b.pinned.Some? ==> p.follow && look.seen == b.pinned)
         && (look.quiet ==> replaced == look.named)
  }

  lemma LookStaysTrue(p: Plan, w: World, next: World, b: Binding, look: Look)
    requires LookIsTrue(p, w, b, look) && SameObjects(w, next)
    ensures LookIsTrue(p, next, b, look)
  {}

  lemma HeldIsLive(p: Plan, w: World, b: Binding)
    requires Valid(w) && Holds(p, w, b) && b.pinned.Some?
    ensures Live(w, b.pinned.value) && b.pinned.value in w.ids && b.pinned.value !in w.links
  {
    assert w.handles[p.hold] in w.handles.Values;
  }

  /** The environment changes nothing a bound publisher relies on, except what its next look will see. */
  lemma EnvKeepsInv(p: Plan, s: State, a: Action)
    requires Inv(p, s) && CanStep(p, s, Env(a))
    ensures Inv(p, Step(p, s, Env(a)))
  {
    var w, next, ph := s.world, Act(s.world, a), s.phase;
    ActKeepsValid(w, a);
    match ph
    case DestChecked(b, look) =>
      LookStaysTrue(p, w, next, b, look);
      if b.pinned.Some? { HeldIsLive(p, w, b); }
    case Proved(b, look) =>
      LookStaysTrue(p, w, next, b, look);
    case Published(b, look, _) => LookStaysTrue(p, w, next, b, look);
    case _ =>
  }

  /** The look itself: equal numbers of two live objects mean one object. */
  lemma LookingKeepsInv(p: Plan, s: State)
    requires Inv(p, s) && CanStep(p, s, CheckDest)
    ensures Inv(p, Step(p, s, CheckDest))
  {
    var w, b := s.world, s.phase.b;
    if p.dest in w.names {
      assert w.names[p.dest] in w.names.Values;
      assert Live(w, w.names[p.dest]);
    }
    if b.pinned.Some? {
      HeldIsLive(p, w, b);
    }
  }

  lemma StepKeepsInv(p: Plan, s: State, e: Event)
    requires Inv(p, s) && CanStep(p, s, e)
    ensures Inv(p, Step(p, s, e))
  {
    match e
    case Env(a) => EnvKeepsInv(p, s, a);
    case CheckDest => LookingKeepsInv(p, s);
    case OpenHold => ActKeepsValid(s.world, Open(p.hold, p.dest));
    case Publish =>
      ActKeepsValid(s.world, Rename(p.temp, p.dest));
      LookStaysTrue(p, s.world, Step(p, s, e).world, s.phase.b, s.phase.look);
    case _ =>
  }

  lemma {:induction false} ReachableKeepsInv(p: Plan, w: World, events: seq<Event>, s: State)
    requires Valid(w) && Reachable(p, w, events, s)
    ensures Inv(p, s)
    decreases |events|
  {
    if events != [] {
      var n := |events| - 1;
      var before :| Reachable(p, w, events[..n], before) && CanStep(p, before, events[n])
                    && Step(p, before, events[n]) == s;
      ReachableKeepsInv(p, w, events[..n], before);
      StepKeepsInv(p, before, events[n]);
    }
  }

  // ---------------------------------------------------------------- what publishing replaces

  /**
   No ABA: once the hold was opened, a completed proof reached, from the destination path, the very
   object that was opened. If nobody acted after that look, the rename replaced that object exactly
   when the destination was not a link at the look; otherwise it replaced the link.
   */
  lemma NoAbaOnPublish(p: Plan, w: World, events: seq<Event>, s: State)
    requires Valid(w) && Reachable(p, w, events, s)
    ensures s.phase.Proved? && s.phase.b.pinned.Some? ==> s.phase.look.seen == s.phase.b.pinned
    ensures s.phase.Published? && s.phase.b.pinned.Some? ==> s.phase.look.seen == s.phase.b.pinned
    ensures s.phase.Published? && s.phase.b.pinned.Some? && s.phase.look.quiet ==>
              (s.phase.replaced == s.phase.b.pinned <==> !s.phase.look.link)
    ensures s.phase.Published? && s.phase.look.quiet && s.phase.look.link ==>
              s.phase.replaced.Some? && s.phase.replaced.value in s.world.links
  {
    ReachableKeepsInv(p, w, events, s);
  }

  /** A destination bound as absent was still absent when replaced, in quiet, exactly when it was not a link. */
  lemma AbsentStaysAbsent(p: Plan, w: World, events: seq<Event>, s: State)
    requires Valid(w) && Reachable(p, w, events, s)
    requires s.phase.Published? && s.phase.b.identity.None? && s.phase.look.quiet
    ensures s.phase.replaced.None? <==> !s.phase.look.link
    ensures !p.follow ==> s.phase.replaced.None?
  {
    ReachableKeepsInv(p, w, events, s);
  }

  /** A slot is checked without following, so what is replaced in quiet bears the bound identity, link or not. */
  lemma SlotReplacesWhatItBound(p: Plan, w: World, events: seq<Event>, s: State)
    requires Valid(w) && Reachable(p, w, events, s) && !p.follow
    requires s.phase.Published? && s.phase.look.quiet
    ensures Identity(p, s.world, s.phase.replaced) == s.phase.b.identity
  {
    ReachableKeepsInv(p, w, events, s);
  }

  // ---------------------------------------------------------------- runs that show the conditions are needed

  lemma Extend(p: Plan, w: World, events: seq<Event>, s: State, e: Event, next: State)
    requires Reachable(p, w, events, s) && CanStep(p, s, e) && Step(p, s, e) == next
    ensures Reachable(p, w, events + [e], next)
  {
    assert (events + [e])[..|events|] == events;
  }

  predicate Distinct(p: Plan) {
    p.dest != p.parentDir && p.temp != p.parentDir && p.temp != p.dest
  }

  function Plain(ino: Ino): FileId { FileId(ino, false, 0) }

  /** A directory, and in it a finished temporary file and perhaps the destination. */
  function Before(p: Plan, present: bool): World {
    World(map[p.parentDir := 0, p.temp := 3] + if present then map[p.dest := 1] else map[], map[],
          map[0 := 10, 1 := 11, 3 := 13], map[])
  }

  lemma BeforeIsValid(p: Plan, present: bool)
    requires Distinct(p)
    ensures Valid(Before(p, present))
  {
    assert forall o :: Live(Before(p, present), o) ==> o == 0 || o == 1 || o == 3;
  }

  function Bind0(present: bool): Option<FileId> { if present then Some(Plain(11)) else None }

  lemma Stats(p: Plan, present: bool)
    requires Distinct(p)
    ensures Reachable(p, Before(p, present), [StatParent, StatDest],
                      State(Before(p, present), Statted(Some(Plain(10)), Bind0(present))))
  {
    var w := Before(p, present);
    Extend(p, w, [], State(w, Start), StatParent, State(w, ParentStatted(Some(Plain(10)))));
    Extend(p, w, [] + [StatParent], State(w, ParentStatted(Some(Plain(10)))), StatDest,
           State(w, Statted(Some(Plain(10)), Bind0(present))));
    assert [] + [StatParent] + [StatDest] == [StatParent, StatDest];
  }

  /** Every check passes, and the rename can go ahead. */
  ghost predicate Passes(p: Plan, now: World, b: Binding) {
    && CanStep(p, State(now, Bound(b)), CheckParent) && CanStep(p, State(now, ParentChecked(b)), CheckDest)
    && CanStep(p, State(now, DestChecked(b, LookNow(p, now))), CheckHold)
    && CanStep(p, State(now, Proved(b, LookNow(p, now))), Publish)
  }

  function AfterPublish(p: Plan, now: World, b: Binding): State
    requires p.temp in now.names
  {
    State(Renamed(now, p.temp, p.dest), Published(b, LookNow(p, now), NamedBy(now, p.dest)))
  }

  lemma ProveAndPublish(p: Plan, w: World, events: seq<Event>, now: World, b: Binding) returns (run: seq<Event>)
    requires Reachable(p, w, events, State(now, Bound(b))) && Passes(p, now, b)
    ensures Reachable(p, w, run, AfterPublish(p, now, b))
  {
    var look := LookNow(p, now);
    Extend(p, w, events, State(now, Bound(b)), CheckParent, State(now, ParentChecked(b)));
    run := events + [CheckParent];
    Extend(p, w, run, State(now, ParentChecked(b)), CheckDest, State(now, DestChecked(b, look)));
    run := run + [CheckDest];
    Extend(p, w, run, State(now, DestChecked(b, look)), CheckHold, State(now, Proved(b, look)));
    run := run + [CheckHold];
    Extend(p, w, run, State(now, Proved(b, look)), Publish, AfterPublish(p, now, b));
    run := run + [Publish];
  }

  /** Binding with or without the hold. */
  lemma BindIt(p: Plan, present: bool, hold: bool) returns (run: seq<Event>)
    requires Distinct(p) && (hold ==> present && p.follow)
    ensures Reachable(p, Before(p, present), run, State(Held(p, present, hold), Bound(BindingOf(present, hold))))
  {
    var w, b := Before(p, present), BindingOf(present, hold);
    Stats(p, present);
    var e := if hold then OpenHold else NoHold;
    Extend(p, w, [StatParent, StatDest], State(w, Statted(b.parent, b.identity)), e, State(Held(p, present, hold), Bound(b)));
    run := [StatParent, StatDest] + [e];
  }

  function Held(p: Plan, present: bool, hold: bool): World {
    if hold then Before(p, present).(handles := map[p.hold := 1]) else Before(p, present)
  }

  function BindingOf(present: bool, hold: bool): Binding {
    Binding(Some(Plain(10)), Bind0(present), if hold then Some(1) else None)
  }

  /** The file is unlinked and recreated under its freed inode number. */
  function Recreated(p: Plan): World {
    World(map[p.parentDir := 0, p.temp := 3, p.dest := 2], map[], map[0 := 10, 1 := 11, 3 := 13, 2 := 11], map[])
  }

  lemma SwapFile(p: Plan, events: seq<Event>, b: Binding) returns (run: seq<Event>)
    requires Distinct(p) && Reachable(p, Before(p, true), events, State(Before(p, true), Bound(b)))
    ensures Reachable(p, Before(p, true), run, State(Recreated(p), Bound(b)))
  {
    var w := Before(p, true);
    var gone := w.(names := map[p.parentDir := 0, p.temp := 3]);
    assert w.names - {p.dest} == gone.names;
    Extend(p, w, events, State(w, Bound(b)), Env(Unlink(p.dest)), State(gone, Bound(b)));
    assert forall o :: Live(gone, o) ==> o == 0 || o == 3;
    Extend(p, w, events + [Env(Unlink(p.dest))], State(gone, Bound(b)), Env(Create(p.dest, 2, 11)),
           State(Recreated(p), Bound(b)));
    run := events + [Env(Unlink(p.dest))] + [Env(Create(p.dest, 2, 11))];
  }

  lemma RecreatedPasses(p: Plan)
    requires Distinct(p)
    ensures Passes(p, Recreated(p), BindingOf(true, false))
  {}

  /** Without the hold the same checks pass on a different file, through a reused inode number. */
  lemma WithoutHoldAbaHappens(p: Plan) returns (run: seq<Event>, s: State)
    requires Distinct(p)
    ensures Valid(Before(p, true)) && NamedBy(Before(p, true), p.dest) == Some(1)
    ensures Reachable(p, Before(p, true), run, s) && s.phase.Published? && s.phase.look.quiet
    ensures s.phase.b.identity == Some(IdOf(p, Before(p, true), 1)) && s.phase.replaced == Some(2)
  {
    var b := BindingOf(true, false);
    BeforeIsValid(p, true);
    RecreatedPasses(p);
    run := BindIt(p, true, false);
    run := SwapFile(p, run, b);
    run := ProveAndPublish(p, Before(p, true), run, Recreated(p), b);
    s := AfterPublish(p, Recreated(p), b);
  }

  /** The file is moved to `aside` and the destination made a link to it. */
  function Diverted(p: Plan, aside: string): World {
    World(map[p.parentDir := 0, p.temp := 3, aside := 1, p.dest := 2], map[p.hold := 1],
          map[0 := 10, 1 := 11, 3 := 13, 2 := 12], map[2 := aside])
  }

  lemma Divert(p: Plan, aside: string, events: seq<Event>, b: Binding) returns (run: seq<Event>)
    requires Distinct(p) && aside !in {p.dest, p.parentDir, p.temp}
    requires Reachable(p, Before(p, true), events, State(Held(p, true, true), Bound(b)))
    ensures Reachable(p, Before(p, true), run, State(Diverted(p, aside), Bound(b)))
  {
    var w, held := Before(p, true), Held(p, true, true);
    var moved := held.(names := map[p.parentDir := 0, p.temp := 3, aside := 1]);
    assert (held.names - {p.dest})[aside := 1] == moved.names;
    Extend(p, w, events, State(held, Bound(b)), Env(Rename(p.dest, aside)), State(moved, Bound(b)));
    LinkInPlace(p, aside, moved);
    Extend(p, w, events + [Env(Rename(p.dest, aside))], State(moved, Bound(b)), Env(Symlink(p.dest, 2, 12, aside)),
           State(Diverted(p, aside), Bound(b)));
    run := events + [Env(Rename(p.dest, aside))] + [Env(Symlink(p.dest, 2, 12, aside))];
  }

  lemma LinkInPlace(p: Plan, aside: string, moved: World)
    requires Distinct(p) && aside !in {p.dest, p.parentDir, p.temp}
    requires moved == Held(p, true, true).(names := map[p.parentDir := 0, p.temp := 3, aside := 1])
    ensures Enabled(moved, Symlink(p.dest, 2, 12, aside))
    ensures Act(moved, Symlink(p.dest, 2, 12, aside)) == Diverted(p, aside)
  {
    assert forall o :: Live(moved, o) ==> o == 0 || o == 1 || o == 3;
  }

  lemma DivertedPasses(p: Plan, aside: string)
    requires Distinct(p) && p.follow && aside !in {p.dest, p.parentDir, p.temp}
    ensures Passes(p, Diverted(p, aside), BindingOf(true, true))
  {
    assert Follow(Diverted(p, aside), p.dest, KERNEL_LINK_LIMIT) == Reached(1);
  }

  /** With the hold open every check passes through a link put in the file's place, and the rename replaces the link. */
  lemma SwappedInLinkIsReplaced(p: Plan, aside: string) returns (run: seq<Event>, s: State)
    requires Distinct(p) && p.follow && aside !in {p.dest, p.parentDir, p.temp}
    ensures Valid(Before(p, true)) && NamedBy(Before(p, true), p.dest) == Some(1)
    ensures Reachable(p, Before(p, true), run, s) && s.phase.Published? && s.phase.look.quiet
    ensures s.phase.b.pinned == Some(1) && s.phase.replaced == Some(2) && NamedBy(s.world, aside) == Some(1)
  {
    var b := BindingOf(true, true);
    BeforeIsValid(p, true);
    DivertedPasses(p, aside);
    run := BindIt(p, true, true);
    run := Divert(p, aside, run, b);
    run := ProveAndPublish(p, Before(p, true), run, Diverted(p, aside), b);
    s := AfterPublish(p, Diverted(p, aside), b);
  }

  /** The absent destination is made a link to nothing. */
  function Dangling(p: Plan, nowhere: string): World {
    Act(Before(p, false), Symlink(p.dest, 2, 12, nowhere))
  }

  lemma DanglingPasses(p: Plan, nowhere: string)
    requires Distinct(p) && p.follow && nowhere !in {p.dest, p.parentDir, p.temp}
    ensures Enabled(Before(p, false), Symlink(p.dest, 2, 12, nowhere))
    ensures Passes(p, Dangling(p, nowhere), BindingOf(false, false))
  {
    BeforeIsValid(p, false);
    assert Follow(Dangling(p, nowhere), p.dest, KERNEL_LINK_LIMIT) == NoEntry;
  }

  /** A dangling link put at a destination bound as absent still counts as absent, and is replaced. */
  lemma DanglingLinkIsReplaced(p: Plan, nowhere: string) returns (run: seq<Event>, s: State)
    requires Distinct(p) && p.follow && nowhere !in {p.dest, p.parentDir, p.temp}
    ensures Valid(Before(p, false)) && NamedBy(Before(p, false), p.dest).None?
    ensures Reachable(p, Before(p, false), run, s) && s.phase.Published? && s.phase.look.quiet
    ensures s.phase.b.identity.None? && s.phase.replaced == Some(2)
  {
    var w, b, now := Before(p, false), BindingOf(false, false), Dangling(p, nowhere);
    var e := Env(Symlink(p.dest, 2, 12, nowhere));
    BeforeIsValid(p, false);
    DanglingPasses(p, nowhere);
    run := BindIt(p, false, false);
    Extend(p, w, run, State(w, Bound(b)), e, State(now, Bound(b)));
    run := ProveAndPublish(p, w, run + [e], now, b);
    s := AfterPublish(p, now, b);
  }
}
