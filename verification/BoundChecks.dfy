/**
 What a publication that went through must have looked at on the way, and what its rename does.
 */
module BoundChecks {
  import opened Prelude
  import opened BoundIdentity

  /** The number of the directory entry at a path, which a check compares. */
  predicate HasNumber(w: World, path: string, id: Option<FileId>) {
    if path in w.names then
      id.Some? && (w.names[path] in w.ids ==> id.value.ino == w.ids[w.names[path]])
      && (id.value.isLink <==> w.names[path] in w.links)
    else id.None?
  }

  /** A parent that was there must bear the number bound; one that was not must by now be a directory entry of its own. */
  predicate ParentPasses(p: Plan, w: World, bound: Option<FileId>) {
    HasNumber(w, p.parentDir, bound)
    || (bound.None? && p.parentDir in w.names && w.names[p.parentDir] !in w.links)
  }

  /** Event `k` of the run is `e`, and found the world `then'`. */
  ghost predicate Happened(p: Plan, w: World, events: seq<Event>, k: nat, e: Event, then': State) {
    k < |events| && events[k] == e && Reachable(p, w, events[..k], then')
  }

  ghost predicate ParentWasBound(p: Plan, w: World, events: seq<Event>, parent: Option<FileId>) {
    exists k: nat, s :: Happened(p, w, events, k, StatParent, s) && HasNumber(s.world, p.parentDir, parent)
  }

  ghost predicate DestWasBound(p: Plan, w: World, events: seq<Event>, identity: Option<FileId>) {
    exists k: nat, s ::
      Happened(p, w, events, k, StatDest, s) && identity == Identity(p, s.world, SeenBy(DestStat(p, s.world)))
  }

  ghost predicate ParentWasChecked(p: Plan, w: World, events: seq<Event>, b: Binding) {
    exists k: nat, s ::
      Happened(p, w, events, k, CheckParent, s) && s.phase == Bound(b) && ParentPasses(p, s.world, b.parent)
  }

  /** The hold, if one was opened, is still open on an object that bears the bound identity. */
  predicate HoldBears(p: Plan, w: World, b: Binding) {
    b.pinned.None? || (p.hold in w.handles && Some(IdOf(p, w, w.handles[p.hold])) == b.identity)
  }

  ghost predicate HoldWasChecked(p: Plan, w: World, events: seq<Event>, b: Binding) {
    exists k: nat, s ::
      Happened(p, w, events, k, CheckHold, s) && s.phase.DestChecked? && s.phase.b == b && HoldBears(p, s.world, b)
  }

  /** What each phase of the publisher has behind it. */
  ghost predicate Witnessed(p: Plan, w: World, events: seq<Event>, ph: Phase) {
    match ph
    case Start => true
    case ParentStatted(parent) => ParentWasBound(p, w, events, parent)
    case Statted(parent, identity) => ParentWasBound(p, w, events, parent) && DestWasBound(p, w, events, identity)
    case Bound(b) => BindingWitnessed(p, w, events, b)
    case ParentChecked(b) => BindingWitnessed(p, w, events, b) && ParentWasChecked(p, w, events, b)
    case DestChecked(b, _) => BindingWitnessed(p, w, events, b) && ParentWasChecked(p, w, events, b)
    case Proved(b, _) =>
      BindingWitnessed(p, w, events, b) && ParentWasChecked(p, w, events, b) && HoldWasChecked(p, w, events, b)
    case Published(b, _, _) =>
      BindingWitnessed(p, w, events, b) && ParentWasChecked(p, w, events, b) && HoldWasChecked(p, w, events, b)
  }

  ghost predicate BindingWitnessed(p: Plan, w: World, events: seq<Event>, b: Binding) {
    ParentWasBound(p, w, events, b.parent) && DestWasBound(p, w, events, b.identity)
  }

  lemma HappenedStays(p: Plan, w: World, events: seq<Event>, e: Event, k: nat, x: Event, s: State)
    requires Happened(p, w, events, k, x, s)
    ensures Happened(p, w, events + [e], k, x, s)
  {
    assert (events + [e])[..k] == events[..k];
  }

  lemma HappensNow(p: Plan, w: World, events: seq<Event>, s: State, e: Event)
    requires Reachable(p, w, events, s)
    ensures Happened(p, w, events + [e], |events|, e, s)
  {
    assert (events + [e])[..|events|] == events;
  }

  lemma ParentBoundStays(p: Plan, w: World, events: seq<Event>, e: Event, parent: Option<FileId>)
    requires ParentWasBound(p, w, events, parent)
    ensures ParentWasBound(p, w, events + [e], parent)
  {
    var k: nat, s :| Happened(p, w, events, k, StatParent, s) && HasNumber(s.world, p.parentDir, parent);
    HappenedStays(p, w, events, e, k, StatParent, s);
  }

  lemma DestBoundStays(p: Plan, w: World, events: seq<Event>, e: Event, identity: Option<FileId>)
    requires DestWasBound(p, w, events, identity)
    ensures DestWasBound(p, w, events + [e], identity)
  {
    var k: nat, s :|
      Happened(p, w, events, k, StatDest, s) && identity == Identity(p, s.world, SeenBy(DestStat(p, s.world)));
    HappenedStays(p, w, events, e, k, StatDest, s);
  }

  lemma ParentCheckStays(p: Plan, w: World, events: seq<Event>, e: Event, b: Binding)
    requires ParentWasChecked(p, w, events, b)
    ensures ParentWasChecked(p, w, events + [e], b)
  {
    var k: nat, s :| Happened(p, w, events, k, CheckParent, s) && s.phase == Bound(b) && ParentPasses(p, s.world, b.parent);
    HappenedStays(p, w, events, e, k, CheckParent, s);
  }

  lemma HoldCheckStays(p: Plan, w: World, events: seq<Event>, e: Event, b: Binding)
    requires HoldWasChecked(p, w, events, b)
    ensures HoldWasChecked(p, w, events + [e], b)
  {
    var k: nat, s :|
      Happened(p, w, events, k, CheckHold, s) && s.phase.DestChecked? && s.phase.b == b && HoldBears(p, s.world, b);
    HappenedStays(p, w, events, e, k, CheckHold, s);
  }

  lemma WitnessesStay(p: Plan, w: World, events: seq<Event>, e: Event, ph: Phase)
    requires Witnessed(p, w, events, ph)
    ensures Witnessed(p, w, events + [e], ph)
  {
    match ph
    case Start =>
    case ParentStatted(parent) =>
      ParentBoundStays(p, w, events, e, parent);
    case Statted(parent, identity) =>
      ParentBoundStays(p, w, events, e, parent);
      DestBoundStays(p, w, events, e, identity);
    case Bound(b) =>
      BindingStays(p, w, events, e, b);
    case ParentChecked(b) =>
      BindingStays(p, w, events, e, b);
      ParentCheckStays(p, w, events, e, b);
    case DestChecked(b, _) =>
      BindingStays(p, w, events, e, b);
      ParentCheckStays(p, w, events, e, b);
    case Proved(b, _) =>
      BindingStays(p, w, events, e, b);
      ParentCheckStays(p, w, events, e, b);
      HoldCheckStays(p, w, events, e, b);
    case Published(b, _, _) =>
      BindingStays(p, w, events, e, b);
      ParentCheckStays(p, w, events, e, b);
      HoldCheckStays(p, w, events, e, b);
  }

  lemma BindingStays(p: Plan, w: World, events: seq<Event>, e: Event, b: Binding)
    requires BindingWitnessed(p, w, events, b)
    ensures BindingWitnessed(p, w, events + [e], b)
  {
    ParentBoundStays(p, w, events, e, b.parent);
    DestBoundStays(p, w, events, e, b.identity);
  }

  ghost predicate StepsTo(p: Plan, s: State, e: Event, next: State) {
    CanStep(p, s, e) && Step(p, s, e) == next
  }

  lemma StepIsWitnessed(p: Plan, w: World, events: seq<Event>, s: State, e: Event, next: State)
    requires Reachable(p, w, events, s) && StepsTo(p, s, e, next) && Witnessed(p, w, events, s.phase)
    ensures Witnessed(p, w, events + [e], next.phase)
  {
    WitnessesStay(p, w, events, e, s.phase);
    HappensNow(p, w, events, s, e);
    if e.CheckParent? {
      assert ParentPasses(p, s.world, s.phase.b.parent);
    }
    if e.CheckHold? {
      assert HoldBears(p, s.world, s.phase.b);
    }
  }

  lemma LastStep(p: Plan, w: World, done: seq<Event>, e: Event, s: State) returns (before: State)
    requires Reachable(p, w, done + [e], s)
    ensures Reachable(p, w, done, before) && StepsTo(p, before, e, s)
  {
    var events := done + [e];
    assert events[..|events| - 1] == done && events[|events| - 1] == e;
    before :| Reachable(p, w, done, before) && CanStep(p, before, e) && Step(p, before, e) == s;
  }

  lemma {:induction false} RunIsWitnessed(p: Plan, w: World, events: seq<Event>, s: State)
    requires Reachable(p, w, events, s)
    ensures Witnessed(p, w, events, s.phase)
    decreases |events|
  {
    if events != [] {
      var done, e := events[..|events| - 1], events[|events| - 1];
      assert events == done + [e];
      var before := LastStep(p, w, done, e, s);
      RunIsWitnessed(p, w, done, before);
      StepIsWitnessed(p, w, done, before, e, s);
    }
  }

  /**
   Nothing is published without all the checks: both identities were read, the parent passed its check
   against the one read, and the open hold bore the identity read for the destination.
   */
  lemma PublishedAfterAllChecks(p: Plan, w: World, events: seq<Event>, s: State)
    requires Reachable(p, w, events, s) && s.phase.Published?
    ensures ParentWasBound(p, w, events, s.phase.b.parent) && DestWasBound(p, w, events, s.phase.b.identity)
    ensures ParentWasChecked(p, w, events, s.phase.b) && HoldWasChecked(p, w, events, s.phase.b)
  {
    RunIsWitnessed(p, w, events, s);
  }

  /** The rename puts the temporary file's object under the destination, and moves nothing else. */
  lemma PublishInstallsTemp(p: Plan, s: State)
    requires CanStep(p, s, Publish)
    ensures var after := Step(p, s, Publish).world;
            && p.dest in after.names && after.names[p.dest] == s.world.names[p.temp]
            && (forall path | path != p.dest && path != p.temp :: NamedBy(after, path) == NamedBy(s.world, path))
            && (p.temp in after.names <==> NamedBy(s.world, p.dest) == Some(s.world.names[p.temp]))
            && after.ids == s.world.ids && after.links == s.world.links && after.handles == s.world.handles
  {}
}
