/**
 The work-list resolver of `fs_atomic.rs` (Unix branch): it expands links into a queue of pending
 components under a hop budget, instead of recursing. Every system call may see a different tree;
 correctness is stated for trees that hold still, termination and the hop bound for all.
 */
module Resolver {
  import opened Prelude
  import opened FileTree

  datatype Platform = Linux | OtherUnix

  /** Follow no more links than the kernel does. */
  function FollowLimit(platform: Platform): nat {
    if platform.Linux? then 40 else 32
  }

  datatype LeafSymlink = Follow | Replace

  datatype Error = NotADirectory | IsADirectory | NotFoundError | HopLimit | Unstable | Denied

  datatype Outcome = Resolved(path: seq<string>) | Failed(error: Error)

  /**
   The kernel as seen by successive system calls: the tree each one works on, and whether a status
   call, a search permission check, the sticky-directory rule and the follow probe let it pass.
   */
  datatype Kernel = Kernel(
    tree: nat -> Tree,
    stats: nat -> bool,
    searches: nat -> bool,
    unsticky: nat -> bool,
    probes: nat -> bool)

  ghost predicate Still(k: Kernel) {
    forall n, m :: k.tree(n) == k.tree(m)
  }

  /** No permission is missing, and no probe contradicts what was read. */
  ghost predicate Permissive(k: Kernel) {
    forall n :: k.stats(n) && k.searches(n) && k.unsticky(n) && k.probes(n)
  }

  const IDENTITY_RETRIES := 4

  /** `lstat`: kernel resolution that does not follow the last component. */
  function Lstat(t: Tree, path: seq<string>): Lookup {
    Resolve(t, t.root, AsComps(path), false, 40).lookup
  }

  /** The link object at `path`, if there is one. */
  function LinkAt(t: Tree, path: seq<string>): Option<(Ino, PathName)> {
    var l := Lstat(t, path);
    if l.Found? && IsLink(t, l.ino) then Some((l.ino, t.nodes[l.ino].target)) else None
  }

  /** What each successive system call finds at one path: a link with its target, or none. */
  type LinkViews = nat -> Option<(Ino, PathName)>

  /** The target was read between looks that found one and the same link before, right after, and once more. */
  predicate ReadBetween(links: LinkViews, n: nat, target: PathName) {
    && links(n).Some? && links(n + 1).Some? && links(n + 1).value.1 == target
    && links(n + 2) == links(n) && links(n + 3) == links(n)
  }

  /**
   `read_followable_link_target`: read a link and insist that the same link was there before and
   after, and that following it does not contradict its target.
   */
  method ReadFollowableLinkTarget(links: LinkViews, unsticky: nat -> bool, probes: nat -> bool, clock0: nat)
    returns (r: Option<PathName>, denied: bool, clock: nat)
    ensures clock0 <= clock <= clock0 + 16
    ensures r.None? && !denied && (forall n | clock0 <= n < clock :: links(n).Some?) ==> clock0 + 12 <= clock
    ensures r.Some? ==> clock0 + 4 <= clock && ReadBetween(links, clock - 4, r.value)
    ensures (forall n :: links(n) == links(clock0) && unsticky(n) && probes(n)) && links(clock0).Some? ==> r.Some?
  {
    clock := clock0;
    for i := 0 to IDENTITY_RETRIES
      invariant clock0 + 3 * i <= clock <= clock0 + 4 * i
      invariant i > 0 ==> !((forall n :: links(n) == links(clock0) && unsticky(n) && probes(n)) && links(clock0).Some?)
    {
      var before := links(clock);
      clock := clock + 1;
      if before.None? {
        return None, false, clock;
      }
      if !unsticky(clock) {
        return None, true, clock;
      }
      var read := links(clock);
      clock := clock + 1;
      if read.None? {
        return None, true, clock;
      }
      var mid := links(clock);
      clock := clock + 1;
      if mid != before || !probes(clock) {
        continue;
      }
      var after := links(clock);
      clock := clock + 1;
      if after == before {
        return Some(read.value.1), false, clock;
      }
    }
    return None, false, clock;
  }

  /** The same on a file system; on a still one the target is the link's own. */
  method ReadLinkAt(k: Kernel, clock0: nat, link: seq<string>)
    returns (r: Option<PathName>, denied: bool, clock: nat)
    ensures r.Some? && Still(k) ==> LinkAt(k.tree(0), link).Some? && LinkAt(k.tree(0), link).value.1 == r.value
    ensures Still(k) && Permissive(k) && LinkAt(k.tree(0), link).Some? ==> r.Some?
  {
    var links: LinkViews := (n: nat) => LinkAt(k.tree(n), link);
    r, denied, clock := ReadFollowableLinkTarget(links, k.unsticky, k.probes, clock0);
    assert r.Some? ==> links(clock - 3).Some? && links(clock - 3).value.1 == r.value;
    if Still(k) {
      assert forall n :: links(n) == LinkAt(k.tree(0), link);
    }
  }

  // ---------------------------------------------------------------- what the resolver promises

  predicate AllNames(comps: seq<Comp>) {
    forall i | 0 <= i < |comps| :: comps[i].Name?
  }

  function Names(comps: seq<Comp>): seq<string>
    requires AllNames(comps)
  {
    seq(|comps|, i requires 0 <= i < |comps| => comps[i].name)
  }

  /**
   `q` names the object or the missing entry that `outcome` describes; below a missing directory it goes
   on with every component still pending.
   */
  predicate SameObject(t: Tree, q: seq<string>, outcome: Lookup) {
    match outcome
    case Found(o) => Walk(t, q) == Some(o)
    case Missing(d, n) => q != [] && q[|q| - 1] == n && Walk(t, q[..|q| - 1]) == Some(d)
    case NoEntry(d, n, below) =>
      && AllNames(below) && |q| > |below|
      && var at := |q| - 1 - |below|;
      Walk(t, q[..at]) == Some(d) && q[at..] == [n] + Names(below)
    case _ => false
  }

  /** No component is a link, but for the last one when leaf links are to be replaced. */
  predicate LinkFreeFor(t: Tree, q: seq<string>, leaf: LeafSymlink) {
    LinkFree(t, if leaf.Replace? && q != [] then q[..|q| - 1] else q)
  }

  /** The answer POSIX resolution gives for the whole request, at some nesting depth, following `links` links. */
  ghost predicate PosixReaches(t: Tree, cwd: seq<string>, path: PathName, leaf: LeafSymlink, outcome: Lookup, links: nat)
    requires Physical(t, cwd)
  {
    Ends(outcome)
    && exists depth: nat :: Shape(Posix(t, Walk(t, cwd).value, path, leaf.Follow?, depth)) == Answer(outcome, links)
  }

  /** That answer is unique: more depth never changes it. */
  lemma PosixAnswerIsUnique(t: Tree, cwd: seq<string>, path: PathName, leaf: LeafSymlink, a: Lookup, i: nat, b: Lookup, j: nat)
    requires Physical(t, cwd)
    requires PosixReaches(t, cwd, path, leaf, a, i) && PosixReaches(t, cwd, path, leaf, b, j)
    ensures a == b && i == j
  {
    var here := Walk(t, cwd).value;
    var d: nat :| Shape(Posix(t, here, path, leaf.Follow?, d)) == Answer(a, i);
    var e: nat :| Shape(Posix(t, here, path, leaf.Follow?, e)) == Answer(b, j);
    DeeperIsSame(t, StartOf(t, here, path), path.comps, leaf.Follow?, if d < e then d else e, if d < e then e else d);
  }

  /** No file can be written there: it is a directory, or a directory is asked of what is missing. */
  predicate Unpublishable(t: Tree, outcome: Lookup) {
    (outcome.Found? && IsDir(t, outcome.ino)) || (outcome.NoEntry? && !AllNames(outcome.below))
  }

  /** A request on a still tree: where it is made, how many links it may follow, what stands in its way. */
  datatype Request = Request(limit: nat, permissive: bool, t: Tree, cwd: seq<string>, path: PathName, leaf: LeafSymlink)

  ghost predicate Asks(q: Request, o: Lookup, links: nat) {
    Physical(q.t, q.cwd) && PosixReaches(q.t, q.cwd, q.path, q.leaf, o, links)
  }

  ghost predicate HasAnswer(req: Request, q: seq<string>) {
    exists o, i: nat :: Asks(req, o, i) && i <= req.limit && SameObject(req.t, q, o)
  }

  /**
   On a still tree a resolved path is what POSIX resolution comes to, within the limit; running out of hops
   means that it follows more links than the limit, or never ends; a refusal means that a permission was
   missing; and any other failure that POSIX resolution fails or ends where no file can be written.
   */
  ghost predicate Refines(req: Request, r: Outcome) {
    match r
    case Resolved(q) => LinkFreeFor(req.t, q, req.leaf) && HasAnswer(req, q)
    case Failed(e) =>
      if e.Denied? || e.Unstable? then !req.permissive
      else if e.HopLimit? then forall o, i: nat | Asks(req, o, i) :: i > req.limit
      else OnlyUnpublishable(req)
  }

  ghost predicate OnlyUnpublishable(req: Request) {
    forall o, i: nat | Asks(req, o, i) :: Unpublishable(req.t, o)
  }

  // ---------------------------------------------------------------- the loop's simulation argument

  /** After `hops` links, what the request reaches is what the current directory and queue reach. */
  ghost predicate Simulates(req: Request, cur: Ino, rest: seq<Comp>, hops: nat)
    requires cur in req.t.nodes
  {
    && (forall o, i: nat | Asks(req, o, i) :: i >= hops && Reaches(req.t, cur, rest, req.leaf.Follow?, o, i - hops))
    && (forall o, i: nat | Reaches(req.t, cur, rest, req.leaf.Follow?, o, i) :: Asks(req, o, i + hops))
  }

  /** One queue leads to another by following `cost` links. */
  ghost predicate Leads(t: Tree, follow: bool, cur: Ino, rest: seq<Comp>, cur': Ino, rest': seq<Comp>, cost: nat)
    requires cur in t.nodes && cur' in t.nodes
  {
    && (forall o, i: nat | Reaches(t, cur, rest, follow, o, i) :: i >= cost && Reaches(t, cur', rest', follow, o, i - cost))
    && (forall o, i: nat | Reaches(t, cur', rest', follow, o, i) :: Reaches(t, cur, rest, follow, o, i + cost))
  }

  lemma SimulatesOnward(req: Request, cur: Ino, rest: seq<Comp>, hops: nat, cur': Ino, rest': seq<Comp>, cost: nat)
    requires cur in req.t.nodes && cur' in req.t.nodes
    requires Simulates(req, cur, rest, hops) && Leads(req.t, req.leaf.Follow?, cur, rest, cur', rest', cost)
    ensures Simulates(req, cur', rest', hops + cost)
  {
    forall o, i: nat | Reaches(req.t, cur', rest', req.leaf.Follow?, o, i) ensures Asks(req, o, i + (hops + cost)) {
      assert Reaches(req.t, cur, rest, req.leaf.Follow?, o, i + cost);
      assert Asks(req, o, i + cost + hops);
    }
  }

  /** The request as one absolute list of components. */
  function AbsoluteComps(cwd: seq<string>, path: PathName): seq<Comp> {
    if path.absolute then path.comps else AsComps(cwd) + path.comps
  }

  lemma StartSimulates(req: Request)
    requires Physical(req.t, req.cwd) && !NamesDirectory(req.path)
    ensures Simulates(req, req.t.root, DropDots(AbsoluteComps(req.cwd, req.path)), 0)
  {
    var t, cwd, path, follow := req.t, req.cwd, req.path, req.leaf.Follow?;
    var comps, here := AbsoluteComps(cwd, path), Walk(t, cwd).value;
    forall depth: nat
      ensures Shape(Posix(t, here, path, follow, depth)) == Shape(Resolve(t, t.root, DropDots(comps), follow, depth))
    {
      ResolvePhysical(t, cwd, path.comps, follow, depth);
      assert comps[|comps| - 1] == path.comps[|path.comps| - 1];
      ResolveWithoutDots(t, t.root, comps, follow, depth);
    }
    forall o, i: nat ensures Asks(req, o, i) <==> Reaches(t, t.root, DropDots(comps), follow, o, i) {
      if depth: nat :| Shape(Posix(t, here, path, follow, depth)) == Answer(o, i) {
        assert Shape(Resolve(t, t.root, DropDots(comps), follow, depth)) == Answer(o, i);
      }
      if depth: nat :| Shape(Resolve(t, t.root, DropDots(comps), follow, depth)) == Answer(o, i) {
        assert Shape(Posix(t, here, path, follow, depth)) == Answer(o, i);
      }
    }
  }

  /** Asking a directory of something is asking for what no file can be. */
  lemma AskedDirectoryIsUnpublishable(t: Tree, o: Lookup)
    requires AsksDirectory(t, o)
    ensures Unpublishable(t, o)
  {
    if o.NoEntry? {
      assert !o.below[|o.below| - 1].Name?;
    }
  }

  lemma DirectoryRequestsAskDirectories(req: Request)
    requires NamesDirectory(req.path)
    ensures OnlyUnpublishable(req)
  {
    forall o, i: nat | Asks(req, o, i) ensures Unpublishable(req.t, o) {
      var here := Walk(req.t, req.cwd).value;
      var depth: nat :| Shape(Posix(req.t, here, req.path, req.leaf.Follow?, depth)) == Answer(o, i);
      if req.path.comps != [] {
        TrailingDotAsksDirectory(req.t, StartOf(req.t, here, req.path), req.path.comps, req.leaf.Follow?, depth);
        AskedDirectoryIsUnpublishable(req.t, o);
      }
    }
  }

  /** Two queues that resolve alike at every depth lead to one another. */
  lemma AlikeLeads(t: Tree, follow: bool, cur: Ino, rest: seq<Comp>, cur': Ino, rest': seq<Comp>)
    requires cur in t.nodes && cur' in t.nodes
    requires forall depth: nat :: Resolve(t, cur, rest, follow, depth) == Resolve(t, cur', rest', follow, depth)
    ensures Leads(t, follow, cur, rest, cur', rest', 0)
  {
    forall o, i: nat ensures Reaches(t, cur, rest, follow, o, i) <==> Reaches(t, cur', rest', follow, o, i) {
      if depth: nat :| Shape(Resolve(t, cur, rest, follow, depth)) == Answer(o, i) {
        assert Shape(Resolve(t, cur', rest', follow, depth)) == Answer(o, i);
      }
      if depth: nat :| Shape(Resolve(t, cur', rest', follow, depth)) == Answer(o, i) {
        assert Shape(Resolve(t, cur, rest, follow, depth)) == Answer(o, i);
      }
    }
  }

  lemma ParentLeads(t: Tree, cur: Ino, rest: seq<Comp>, follow: bool)
    requires IsDir(t, cur) && rest != [] && rest[0].DotDot?
    ensures Leads(t, follow, cur, rest, t.nodes[cur].parent, rest[1..], 0)
  {
    AlikeLeads(t, follow, cur, rest, t.nodes[cur].parent, rest[1..]);
  }

  lemma EntryLeads(t: Tree, cur: Ino, rest: seq<Comp>, follow: bool)
    requires IsDir(t, cur) && rest != [] && rest[0].Name? && rest[0].name in t.nodes[cur].entries
    requires !IsLink(t, t.nodes[cur].entries[rest[0].name]) || (rest[1..] == [] && !follow)
    ensures Leads(t, follow, cur, rest, t.nodes[cur].entries[rest[0].name], rest[1..], 0)
  {
    AlikeLeads(t, follow, cur, rest, t.nodes[cur].entries[rest[0].name], rest[1..]);
  }

  /** A queue whose resolution does not depend on depth reaches just that. */
  lemma ReachesOnly(t: Tree, cur: Ino, rest: seq<Comp>, follow: bool, only: Lookup)
    requires cur in t.nodes && forall depth: nat :: Shape(Resolve(t, cur, rest, follow, depth)) == Answer(only, 0)
    ensures forall o, i: nat :: Reaches(t, cur, rest, follow, o, i) <==> Ends(only) && o == only && i == 0
  {
    assert Shape(Resolve(t, cur, rest, follow, 0)) == Answer(only, 0);
    forall o, i: nat ensures Reaches(t, cur, rest, follow, o, i) <==> Ends(only) && o == only && i == 0 {
      if depth: nat :| Shape(Resolve(t, cur, rest, follow, depth)) == Answer(o, i) {
      }
    }
  }

  /** What a missing name comes to. */
  function MissingLookup(cur: Ino, n: string, below: seq<Comp>): Lookup {
    if below == [] then Missing(cur, n) else NoEntry(cur, n, below)
  }

  lemma MissingReaches(t: Tree, cur: Ino, rest: seq<Comp>, follow: bool)
    requires IsDir(t, cur) && rest != [] && rest[0].Name? && rest[0].name !in t.nodes[cur].entries && NoDots(rest)
    ensures forall o, i: nat :: Reaches(t, cur, rest, follow, o, i) <==>
                                o == MissingLookup(cur, rest[0].name, rest[1..]) && i == 0
  {
    DropDotsOfNone(rest[1..]);
    ReachesOnly(t, cur, rest, follow, MissingLookup(cur, rest[0].name, rest[1..]));
  }

  // ---------------------------------------------------------------- links

  function LinkTarget(t: Tree, cur: Ino, n: string): PathName
    requires IsDir(t, cur) && n in t.nodes[cur].entries && IsLink(t, t.nodes[cur].entries[n])
  {
    t.nodes[t.nodes[cur].entries[n]].target
  }

  /** A link that is not the last component, at one depth: one link, then its target and what follows. */
  lemma ResolveThroughLink(t: Tree, cur: Ino, n: string, rest: seq<Comp>, follow: bool, depth: nat)
    requires IsDir(t, cur) && n in t.nodes[cur].entries && IsLink(t, t.nodes[cur].entries[n])
    requires rest != [] && depth > 0
    ensures var target := LinkTarget(t, cur, n);
            var onward := Then(t, Resolve(t, StartOf(t, cur, target), target.comps, true, depth - 1), rest, follow, depth);
            Resolve(t, cur, [Name(n)] + rest, follow, depth) == Answer(onward.lookup, onward.links + 1)
  {
    assert ([Name(n)] + rest)[1..] == rest;
  }

  lemma LinkForward(t: Tree, cur: Ino, n: string, rest: seq<Comp>, follow: bool, depth: nat)
    requires IsDir(t, cur) && n in t.nodes[cur].entries && IsLink(t, t.nodes[cur].entries[n])
    requires NoDots(rest) && rest != [] && Ends(Resolve(t, cur, [Name(n)] + rest, follow, depth).lookup)
    ensures var target := LinkTarget(t, cur, n);
            var a := Shape(Resolve(t, cur, [Name(n)] + rest, follow, depth));
            && a.links > 0
            && Shape(Resolve(t, StartOf(t, cur, target), DropDots(target.comps) + rest, follow, depth))
               == Answer(a.lookup, a.links - 1)
  {
    var target := LinkTarget(t, cur, n);
    var start := StartOf(t, cur, target);
    assert depth > 0 by {
      assert ([Name(n)] + rest)[1..] == rest;
    }
    ResolveThroughLink(t, cur, n, rest, follow, depth);
    DeeperIsSame(t, start, target.comps, true, depth - 1, depth);
    QueueIsSplice(t, start, target.comps, rest, follow, depth);
  }

  lemma LinkBackward(t: Tree, cur: Ino, n: string, rest: seq<Comp>, follow: bool, depth: nat)
    requires IsDir(t, cur) && n in t.nodes[cur].entries && IsLink(t, t.nodes[cur].entries[n])
    requires NoDots(rest) && rest != []
    requires Ends(Resolve(t, StartOf(t, cur, LinkTarget(t, cur, n)), DropDots(LinkTarget(t, cur, n).comps) + rest,
                          follow, depth).lookup)
    ensures var target := LinkTarget(t, cur, n);
            var a := Shape(Resolve(t, StartOf(t, cur, target), DropDots(target.comps) + rest, follow, depth));
            Shape(Resolve(t, cur, [Name(n)] + rest, follow, depth + 1)) == Answer(a.lookup, a.links + 1)
  {
    var target := LinkTarget(t, cur, n);
    var start := StartOf(t, cur, target);
    var reached := Resolve(t, start, target.comps, true, depth);
    var a, b := Resolve(t, start, DropDots(target.comps) + rest, follow, depth), Then(t, reached, rest, follow, depth);
    assert Shape(a) == Shape(b) by { QueueIsSplice(t, start, target.comps, rest, follow, depth); }
    ShapeEnds(a, b);
    assert Then(t, reached, rest, follow, depth + 1) == b by { ThenDeeper(t, reached, rest, follow, depth); }
    assert Resolve(t, cur, [Name(n)] + rest, follow, depth + 1) == Answer(b.lookup, b.links + 1) by {
      ResolveThroughLink(t, cur, n, rest, follow, depth + 1);
    }
  }

  lemma ShapeEnds(a: Answer, b: Answer)
    requires Shape(a) == Shape(b)
    ensures Ends(a.lookup) <==> Ends(b.lookup)
    ensures Shape(Answer(b.lookup, b.links + 1)) == Answer(Shape(a).lookup, Shape(a).links + 1)
  {}

  lemma ThenDeeper(t: Tree, reached: Answer, rest: seq<Comp>, follow: bool, depth: nat)
    requires reached.lookup.Found? ==> reached.lookup.ino in t.nodes
    requires Ends(Then(t, reached, rest, follow, depth).lookup)
    ensures Then(t, reached, rest, follow, depth + 1) == Then(t, reached, rest, follow, depth)
  {
    if reached.lookup.Found? {
      DeeperIsSame(t, reached.lookup.ino, rest, follow, depth, depth + 1);
    }
  }

  /** Expanding a link that is not the last component costs one hop. */
  lemma LinkInTheMiddle(t: Tree, cur: Ino, n: string, rest: seq<Comp>, follow: bool, o: Lookup, i: nat)
    requires IsDir(t, cur) && n in t.nodes[cur].entries && IsLink(t, t.nodes[cur].entries[n])
    requires NoDots(rest) && rest != []
    ensures var target := LinkTarget(t, cur, n);
            var start, queue := StartOf(t, cur, target), DropDots(target.comps) + rest;
            && (Reaches(t, cur, [Name(n)] + rest, follow, o, i) ==> i > 0 && Reaches(t, start, queue, follow, o, i - 1))
            && (Reaches(t, start, queue, follow, o, i) ==> Reaches(t, cur, [Name(n)] + rest, follow, o, i + 1))
  {
    var target := LinkTarget(t, cur, n);
    var start, queue := StartOf(t, cur, target), DropDots(target.comps) + rest;
    if Reaches(t, cur, [Name(n)] + rest, follow, o, i) {
      var depth: nat :| Shape(Resolve(t, cur, [Name(n)] + rest, follow, depth)) == Answer(o, i);
      LinkForward(t, cur, n, rest, follow, depth);
    }
    if Reaches(t, start, queue, follow, o, i) {
      var depth: nat :| Shape(Resolve(t, start, queue, follow, depth)) == Answer(o, i);
      LinkBackward(t, cur, n, rest, follow, depth);
    }
  }

  lemma QueueIsSplice(t: Tree, start: Ino, front: seq<Comp>, rest: seq<Comp>, follow: bool, depth: nat)
    requires start in t.nodes && NoDots(rest) && rest != []
    ensures Shape(Resolve(t, start, DropDots(front) + rest, follow, depth))
         == Shape(Then(t, Resolve(t, start, front, true, depth), rest, follow, depth))
  {
    ResolveSplice(t, start, front, rest, follow, depth);
    DropDotsConcat(front, rest);
    DropDotsOfNone(rest);
    assert (front + rest)[|front + rest| - 1] == rest[|rest| - 1];
    ResolveWithoutDots(t, start, front + rest, follow, depth);
  }

  /** A link that is the last component, at one depth. */
  lemma ResolveLastLink(t: Tree, cur: Ino, n: string, depth: nat)
    requires IsDir(t, cur) && n in t.nodes[cur].entries && IsLink(t, t.nodes[cur].entries[n])
    ensures var target := LinkTarget(t, cur, n);
            Resolve(t, cur, [Name(n)], true, depth) ==
            if depth == 0 then Answer(TooDeep, 0)
            else
              var onward := Resolve(t, StartOf(t, cur, target), target.comps, true, depth - 1);
              Answer(onward.lookup, onward.links + 1)
  {
    assert [Name(n)][1..] == [];
  }

  lemma LastLinkForward(t: Tree, cur: Ino, n: string, o: Lookup, i: nat)
    requires IsDir(t, cur) && n in t.nodes[cur].entries && IsLink(t, t.nodes[cur].entries[n])
    requires !NamesDirectory(LinkTarget(t, cur, n)) && Reaches(t, cur, [Name(n)], true, o, i)
    ensures var target := LinkTarget(t, cur, n);
            i > 0 && Reaches(t, StartOf(t, cur, target), DropDots(target.comps), true, o, i - 1)
  {
    var target := LinkTarget(t, cur, n);
    var start, queue := StartOf(t, cur, target), DropDots(target.comps);
    var depth: nat :| Shape(Resolve(t, cur, [Name(n)], true, depth)) == Answer(o, i);
    ResolveLastLink(t, cur, n, depth);
    ResolveWithoutDots(t, start, target.comps, true, depth - 1);
    assert Shape(Resolve(t, start, queue, true, depth - 1)) == Answer(o, i - 1);
  }

  lemma LastLinkBackward(t: Tree, cur: Ino, n: string, o: Lookup, i: nat)
    requires IsDir(t, cur) && n in t.nodes[cur].entries && IsLink(t, t.nodes[cur].entries[n])
    requires !NamesDirectory(LinkTarget(t, cur, n))
    requires Reaches(t, StartOf(t, cur, LinkTarget(t, cur, n)), DropDots(LinkTarget(t, cur, n).comps), true, o, i)
    ensures Reaches(t, cur, [Name(n)], true, o, i + 1)
  {
    var target := LinkTarget(t, cur, n);
    var start, queue := StartOf(t, cur, target), DropDots(target.comps);
    var depth: nat :| Shape(Resolve(t, start, queue, true, depth)) == Answer(o, i);
    ResolveWithoutDots(t, start, target.comps, true, depth);
    ResolveLastLink(t, cur, n, depth + 1);
    assert Shape(Resolve(t, cur, [Name(n)], true, depth + 1)) == Answer(o, i + 1);
  }

  /** A last link whose target is spelt as a directory asks for one. */
  lemma DirectoryLinkAsksDirectory(t: Tree, cur: Ino, n: string, o: Lookup, i: nat)
    requires IsDir(t, cur) && n in t.nodes[cur].entries && IsLink(t, t.nodes[cur].entries[n])
    requires NamesDirectory(LinkTarget(t, cur, n)) && Reaches(t, cur, [Name(n)], true, o, i)
    ensures i > 0 && Unpublishable(t, o)
  {
    var target := LinkTarget(t, cur, n);
    var start := StartOf(t, cur, target);
    var depth: nat :| Shape(Resolve(t, cur, [Name(n)], true, depth)) == Answer(o, i);
    ResolveLastLink(t, cur, n, depth);
    if target.comps != [] {
      TrailingDotAsksDirectory(t, start, target.comps, true, depth - 1);
      AskedDirectoryIsUnpublishable(t, o);
    }
  }

  /** One link expansion: the target's components go in front of the queue, at the cost of one hop. */
  lemma LinkLeads(t: Tree, cur: Ino, rest: seq<Comp>, follow: bool)
    requires IsDir(t, cur) && rest != [] && rest[0].Name? && rest[0].name in t.nodes[cur].entries && NoDots(rest)
    requires IsLink(t, t.nodes[cur].entries[rest[0].name]) && (rest[1..] == [] ==> follow)
    requires rest[1..] == [] ==> !NamesDirectory(t.nodes[t.nodes[cur].entries[rest[0].name]].target)
    ensures var target := t.nodes[t.nodes[cur].entries[rest[0].name]].target;
            Leads(t, follow, cur, rest, StartOf(t, cur, target), DropDots(target.comps) + rest[1..], 1)
  {
    var n, tail := rest[0].name, rest[1..];
    var target := t.nodes[t.nodes[cur].entries[n]].target;
    var start, queue := StartOf(t, cur, target), DropDots(target.comps) + tail;
    assert rest == [Name(n)] + tail;
    assert tail == [] ==> queue == DropDots(target.comps) && rest == [Name(n)];
    forall o, i: nat
      ensures Reaches(t, cur, rest, follow, o, i) ==> i >= 1 && Reaches(t, start, queue, follow, o, i - 1)
      ensures Reaches(t, start, queue, follow, o, i) ==> Reaches(t, cur, rest, follow, o, i + 1)
    {
      if tail == [] {
        if Reaches(t, cur, [Name(n)], true, o, i) { LastLinkForward(t, cur, n, o, i); }
        if Reaches(t, start, queue, true, o, i) { LastLinkBackward(t, cur, n, o, i); }
      } else {
        LinkInTheMiddle(t, cur, n, tail, follow, o, i);
      }
    }
  }

  /** A link costs a hop whatever happens next. */
  lemma LinkCosts(t: Tree, cur: Ino, rest: seq<Comp>, follow: bool, o: Lookup, i: nat)
    requires IsDir(t, cur) && rest != [] && rest[0].Name? && rest[0].name in t.nodes[cur].entries && NoDots(rest)
    requires IsLink(t, t.nodes[cur].entries[rest[0].name]) && (rest[1..] == [] ==> follow)
    requires Reaches(t, cur, rest, follow, o, i)
    ensures i > 0
  {
    assert rest == [Name(rest[0].name)] + rest[1..];
    if rest[1..] == [] {
      assert rest == [Name(rest[0].name)];
      if NamesDirectory(LinkTarget(t, cur, rest[0].name)) {
        DirectoryLinkAsksDirectory(t, cur, rest[0].name, o, i);
      } else {
        LastLinkForward(t, cur, rest[0].name, o, i);
      }
    } else {
      LinkInTheMiddle(t, cur, rest[0].name, rest[1..], follow, o, i);
    }
  }

  // ---------------------------------------------------------------- the loop

  /** The loop invariant on a still tree. */
  ghost predicate Tracks(req: Request, resolved: seq<string>, rest: seq<Comp>, hops: nat) {
    Physical(req.t, resolved) && hops <= req.limit && Simulates(req, Walk(req.t, resolved).value, rest, hops)
  }

  lemma LstatOfPhysical(t: Tree, resolved: seq<string>)
    requires Physical(t, resolved)
    ensures Lstat(t, resolved) == Found(Walk(t, resolved).value)
  {
    assert AsComps(resolved) == AsComps(resolved) + [];
    ResolvePhysical(t, resolved, [], false, 40);
  }

  /** On a still tree, `lstat` of one more component is a look into the current directory. */
  lemma LstatLooksInDirectory(t: Tree, resolved: seq<string>, n: string)
    requires Physical(t, resolved)
    ensures var cur := Walk(t, resolved).value;
            Lstat(t, resolved + [n]) ==
            if !IsDir(t, cur) then NotDir
            else if n !in t.nodes[cur].entries then Missing(cur, n)
            else Found(t.nodes[cur].entries[n])
  {
    assert AsComps(resolved + [n]) == AsComps(resolved) + [Name(n)];
    ResolvePhysical(t, resolved, [Name(n)], false, 40);
  }

  lemma RootIsPhysical(t: Tree)
    ensures Physical(t, [])
  {
    var none: seq<string> := [];
    assert none[..0] == none;
  }

  lemma TrackParent(req: Request, resolved: seq<string>, rest: seq<Comp>, hops: nat)
    requires Tracks(req, resolved, rest, hops)
    requires rest != [] && rest[0].DotDot? && IsDir(req.t, Walk(req.t, resolved).value)
    ensures Tracks(req, if resolved == [] then [] else resolved[..|resolved| - 1], rest[1..], hops)
  {
    var cur := Walk(req.t, resolved).value;
    if resolved != [] {
      PhysicalInit(req.t, resolved);
    }
    ParentLeads(req.t, cur, rest, req.leaf.Follow?);
    SimulatesOnward(req, cur, rest, hops, req.t.nodes[cur].parent, rest[1..], 0);
  }

  lemma TrackEntry(req: Request, resolved: seq<string>, rest: seq<Comp>, hops: nat)
    requires Tracks(req, resolved, rest, hops)
    requires rest != [] && rest[0].Name? && Walk(req.t, resolved + [rest[0].name]).Some?
    requires !IsLink(req.t, Walk(req.t, resolved + [rest[0].name]).value)
    ensures Tracks(req, resolved + [rest[0].name], rest[1..], hops)
  {
    var cur := Walk(req.t, resolved).value;
    PhysicalSnoc(req.t, resolved, rest[0].name);
    EntryLeads(req.t, cur, rest, req.leaf.Follow?);
    SimulatesOnward(req, cur, rest, hops, req.t.nodes[cur].entries[rest[0].name], rest[1..], 0);
  }

  lemma TrackLink(req: Request, resolved: seq<string>, rest: seq<Comp>, hops: nat)
    requires Tracks(req, resolved, rest, hops) && NoDots(rest)
    requires rest != [] && rest[0].Name? && Walk(req.t, resolved + [rest[0].name]).Some?
    requires IsLink(req.t, Walk(req.t, resolved + [rest[0].name]).value) && (rest[1..] == [] ==> req.leaf.Follow?)
    ensures var target := req.t.nodes[Walk(req.t, resolved + [rest[0].name]).value].target;
            && (hops < req.limit && (rest[1..] != [] || !NamesDirectory(target)) ==>
                  Tracks(req, if target.absolute then [] else resolved, DropDots(target.comps) + rest[1..], hops + 1))
            && (rest[1..] == [] && NamesDirectory(target) ==> OnlyUnpublishable(req))
            && (hops == req.limit ==> Refines(req, Failed(HopLimit)))
  {
    var cur, n := Walk(req.t, resolved).value, rest[0].name;
    PhysicalSnoc(req.t, resolved, n);
    var target := LinkTarget(req.t, cur, n);
    RootIsPhysical(req.t);
    if rest[1..] == [] && NamesDirectory(target) {
      assert rest == [Name(n)];
      forall o, i: nat | Asks(req, o, i) ensures Unpublishable(req.t, o) {
        DirectoryLinkAsksDirectory(req.t, cur, n, o, i - hops);
      }
    } else {
      LinkLeads(req.t, cur, rest, req.leaf.Follow?);
      SimulatesOnward(req, cur, rest, hops, StartOf(req.t, cur, target), DropDots(target.comps) + rest[1..], 1);
    }
    if hops == req.limit {
      forall o, i: nat | Asks(req, o, i) ensures i > req.limit {
        LinkCosts(req.t, cur, rest, req.leaf.Follow?, o, i - hops);
      }
    }
  }

  /** The queue is exhausted: what was resolved is what is reached. */
  lemma TrackEmpty(req: Request, resolved: seq<string>, hops: nat)
    requires Tracks(req, resolved, [], hops)
    ensures Refines(req, Resolved(resolved))
    ensures IsDir(req.t, Walk(req.t, resolved).value) ==> OnlyUnpublishable(req)
  {
    var cur := Walk(req.t, resolved).value;
    if req.leaf.Replace? && resolved != [] {
      PhysicalInit(req.t, resolved);
    }
    ReachesOnly(req.t, cur, [], req.leaf.Follow?, Found(cur));
    assert Reaches(req.t, cur, [], req.leaf.Follow?, Found(cur), 0);
    assert Asks(req, Found(cur), 0 + hops) && SameObject(req.t, resolved, Found(cur));
  }

  /** Nothing is reached below something that is not a directory. */
  lemma TrackNotDirectory(req: Request, resolved: seq<string>, rest: seq<Comp>, hops: nat)
    requires Tracks(req, resolved, rest, hops) && rest != [] && !IsDir(req.t, Walk(req.t, resolved).value)
    ensures OnlyUnpublishable(req)
  {
    var cur := Walk(req.t, resolved).value;
    ReachesOnly(req.t, cur, rest, req.leaf.Follow?, NotDir);
  }

  /** A last link that is to be replaced is what is reached. */
  lemma TrackReplaced(req: Request, resolved: seq<string>, rest: seq<Comp>, hops: nat)
    requires Tracks(req, resolved, rest, hops) && |rest| == 1 && rest[0].Name? && req.leaf.Replace?
    requires IsDir(req.t, Walk(req.t, resolved).value) && rest[0].name in req.t.nodes[Walk(req.t, resolved).value].entries
    ensures Refines(req, Resolved(resolved + [rest[0].name]))
  {
    var cur, q := Walk(req.t, resolved).value, resolved + [rest[0].name];
    var child := req.t.nodes[cur].entries[rest[0].name];
    PhysicalSnoc(req.t, resolved, rest[0].name);
    var follow := req.leaf.Follow?;
    EntryLeads(req.t, cur, rest, follow);
    ReachesOnly(req.t, child, rest[1..], follow, Found(child));
    assert Reaches(req.t, child, rest[1..], follow, Found(child), 0);
    assert Reaches(req.t, cur, rest, follow, Found(child), 0 + 0);
    assert Asks(req, Found(child), 0 + hops) && SameObject(req.t, q, Found(child));
  }

  /** Components below a missing entry are missing too, so they add no link. */
  lemma {:induction false} LinkFreeBelowMissing(t: Tree, names: seq<string>, more: seq<string>)
    requires Walk(t, names).None? && LinkFree(t, names)
    ensures Walk(t, names + more).None? && LinkFree(t, names + more)
    decreases |more|
  {
    if more == [] {
      assert names + more == names;
    } else {
      var all, front := names + more, names + more[..|more| - 1];
      LinkFreeBelowMissing(t, names, more[..|more| - 1]);
      assert all[..|all| - 1] == front && all[..|all|] == all;
      assert forall i | 0 <= i <= |front| :: all[..i] == front[..i];
    }
  }

  lemma MissingTailIsLinkFree(t: Tree, resolved: seq<string>, n: string, tail: seq<string>, leaf: LeafSymlink)
    requires Physical(t, resolved) && Walk(t, resolved + [n]).None? && LinkFree(t, resolved + [n])
    ensures LinkFreeFor(t, resolved + [n] + tail, leaf)
  {
    var q := resolved + [n];
    LinkFreeBelowMissing(t, q, tail);
    if tail == [] {
      assert q + tail == q && q[..|q| - 1] == resolved;
    } else {
      LinkFreeBelowMissing(t, q, tail[..|tail| - 1]);
      assert (q + tail)[..|q + tail| - 1] == q + tail[..|tail| - 1];
    }
  }

  /** A missing name: the request reaches it and nothing else. */
  lemma TrackMissing(req: Request, resolved: seq<string>, rest: seq<Comp>, hops: nat)
    requires Tracks(req, resolved, rest, hops) && NoDots(rest)
    requires rest != [] && rest[0].Name? && IsDir(req.t, Walk(req.t, resolved).value)
    requires rest[0].name !in req.t.nodes[Walk(req.t, resolved).value].entries
    ensures var l := MissingLookup(Walk(req.t, resolved).value, rest[0].name, rest[1..]);
            Asks(req, l, hops) && forall o, i: nat | Asks(req, o, i) :: o == l
  {
    var cur := Walk(req.t, resolved).value;
    var l := MissingLookup(cur, rest[0].name, rest[1..]);
    MissingReaches(req.t, cur, rest, req.leaf.Follow?);
    assert Reaches(req.t, cur, rest, req.leaf.Follow?, l, 0);
    assert Asks(req, l, 0 + hops);
  }

  /** Everything pending goes below a missing name. */
  lemma MissingTailIsFine(req: Request, resolved: seq<string>, rest: seq<Comp>, hops: nat)
    requires Tracks(req, resolved, rest, hops) && rest != [] && AllNames(rest)
    requires IsDir(req.t, Walk(req.t, resolved).value)
    requires rest[0].name !in req.t.nodes[Walk(req.t, resolved).value].entries
    ensures Refines(req, Resolved(resolved + [rest[0].name] + Names(rest[1..])))
  {
    var cur, n, tail := Walk(req.t, resolved).value, rest[0].name, Names(rest[1..]);
    var q, l := resolved + [n] + tail, MissingLookup(cur, n, rest[1..]);
    TrackMissing(req, resolved, rest, hops);
    PhysicalSnoc(req.t, resolved, n);
    MissingTailIsLinkFree(req.t, resolved, n, tail, req.leaf);
    MissingIsSame(req.t, resolved, n, rest[1..]);
  }

  lemma MissingIsSame(t: Tree, resolved: seq<string>, n: string, below: seq<Comp>)
    requires Walk(t, resolved).Some? && AllNames(below)
    ensures SameObject(t, resolved + [n] + Names(below), MissingLookup(Walk(t, resolved).value, n, below))
  {
    var q := resolved + [n] + Names(below);
    assert q[..|resolved|] == resolved && q[|resolved|..] == [n] + Names(below);
    if below == [] {
      assert q == resolved + [n] && q[..|q| - 1] == resolved;
    }
  }

  /** The outcome of one queue step. */
  datatype Next = Done(outcome: Outcome) | Continue(resolved: seq<string>, rest: seq<Comp>)

  /** What a step owes on a still tree. */
  ghost predicate StepIsSound(req: Request, next: Next, hops: nat) {
    match next
    case Done(r) => Refines(req, r)
    case Continue(resolved, rest) => Tracks(req, resolved, rest, hops)
  }

  predicate HasDotDot(comps: seq<Comp>) {
    exists i :: 0 <= i < |comps| && comps[i].DotDot?
  }

  /** A `..`: the directory reached so far must be one, and its last component is dropped. */
  method StepParent(view: Tree, searchable: bool, resolved: seq<string>, rest: seq<Comp>,
                    ghost hops: nat, ghost track: bool, ghost req: Request)
    returns (next: Next)
    requires rest != [] && rest[0].DotDot? && NoDots(rest)
    requires track ==> view == req.t && (req.permissive ==> searchable) && Tracks(req, resolved, rest, hops)
    ensures next.Continue? ==> NoDots(next.rest) && next.rest == rest[1..]
    ensures track ==> StepIsSound(req, next, hops)
  {
    var here := Lstat(view, resolved);
    if track {
      LstatOfPhysical(req.t, resolved);
      if !IsDir(req.t, Walk(req.t, resolved).value) {
        TrackNotDirectory(req, resolved, rest, hops);
      }
    }
    if !here.Found? {
      return Done(Failed(NotFoundError));
    }
    if !IsDir(view, here.ino) {
      return Done(Failed(NotADirectory));
    }
    if !searchable {
      return Done(Failed(Denied));
    }
    if track {
      TrackParent(req, resolved, rest, hops);
    }
    next := Continue(if resolved == [] then [] else resolved[..|resolved| - 1], rest[1..]);
  }

  /** A name with no entry: refuse a pending `..`, otherwise everything pending is part of the result. */
  method StepMissing(resolved: seq<string>, rest: seq<Comp>, ghost hops: nat, ghost track: bool, ghost req: Request)
    returns (r: Outcome)
    requires rest != [] && rest[0].Name? && NoDots(rest)
    requires track ==> Tracks(req, resolved, rest, hops) && IsDir(req.t, Walk(req.t, resolved).value)
                       && rest[0].name !in req.t.nodes[Walk(req.t, resolved).value].entries
    ensures track ==> Refines(req, r)
  {
    if HasDotDot(rest[1..]) {
      if track {
        TrackMissing(req, resolved, rest, hops);
        assert !AllNames(rest[1..]);
      }
      return Failed(NotFoundError);
    }
    assert forall i | 0 < i < |rest| :: rest[i] == rest[1..][i - 1];
    if track {
      MissingTailIsFine(req, resolved, rest, hops);
    }
    r := Resolved(resolved + [rest[0].name] + Names(rest[1..]));
  }

  /** A name whose entry is not a link. */
  method StepPlain(directory: bool, resolved: seq<string>, rest: seq<Comp>, ghost hops: nat, ghost track: bool, ghost req: Request)
    returns (next: Next)
    requires rest != [] && rest[0].Name? && NoDots(rest)
    requires track ==> Tracks(req, resolved, rest, hops) && Walk(req.t, resolved + [rest[0].name]).Some?
                       && !IsLink(req.t, Walk(req.t, resolved + [rest[0].name]).value)
                       && (directory <==> IsDir(req.t, Walk(req.t, resolved + [rest[0].name]).value))
    ensures next.Continue? ==> NoDots(next.rest) && next.rest == rest[1..]
    ensures track ==> StepIsSound(req, next, hops)
  {
    var onward := resolved + [rest[0].name];
    if track {
      TrackEntry(req, resolved, rest, hops);
    }
    if rest[1..] == [] && directory {
      if track {
        TrackEmpty(req, onward, hops);
      }
      return Done(Failed(IsADirectory));
    }
    next := Continue(onward, rest[1..]);
  }

  /** A link that is followed: its target's components go in front of the queue, at the cost of one hop. */
  method StepLink(target: PathName, limit: nat, resolved: seq<string>, rest: seq<Comp>, hops0: nat,
                  ghost track: bool, ghost req: Request)
    returns (next: Next, hops: nat)
    requires rest != [] && rest[0].Name? && NoDots(rest) && hops0 <= limit
    requires track ==> req.limit == limit && Tracks(req, resolved, rest, hops0)
                       && Walk(req.t, resolved + [rest[0].name]).Some?
                       && var link := Walk(req.t, resolved + [rest[0].name]).value;
                       && IsLink(req.t, link) && req.t.nodes[link].target == target
                       && (rest[1..] == [] ==> req.leaf.Follow?)
    ensures hops0 <= hops <= limit && (next.Continue? ==> hops == hops0 + 1 && NoDots(next.rest))
    ensures track ==> StepIsSound(req, next, hops)
  {
    hops := hops0;
    if track {
      TrackLink(req, resolved, rest, hops);
    }
    if hops >= limit {
      return Done(Failed(HopLimit)), hops;
    }
    hops := hops + 1;
    if rest[1..] == [] && NamesDirectory(target) {
      return Done(Failed(NotADirectory)), hops;
    }
    DropDotsLeavesNone(target.comps);
    next := Continue(if target.absolute then [] else resolved, DropDots(target.comps) + rest[1..]);
  }

  /** A name: look it up and branch on what is there. */
  method StepName(limit: nat, k: Kernel, clock0: nat, hops0: nat, leaf: LeafSymlink, resolved: seq<string>, rest: seq<Comp>,
                  ghost track: bool, ghost req: Request)
    returns (next: Next, hops: nat, clock: nat)
    requires rest != [] && rest[0].Name? && NoDots(rest) && hops0 <= limit
    requires track ==> Still(k) && k.tree(0) == req.t && (req.permissive ==> Permissive(k))
                       && req.limit == limit && req.leaf == leaf && Tracks(req, resolved, rest, hops0)
    ensures hops0 <= hops <= limit
    ensures next.Continue? ==> NoDots(next.rest) && (hops == hops0 ==> next.rest == rest[1..])
    ensures track ==> StepIsSound(req, next, hops)
  {
    hops, clock := hops0, clock0 + 1;
    var view, onward := k.tree(clock0), resolved + [rest[0].name];
    assert track ==> view == req.t;
    var meta := Lstat(view, onward);
    if track {
      LstatLooksInDirectory(req.t, resolved, rest[0].name);
      PhysicalSnoc(req.t, resolved, rest[0].name);
      if !IsDir(req.t, Walk(req.t, resolved).value) {
        TrackNotDirectory(req, resolved, rest, hops);
      }
    }
    match meta
    case Missing(_, _) =>
      var r := StepMissing(resolved, rest, hops, track, req);
      next := Done(r);
    case NoEntry(_, _, _) =>
      var r := StepMissing(resolved, rest, hops, track, req);
      next := Done(r);
    case Found(ino) =>
      if !IsLink(view, ino) {
        next := StepPlain(IsDir(view, ino), resolved, rest, hops, track, req);
      } else if rest[1..] == [] && leaf.Replace? {
        if track {
          TrackReplaced(req, resolved, rest, hops);
        }
        next := Done(Resolved(onward));
      } else {
        var read, denied;
        read, denied, clock := ReadLinkAt(k, clock, onward);
        if read.None? {
          next := Done(Failed(if denied then Denied else Unstable));
        } else {
          next, hops := StepLink(read.value, limit, resolved, rest, hops, track, req);
        }
      }
    case TooDeep =>
      next := Done(Failed(HopLimit));
    case _ =>
      next := Done(Failed(NotADirectory));
  }

  /** `resolve_destination`. `hops` counts the links followed. */
  method ResolveDestination(platform: Platform, k: Kernel, cwd: seq<string>, path: PathName, leaf: LeafSymlink)
    returns (r: Outcome, hops: nat)
    ensures hops <= if platform.Linux? then 40 else 32
    ensures Still(k) && Physical(k.tree(0), cwd) ==>
              Refines(Request(if platform.Linux? then 40 else 32, Permissive(k), k.tree(0), cwd, path, leaf), r)
  {
    hops := 0;
    var limit := FollowLimit(platform);
    ghost var t, track := k.tree(0), Still(k) && Physical(k.tree(0), cwd);
    ghost var req := Request(limit, Permissive(k), t, cwd, path, leaf);
    if NamesDirectory(path) {
      DirectoryRequestsAskDirectories(req);
      return Failed(NotADirectory), hops;
    }
    var resolved: seq<string>, rest := [], DropDots(AbsoluteComps(cwd, path));
    var clock: nat := 0;
    DropDotsLeavesNone(AbsoluteComps(cwd, path));
    RootIsPhysical(t);
    if track {
      StartSimulates(req);
    }
    while rest != []
      invariant hops <= limit && NoDots(rest)
      invariant track ==> Tracks(req, resolved, rest, hops)
      decreases limit - hops, |rest|
    {
      if !k.stats(clock) {
        return Failed(Denied), hops;
      }
      var next: Next;
      if rest[0].DotDot? {
        assert track ==> k.tree(clock) == t;
        next := StepParent(k.tree(clock), k.searches(clock), resolved, rest, hops, track, req);
        clock := clock + 1;
      } else {
        next, hops, clock := StepName(limit, k, clock, hops, leaf, resolved, rest, track, req);
      }
      if next.Done? {
        return next.outcome, hops;
      }
      resolved, rest := next.resolved, next.rest;
    }
    if track {
      TrackEmpty(req, resolved, hops);
    }
    r := Resolved(resolved);
  }
}
