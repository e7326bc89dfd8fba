/**
 A Unix directory tree with symbolic links, and pathname resolution as section 4.13 of the POSIX.1-2017
 Base Definitions describes it: recursively, resolving each link's contents before going on.
 */
module FileTree {
  import opened Prelude

  type Ino = nat

  /** A trailing slash counts as a trailing `Dot`. */
  datatype Comp = Dot | DotDot | Name(name: string)

  datatype PathName = PathName(absolute: bool, comps: seq<Comp>)

  datatype Node = Dir(entries: map<string, Ino>, parent: Ino) | Regular | Link(target: PathName)

  datatype RawTree = RawTree(root: Ino, nodes: map<Ino, Node>)

  /** Directories form a tree below the root; links may point anywhere, in circles too. */
  predicate WellFormed(t: RawTree) {
    && t.root in t.nodes && t.nodes[t.root].Dir? && t.nodes[t.root].parent == t.root
    && (forall d | d in t.nodes && t.nodes[d].Dir? ::
          && t.nodes[d].parent in t.nodes
          && forall n | n in t.nodes[d].entries ::
               && t.nodes[d].entries[n] in t.nodes
               && (t.nodes[t.nodes[d].entries[n]].Dir? ==> t.nodes[t.nodes[d].entries[n]].parent == d))
    && forall l | l in t.nodes && t.nodes[l].Link? :: t.nodes[l].target.absolute || t.nodes[l].target.comps != []
  }

  const EMPTY_TREE := RawTree(0, map[0 := Dir(map[], 0)])

  type Tree = t: RawTree | WellFormed(t) witness EMPTY_TREE

  datatype Lookup =
    | Found(ino: Ino)
    | Missing(dir: Ino, name: string)                    // the last component is not an entry of this directory
    | NoEntry(dir: Ino, name: string, below: seq<Comp>)  // nor is this one, and more components follow it
    | NotDir
    | TooDeep
    | EmptyPath

  /** What a resolution comes to, and how many links it follows on the way. */
  datatype Answer = Answer(lookup: Lookup, links: nat)

  /** The resolution gets to an object, or to the entry where objects end. */
  predicate Ends(l: Lookup) { l.Found? || l.Missing? || l.NoEntry? }

  predicate IsDir(t: Tree, ino: Ino) { ino in t.nodes && t.nodes[ino].Dir? }

  predicate IsLink(t: Tree, ino: Ino) { ino in t.nodes && t.nodes[ino].Link? }

  function StartOf(t: Tree, cur: Ino, path: PathName): Ino {
    if path.absolute then t.root else cur
  }

  /** Resolve `comps` from `cur`, nesting at most `depth` links; `follow` is about the last component. */
  function Resolve(t: Tree, cur: Ino, comps: seq<Comp>, follow: bool, depth: nat): (r: Answer)
    requires cur in t.nodes
    ensures r.lookup.Found? ==> r.lookup.ino in t.nodes
    ensures r.lookup.Missing? || r.lookup.NoEntry? ==>
              IsDir(t, r.lookup.dir) && r.lookup.name !in t.nodes[r.lookup.dir].entries
    decreases depth, |comps|
  {
    if comps == [] then Answer(Found(cur), 0)
    else if !IsDir(t, cur) then Answer(NotDir, 0)
    else
      var rest := comps[1..];
      match comps[0]
      case Dot => Resolve(t, cur, rest, follow, depth)
      case DotDot => Resolve(t, t.nodes[cur].parent, rest, follow, depth)
      case Name(n) =>
        if n !in t.nodes[cur].entries then Answer(if rest == [] then Missing(cur, n) else NoEntry(cur, n, rest), 0)
        else
          var child := t.nodes[cur].entries[n];
          if !IsLink(t, child) || (rest == [] && !follow) then Resolve(t, child, rest, follow, depth)
          else if depth == 0 then Answer(TooDeep, 0)
          else
            var target := t.nodes[child].target;
            var reached := Resolve(t, StartOf(t, cur, target), target.comps, true, depth - 1);
            if rest == [] then Answer(reached.lookup, reached.links + 1)
            else match reached.lookup
              case Found(o) =>
                var onward := Resolve(t, o, rest, follow, depth);
                Answer(onward.lookup, reached.links + 1 + onward.links)
              case Missing(d, m) => Answer(NoEntry(d, m, rest), reached.links + 1)
              case NoEntry(d, m, below) => Answer(NoEntry(d, m, below + rest), reached.links + 1)
              case _ => Answer(reached.lookup, reached.links + 1)
  }

  /** `path` as a process in directory `cwd` resolves it. */
  function Posix(t: Tree, cwd: Ino, path: PathName, follow: bool, depth: nat): Answer
    requires cwd in t.nodes
  {
    if !path.absolute && path.comps == [] then Answer(EmptyPath, 0)
    else Resolve(t, StartOf(t, cwd, path), path.comps, follow, depth)
  }

  function DropDots(comps: seq<Comp>): seq<Comp> {
    if comps == [] then []
    else (if comps[0].Dot? then [] else [comps[0]]) + DropDots(comps[1..])
  }

  predicate EndsInDot(comps: seq<Comp>) { comps != [] && comps[|comps| - 1].Dot? }

  /** What is pending below a missing entry, without its inner dots. */
  function Tidy(comps: seq<Comp>): seq<Comp> {
    DropDots(comps) + if EndsInDot(comps) then [Dot] else []
  }

  function Shape(a: Answer): Answer {
    if a.lookup.NoEntry? then Answer(NoEntry(a.lookup.dir, a.lookup.name, Tidy(a.lookup.below)), a.links) else a
  }

  /** Some nesting depth is enough to reach `outcome`, following `links` links. */
  ghost predicate Reaches(t: Tree, cur: Ino, comps: seq<Comp>, follow: bool, outcome: Lookup, links: nat)
    requires cur in t.nodes
  {
    Ends(outcome) && exists depth: nat :: Shape(Resolve(t, cur, comps, follow, depth)) == Answer(outcome, links)
  }

  // ---------------------------------------------------------------- facts about resolution

  lemma {:induction false} DeeperIsSame(t: Tree, cur: Ino, comps: seq<Comp>, follow: bool, depth: nat, more: nat)
    requires cur in t.nodes && depth <= more && !Resolve(t, cur, comps, follow, depth).lookup.TooDeep?
    ensures Resolve(t, cur, comps, follow, more) == Resolve(t, cur, comps, follow, depth)
    decreases depth, |comps|
  {
    if comps != [] && IsDir(t, cur) {
      var rest := comps[1..];
      match comps[0]
      case Dot => DeeperIsSame(t, cur, rest, follow, depth, more);
      case DotDot => DeeperIsSame(t, t.nodes[cur].parent, rest, follow, depth, more);
      case Name(n) =>
        if n in t.nodes[cur].entries {
          var child := t.nodes[cur].entries[n];
          if !IsLink(t, child) || (rest == [] && !follow) {
            DeeperIsSame(t, child, rest, follow, depth, more);
          } else {
            var target := t.nodes[child].target;
            var start := StartOf(t, cur, target);
            DeeperIsSame(t, start, target.comps, true, depth - 1, more - 1);
            var reached := Resolve(t, start, target.comps, true, depth - 1);
            if rest != [] && reached.lookup.Found? {
              DeeperIsSame(t, reached.lookup.ino, rest, follow, depth, more);
            }
          }
        }
    }
  }

  /** Going on from an answer with the components that follow. */
  function Then(t: Tree, reached: Answer, rest: seq<Comp>, follow: bool, depth: nat): Answer
    requires reached.lookup.Found? ==> reached.lookup.ino in t.nodes
  {
    match reached.lookup
    case Found(o) =>
      var onward := Resolve(t, o, rest, follow, depth);
      Answer(onward.lookup, reached.links + onward.links)
    case Missing(d, m) => Answer(NoEntry(d, m, rest), reached.links)
    case NoEntry(d, m, below) => Answer(NoEntry(d, m, below + rest), reached.links)
    case _ => reached
  }

  /** Resolving in two stages is resolving the concatenation. */
  lemma {:induction false} ResolveSplice(t: Tree, cur: Ino, front: seq<Comp>, rest: seq<Comp>, follow: bool, depth: nat)
    requires cur in t.nodes && rest != []
    ensures Resolve(t, cur, front + rest, follow, depth)
         == Then(t, Resolve(t, cur, front, true, depth), rest, follow, depth)
    decreases |front|, 1
  {
    if front == [] {
      assert front + rest == rest;
    } else if IsDir(t, cur) {
      var all, tail := front + rest, front[1..];
      assert all[0] == front[0] && all[1..] == tail + rest;
      match front[0]
      case Dot => ResolveSplice(t, cur, tail, rest, follow, depth);
      case DotDot => ResolveSplice(t, t.nodes[cur].parent, tail, rest, follow, depth);
      case Name(n) => SpliceName(t, cur, front, rest, follow, depth);
    }
  }

  lemma {:induction false} SpliceName(t: Tree, cur: Ino, front: seq<Comp>, rest: seq<Comp>, follow: bool, depth: nat)
    requires IsDir(t, cur) && front != [] && front[0].Name? && rest != []
    ensures Resolve(t, cur, front + rest, follow, depth)
         == Then(t, Resolve(t, cur, front, true, depth), rest, follow, depth)
    decreases |front|, 0
  {
    var n, tail, all := front[0].name, front[1..], front + rest;
    assert all[0] == front[0] && all[1..] == tail + rest;
    if n in t.nodes[cur].entries {
      var child := t.nodes[cur].entries[n];
      if !IsLink(t, child) {
        ResolveSplice(t, child, tail, rest, follow, depth);
      } else if depth > 0 {
        var target := t.nodes[child].target;
        var reached := Resolve(t, StartOf(t, cur, target), target.comps, true, depth - 1);
        if tail == [] {
          assert tail + rest == rest;
        } else if reached.lookup.Found? {
          ResolveSplice(t, reached.lookup.ino, tail, rest, follow, depth);
        } else if reached.lookup.NoEntry? {
          assert reached.lookup.below + (tail + rest) == reached.lookup.below + tail + rest;
        }
      }
    } else if tail == [] {
      assert tail + rest == rest;
    }
  }

  /** `path` is spelt as a directory: it is `/`, or ends in a slash or a dot. */
  predicate NamesDirectory(path: PathName) {
    path.comps == [] || path.comps[|path.comps| - 1].Dot?
  }

  predicate NoDots(comps: seq<Comp>) {
    forall i | 0 <= i < |comps| :: !comps[i].Dot?
  }

  lemma {:induction false} DropDotsLeavesNone(comps: seq<Comp>)
    ensures NoDots(DropDots(comps))
  {
    if comps != [] {
      DropDotsLeavesNone(comps[1..]);
    }
  }

  lemma {:induction false} DropDotsOfNone(comps: seq<Comp>)
    requires NoDots(comps)
    ensures DropDots(comps) == comps && Tidy(comps) == comps
  {
    if comps != [] {
      DropDotsOfNone(comps[1..]);
    }
  }

  lemma {:induction false} DropDotsConcat(a: seq<Comp>, b: seq<Comp>)
    ensures DropDots(a + b) == DropDots(a) + DropDots(b)
  {
    if a == [] {
      assert a + b == b;
    } else {
      assert (a + b)[1..] == a[1..] + b;
      DropDotsConcat(a[1..], b);
    }
  }

  lemma {:induction false} DropDotsKeepsLast(comps: seq<Comp>)
    requires comps != [] && !comps[|comps| - 1].Dot?
    ensures DropDots(comps) != []
  {
    if |comps| > 1 {
      DropDotsKeepsLast(comps[1..]);
    }
  }

  /** Inner dots are gone from what is pending as well. */
  lemma TidyWithoutDots(front: seq<Comp>, comps: seq<Comp>)
    requires comps != [] && !EndsInDot(comps)
    ensures Tidy(front + DropDots(comps)) == Tidy(front + comps)
  {
    DropDotsKeepsLast(comps);
    DropDotsLeavesNone(comps);
    DropDotsOfNone(DropDots(comps));
    DropDotsConcat(front, comps);
    DropDotsConcat(front, DropDots(comps));
    var a, b := front + comps, front + DropDots(comps);
    assert a[|a| - 1] == comps[|comps| - 1] && b[|b| - 1] == DropDots(comps)[|DropDots(comps)| - 1];
  }

  /** Inner dots do not matter to a resolution. */
  lemma {:induction false} ResolveWithoutDots(t: Tree, cur: Ino, comps: seq<Comp>, follow: bool, depth: nat)
    requires cur in t.nodes && !EndsInDot(comps)
    ensures Shape(Resolve(t, cur, DropDots(comps), follow, depth)) == Shape(Resolve(t, cur, comps, follow, depth))
    decreases |comps|, 1
  {
    if comps != [] {
      var rest := comps[1..];
      DropDotsKeepsLast(comps);
      if IsDir(t, cur) {
        match comps[0]
        case Dot =>
          assert [] + DropDots(rest) == DropDots(rest);
          ResolveWithoutDots(t, cur, rest, follow, depth);
        case DotDot =>
          ResolveWithoutDots(t, t.nodes[cur].parent, rest, follow, depth);
          assert DropDots(comps)[1..] == DropDots(rest);
        case Name(n) =>
          assert comps == [Name(n)] + rest;
          NameWithoutDots(t, cur, n, rest, follow, depth);
      }
    }
  }

  lemma {:induction false} NameWithoutDots(t: Tree, cur: Ino, n: string, rest: seq<Comp>, follow: bool, depth: nat)
    requires IsDir(t, cur) && !EndsInDot(rest)
    ensures Shape(Resolve(t, cur, DropDots([Name(n)] + rest), follow, depth))
         == Shape(Resolve(t, cur, [Name(n)] + rest, follow, depth))
    decreases |rest| + 1, 0
  {
    var comps := [Name(n)] + rest;
    assert comps[1..] == rest && DropDots(comps)[1..] == DropDots(rest);
    if rest != [] {
      DropDotsKeepsLast(rest);
      var none: seq<Comp> := [];
      TidyWithoutDots(none, rest);
      assert none + rest == rest && none + DropDots(rest) == DropDots(rest);
      if n in t.nodes[cur].entries {
        var child := t.nodes[cur].entries[n];
        if !IsLink(t, child) {
          ResolveWithoutDots(t, child, rest, follow, depth);
        } else if depth > 0 {
          var target := t.nodes[child].target;
          var reached := Resolve(t, StartOf(t, cur, target), target.comps, true, depth - 1);
          if reached.lookup.Found? {
            ResolveWithoutDots(t, reached.lookup.ino, rest, follow, depth);
          } else if reached.lookup.NoEntry? {
            TidyWithoutDots(reached.lookup.below, rest);
          }
        }
      }
    }
  }

  /** A path spelt as a directory gets to a directory, or to a missing entry of which a directory is asked. */
  predicate AsksDirectory(t: Tree, l: Lookup) {
    (l.Found? && IsDir(t, l.ino)) || (l.NoEntry? && EndsInDot(l.below))
  }

  lemma {:induction false} TrailingDotAsksDirectory(t: Tree, cur: Ino, comps: seq<Comp>, follow: bool, depth: nat)
    requires cur in t.nodes && EndsInDot(comps) && Ends(Resolve(t, cur, comps, follow, depth).lookup)
    ensures AsksDirectory(t, Shape(Resolve(t, cur, comps, follow, depth)).lookup)
    decreases |comps|
  {
    var rest := comps[1..];
    if rest != [] {
      match comps[0]
      case Dot => TrailingDotAsksDirectory(t, cur, rest, follow, depth);
      case DotDot => TrailingDotAsksDirectory(t, t.nodes[cur].parent, rest, follow, depth);
      case Name(n) =>
        if n in t.nodes[cur].entries {
          var child := t.nodes[cur].entries[n];
          if !IsLink(t, child) {
            TrailingDotAsksDirectory(t, child, rest, follow, depth);
          } else {
            var target := t.nodes[child].target;
            var reached := Resolve(t, StartOf(t, cur, target), target.comps, true, depth - 1);
            if reached.lookup.Found? {
              TrailingDotAsksDirectory(t, reached.lookup.ino, rest, follow, depth);
            } else if reached.lookup.NoEntry? {
              var all := reached.lookup.below + rest;
              assert all[|all| - 1] == rest[|rest| - 1];
            }
          }
        }
    }
  }

  // ---------------------------------------------------------------- physical paths

  /** The object at the end of a chain of directory entries from the root, no link followed. */
  function Walk(t: Tree, names: seq<string>): (r: Option<Ino>)
    ensures r.Some? ==> r.value in t.nodes
  {
    if names == [] then Some(t.root)
    else
      var n := |names| - 1;
      var dir := Walk(t, names[..n]);
      if dir.Some? && IsDir(t, dir.value) && names[n] in t.nodes[dir.value].entries
      then Some(t.nodes[dir.value].entries[names[n]])
      else None
  }

  /** No component of the path, the last one included, is a link. */
  predicate LinkFree(t: Tree, names: seq<string>) {
    forall i | 0 <= i <= |names| && Walk(t, names[..i]).Some? :: !IsLink(t, Walk(t, names[..i]).value)
  }

  /** An existing path without links. */
  predicate Physical(t: Tree, names: seq<string>) {
    Walk(t, names).Some? && LinkFree(t, names)
  }

  function AsComps(names: seq<string>): seq<Comp> {
    seq(|names|, i requires 0 <= i < |names| => Name(names[i]))
  }

  lemma PhysicalSnoc(t: Tree, names: seq<string>, n: string)
    requires Physical(t, names)
    ensures (names + [n])[..|names|] == names
    ensures Walk(t, names + [n]) ==
            if IsDir(t, Walk(t, names).value) && n in t.nodes[Walk(t, names).value].entries
            then Some(t.nodes[Walk(t, names).value].entries[n]) else None
    ensures LinkFree(t, names + [n]) <==> Walk(t, names + [n]).None? || !IsLink(t, Walk(t, names + [n]).value)
  {
    var longer := names + [n];
    assert longer[..|names|] == names && longer[..|longer|] == longer;
    assert forall i | 0 <= i <= |names| :: longer[..i] == names[..i];
  }

  lemma PhysicalInit(t: Tree, names: seq<string>)
    requires Physical(t, names) && names != []
    ensures Physical(t, names[..|names| - 1])
    ensures IsDir(t, Walk(t, names[..|names| - 1]).value)
    ensures IsDir(t, Walk(t, names).value) ==>
              t.nodes[Walk(t, names).value].parent == Walk(t, names[..|names| - 1]).value
  {
    var front := names[..|names| - 1];
    assert forall i | 0 <= i <= |front| :: front[..i] == names[..i];
  }

  /** The kernel walks a physical path to the object it names and goes on from there. */
  lemma {:induction false} ResolvePhysical(t: Tree, names: seq<string>, tail: seq<Comp>, follow: bool, depth: nat)
    requires Physical(t, names)
    ensures Resolve(t, t.root, AsComps(names) + tail, follow, depth) ==
            Resolve(t, Walk(t, names).value, tail, follow, depth)
    decreases |names|
  {
    if names == [] {
      assert AsComps(names) + tail == tail;
    } else {
      var front, last := names[..|names| - 1], names[|names| - 1];
      PhysicalInit(t, names);
      assert names[..|names|] == names;
      var next := [Name(last)] + tail;
      assert AsComps(names) + tail == AsComps(front) + next;
      assert next[1..] == tail;
      ResolvePhysical(t, front, next, follow, depth);
    }
  }
}
