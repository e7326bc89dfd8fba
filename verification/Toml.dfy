/**
 TOML documents and the recursive merge that layers them.

 Deep merge is neither commutative nor associative, so layering results are proved through a
 path-indexed reading of it: every path of a document is an independent cell, and one merged layer
 either forces that cell to a fixed content or leaves it alone (`MergeCell`).
 */
module Toml {
  import opened Prelude

  /** Scalars other than booleans are opaque text; arrays are opaque to the merge. */
  datatype Value =
    | Table(entries: map<string, Value>)
    | Array(items: seq<Value>)
    | Bool(b: bool)
    | Scalar(text: string)

  type Path = seq<string>

  const EMPTY_TABLE: Value := Table(map[])

  /** The subtree reached by `path`, if every step is a key of a table. */
  function At(v: Value, path: Path): Option<Value> {
    if path == [] then Some(v)
    else if v.Table? && path[0] in v.entries then At(v.entries[path[0]], path[1..])
    else None
  }

  /** A leaf is any value that is not a table. */
  predicate IsLeafAt(v: Value, path: Path) {
    At(v, path).Some? && !At(v, path).value.Table?
  }

  /** Recursive merge in which `over` wins: table on table recurses, anything else replaces. */
  function Merge(base: Value, over: Value): Value
    decreases over
  {
    if base.Table? && over.Table? then
      Table(map k | k in base.entries.Keys + over.entries.Keys ::
        if k !in over.entries then base.entries[k]
        else if k !in base.entries then over.entries[k]
        else Merge(base.entries[k], over.entries[k]))
    else over
  }

  /** Merge `layers` onto `base`, lowest priority first. */
  function MergeAll(base: Value, layers: seq<Value>): Value
    decreases layers
  {
    if layers == [] then base else MergeAll(Merge(base, layers[0]), layers[1..])
  }

  /** The in-place merge loop, for any iteration order over the overriding table. */
  method DeepMerge(base: Value, over: Value) returns (merged: Value)
    ensures merged == Merge(base, over)
    decreases over
  {
    if !over.Table? || !base.Table? {
      return over;
    }
    ghost var goal := Merge(base, over).entries;
    var entries, todo := base.entries, over.entries.Keys;
    while todo != {}
      invariant todo <= over.entries.Keys
      invariant entries.Keys == base.entries.Keys + (over.entries.Keys - todo)
      invariant forall k | k in todo && k in entries :: entries[k] == base.entries[k]
      invariant forall k | k in entries && k !in todo :: entries[k] == goal[k]
      decreases todo
    {
      var key :| key in todo;
      var child := over.entries[key];
      if key in entries {
        child := DeepMerge(entries[key], child);
      }
      assert child == goal[key];
      entries := entries[key := child];
      todo := todo - {key};
    }
    assert entries == goal;
    merged := Table(entries);
  }

  // ---------------------------------------------------------------- cells

  /** What a document holds at a path, not counting what lies below it. */
  datatype Cell = Absent | Branch | Leaf(v: Value)

  function CellAt(v: Value, path: Path): Cell {
    match At(v, path)
    case None => Absent
    case Some(x) => if x.Table? then Branch else Leaf(x)
  }

  /** What merging `over` forces into the cell at `path`; `None` when it leaves the cell alone. */
  function Forced(over: Value, path: Path): Option<Cell> {
    if path == [] then Some(if over.Table? then Branch else Leaf(over))
    else if !over.Table? then Some(Absent)
    else if path[0] !in over.entries then None
    else Forced(over.entries[path[0]], path[1..])
  }

  /** One step of `Forced` and of `At` along a non-empty path. */
  lemma Descend(v: Value, path: Path)
    requires path != []
    ensures Forced(v, path) == if !v.Table? then Some(Absent)
                               else if path[0] in v.entries then Forced(v.entries[path[0]], path[1..]) else None
    ensures At(v, path) == if v.Table? && path[0] in v.entries then At(v.entries[path[0]], path[1..]) else None
  {}

  /** The cell forced by the last layer of `layers` that forces one. */
  function LastForced(layers: seq<Value>, path: Path): Option<Cell> {
    if layers == [] then None
    else
      var later := LastForced(layers[1..], path);
      if later.Some? then later else Forced(layers[0], path)
  }

  /** Merging one layer writes each cell it forces and no other. */
  lemma {:induction false} MergeCell(base: Value, over: Value, path: Path)
    ensures CellAt(Merge(base, over), path) ==
            match Forced(over, path) { case Some(c) => c case None => CellAt(base, path) }
    decreases path
  {
    ForcedIsOwnCell(over, path);
    if path != [] && base.Table? && over.Table? && path[0] in base.entries && path[0] in over.entries {
      MergeCell(base.entries[path[0]], over.entries[path[0]], path[1..]);
    }
  }

  /** A layer forces exactly what it holds itself; where it forces nothing it holds nothing. */
  lemma {:induction false} ForcedIsOwnCell(over: Value, path: Path)
    ensures CellAt(over, path) == match Forced(over, path) { case Some(c) => c case None => Absent }
  {
    if path != [] && over.Table? && path[0] in over.entries {
      ForcedIsOwnCell(over.entries[path[0]], path[1..]);
    }
  }

  /** The cell reading lifted to a whole stack of layers. */
  lemma {:induction false} MergeAllCell(base: Value, layers: seq<Value>, path: Path)
    ensures CellAt(MergeAll(base, layers), path) ==
            match LastForced(layers, path) { case Some(c) => c case None => CellAt(base, path) }
    decreases layers
  {
    if layers != [] {
      MergeAllCell(Merge(base, layers[0]), layers[1..], path);
      MergeCell(base, layers[0], path);
    }
  }

  /** Documents that agree in every cell are equal. */
  lemma {:induction false} CellsDetermineValue(a: Value, b: Value)
    requires forall path: Path :: CellAt(a, path) == CellAt(b, path)
    ensures a == b
    decreases a
  {
    assert CellAt(a, []) == CellAt(b, []);
    if a.Table? {
      forall k: string
        ensures (k in a.entries) == (k in b.entries)
        ensures k in a.entries ==> a.entries[k] == b.entries[k]
      {
        assert CellAt(a, [k]) == CellAt(b, [k]);
        assert k in a.entries ==> At(a.entries[k], [k][1..]) == Some(a.entries[k]);
        assert k in b.entries ==> At(b.entries[k], [k][1..]) == Some(b.entries[k]);
        if k in a.entries {
          forall path: Path ensures CellAt(a.entries[k], path) == CellAt(b.entries[k], path) {
            assert ([k] + path)[1..] == path;
            assert CellAt(a, [k] + path) == CellAt(b, [k] + path);
          }
          CellsDetermineValue(a.entries[k], b.entries[k]);
        }
      }
      assert a.entries == b.entries;
    }
  }

  lemma {:induction false} AtConcat(v: Value, p: Path, q: Path)
    ensures At(v, p + q) == match At(v, p) { case None => None case Some(x) => At(x, q) }
  {
    if p == [] {
      assert p + q == q;
    } else if v.Table? && p[0] in v.entries {
      assert (p + q)[1..] == p[1..] + q;
      AtConcat(v.entries[p[0]], p[1..], q);
    }
  }

  /** Agreement of every cell at or below `path` is agreement of the subtree there. */
  lemma CellsBelowDetermineSubtree(a: Value, b: Value, path: Path)
    requires forall q: Path :: CellAt(a, path + q) == CellAt(b, path + q)
    ensures At(a, path) == At(b, path)
  {
    assert path + [] == path;
    assert CellAt(a, path + []) == CellAt(b, path + []);
    if At(a, path).Some? {
      var x, y := At(a, path).value, At(b, path).value;
      forall q: Path ensures CellAt(x, q) == CellAt(y, q) {
        AtConcat(a, path, q);
        AtConcat(b, path, q);
        assert CellAt(a, path + q) == CellAt(b, path + q);
      }
      CellsDetermineValue(x, y);
    }
  }

  // ---------------------------------------------------------------- folding layers

  /** Folding the same layers in a second time changes nothing. */
  lemma MergeAllIdempotent(base: Value, layers: seq<Value>)
    ensures MergeAll(MergeAll(base, layers), layers) == MergeAll(base, layers)
  {
    var once := MergeAll(base, layers);
    forall path: Path ensures CellAt(MergeAll(once, layers), path) == CellAt(once, path) {
      MergeAllCell(once, layers, path);
      MergeAllCell(base, layers, path);
    }
    CellsDetermineValue(MergeAll(once, layers), once);
  }

  /** Every non-absent cell of the top layers merged among themselves survives above any base. */
  lemma TopLayersWin(base: Value, layers: seq<Value>, path: Path)
    requires layers != []
    requires CellAt(MergeAll(layers[0], layers[1..]), path) != Absent
    ensures CellAt(MergeAll(base, layers), path) == CellAt(MergeAll(layers[0], layers[1..]), path)
  {
    MergeAllCell(base, layers, path);
    MergeAllCell(layers[0], layers[1..], path);
    ForcedIsOwnCell(layers[0], path);
  }

  lemma {:induction false} MergeAllConcat(base: Value, xs: seq<Value>, ys: seq<Value>)
    ensures MergeAll(base, xs + ys) == MergeAll(MergeAll(base, xs), ys)
    decreases xs
  {
    if xs == [] {
      assert xs + ys == ys;
    } else {
      assert (xs + ys)[1..] == xs[1..] + ys;
      MergeAllConcat(Merge(base, xs[0]), xs[1..], ys);
    }
  }

  lemma {:induction false} LastForcedConcat(xs: seq<Value>, ys: seq<Value>, path: Path)
    ensures LastForced(xs + ys, path) ==
            if LastForced(ys, path).Some? then LastForced(ys, path) else LastForced(xs, path)
    decreases xs
  {
    if xs == [] {
      assert xs + ys == ys;
    } else {
      assert (xs + ys)[1..] == xs[1..] + ys;
      LastForcedConcat(xs[1..], ys, path);
    }
  }

  /** A layer that forces nothing at `path` keeps the whole subtree there. */
  lemma {:induction false} UnforcedKeepsSubtree(base: Value, over: Value, path: Path)
    requires Forced(over, path).None?
    ensures At(Merge(base, over), path) == At(base, path)
  {
    if base.Table? && path[0] in base.entries && path[0] in over.entries {
      UnforcedKeepsSubtree(base.entries[path[0]], over.entries[path[0]], path[1..]);
    } else if path[0] in over.entries {
      ForcedIsOwnCell(over, path);
    }
  }

  /** Where a layer forces nothing, it forces nothing further down. */
  lemma {:induction false} UnforcedBelow(over: Value, p: Path, q: Path)
    requires Forced(over, p).None?
    ensures Forced(over, p + q).None?
  {
    assert (p + q)[0] == p[0] && (p + q)[1..] == p[1..] + q;
    if p[0] in over.entries {
      UnforcedBelow(over.entries[p[0]], p[1..], q);
    }
  }

  /** Deep merge is not associative: a scalar between two tables cuts them apart. */
  lemma MergeIsNotAssociative()
    ensures exists a, b, c :: Merge(Merge(a, b), c) != Merge(a, Merge(b, c))
  {
    var a, b, c := Table(map["x" := Bool(true)]), Bool(false), EMPTY_TABLE;
    assert "x" in Merge(a, Merge(b, c)).entries;
    assert Merge(Merge(a, b), c) == c;
  }
}
