/**
 The environment overlay, confined to an allowlist of soft settings. Models `retain_allowed_paths` of
 `config_override.rs` and `finalize_overlay` of `env_overlay.rs`.
 */
module Overlay {
  import opened Prelude
  import opened Toml
  import opened Patches
  import opened Layers

  const OVERLAY_ALLOW_PATHS: seq<Path> := [
    ["models"],
    ["features"],
    ["toolset", "bash", "login_shell_capture"],
    ["toolset", "web_search", "allowed_domains"],
    ["toolset", "web_search", "excluded_domains"],
    ["shell_environment_policy", "inherit"],
    ["shell_environment_policy", "ignore_default_excludes"],
    ["shell_environment_policy", "exclude"],
    ["shell_environment_policy", "include_only"]
  ]

  /** What remains of the allowed paths one level below `key`. */
  function Nested(paths: seq<Path>, key: string): seq<Path> {
    if paths == [] then []
    else (if paths[0] != [] && paths[0][0] == key then [paths[0][1..]] else []) + Nested(paths[1..], key)
  }

  /** What is kept of one entry; `None` drops it. */
  function RetainValue(v: Value, nested: seq<Path>, topLevel: bool): Option<Value>
    decreases v, 1
  {
    if nested == [] then None
    else if [] in nested then if !topLevel || v.Table? then Some(v) else None
    else if !v.Table? then None
    else
      var child := Retain(v.entries, nested, false);
      if child == map[] then None else Some(Table(child))
  }

  function Retain(table: Entries, paths: seq<Path>, topLevel: bool): Entries
    decreases Table(table), 0
  {
    map k | k in table && RetainValue(table[k], Nested(paths, k), topLevel).Some? ::
      RetainValue(table[k], Nested(paths, k), topLevel).value
  }

  /** `table.retain`, visiting the keys in any order and editing nested tables in place. */
  method RetainAllowedPaths(table: Entries, paths: seq<Path>, topLevel: bool) returns (kept: Entries)
    ensures kept == Retain(table, paths, topLevel)
    decreases Table(table)
  {
    ghost var goal := Retain(table, paths, topLevel);
    var todo := table.Keys;
    kept := table;
    while todo != {}
      invariant todo <= table.Keys && todo <= kept.Keys <= table.Keys
      invariant forall k | k in todo :: kept[k] == table[k]
      invariant forall k | k in table && k !in todo :: (k in kept <==> k in goal) && (k in kept ==> kept[k] == goal[k])
      decreases todo
    {
      var key :| key in todo;
      var value, nested := table[key], Nested(paths, key);
      var keep: bool;
      if [] in nested {
        keep := !topLevel || value.Table?;
      } else if nested != [] && value.Table? {
        var child := RetainAllowedPaths(value.entries, nested, false);
        kept := kept[key := Table(child)];
        keep := child != map[];
      } else {
        keep := false;
      }
      assert keep <==> RetainValue(value, nested, topLevel).Some?;
      if !keep {
        kept := kept - {key};
      }
      todo := todo - {key};
    }
    assert kept == goal;
  }

  function RetainOverlayAllowed(overlay: Entries): Entries {
    Retain(overlay, OVERLAY_ALLOW_PATHS, true)
  }

  /** Some allowed path is a non-empty prefix of `path`. */
  predicate Allowed(paths: seq<Path>, path: Path) {
    exists i :: 0 <= i < |paths| && paths[i] != [] && paths[i] <= path
  }

  lemma {:induction false} NestedMembers(paths: seq<Path>, key: string, rest: Path)
    ensures rest in Nested(paths, key) <==> [key] + rest in paths
  {
    if paths != [] {
      NestedMembers(paths[1..], key, rest);
      if paths[0] != [] && paths[0][0] == key {
        assert paths[0] == [key] + paths[0][1..];
        assert paths[0] == [key] + rest <==> paths[0][1..] == rest;
      }
    }
  }

  lemma AllowedStep(paths: seq<Path>, path: Path)
    requires path != []
    ensures Allowed(paths, path) <==>
            [] in Nested(paths, path[0]) || Allowed(Nested(paths, path[0]), path[1..])
  {
    var key, rest, nested := path[0], path[1..], Nested(paths, path[0]);
    assert path == [key] + rest;
    if i :| 0 <= i < |paths| && paths[i] != [] && paths[i] <= path {
      var tail := paths[i][1..];
      assert paths[i] == [key] + tail;
      NestedMembers(paths, key, tail);
      var j :| 0 <= j < |nested| && nested[j] == tail;
      assert nested[j] <= rest;
    }
    if [] in nested {
      NestedMembers(paths, key, []);
      var i :| 0 <= i < |paths| && paths[i] == [key] + [];
      assert paths[i] <= path;
    } else if j :| 0 <= j < |nested| && nested[j] != [] && nested[j] <= rest {
      NestedMembers(paths, key, nested[j]);
      var i :| 0 <= i < |paths| && paths[i] == [key] + nested[j];
      assert paths[i] <= path;
    }
  }

  /**
   A leaf survives the restriction, with its value, exactly when an allowed path is a prefix of its
   path and it is not a bare top-level value; and no other leaf appears.
   */
  lemma {:induction false} RetainedLeavesExactly(table: Entries, paths: seq<Path>, topLevel: bool, path: Path)
    requires path != []
    ensures IsLeafAt(Table(Retain(table, paths, topLevel)), path) <==>
            IsLeafAt(Table(table), path) && Allowed(paths, path) && (topLevel ==> |path| > 1)
    ensures IsLeafAt(Table(Retain(table, paths, topLevel)), path) ==>
            At(Table(Retain(table, paths, topLevel)), path) == At(Table(table), path)
    decreases path
  {
    var key := path[0];
    var nested, kept := Nested(paths, key), Retain(table, paths, topLevel);
    AllowedStep(paths, path);
    Descend(Table(table), path);
    Descend(Table(kept), path);
    if key in table && [] !in nested && table[key].Table? && |path| > 1 {
      RetainedLeavesExactly(table[key].entries, nested, false, path[1..]);
      if key !in kept && nested != [] {
        assert RetainValue(table[key], nested, topLevel).None?;
        assert Retain(table[key].entries, nested, false) == map[];
        Descend(EMPTY_TABLE, path[1..]);
      }
    }
  }

  /** The restriction is idempotent. */
  lemma {:induction false} RetainIdempotent(table: Entries, paths: seq<Path>, topLevel: bool)
    ensures Retain(Retain(table, paths, topLevel), paths, topLevel) == Retain(table, paths, topLevel)
    decreases Table(table)
  {
    var kept := Retain(table, paths, topLevel);
    forall k | k in kept ensures RetainValue(kept[k], Nested(paths, k), topLevel) == Some(kept[k]) {
      if [] !in Nested(paths, k) {
        RetainIdempotent(table[k].entries, Nested(paths, k), false);
      }
    }
  }

  // ---------------------------------------------------------------- the pipeline

  function Without(v: Value, key: string): Value {
    if v.Table? then Table(v.entries - {key}) else v
  }

  /** The overlay just before it is restricted: variables expanded, version patches applied, campaigns taken off. */
  function Prepared(overlay: Value, expand: Value -> Value, versionPatches: seq<Entries>): Value {
    Without(Patched(Without(expand(overlay), "version_overrides"), versionPatches, PATCH_STRIP_KEYS), "campaigns")
  }

  /** The usable overlay, or `None` when a version override fails or nothing remains. */
  function FinalizeOverlay(overlay: Value, expand: Value -> Value, versionPatches: Option<seq<Entries>>): Option<Value> {
    if versionPatches.None? then None
    else
      var ready := Prepared(overlay, expand, versionPatches.value);
      var final := Normalize(if ready.Table? then Table(RetainOverlayAllowed(ready.entries)) else ready);
      if final.Table? && final.entries != map[] then Some(final) else None
  }

  /** At or below a domain list, a leaf of the normalised layer was there before or is a cleared list. */
  lemma NormalizeAtDomainList(layer: Value, path: Path)
    requires InDomainLists(path) && IsLeafAt(Normalize(layer), path)
    ensures At(Normalize(layer), path) == At(layer, path) || At(Normalize(layer), path) == Some(Array([]))
  {
    var key, rest, normal := path[2], path[3..], Normalize(layer);
    if normal != layer {
      assert path == ["toolset", "web_search", key] + rest;
      AtConcat(layer, ["toolset", "web_search", key], rest);
      AtConcat(normal, ["toolset", "web_search", key], rest);
      DescendToDomainList(layer, key);
      DescendToDomainList(normal, key);
    }
  }

  lemma DomainListsAreAllowed(path: Path)
    requires InDomainLists(path)
    ensures Allowed(OVERLAY_ALLOW_PATHS, path)
  {
    assert path == path[..3] + path[3..];
    if path[2] == "allowed_domains" {
      assert path[..3] == OVERLAY_ALLOW_PATHS[3];
    } else {
      assert path[..3] == OVERLAY_ALLOW_PATHS[4];
    }
  }

  /**
   Whatever the expansion and the version patches did, the final overlay holds exactly the allowed,
   nested leaves of the prepared one, plus at most a cleared domain list.
   */
  lemma {:induction false} FinalOverlayIsConfined(overlay: Value, expand: Value -> Value, versionPatches: seq<Entries>, path: Path)
    requires path != [] && FinalizeOverlay(overlay, expand, Some(versionPatches)).Some?
    ensures var final := FinalizeOverlay(overlay, expand, Some(versionPatches)).value;
            IsLeafAt(final, path) ==> Allowed(OVERLAY_ALLOW_PATHS, path) && |path| > 1
    ensures !InDomainLists(path) ==>
              SameAllowedLeaf(FinalizeOverlay(overlay, expand, Some(versionPatches)).value,
                              Prepared(overlay, expand, versionPatches), path)
    ensures var final := FinalizeOverlay(overlay, expand, Some(versionPatches)).value;
            InDomainLists(path) && IsLeafAt(final, path) ==>
              At(final, path) == At(Prepared(overlay, expand, versionPatches), path) || At(final, path) == Some(Array([]))
  {
    var ready := Prepared(overlay, expand, versionPatches);
    RetainedLeavesExactly(ready.entries, OVERLAY_ALLOW_PATHS, true, path);
    var kept := Table(RetainOverlayAllowed(ready.entries));
    if InDomainLists(path) {
      DomainListsAreAllowed(path);
      if IsLeafAt(Normalize(kept), path) {
        NormalizeAtDomainList(kept, path);
      }
    } else {
      NormalizeKeepsOtherLeaves(kept, path);
    }
  }

  /** `final` has a leaf at `path` exactly when `ready` has an allowed, nested one, and it is the same. */
  ghost predicate SameAllowedLeaf(final: Value, ready: Value, path: Path) {
    && (IsLeafAt(final, path) <==> IsLeafAt(ready, path) && Allowed(OVERLAY_ALLOW_PATHS, path) && |path| > 1)
    && (IsLeafAt(final, path) ==> At(final, path) == At(ready, path))
  }

  // ---------------------------------------------------------------- reach

  /** `path` lies on the way to an allowed path, or below one. */
  predicate NearAllowed(paths: seq<Path>, path: Path) {
    exists i :: 0 <= i < |paths| && (paths[i] <= path || path <= paths[i])
  }

  lemma {:induction false} RetainReach(table: Entries, paths: seq<Path>, topLevel: bool, path: Path)
    requires path != [] && Forced(Table(Retain(table, paths, topLevel)), path).Some?
    ensures NearAllowed(paths, path)
    decreases path
  {
    var key, rest, kept := path[0], path[1..], Retain(table, paths, topLevel);
    var nested := Nested(paths, key);
    assert path == [key] + rest;
    Descend(Table(kept), path);
    var near: Path;
    if [] in nested {
      near := [];
    } else if rest == [] {
      near := nested[0];
    } else {
      RetainReach(table[key].entries, nested, false, rest);
      var j :| 0 <= j < |nested| && (nested[j] <= rest || rest <= nested[j]);
      near := nested[j];
    }
    assert near in nested && (near <= rest || rest <= near);
    NestedMembers(paths, key, near);
    var i :| 0 <= i < |paths| && paths[i] == [key] + near;
    assert paths[i] <= path || path <= paths[i];
  }

  /** A finalised overlay changes no subtree away from the allowlist, at any layer stack. */
  lemma OverlayCannotReach(layers: ConfigLayers, overlay: Value, expand: Value -> Value,
                           versionPatches: Option<seq<Entries>>, path: Path)
    requires path != [] && !NearAllowed(OVERLAY_ALLOW_PATHS, path)
    requires layers.envOverlay.Some?
    requires layers.envOverlay == FinalizeOverlay(overlay, expand, versionPatches)
    ensures At(EffectiveBase(layers), path) == At(EffectiveBase(layers.(envOverlay := None)), path)
  {
    var bare := layers.(envOverlay := None);
    var final := layers.envOverlay.value;
    var reqs := RequirementsInOrder(layers);
    assert Listed(bare.envOverlay) + reqs == reqs;
    forall q: Path ensures CellAt(EffectiveBase(layers), path + q) == CellAt(EffectiveBase(bare), path + q) {
      OverlayForcesNothing(overlay, expand, versionPatches, path);
      UnforcedBelow(final, path, q);
      MergeAllCell(Lower(layers), TopLayers(layers), path + q);
      MergeAllCell(Lower(layers), reqs, path + q);
      LastForcedConcat(Listed(layers.envOverlay), reqs, path + q);
      assert Listed(layers.envOverlay)[1..] == [];
    }
    CellsBelowDetermineSubtree(EffectiveBase(layers), EffectiveBase(bare), path);
  }

  lemma OverlayForcesNothing(overlay: Value, expand: Value -> Value, versionPatches: Option<seq<Entries>>, path: Path)
    requires path != [] && !NearAllowed(OVERLAY_ALLOW_PATHS, path)
    requires FinalizeOverlay(overlay, expand, versionPatches).Some?
    ensures Forced(FinalizeOverlay(overlay, expand, versionPatches).value, path).None?
  {
    var ready := Prepared(overlay, expand, versionPatches.value);
    var kept := RetainOverlayAllowed(ready.entries);
    if InDomainLists(path) {
      DomainListsAreAllowed(path);
      assert false;
    }
    NormalizeKeepsOtherCells(Table(kept), path);
    if Forced(Table(kept), path).Some? {
      RetainReach(ready.entries, OVERLAY_ALLOW_PATHS, true, path);
    }
  }

  // ---------------------------------------------------------------- when anything is left

  /** The table has something at an allowed path; at the top level it must be a table. */
  predicate Hits(table: Entries, path: Path, topLevel: bool) {
    path != [] && At(Table(table), path).Some? && (topLevel && |path| == 1 ==> At(Table(table), path).value.Table?)
  }

  lemma HitsBelow(table: Entries, key: string, rest: Path, topLevel: bool)
    requires key in table
    ensures Hits(table, [key] + rest, topLevel) <==>
            if rest == [] then !topLevel || table[key].Table?
            else table[key].Table? && Hits(table[key].entries, rest, false)
  {
    var path := [key] + rest;
    assert path[0] == key && path[1..] == rest;
    Descend(Table(table), path);
    if rest != [] && !table[key].Table? {
      Descend(table[key], rest);
    }
  }

  /** Something is kept exactly when some allowed path hits something. */
  lemma {:induction false} RetainKeepsSomethingIff(table: Entries, paths: seq<Path>, topLevel: bool)
    ensures Retain(table, paths, topLevel) != map[] <==> exists p :: p in paths && Hits(table, p, topLevel)
    decreases Table(table)
  {
    var kept := Retain(table, paths, topLevel);
    if kept != map[] {
      var key :| key in kept;
      KeptKeyIsHit(table, paths, topLevel, key);
    }
    if p :| p in paths && Hits(table, p, topLevel) {
      HitKeyIsKept(table, paths, topLevel, p);
      assert p[0] in kept;
    }
  }

  lemma {:induction false} KeptKeyIsHit(table: Entries, paths: seq<Path>, topLevel: bool, key: string)
    requires key in Retain(table, paths, topLevel)
    ensures exists p :: p in paths && Hits(table, p, topLevel)
    decreases Table(table), 0
  {
    var nested, v := Nested(paths, key), table[key];
    var rest: Path;
    if [] in nested {
      rest := [];
    } else {
      RetainKeepsSomethingIff(v.entries, nested, false);
      rest :| rest in nested && Hits(v.entries, rest, false);
    }
    NestedMembers(paths, key, rest);
    HitsBelow(table, key, rest, topLevel);
    assert [key] + rest in paths && Hits(table, [key] + rest, topLevel);
  }

  lemma {:induction false} HitKeyIsKept(table: Entries, paths: seq<Path>, topLevel: bool, p: Path)
    requires p in paths && Hits(table, p, topLevel)
    ensures p[0] in Retain(table, paths, topLevel)
    decreases Table(table), 0
  {
    var key, rest := p[0], p[1..];
    Descend(Table(table), p);
    assert p == [key] + rest;
    NestedMembers(paths, key, rest);
    HitsBelow(table, key, rest, topLevel);
    var nested := Nested(paths, key);
    if [] !in nested {
      RetainKeepsSomethingIff(table[key].entries, nested, false);
      assert rest in nested && Hits(table[key].entries, rest, false);
    } else {
      var none: Path := [];
      assert table[key].Table? || rest == none;
    }
  }

  lemma NormalizeKeepsKeys(layer: Value)
    requires layer.Table?
    ensures Normalize(layer).Table? && Normalize(layer).entries.Keys == layer.entries.Keys
  {}

  /** An overlay is usable exactly when its version overrides apply and it has something at an allowed path. */
  lemma OverlayIsUsableIff(overlay: Value, expand: Value -> Value, versionPatches: Option<seq<Entries>>)
    ensures FinalizeOverlay(overlay, expand, versionPatches).Some? <==>
            && versionPatches.Some?
            && var ready := Prepared(overlay, expand, versionPatches.value);
            && ready.Table? && exists p :: p in OVERLAY_ALLOW_PATHS && Hits(ready.entries, p, true)
  {
    if versionPatches.Some? {
      RestrictedIsUsableIff(Prepared(overlay, expand, versionPatches.value));
    }
  }

  lemma RestrictedIsUsableIff(ready: Value)
    ensures var final := Normalize(if ready.Table? then Table(RetainOverlayAllowed(ready.entries)) else ready);
            final.Table? && final.entries != map[] <==>
            ready.Table? && exists p :: p in OVERLAY_ALLOW_PATHS && Hits(ready.entries, p, true)
  {
    if ready.Table? {
      var kept := RetainOverlayAllowed(ready.entries);
      RetainKeepsSomethingIff(ready.entries, OVERLAY_ALLOW_PATHS, true);
      NormalizeKeepsKeys(Table(kept));
      EmptyHasNoKeys(kept);
      EmptyHasNoKeys(Normalize(Table(kept)).entries);
    }
  }

  lemma EmptyHasNoKeys(m: Entries)
    ensures m == map[] <==> m.Keys == {}
  {}
}
