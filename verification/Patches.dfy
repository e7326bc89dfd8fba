/**
 Override patches: what is stripped from a patch before it is deep-merged, and which paths a patch
 touches. Models `config_override.rs` and the layer normalisation of `loader.rs`.
 */
module Patches {
  import opened Prelude
  import opened Toml

  type Entries = map<string, Value>

  const PATCH_STRIP_KEYS: seq<string> :=
    ["version_overrides", "campaigns", "auth_provider", "model_providers"]
  const CAMPAIGN_STRIP_KEYS: seq<string> :=
    ["version_overrides", "campaigns", "auth_provider", "model_providers", "auth", "ezer_com_config"]
  const PATCH_STRIP_PATHS: seq<Path> := [["ui", "status_line"], ["ui", "notifications", "hooks"]]

  const ALLOWED_DOMAINS: Path := ["toolset", "web_search", "allowed_domains"]
  const EXCLUDED_DOMAINS: Path := ["toolset", "web_search", "excluded_domains"]

  /** The keys of `[model.<id>]` that bind a model to a local identity and its destination. */
  const IDENTITY_KEYS: set<string> := {"mtls_cert_dir", "base_url", "api_base_url"}

  function ModelPath(id: string, key: string): Path { ["model", id, key] }

  /** `path` is, or lies below, one of the two coupled web-search domain lists. */
  predicate InDomainLists(path: Path) {
    |path| >= 3 && path[0] == "toolset" && path[1] == "web_search"
    && (path[2] == "allowed_domains" || path[2] == "excluded_domains")
  }

  // ---------------------------------------------------------------- touching

  /** The paths whose value a patch can change. */
  predicate Touches(patch: Entries, path: Path) {
    path != [] && Forced(Table(patch), path).Some?
  }

  /** The cursor walk down `path`. */
  method PatchTouchesPath(patch: Entries, path: Path) returns (touches: bool)
    ensures touches == Touches(patch, path)
  {
    if path == [] || path[0] !in patch {
      return false;
    }
    var cur, i := patch[path[0]], 1;
    while i < |path|
      invariant 1 <= i <= |path|
      invariant Forced(Table(patch), path) == Forced(cur, path[i..])
    {
      assert path[i..][0] == path[i] && path[i..][1..] == path[i + 1..];
      if !cur.Table? {
        return true;
      }
      if path[i] !in cur.entries {
        return false;
      }
      cur, i := cur.entries[path[i]], i + 1;
    }
    return true;
  }

  /** A document holding just `leaf` at `path`. */
  function Spine(path: Path, leaf: Value): Value {
    if path == [] then leaf else Table(map[path[0] := Spine(path[1..], leaf)])
  }

  lemma {:induction false} SpineHolds(path: Path, leaf: Value)
    ensures At(Spine(path, leaf), path) == Some(leaf)
  {
    if path != [] {
      SpineHolds(path[1..], leaf);
    }
  }

  /** Some document, which is a table at its root, has another value at `path` after the merge. */
  ghost predicate ChangesUnderMerge(patch: Entries, path: Path) {
    exists config: Value :: config.Table? && At(Merge(config, Table(patch)), path) != At(config, path)
  }

  /** A touching patch does change some config: an empty one, or one already holding a value there. */
  lemma TouchedChanges(patch: Entries, path: Path)
    requires Touches(patch, path)
    ensures ChangesUnderMerge(patch, path)
  {
    var over := Table(patch);
    var forced := Forced(over, path).value;
    ForcedIsOwnCell(over, path);
    if forced == Absent {
      var config := Spine(path, Bool(true));
      SpineHolds(path, Bool(true));
      MergeCell(config, over, path);
      assert At(Merge(config, over), path) != At(config, path);
    } else {
      MergeCell(EMPTY_TABLE, over, path);
      assert At(Merge(EMPTY_TABLE, over), path) != At(EMPTY_TABLE, path);
    }
  }

  /**
   `patch_touches_path` is exact on every path but the empty one, where it answers `false` although
   merging any patch that holds a key changes the empty document.
   */
  lemma TouchesIsExactBelowRoot(patch: Entries, path: Path)
    ensures (Touches(patch, path) <==> ChangesUnderMerge(patch, path)) <==> path != [] || patch == map[]
  {
    if path == [] {
      assert Merge(EMPTY_TABLE, Table(patch)).entries.Keys == patch.Keys;
      if patch == map[] {
        forall config: Value | config.Table? ensures Merge(config, Table(patch)) == config {
          assert Merge(config, Table(patch)).entries == config.entries;
        }
      } else {
        assert At(Merge(EMPTY_TABLE, Table(patch)), path) != At(EMPTY_TABLE, path);
      }
    } else if Touches(patch, path) {
      TouchedChanges(patch, path);
    } else {
      forall config ensures At(Merge(config, Table(patch)), path) == At(config, path) {
        UnforcedKeepsSubtree(config, Table(patch), path);
      }
    }
  }

  // ---------------------------------------------------------------- stripping paths

  /** Drop `path` from `patch`; a non-table ancestor of it is dropped whole. */
  function StripPath(patch: Entries, path: Path): Entries
    decreases path
  {
    if path == [] then patch
    else if |path| == 1 then patch - {path[0]}
    else if path[0] !in patch then patch
    else if patch[path[0]].Table? then
      patch[path[0] := Table(StripPath(patch[path[0]].entries, path[1..]))]
    else patch - {path[0]}
  }

  /** How much of `path` is cut off: all of it, or up to the first non-table on the way. */
  function CutDepth(patch: Entries, path: Path): nat
    requires path != []
    ensures 1 <= CutDepth(patch, path) <= |path|
    decreases path
  {
    if |path| > 1 && path[0] in patch && patch[path[0]].Table? then
      1 + CutDepth(patch[path[0]].entries, path[1..])
    else if |path| > 1 && path[0] in patch then 1
    else |path|
  }

  /** Stripping cuts one subtree out of the patch and leaves every other cell as it was. */
  lemma {:induction false} StripPathIsOneCut(patch: Entries, path: Path, q: Path)
    requires path != []
    ensures Forced(Table(StripPath(patch, path)), q) ==
            if path[..CutDepth(patch, path)] <= q then None else Forced(Table(patch), q)
    decreases path
  {
    var cut := path[..CutDepth(patch, path)];
    if q != [] && q[0] == path[0] && |path| > 1 && path[0] in patch && patch[path[0]].Table? {
      StripPathIsOneCut(patch[path[0]].entries, path[1..], q[1..]);
      var inner := path[1..][..CutDepth(patch[path[0]].entries, path[1..])];
      assert cut == [path[0]] + inner;
      assert q == [q[0]] + q[1..];
      assert cut <= q <==> inner <= q[1..];
    } else if q != [] && q[0] == path[0] && !(|path| > 1 && path[0] in patch) {
      if |path| > 1 {
        assert cut == path;
      }
    }
  }

  function StripPaths(patch: Entries, paths: seq<Path>): Entries
    decreases paths
  {
    if paths == [] then patch else StripPaths(StripPath(patch, paths[0]), paths[1..])
  }

  lemma {:induction false} StripPathsOnlyRemoves(patch: Entries, paths: seq<Path>, q: Path)
    ensures Forced(Table(patch), q).None? ==> Forced(Table(StripPaths(patch, paths)), q).None?
    ensures q != [] && q in paths ==> Forced(Table(StripPaths(patch, paths)), q).None?
    decreases paths
  {
    if paths != [] {
      StripPathsOnlyRemoves(StripPath(patch, paths[0]), paths[1..], q);
      if paths[0] != [] {
        StripPathIsOneCut(patch, paths[0], q);
      }
    }
  }

  /** Cells that share no first key with a stripped path are untouched by stripping. */
  lemma {:induction false} StripPathsElsewhere(patch: Entries, paths: seq<Path>, q: Path)
    requires q != [] && forall i | 0 <= i < |paths| :: paths[i] != [] && paths[i][0] != q[0]
    ensures Forced(Table(StripPaths(patch, paths)), q) == Forced(Table(patch), q)
    decreases paths
  {
    if paths != [] {
      StripPathIsOneCut(patch, paths[0], q);
      StripPathsElsewhere(StripPath(patch, paths[0]), paths[1..], q);
    }
  }

  // ---------------------------------------------------------------- model identity

  predicate HasIdentity(config: Value, id: string) {
    At(config, ModelPath(id, "mtls_cert_dir")).Some?
  }

  function ClampModel(model: Value, hasIdentity: bool): Value {
    if !model.Table? then model
    else Table(model.entries - (if hasIdentity then IDENTITY_KEYS else {"mtls_cert_dir"}))
  }

  /** A patch never selects a local identity, nor moves the destination an identity is bound to. */
  function ClampModels(config: Value, patch: Entries): Entries {
    if "model" in patch && patch["model"].Table? then
      patch["model" := Table(ClampTable(config, patch["model"].entries))]
    else patch
  }

  function ClampTable(config: Value, models: Entries): Entries {
    map id | id in models :: ClampModel(models[id], HasIdentity(config, id))
  }

  lemma ClampOnlyRemoves(config: Value, patch: Entries, q: Path)
    ensures Forced(Table(patch), q).None? ==> Forced(Table(ClampModels(config, patch)), q).None?
    ensures q != [] && q[0] != "model" ==> Forced(Table(ClampModels(config, patch)), q) == Forced(Table(patch), q)
  {
    if q != [] {
      Descend(Table(patch), q);
      Descend(Table(ClampModels(config, patch)), q);
    }
    if |q| >= 2 && q[0] == "model" && "model" in patch && patch["model"].Table? {
      var models, clamped := patch["model"], ClampModels(config, patch)["model"];
      Descend(models, q[1..]);
      Descend(clamped, q[1..]);
      assert q[1..][1..] == q[2..];
      if q[1] in models.entries && |q| >= 3 {
        Descend(models.entries[q[1]], q[2..]);
        Descend(clamped.entries[q[1]], q[2..]);
      }
    }
  }

  /** The clamped patch holds no certificate directory, and no destination for a bound model. */
  lemma ClampedModelKeys(config: Value, patch: Entries, id: string, key: string)
    requires key == "mtls_cert_dir" || (key in IDENTITY_KEYS && HasIdentity(config, id))
    ensures CellAt(Table(ClampModels(config, patch)), ModelPath(id, key)) == Absent
  {
    var path, clamped := ModelPath(id, key), Table(ClampModels(config, patch));
    Descend(clamped, path);
    if "model" in patch {
      Descend(clamped.entries["model"], path[1..]);
      if patch["model"].Table? && id in patch["model"].entries {
        Descend(clamped.entries["model"].entries[id], path[2..]);
      }
    }
  }

  // ---------------------------------------------------------------- normalisation

  predicate NonEmptyArray(table: Entries, key: string) {
    key in table && table[key].Array? && table[key].items != []
  }

  /** A `[toolset.web_search]` that sets one domain list clears the other. */
  function NormalizeWebSearch(ws: Entries): Entries {
    var allowed := NonEmptyArray(ws, "allowed_domains");
    var excluded := NonEmptyArray(ws, "excluded_domains");
    if allowed && !excluded then ws["excluded_domains" := Array([])]
    else if excluded && !allowed then ws["allowed_domains" := Array([])]
    else ws
  }

  function Normalize(layer: Value): Value {
    if layer.Table? && "toolset" in layer.entries && layer.entries["toolset"].Table?
       && "web_search" in layer.entries["toolset"].entries
       && layer.entries["toolset"].entries["web_search"].Table?
    then
      var toolset := layer.entries["toolset"].entries;
      var ws := NormalizeWebSearch(toolset["web_search"].entries);
      Table(layer.entries["toolset" := Table(toolset["web_search" := Table(ws)])])
    else layer
  }

  /** Normalisation reaches no cell outside the two domain lists. */
  lemma NormalizeKeepsOtherCells(layer: Value, q: Path)
    requires !InDomainLists(q)
    ensures Forced(Normalize(layer), q) == Forced(layer, q)
  {
    var normal := Normalize(layer);
    if normal != layer && |q| >= 2 && q[0] == "toolset" {
      Descend(layer.entries["toolset"], q[1..]);
      Descend(normal.entries["toolset"], q[1..]);
      if |q| >= 3 && q[1] == "web_search" {
        assert q[1..][1..] == q[2..];
        Descend(layer.entries["toolset"].entries["web_search"], q[2..]);
        Descend(normal.entries["toolset"].entries["web_search"], q[2..]);
      }
    }
  }

  lemma NormalizeKeepsOtherLeaves(layer: Value, q: Path)
    requires !InDomainLists(q)
    ensures CellAt(Normalize(layer), q) == CellAt(layer, q)
    ensures IsLeafAt(Normalize(layer), q) <==> IsLeafAt(layer, q)
    ensures IsLeafAt(layer, q) ==> At(Normalize(layer), q) == At(layer, q)
  {
    NormalizeKeepsOtherCells(layer, q);
    ForcedIsOwnCell(layer, q);
    ForcedIsOwnCell(Normalize(layer), q);
  }

  /** A layer as normalisation leaves it. */
  predicate Normal(layer: Value) { Normalize(layer) == layer }

  lemma NormalizeIsNormal(layer: Value)
    ensures Normal(Normalize(layer))
  {
    var normal := Normalize(layer);
    if normal != layer {
      var ws := layer.entries["toolset"].entries["web_search"].entries;
      var toolset, normalWs := normal.entries["toolset"].entries, NormalizeWebSearch(ws);
      assert toolset["web_search"] == Table(normalWs) && NormalizeWebSearch(normalWs) == normalWs;
      assert toolset["web_search" := Table(normalWs)] == toolset;
      assert normal.entries["toolset" := Table(toolset)] == normal.entries;
    }
  }

  /** The document holds a non-empty list at `path`. */
  predicate SetsList(doc: Value, path: Path) {
    At(doc, path).Some? && At(doc, path).value.Array? && At(doc, path).value.items != []
  }

  /** A normal layer that sets one list to something forces a list, perhaps an empty one, on the other. */
  lemma NormalSetsBoth(layer: Value, path: Path, other: Path)
    requires Normal(layer) && SetsList(layer, path)
    requires {path, other} == {ALLOWED_DOMAINS, EXCLUDED_DOMAINS}
    ensures At(layer, other).Some? && At(layer, other).value.Array?
  {
    DescendToDomainList(layer, "allowed_domains");
    DescendToDomainList(layer, "excluded_domains");
    assert path == ALLOWED_DOMAINS || path == EXCLUDED_DOMAINS;
    assert other == ALLOWED_DOMAINS || other == EXCLUDED_DOMAINS;
    assert path == other ==> {path, other} == {path};
  }

  /** Exactly one list is set: it is kept and the other one cleared. Otherwise nothing changes. */
  lemma NormalizeExactly(layer: Value)
    ensures var normal, allowed, excluded := Normalize(layer), SetsList(layer, ALLOWED_DOMAINS), SetsList(layer, EXCLUDED_DOMAINS);
            if allowed && !excluded then
              At(normal, ALLOWED_DOMAINS) == At(layer, ALLOWED_DOMAINS) && At(normal, EXCLUDED_DOMAINS) == Some(Array([]))
            else if excluded && !allowed then
              At(normal, EXCLUDED_DOMAINS) == At(layer, EXCLUDED_DOMAINS) && At(normal, ALLOWED_DOMAINS) == Some(Array([]))
            else normal == layer
  {
    var normal := Normalize(layer);
    DescendToDomainList(layer, "allowed_domains");
    DescendToDomainList(layer, "excluded_domains");
    DescendToDomainList(normal, "allowed_domains");
    DescendToDomainList(normal, "excluded_domains");
    if layer.Table? && "toolset" in layer.entries && layer.entries["toolset"].Table?
       && "web_search" in layer.entries["toolset"].entries && layer.entries["toolset"].entries["web_search"].Table? {
      var toolset := layer.entries["toolset"].entries;
      assert toolset["web_search" := toolset["web_search"]] == toolset;
      assert layer.entries["toolset" := layer.entries["toolset"]] == layer.entries;
    }
  }

  /** A normalised layer that sets a non-empty domain list decides both lists. */
  lemma NormalizeDecidesBothLists(layer: Value)
    requires SetsList(layer, ALLOWED_DOMAINS) || SetsList(layer, EXCLUDED_DOMAINS)
    ensures At(Normalize(layer), ALLOWED_DOMAINS).Some? && At(Normalize(layer), EXCLUDED_DOMAINS).Some?
  {
    DescendToDomainList(layer, "allowed_domains");
    DescendToDomainList(layer, "excluded_domains");
    DescendToDomainList(Normalize(layer), "allowed_domains");
    DescendToDomainList(Normalize(layer), "excluded_domains");
  }

  /** Reading a domain list one table at a time. */
  ghost predicate DomainListAt(layer: Value, key: string) {
    At(layer, ["toolset", "web_search", key]) ==
    if layer.Table? && "toolset" in layer.entries && layer.entries["toolset"].Table?
       && "web_search" in layer.entries["toolset"].entries
       && layer.entries["toolset"].entries["web_search"].Table?
       && key in layer.entries["toolset"].entries["web_search"].entries
    then Some(layer.entries["toolset"].entries["web_search"].entries[key])
    else None
  }

  lemma DescendToDomainList(layer: Value, key: string)
    ensures DomainListAt(layer, key)
  {
    var path := ["toolset", "web_search", key];
    Descend(layer, path);
    if layer.Table? && "toolset" in layer.entries {
      Descend(layer.entries["toolset"], path[1..]);
      if layer.entries["toolset"].Table? && "web_search" in layer.entries["toolset"].entries {
        Descend(layer.entries["toolset"].entries["web_search"], path[2..]);
      }
    }
  }

  // ---------------------------------------------------------------- applying patches

  function KeySet(keys: seq<string>): set<string> { set k | k in keys }

  /** The patch after its keys, identities and paths are stripped, before normalisation. */
  function Stripped(config: Value, patch: Entries, stripKeys: seq<string>): Value {
    Table(StripPaths(ClampModels(config, patch - KeySet(stripKeys)), PATCH_STRIP_PATHS))
  }

  /** The layer that is finally merged for one patch. */
  function Sanitized(config: Value, patch: Entries, stripKeys: seq<string>): Value {
    Normalize(Stripped(config, patch, stripKeys))
  }

  function ApplyPatch(config: Value, patch: Entries, stripKeys: seq<string>): Value {
    Merge(config, Sanitized(config, patch, stripKeys))
  }

  function Patched(config: Value, patches: seq<Entries>, stripKeys: seq<string>): Value
    decreases patches
  {
    if patches == [] then config
    else Patched(ApplyPatch(config, patches[0], stripKeys), patches[1..], stripKeys)
  }

  method ClampPatchModel(model: Value, hasIdentity: bool) returns (clamped: Value)
    ensures clamped == ClampModel(model, hasIdentity)
  {
    clamped := model;
    if model.Table? {
      var keys := model.entries - {"mtls_cert_dir"};
      if hasIdentity {
        keys := keys - {"base_url"};
        keys := keys - {"api_base_url"};
      }
      clamped := Table(keys);
      assert keys == ClampModel(model, hasIdentity).entries;
    }
  }

  /** The clamp loop over the patch's models, in any order. */
  method ClampPatchModels(config: Value, models: Entries) returns (clamped: Entries)
    ensures clamped == ClampTable(config, models)
  {
    clamped := models;
    ghost var goal := ClampTable(config, models);
    var todo := models.Keys;
    while todo != {}
      invariant clamped.Keys == models.Keys && todo <= models.Keys
      invariant forall id | id in todo :: clamped[id] == models[id]
      invariant forall id | id in models && id !in todo :: clamped[id] == goal[id]
      decreases todo
    {
      var id :| id in todo;
      var model := ClampPatchModel(models[id], HasIdentity(config, id));
      clamped := clamped[id := model];
      todo := todo - {id};
    }
  }

  method StripPatchKeys(patch: Entries, keys: seq<string>) returns (stripped: Entries)
    ensures stripped == patch - KeySet(keys)
  {
    stripped := patch;
    for k := 0 to |keys|
      invariant stripped == patch - KeySet(keys[..k])
    {
      stripped := stripped - {keys[k]};
    }
    assert keys[..|keys|] == keys;
  }

  method StripPatchPaths(patch: Entries, paths: seq<Path>) returns (stripped: Entries)
    ensures stripped == StripPaths(patch, paths)
  {
    stripped := patch;
    for j := 0 to |paths|
      invariant StripPaths(patch, paths) == StripPaths(stripped, paths[j..])
    {
      assert paths[j..][1..] == paths[j + 1..];
      stripped := StripPath(stripped, paths[j]);
    }
  }

  /** `apply_patches`: strip, clamp, normalise and merge each patch in turn. */
  method ApplyPatches(config: Value, patches: seq<Entries>, stripKeys: seq<string>) returns (result: Value)
    ensures result == Patched(config, patches, stripKeys)
  {
    result := config;
    for i := 0 to |patches|
      invariant Patched(config, patches, stripKeys) == Patched(result, patches[i..], stripKeys)
    {
      assert patches[i..][0] == patches[i] && patches[i..][1..] == patches[i + 1..];
      var patch := StripPatchKeys(patches[i], stripKeys);
      if "model" in patch && patch["model"].Table? {
        var models := ClampPatchModels(result, patch["model"].entries);
        patch := patch["model" := Table(models)];
      }
      patch := StripPatchPaths(patch, PATCH_STRIP_PATHS);
      result := DeepMerge(result, Normalize(Table(patch)));
    }
  }

  lemma StrippedOnlyRemoves(config: Value, patch: Entries, stripKeys: seq<string>, q: Path)
    ensures Forced(Table(patch), q).None? ==> Forced(Stripped(config, patch, stripKeys), q).None?
  {
    var bare := patch - KeySet(stripKeys);
    ClampOnlyRemoves(config, bare, q);
    StripPathsOnlyRemoves(ClampModels(config, bare), PATCH_STRIP_PATHS, q);
  }

  /** Sanitising removes cells only, apart from the coupled domain lists. */
  lemma SanitizedOnlyRemoves(config: Value, patch: Entries, stripKeys: seq<string>, q: Path)
    requires !InDomainLists(q)
    ensures Forced(Table(patch), q).None? ==> Forced(Sanitized(config, patch, stripKeys), q).None?
  {
    StrippedOnlyRemoves(config, patch, stripKeys, q);
    NormalizeKeepsOtherCells(Stripped(config, patch, stripKeys), q);
  }

  /** A patch that touches neither domain list is not given one by normalisation. */
  lemma SanitizedWithoutLists(config: Value, patch: Entries, stripKeys: seq<string>, q: Path)
    requires InDomainLists(q) && !Touches(patch, ALLOWED_DOMAINS) && !Touches(patch, EXCLUDED_DOMAINS)
    ensures Forced(Sanitized(config, patch, stripKeys), q).None?
  {
    var stripped := Stripped(config, patch, stripKeys);
    StrippedOnlyRemoves(config, patch, stripKeys, ALLOWED_DOMAINS);
    StrippedOnlyRemoves(config, patch, stripKeys, EXCLUDED_DOMAINS);
    ForcedIsOwnCell(stripped, ALLOWED_DOMAINS);
    ForcedIsOwnCell(stripped, EXCLUDED_DOMAINS);
    DescendToDomainList(stripped, "allowed_domains");
    DescendToDomainList(stripped, "excluded_domains");
    NormalizeWithoutLists(stripped);
    assert q == q[..3] + q[3..];
    assert q[..3] == ALLOWED_DOMAINS || q[..3] == EXCLUDED_DOMAINS;
    UnforcedBelow(stripped, q[..3], q[3..]);
  }

  lemma NormalizeWithoutLists(layer: Value)
    requires DomainListAt(layer, "allowed_domains") && DomainListAt(layer, "excluded_domains")
    requires At(layer, ALLOWED_DOMAINS) == None && At(layer, EXCLUDED_DOMAINS) == None
    ensures Normalize(layer) == layer
  {
    if layer.Table? && "toolset" in layer.entries && layer.entries["toolset"].Table?
       && "web_search" in layer.entries["toolset"].entries
       && layer.entries["toolset"].entries["web_search"].Table?
    {
      var toolset := layer.entries["toolset"].entries;
      var ws := toolset["web_search"].entries;
      assert NormalizeWebSearch(ws) == ws;
      assert toolset["web_search" := Table(ws)] == toolset;
      assert layer.entries["toolset" := Table(toolset)] == layer.entries;
    }
  }

  /** The paths no patch may set. */
  predicate Protected(path: Path, stripKeys: seq<string>) {
    (|path| == 1 && path[0] in stripKeys) || path in PATCH_STRIP_PATHS
  }

  lemma SanitizedLeavesProtected(config: Value, patch: Entries, stripKeys: seq<string>, path: Path)
    requires Protected(path, stripKeys)
    ensures Forced(Sanitized(config, patch, stripKeys), path).None?
  {
    var bare := patch - KeySet(stripKeys);
    var clamped := ClampModels(config, bare);
    ClampOnlyRemoves(config, bare, path);
    StripPathsOnlyRemoves(clamped, PATCH_STRIP_PATHS, path);
    assert !InDomainLists(path);
    NormalizeKeepsOtherCells(Table(StripPaths(clamped, PATCH_STRIP_PATHS)), path);
  }

  /** No list of patches changes the value at a stripped key or stripped path. */
  lemma {:induction false} PatchedKeepsProtected(config: Value, patches: seq<Entries>, stripKeys: seq<string>, path: Path)
    requires Protected(path, stripKeys)
    ensures At(Patched(config, patches, stripKeys), path) == At(config, path)
    decreases patches
  {
    if patches != [] {
      PatchedKeepsProtected(ApplyPatch(config, patches[0], stripKeys), patches[1..], stripKeys, path);
      SanitizedLeavesProtected(config, patches[0], stripKeys, path);
      UnforcedKeepsSubtree(config, Sanitized(config, patches[0], stripKeys), path);
    }
  }

  /** One patch: a model that still has its certificate directory afterwards kept all three keys. */
  lemma ApplyPatchKeepsIdentity(config: Value, patch: Entries, stripKeys: seq<string>, id: string, key: string)
    requires HasIdentity(ApplyPatch(config, patch, stripKeys), id)
    requires key in IDENTITY_KEYS
    ensures HasIdentity(config, id)
    ensures At(ApplyPatch(config, patch, stripKeys), ModelPath(id, key)) == At(config, ModelPath(id, key))
  {
    var over := Sanitized(config, patch, stripKeys);
    var cert := ModelPath(id, "mtls_cert_dir");
    SanitizedModelKeys(config, patch, stripKeys, id, "mtls_cert_dir");
    ForcedIsOwnCell(over, cert);
    MergeCell(config, over, cert);
    UnforcedKeepsSubtree(config, over, cert);
    SanitizedModelKeys(config, patch, stripKeys, id, key);
    var path := ModelPath(id, key);
    ForcedIsOwnCell(over, path);
    UnforcedSibling(over, id, "mtls_cert_dir", key);
    UnforcedKeepsSubtree(config, over, path);
  }

  /** A layer forces nothing at one key of a model only if no ancestor of it is a scalar. */
  lemma UnforcedSibling(over: Value, id: string, key: string, other: string)
    requires Forced(over, ModelPath(id, key)).None?
    requires CellAt(over, ModelPath(id, other)) == Absent
    ensures Forced(over, ModelPath(id, other)).None?
  {
    var p, q := ModelPath(id, key), ModelPath(id, other);
    Descend(over, p);
    Descend(over, q);
    if "model" in over.entries {
      Descend(over.entries["model"], p[1..]);
      Descend(over.entries["model"], q[1..]);
      if id in over.entries["model"].entries {
        Descend(over.entries["model"].entries[id], p[2..]);
        Descend(over.entries["model"].entries[id], q[2..]);
      }
    }
  }

  lemma SanitizedModelKeys(config: Value, patch: Entries, stripKeys: seq<string>, id: string, key: string)
    requires key == "mtls_cert_dir" || (key in IDENTITY_KEYS && HasIdentity(config, id))
    ensures CellAt(Sanitized(config, patch, stripKeys), ModelPath(id, key)) == Absent
  {
    var path := ModelPath(id, key);
    var bare := patch - KeySet(stripKeys);
    var clamped := ClampModels(config, bare);
    var stripped := StripPaths(clamped, PATCH_STRIP_PATHS);
    ClampedModelKeys(config, bare, id, key);
    StripPathsElsewhere(clamped, PATCH_STRIP_PATHS, path);
    NormalizeKeepsOtherCells(Table(stripped), path);
    ForcedIsOwnCell(Table(clamped), path);
    ForcedIsOwnCell(Normalize(Table(stripped)), path);
  }

  /** Every run of patches, including ones that put scalars above the model tables. */
  lemma {:induction false} PatchedKeepsIdentity(config: Value, patches: seq<Entries>, stripKeys: seq<string>, id: string, key: string)
    requires HasIdentity(Patched(config, patches, stripKeys), id)
    requires key in IDENTITY_KEYS
    ensures HasIdentity(config, id)
    ensures At(Patched(config, patches, stripKeys), ModelPath(id, key)) == At(config, ModelPath(id, key))
    decreases patches
  {
    if patches != [] {
      PatchedKeepsIdentity(ApplyPatch(config, patches[0], stripKeys), patches[1..], stripKeys, id, key);
      ApplyPatchKeepsIdentity(config, patches[0], stripKeys, id, key);
    }
  }
}
