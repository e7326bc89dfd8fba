/**
 The layered configuration: seven documents merged by priority, campaign patches applied on top, then
 the overlay and the requirements layers re-applied. Models `config_layers.rs` and `campaigns.rs`.
 */
module Layers {
  import opened Prelude
  import opened Toml
  import opened Patches

  datatype Campaign = Campaign(id: string, patch: Entries)

  datatype CampaignOverrides = CampaignOverrides(
    requirements: seq<Campaign>,
    user: seq<Campaign>,
    managed: seq<Campaign>,
    systemManaged: seq<Campaign>)

  /** Layers from lowest to highest priority. */
  datatype ConfigLayers = ConfigLayers(
    systemManaged: Value,
    managed: Value,
    user: Value,
    envOverlay: Option<Value>,
    userRequirements: Option<Value>,
    systemRequirements: Option<Value>,
    mdmRequirements: Option<Value>,
    campaigns: CampaignOverrides)

  function Listed(layer: Option<Value>): seq<Value> {
    if layer.Some? then [layer.value] else []
  }

  function RequirementsInOrder(layers: ConfigLayers): seq<Value> {
    Listed(layers.userRequirements) + Listed(layers.systemRequirements) + Listed(layers.mdmRequirements)
  }

  /** The layers that are folded in again after the campaign patches. */
  function TopLayers(layers: ConfigLayers): seq<Value> {
    Listed(layers.envOverlay) + RequirementsInOrder(layers)
  }

  /** The configuration below the overlay. */
  function Lower(layers: ConfigLayers): Value {
    Merge(Merge(layers.systemManaged, layers.managed), layers.user)
  }

  function EffectiveBase(layers: ConfigLayers): Value {
    MergeAll(Lower(layers), TopLayers(layers))
  }

  /** The overlay and the requirements merged among themselves, lowest first. */
  function Clamp(layers: ConfigLayers): Value {
    MergeAll(EMPTY_TABLE, TopLayers(layers))
  }

  /** A loop merging `overs` onto `base` in order. */
  method MergeInOrder(base: Value, overs: seq<Value>) returns (merged: Value)
    ensures merged == MergeAll(base, overs)
  {
    merged := base;
    for i := 0 to |overs|
      invariant MergeAll(base, overs) == MergeAll(merged, overs[i..])
    {
      assert overs[i..][1..] == overs[i + 1..];
      merged := DeepMerge(merged, overs[i]);
    }
  }

  /** `ConfigLayers::merge`, with or without the overlay. */
  method MergeLayers(layers: ConfigLayers, includeOverlay: bool) returns (merged: Value)
    ensures includeOverlay ==> merged == EffectiveBase(layers)
    ensures !includeOverlay ==> merged == EffectiveBase(layers.(envOverlay := None))
  {
    merged := DeepMerge(layers.systemManaged, layers.managed);
    merged := DeepMerge(merged, layers.user);
    if includeOverlay && layers.envOverlay.Some? {
      MergeAllConcat(merged, Listed(layers.envOverlay), RequirementsInOrder(layers));
      assert Listed(layers.envOverlay)[1..] == [];
      merged := DeepMerge(merged, layers.envOverlay.value);
    } else {
      assert [] + RequirementsInOrder(layers) == RequirementsInOrder(layers);
    }
    merged := MergeInOrder(merged, RequirementsInOrder(layers));
  }

  // ---------------------------------------------------------------- campaigns

  function Flatten(sources: seq<seq<Campaign>>): seq<Campaign> {
    if sources == [] then [] else sources[0] + Flatten(sources[1..])
  }

  function Ids(entries: seq<Campaign>): set<string> {
    set e | e in entries :: e.id
  }

  /** The entries whose id is neither in `seen` nor borne by an earlier entry. */
  function Unseen(entries: seq<Campaign>, seen: set<string>): seq<Campaign> {
    if entries == [] then []
    else if entries[0].id in seen then Unseen(entries[1..], seen)
    else [entries[0]] + Unseen(entries[1..], seen + {entries[0].id})
  }

  function FirstById(entries: seq<Campaign>): seq<Campaign> { Unseen(entries, {}) }

  /** The kept ids are the new ids of the list. */
  lemma {:induction false} UnseenIds(entries: seq<Campaign>, seen: set<string>)
    ensures Ids(Unseen(entries, seen)) == Ids(entries) - seen
    decreases entries
  {
    if entries != [] {
      var e, rest := entries[0], entries[1..];
      assert entries == [e] + rest;
      assert Ids(entries) == {e.id} + Ids(rest);
      UnseenIds(rest, if e.id in seen then seen else seen + {e.id});
      if e.id !in seen {
        var kept := Unseen(rest, seen + {e.id});
        assert Ids([e] + kept) == {e.id} + Ids(kept);
      }
    }
  }

  /** The kept entries have pairwise distinct ids. */
  lemma {:induction false} UnseenDistinct(entries: seq<Campaign>, seen: set<string>)
    ensures forall i, j | 0 <= i < j < |Unseen(entries, seen)| ::
              Unseen(entries, seen)[i].id != Unseen(entries, seen)[j].id
    decreases entries
  {
    if entries != [] {
      var e := entries[0];
      var seen' := if e.id in seen then seen else seen + {e.id};
      var kept := Unseen(entries[1..], seen');
      UnseenDistinct(entries[1..], seen');
      UnseenIds(entries[1..], seen');
      assert forall i | 0 <= i < |kept| :: kept[i] in kept && kept[i].id in Ids(kept);
    }
  }

  /** The entry at `i` is the first one in the list bearing its id. */
  predicate IsFirst(entries: seq<Campaign>, i: int) {
    0 <= i < |entries| && entries[i].id !in Ids(entries[..i])
  }

  /** An entry is kept exactly when it is the first one bearing its id, and that id is new. */
  lemma {:induction false} UnseenSelectsFirst(entries: seq<Campaign>, seen: set<string>, e: Campaign)
    ensures e in Unseen(entries, seen) <==>
            e.id !in seen && exists i :: IsFirst(entries, i) && entries[i] == e
    decreases entries
  {
    if entries != [] {
      var h, rest := entries[0], entries[1..];
      UnseenSelectsFirst(rest, if h.id in seen then seen else seen + {h.id}, e);
      forall i | 0 <= i < |rest| ensures IsFirst(entries, i + 1) <==> IsFirst(rest, i) && rest[i].id != h.id {
        assert entries[..i + 1] == [h] + rest[..i];
        assert Ids(entries[..i + 1]) == {h.id} + Ids(rest[..i]);
      }
      assert IsFirst(entries, 0);
      if i :| IsFirst(rest, i) && rest[i] == e && e.id != h.id {
        assert IsFirst(entries, i + 1) && entries[i + 1] == e;
      }
      if i :| IsFirst(entries, i) && entries[i] == e && i > 0 {
        assert IsFirst(rest, i - 1) && rest[i - 1] == e;
      }
    }
  }

  /** The inner loop: keep the entries of one source whose id has not been seen yet. */
  method AppendUnseen(source: seq<Campaign>, out0: seq<Campaign>, seen0: set<string>, ghost later: seq<Campaign>)
    returns (out: seq<Campaign>, seen: set<string>)
    ensures out + Unseen(later, seen) == out0 + Unseen(source + later, seen0)
  {
    out, seen := out0, seen0;
    assert source[0..] == source;
    for e := 0 to |source|
      invariant out + Unseen(source[e..] + later, seen) == out0 + Unseen(source + later, seen0)
    {
      ghost var left := source[e..] + later;
      assert left[0] == source[e] && left[1..] == source[e + 1..] + later;
      if source[e].id !in seen {
        assert out + ([source[e]] + Unseen(left[1..], seen + {source[e].id}))
            == out + [source[e]] + Unseen(left[1..], seen + {source[e].id});
        out := out + [source[e]];
        seen := seen + {source[e].id};
      }
    }
    assert source[|source|..] + later == later;
  }

  /** The nested loops with a `seen` set and an `out` list. */
  method MergeCampaignEntries(sources: seq<seq<Campaign>>) returns (out: seq<Campaign>)
    ensures out == FirstById(Flatten(sources))
  {
    out := [];
    var seen: set<string> := {};
    for s := 0 to |sources|
      invariant out + Unseen(Flatten(sources[s..]), seen) == FirstById(Flatten(sources))
    {
      assert sources[s..][1..] == sources[s + 1..];
      out, seen := AppendUnseen(sources[s], out, seen, Flatten(sources[s + 1..]));
    }
  }

  /** Campaign sources in priority order. */
  function CampaignSources(layers: ConfigLayers, remote: seq<Campaign>): seq<seq<Campaign>> {
    [layers.campaigns.requirements, remote, layers.campaigns.user, layers.campaigns.managed,
     layers.campaigns.systemManaged]
  }

  function FilterActive(merged: seq<Campaign>, dismissed: set<string>): seq<Campaign> {
    if merged == [] then []
    else (if merged[0].id in dismissed then [] else [merged[0]]) + FilterActive(merged[1..], dismissed)
  }

  /** The kill switch: the environment variable, or `features.campaigns = false` in the base. */
  predicate ApplicationDisabled(base: Value, envSwitch: Option<bool>) {
    envSwitch == Some(false) || At(base, ["features", "campaigns"]) == Some(Bool(false))
  }

  function ResolveCampaigns(layers: ConfigLayers, base: Value, remote: seq<Campaign>, dismissed: set<string>,
                            envSwitch: Option<bool>): seq<Campaign>
  {
    if ApplicationDisabled(base, envSwitch) then []
    else FilterActive(FirstById(Flatten(CampaignSources(layers, remote))), dismissed)
  }

  /** Patches apply lowest priority first, so the list is reversed. */
  function ReversedPatches(active: seq<Campaign>): seq<Entries> {
    if active == [] then [] else ReversedPatches(active[1..]) + [active[0].patch]
  }

  function ApplyCampaignOverrides(layers: ConfigLayers, merged: Value, active: seq<Campaign>): Value {
    MergeAll(Patched(merged, ReversedPatches(active), CAMPAIGN_STRIP_KEYS), TopLayers(layers))
  }

  function Effective(layers: ConfigLayers, remote: seq<Campaign>, dismissed: set<string>,
                     envSwitch: Option<bool>): Value
  {
    var base := EffectiveBase(layers);
    ApplyCampaignOverrides(layers, base, ResolveCampaigns(layers, base, remote, dismissed, envSwitch))
  }

  /** `effective_config_with_campaigns` as its in-place pipeline. */
  method EffectiveConfigWithCampaigns(layers: ConfigLayers, remote: seq<Campaign>, dismissed: set<string>,
                                      envSwitch: Option<bool>) returns (merged: Value)
    ensures merged == Effective(layers, remote, dismissed, envSwitch)
  {
    merged := MergeLayers(layers, true);
    var active := [];
    if !ApplicationDisabled(merged, envSwitch) {
      var all := MergeCampaignEntries(CampaignSources(layers, remote));
      active := FilterActive(all, dismissed);
    }
    merged := ApplyPatches(merged, ReversedPatches(active), CAMPAIGN_STRIP_KEYS);
    if layers.envOverlay.Some? {
      MergeAllConcat(merged, Listed(layers.envOverlay), RequirementsInOrder(layers));
      assert Listed(layers.envOverlay)[1..] == [];
      merged := DeepMerge(merged, layers.envOverlay.value);
    } else {
      assert TopLayers(layers) == RequirementsInOrder(layers);
    }
    merged := MergeInOrder(merged, RequirementsInOrder(layers));
  }

  // ---------------------------------------------------------------- what the re-application guarantees

  /**
   Every leaf of the overlay and requirements, merged in priority order, is a leaf of the effective
   config with the same value, whatever the campaigns do to the layers below.
   */
  lemma ClampedLeavesWin(layers: ConfigLayers, merged: Value, active: seq<Campaign>, path: Path)
    requires IsLeafAt(Clamp(layers), path)
    ensures At(ApplyCampaignOverrides(layers, merged, active), path) == At(Clamp(layers), path)
  {
    MergeAllCell(Patched(merged, ReversedPatches(active), CAMPAIGN_STRIP_KEYS), TopLayers(layers), path);
    MergeAllCell(EMPTY_TABLE, TopLayers(layers), path);
    assert CellAt(Clamp(layers), path) == Leaf(At(Clamp(layers), path).value);
  }

  /** With no active campaign, re-applying the overlay and requirements is a no-op. */
  lemma NoCampaignsIsBase(layers: ConfigLayers, remote: seq<Campaign>, dismissed: set<string>, envSwitch: Option<bool>)
    requires ResolveCampaigns(layers, EffectiveBase(layers), remote, dismissed, envSwitch) == []
    ensures Effective(layers, remote, dismissed, envSwitch) == EffectiveBase(layers)
  {
    MergeAllIdempotent(Lower(layers), TopLayers(layers));
  }

  // ---------------------------------------------------------------- dismissing campaigns

  function IdsTouching(active: seq<Campaign>, paths: set<Path>): set<string> {
    set e, p | e in active && p in paths && Touches(e.patch, p) :: e.id
  }

  lemma {:induction false} FilterActiveMembers(merged: seq<Campaign>, dismissed: set<string>)
    ensures forall e :: e in FilterActive(merged, dismissed) <==> e in merged && e.id !in dismissed
  {
    if merged != [] {
      FilterActiveMembers(merged[1..], dismissed);
      assert merged == [merged[0]] + merged[1..];
    }
  }

  lemma {:induction false} ReversedPatchesMembers(active: seq<Campaign>, patch: Entries)
    requires patch in ReversedPatches(active)
    ensures exists e :: e in active && e.patch == patch
  {
    if patch in ReversedPatches(active[1..]) {
      ReversedPatchesMembers(active[1..], patch);
    } else {
      assert active[0].patch == patch;
    }
  }

  /** Patches that force nothing at `path` once sanitised keep its subtree. */
  lemma {:induction false} UntouchedByPatches(config: Value, patches: seq<Entries>, path: Path)
    requires forall c, patch | patch in patches :: Forced(Sanitized(c, patch, CAMPAIGN_STRIP_KEYS), path).None?
    ensures At(Patched(config, patches, CAMPAIGN_STRIP_KEYS), path) == At(config, path)
    decreases patches
  {
    if patches != [] {
      var next := ApplyPatch(config, patches[0], CAMPAIGN_STRIP_KEYS);
      UntouchedByPatches(next, patches[1..], path);
      UnforcedKeepsSubtree(config, Sanitized(config, patches[0], CAMPAIGN_STRIP_KEYS), path);
    }
  }

  /** Re-applying the top layers to anything that agrees with the base below `path` gives the base there. */
  lemma ReappliedSubtreeIsBase(layers: ConfigLayers, patched: Value, path: Path)
    requires At(patched, path) == At(EffectiveBase(layers), path)
    ensures At(MergeAll(patched, TopLayers(layers)), path) == At(EffectiveBase(layers), path)
  {
    var top, base := TopLayers(layers), EffectiveBase(layers);
    forall q: Path ensures CellAt(MergeAll(patched, top), path + q) == CellAt(base, path + q) {
      MergeAllCell(patched, top, path + q);
      MergeAllCell(Lower(layers), top, path + q);
      AtConcat(patched, path, q);
      AtConcat(base, path, q);
    }
    CellsBelowDetermineSubtree(MergeAll(patched, top), base, path);
  }

  /** The effective config after additionally dismissing the campaigns that touch one of `paths`. */
  function AfterDismissing(layers: ConfigLayers, remote: seq<Campaign>, dismissed: set<string>,
                           envSwitch: Option<bool>, paths: set<Path>): Value
  {
    var active := ResolveCampaigns(layers, EffectiveBase(layers), remote, dismissed, envSwitch);
    Effective(layers, remote, dismissed + IdsTouching(active, paths), envSwitch)
  }

  /** No campaign still active after the dismissal touches a dismissed path. */
  lemma SurvivorsDoNotTouch(layers: ConfigLayers, base: Value, remote: seq<Campaign>, dismissed: set<string>,
                            envSwitch: Option<bool>, paths: set<Path>, e: Campaign, p: Path)
    requires p in paths
    requires e in ResolveCampaigns(layers, base, remote,
                    dismissed + IdsTouching(ResolveCampaigns(layers, base, remote, dismissed, envSwitch), paths),
                    envSwitch)
    ensures !Touches(e.patch, p)
  {
    var all := FirstById(Flatten(CampaignSources(layers, remote)));
    var active := ResolveCampaigns(layers, base, remote, dismissed, envSwitch);
    FilterActiveMembers(all, dismissed);
    FilterActiveMembers(all, dismissed + IdsTouching(active, paths));
  }

  /** Dismissing every campaign that touches `path` brings the campaign-free value back there. */
  lemma DismissalRestoresBase(layers: ConfigLayers, remote: seq<Campaign>, dismissed: set<string>,
                              envSwitch: Option<bool>, path: Path)
    requires path != [] && !InDomainLists(path)
    ensures At(AfterDismissing(layers, remote, dismissed, envSwitch, {path}), path) == At(EffectiveBase(layers), path)
  {
    var base := EffectiveBase(layers);
    var active := ResolveCampaigns(layers, base, remote, dismissed, envSwitch);
    var still := ResolveCampaigns(layers, base, remote, dismissed + IdsTouching(active, {path}), envSwitch);
    var patches := ReversedPatches(still);
    forall c, patch | patch in patches ensures Forced(Sanitized(c, patch, CAMPAIGN_STRIP_KEYS), path).None? {
      ReversedPatchesMembers(still, patch);
      var e :| e in still && e.patch == patch;
      SurvivorsDoNotTouch(layers, base, remote, dismissed, envSwitch, {path}, e, path);
      SanitizedOnlyRemoves(c, patch, CAMPAIGN_STRIP_KEYS, path);
    }
    UntouchedByPatches(base, patches, path);
    ReappliedSubtreeIsBase(layers, Patched(base, patches, CAMPAIGN_STRIP_KEYS), path);
  }

  ghost predicate DismissalAlwaysRestores(path: Path) {
    forall layers, remote, dismissed, envSwitch ::
      At(AfterDismissing(layers, remote, dismissed, envSwitch, {path}), path) == At(EffectiveBase(layers), path)
  }

  const NO_CAMPAIGNS := CampaignOverrides([], [], [], [])

  /** Layers whose only content is one managed document. */
  function OnlySystemManaged(doc: Value): ConfigLayers {
    ConfigLayers(doc, EMPTY_TABLE, EMPTY_TABLE, None, None, None, None, NO_CAMPAIGNS)
  }

  lemma {:induction false} MergeEmptyTable(v: Value)
    requires v.Table?
    ensures Merge(v, EMPTY_TABLE) == v && Merge(EMPTY_TABLE, v) == v
  {
    assert Merge(v, EMPTY_TABLE).entries == v.entries;
    assert Merge(EMPTY_TABLE, v).entries == v.entries;
  }

  lemma {:induction false} FlattenOnly(sources: seq<seq<Campaign>>, i: nat)
    requires forall j | 0 <= j < |sources| && j != i :: sources[j] == []
    ensures Flatten(sources) == if i < |sources| then sources[i] else []
    decreases sources
  {
    if sources != [] {
      FlattenOnly(sources[1..], if i == 0 then |sources| else i - 1);
    }
  }

  /** With one remote campaign that does not touch `path`, dismissing by path dismisses nothing. */
  lemma OneRemoteCampaignStaysActive(layers: ConfigLayers, base: Value, c: Campaign, dismissed: set<string>)
    requires layers.campaigns == NO_CAMPAIGNS && c.id !in dismissed && !ApplicationDisabled(base, None)
    ensures ResolveCampaigns(layers, base, [c], dismissed, None) == [c]
  {
    var sources := CampaignSources(layers, [c]);
    FlattenOnly(sources, 1);
    assert [c][1..] == [] && Unseen([], {c.id}) == [];
    assert Unseen([c], {}) == [c] + Unseen([c][1..], {} + {c.id});
    assert FilterActive([c], dismissed) == [c];
  }

  lemma OnlySystemManagedBase(doc: Value)
    requires doc.Table?
    ensures EffectiveBase(OnlySystemManaged(doc)) == doc
    ensures TopLayers(OnlySystemManaged(doc)) == []
  {
    MergeEmptyTable(doc);
  }

  /** A single remote campaign over a single managed document. */
  lemma OneRemoteCampaign(doc: Value, c: Campaign, path: Path)
    requires doc.Table? && !ApplicationDisabled(doc, None) && !Touches(c.patch, path)
    ensures AfterDismissing(OnlySystemManaged(doc), [c], {}, None, {path}) ==
            ApplyPatch(doc, c.patch, CAMPAIGN_STRIP_KEYS)
  {
    var layers := OnlySystemManaged(doc);
    OnlySystemManagedBase(doc);
    OneRemoteCampaignStaysActive(layers, doc, c, {});
    assert IdsTouching([c], {path}) == {};
    assert {} + IdsTouching([c], {path}) == {};
    assert ReversedPatches([c]) == [c.patch] by { assert [c][1..] == []; }
    assert Patched(doc, [c.patch], CAMPAIGN_STRIP_KEYS) == ApplyPatch(doc, c.patch, CAMPAIGN_STRIP_KEYS) by {
      assert [c.patch][1..] == [];
    }
  }

  /** The other domain list of the pair. */
  function OtherList(path: Path): string
    requires InDomainLists(path)
  {
    if path[2] == "allowed_domains" then "excluded_domains" else "allowed_domains"
  }

  /** A campaign patch that sets only the other list of the pair. */
  function OneListPatch(path: Path): Entries
    requires InDomainLists(path)
  {
    map["toolset" := Table(map["web_search" := Table(map[OtherList(path) := Array([Bool(true)])])])]
  }

  lemma NotRestored(layers: ConfigLayers, remote: seq<Campaign>, path: Path)
    requires At(AfterDismissing(layers, remote, {}, None, {path}), path) != At(EffectiveBase(layers), path)
    ensures !DismissalAlwaysRestores(path)
  {}

  /** On and below a domain list, a campaign that sets only the other list changes the value unseen. */
  lemma DomainListsAreCoupled(path: Path)
    requires InDomainLists(path)
    ensures !DismissalAlwaysRestores(path)
  {
    var c, doc := Campaign("c", OneListPatch(path)), Spine(path, Bool(true));
    OneListPatchIsUntouching(path);
    SpineHasNoFeatures(path);
    OneRemoteCampaign(doc, c, path);
    OneListPatchClears(doc, path);
    var layers := OnlySystemManaged(doc);
    OnlySystemManagedBase(doc);
    NotRestored(layers, [c], path);
  }

  lemma SpineHasNoFeatures(path: Path)
    requires InDomainLists(path)
    ensures Spine(path, Bool(true)).Table? && !ApplicationDisabled(Spine(path, Bool(true)), None)
  {
    Descend(Spine(path, Bool(true)), ["features", "campaigns"]);
  }

  lemma OneListPatchClears(doc: Value, path: Path)
    requires InDomainLists(path) && doc == Spine(path, Bool(true))
    ensures At(ApplyPatch(doc, OneListPatch(path), CAMPAIGN_STRIP_KEYS), path) != At(doc, path)
  {
    var over := Normalize(Table(OneListPatch(path)));
    StripsNothing(doc, OneListPatch(path));
    OneListNormalized(path);
    MergeCell(doc, over, path);
    SpineHolds(path, Bool(true));
  }

  /** Normalising a patch that sets one list forces the other one empty. */
  lemma OneListNormalized(path: Path)
    requires InDomainLists(path)
    ensures Forced(Normalize(Table(OneListPatch(path))), path) ==
            Some(if |path| == 3 then Leaf(Array([])) else Absent)
  {
    OneListCleared(path);
    ForcedByList(Normalize(Table(OneListPatch(path))), path);
  }

  /** The normalised patch, table by table. */
  lemma OneListCleared(path: Path)
    requires InDomainLists(path)
    ensures var normal := Normalize(Table(OneListPatch(path)));
            && normal.Table? && "toolset" in normal.entries && normal.entries["toolset"].Table?
            && "web_search" in normal.entries["toolset"].entries
            && normal.entries["toolset"].entries["web_search"].Table?
            && path[2] in normal.entries["toolset"].entries["web_search"].entries
            && normal.entries["toolset"].entries["web_search"].entries[path[2]] == Array([])
  {
    var ws: Entries := map[OtherList(path) := Array([Bool(true)])];
    OneListIsNormalized(path[2], OtherList(path));
    assert OneListPatch(path)["toolset"].entries["web_search"] == Table(ws);
  }

  lemma OneListIsNormalized(cleared: string, set': string)
    requires (cleared == "allowed_domains" && set' == "excluded_domains")
             || (cleared == "excluded_domains" && set' == "allowed_domains")
    ensures var ws: Entries := map[set' := Array([Bool(true)])];
            NormalizeWebSearch(ws) == ws[cleared := Array([])]
  {
    assert "allowed_domains"[0] != "excluded_domains"[0];
  }

  lemma OneListPatchIsUntouching(path: Path)
    requires InDomainLists(path)
    ensures !Touches(OneListPatch(path), path)
  {
    var patch := OneListPatch(path);
    Descend(Table(patch), path);
    Descend(patch["toolset"], path[1..]);
    Descend(patch["toolset"].entries["web_search"], path[1..][1..]);
  }

  /** A patch of tool settings only is merged as it is, up to normalisation. */
  lemma StripsNothing(doc: Value, patch: Entries)
    requires patch.Keys == {"toolset"}
    ensures Sanitized(doc, patch, CAMPAIGN_STRIP_KEYS) == Normalize(Table(patch))
  {
    assert "toolset" !in KeySet(CAMPAIGN_STRIP_KEYS);
    assert patch - KeySet(CAMPAIGN_STRIP_KEYS) == patch;
    assert PATCH_STRIP_PATHS[1..][1..] == [];
    assert StripPath(patch, PATCH_STRIP_PATHS[0]) == patch;
    assert StripPath(patch, PATCH_STRIP_PATHS[1]) == patch;
  }

  /** An empty array at a domain list forces that list empty and everything below it absent. */
  lemma ForcedByList(over: Value, path: Path)
    requires InDomainLists(path)
    requires over.Table? && "toolset" in over.entries && over.entries["toolset"].Table?
    requires "web_search" in over.entries["toolset"].entries
    requires over.entries["toolset"].entries["web_search"].Table?
    requires path[2] in over.entries["toolset"].entries["web_search"].entries
    requires over.entries["toolset"].entries["web_search"].entries[path[2]] == Array([])
    ensures Forced(over, path) == Some(if |path| == 3 then Leaf(Array([])) else Absent)
  {
    var ws := over.entries["toolset"].entries["web_search"];
    Descend(over, path);
    Descend(over.entries["toolset"], path[1..]);
    Descend(ws, path[1..][1..]);
    assert path[1..][1..][1..] == path[3..];
    if |path| > 3 {
      Descend(ws.entries[path[2]], path[3..]);
    }
  }

  /** At the root, any campaign changes the value and none is reported as touching it. */
  lemma RootIsNeverReported()
    ensures !DismissalAlwaysRestores([])
  {
    var c, path: Path := Campaign("c", map["toolset" := Bool(true)]), [];
    OneRemoteCampaign(EMPTY_TABLE, c, path);
    OnlySystemManagedBase(EMPTY_TABLE);
    var over := Sanitized(EMPTY_TABLE, c.patch, CAMPAIGN_STRIP_KEYS);
    StripsNothing(EMPTY_TABLE, c.patch);
    assert over == Table(c.patch);
    MergeEmptyTable(over);
    var layers := OnlySystemManaged(EMPTY_TABLE);
    NotRestored(layers, [c], path);
  }

  /** Dismissal by path is a complete remedy exactly for the paths outside the coupled lists. */
  lemma DismissalRestoresExactly(path: Path)
    ensures DismissalAlwaysRestores(path) <==> path != [] && !InDomainLists(path)
  {
    if path == [] {
      RootIsNeverReported();
    } else if InDomainLists(path) {
      DomainListsAreCoupled(path);
    } else {
      forall layers, remote, dismissed, envSwitch
        ensures At(AfterDismissing(layers, remote, dismissed, envSwitch, {path}), path) == At(EffectiveBase(layers), path)
      {
        DismissalRestoresBase(layers, remote, dismissed, envSwitch, path);
      }
    }
  }

  /** For the coupled lists, dismissing whatever touches either of them is a complete remedy. */
  lemma DismissingBothListsRestores(layers: ConfigLayers, remote: seq<Campaign>, dismissed: set<string>,
                                    envSwitch: Option<bool>, path: Path)
    requires InDomainLists(path)
    ensures At(AfterDismissing(layers, remote, dismissed, envSwitch, {ALLOWED_DOMAINS, EXCLUDED_DOMAINS}), path)
            == At(EffectiveBase(layers), path)
  {
    var base, lists := EffectiveBase(layers), {ALLOWED_DOMAINS, EXCLUDED_DOMAINS};
    var active := ResolveCampaigns(layers, base, remote, dismissed, envSwitch);
    var still := ResolveCampaigns(layers, base, remote, dismissed + IdsTouching(active, lists), envSwitch);
    var patches := ReversedPatches(still);
    forall c, patch | patch in patches ensures Forced(Sanitized(c, patch, CAMPAIGN_STRIP_KEYS), path).None? {
      ReversedPatchesMembers(still, patch);
      var e :| e in still && e.patch == patch;
      SurvivorsDoNotTouch(layers, base, remote, dismissed, envSwitch, lists, e, ALLOWED_DOMAINS);
      SurvivorsDoNotTouch(layers, base, remote, dismissed, envSwitch, lists, e, EXCLUDED_DOMAINS);
      SanitizedWithoutLists(c, patch, CAMPAIGN_STRIP_KEYS, path);
    }
    UntouchedByPatches(base, patches, path);
    ReappliedSubtreeIsBase(layers, Patched(base, patches, CAMPAIGN_STRIP_KEYS), path);
  }

  // ---------------------------------------------------------------- the two domain lists never mix

  /** The layers that the patches amount to, each sanitised against the config it is applied to. */
  function AppliedPatches(config: Value, patches: seq<Entries>): seq<Value>
    decreases patches
  {
    if patches == [] then []
    else
      [Sanitized(config, patches[0], CAMPAIGN_STRIP_KEYS)]
      + AppliedPatches(ApplyPatch(config, patches[0], CAMPAIGN_STRIP_KEYS), patches[1..])
  }

  lemma {:induction false} PatchedIsMergeAll(config: Value, patches: seq<Entries>)
    ensures Patched(config, patches, CAMPAIGN_STRIP_KEYS) == MergeAll(config, AppliedPatches(config, patches))
    decreases patches
  {
    if patches != [] {
      PatchedIsMergeAll(ApplyPatch(config, patches[0], CAMPAIGN_STRIP_KEYS), patches[1..]);
    }
  }

  /** Everything merged into the effective config, in order: layers, campaign patches, top layers again. */
  function Stack(layers: ConfigLayers, active: seq<Campaign>): seq<Value> {
    [layers.systemManaged, layers.managed, layers.user] + TopLayers(layers)
    + AppliedPatches(EffectiveBase(layers), ReversedPatches(active)) + TopLayers(layers)
  }

  lemma LowerIsMergeAll(layers: ConfigLayers)
    ensures Lower(layers) == MergeAll(EMPTY_TABLE, [layers.systemManaged, layers.managed, layers.user])
  {
    var three := [layers.systemManaged, layers.managed, layers.user];
    if layers.systemManaged.Table? {
      MergeEmptyTable(layers.systemManaged);
    }
    var two, one := [layers.managed, layers.user], [layers.user];
    assert three[1..] == two && two[1..] == one && one[1..] == [];
    assert MergeAll(EMPTY_TABLE, three) == MergeAll(layers.systemManaged, two);
    assert MergeAll(layers.systemManaged, two) == MergeAll(Merge(layers.systemManaged, layers.managed), one);
  }

  lemma EffectiveIsStack(layers: ConfigLayers, active: seq<Campaign>)
    ensures ApplyCampaignOverrides(layers, EffectiveBase(layers), active) == MergeAll(EMPTY_TABLE, Stack(layers, active))
  {
    var three, top := [layers.systemManaged, layers.managed, layers.user], TopLayers(layers);
    var patches := AppliedPatches(EffectiveBase(layers), ReversedPatches(active));
    LowerIsMergeAll(layers);
    PatchedIsMergeAll(EffectiveBase(layers), ReversedPatches(active));
    MergeAllConcat(EMPTY_TABLE, three, top);
    MergeAllConcat(EMPTY_TABLE, three + top, patches);
    MergeAllConcat(EMPTY_TABLE, three + top + patches, top);
  }

  predicate AllNormal(docs: seq<Value>) {
    forall i | 0 <= i < |docs| :: Normal(docs[i])
  }

  /** Every layer is normalised when it is loaded. */
  predicate NormalLayers(layers: ConfigLayers) {
    AllNormal([layers.systemManaged, layers.managed, layers.user]) && AllNormal(TopLayers(layers))
  }

  lemma {:induction false} AppliedPatchesAreNormal(config: Value, patches: seq<Entries>)
    ensures AllNormal(AppliedPatches(config, patches))
    decreases patches
  {
    if patches != [] {
      NormalizeIsNormal(Stripped(config, patches[0], CAMPAIGN_STRIP_KEYS));
      AppliedPatchesAreNormal(ApplyPatch(config, patches[0], CAMPAIGN_STRIP_KEYS), patches[1..]);
    }
  }

  predicate IsList(cell: Option<Cell>) {
    cell.Some? && cell.value.Leaf? && cell.value.v.Array? && cell.value.v.items != []
  }

  predicate AreBothLists(path: Path, other: Path) {
    {path, other} == {ALLOWED_DOMAINS, EXCLUDED_DOMAINS}
  }

  lemma ListIsForced(doc: Value, path: Path)
    ensures IsList(Forced(doc, path)) ==> SetsList(doc, path) && Forced(doc, path) == Some(Leaf(At(doc, path).value))
    ensures At(doc, path).Some? ==> Forced(doc, path).Some?
  {
    ForcedIsOwnCell(doc, path);
  }

  /** Whoever sets one list decides the other. */
  lemma {:induction false} ListDecidesOther(docs: seq<Value>, path: Path, other: Path)
    requires AllNormal(docs) && AreBothLists(path, other) && IsList(LastForced(docs, path))
    ensures LastForced(docs, other).Some?
  {
    if LastForced(docs[1..], path).Some? {
      ListDecidesOther(docs[1..], path, other);
    } else {
      ListIsForced(docs[0], path);
      NormalSetsBoth(docs[0], path, other);
      ListIsForced(docs[0], other);
    }
  }

  predicate SetsBoth(doc: Value, allowed: Option<Cell>, excluded: Option<Cell>) {
    Forced(doc, ALLOWED_DOMAINS) == allowed && Forced(doc, EXCLUDED_DOMAINS) == excluded
  }

  lemma {:induction false} ListsHaveOneSource(docs: seq<Value>) returns (k: nat)
    requires AllNormal(docs) && IsList(LastForced(docs, ALLOWED_DOMAINS)) && IsList(LastForced(docs, EXCLUDED_DOMAINS))
    ensures k < |docs| && SetsBoth(docs[k], LastForced(docs, ALLOWED_DOMAINS), LastForced(docs, EXCLUDED_DOMAINS))
  {
    var rest := docs[1..];
    var a, x := LastForced(rest, ALLOWED_DOMAINS), LastForced(rest, EXCLUDED_DOMAINS);
    if IsList(a) {
      ListDecidesOther(rest, ALLOWED_DOMAINS, EXCLUDED_DOMAINS);
    }
    if IsList(x) {
      ListDecidesOther(rest, EXCLUDED_DOMAINS, ALLOWED_DOMAINS);
    }
    if IsList(a) && IsList(x) {
      k := ListsHaveOneSource(rest);
      k := k + 1;
    } else {
      k := 0;
    }
  }

  /**
   What normalisation is for: when the effective config has both a non-empty allowlist and a non-empty
   blocklist, one single layer or campaign patch set them both; no two sources are ever mixed.
   */
  lemma DomainListsHaveOneSource(layers: ConfigLayers, active: seq<Campaign>) returns (k: nat)
    requires NormalLayers(layers)
    requires var config := ApplyCampaignOverrides(layers, EffectiveBase(layers), active);
             SetsList(config, ALLOWED_DOMAINS) && SetsList(config, EXCLUDED_DOMAINS)
    ensures var config, stack := ApplyCampaignOverrides(layers, EffectiveBase(layers), active), Stack(layers, active);
            && k < |stack| && At(stack[k], ALLOWED_DOMAINS) == At(config, ALLOWED_DOMAINS)
            && At(stack[k], EXCLUDED_DOMAINS) == At(config, EXCLUDED_DOMAINS)
  {
    var stack := Stack(layers, active);
    EffectiveIsStack(layers, active);
    StackIsNormal(layers, active);
    ListComesFromStack(stack, ALLOWED_DOMAINS);
    ListComesFromStack(stack, EXCLUDED_DOMAINS);
    k := ListsHaveOneSource(stack);
    ListIsForced(stack[k], ALLOWED_DOMAINS);
    ListIsForced(stack[k], EXCLUDED_DOMAINS);
  }

  lemma StackIsNormal(layers: ConfigLayers, active: seq<Campaign>)
    requires NormalLayers(layers)
    ensures AllNormal(Stack(layers, active))
  {
    AppliedPatchesAreNormal(EffectiveBase(layers), ReversedPatches(active));
  }

  lemma ListComesFromStack(stack: seq<Value>, path: Path)
    requires SetsList(MergeAll(EMPTY_TABLE, stack), path) && path != []
    ensures LastForced(stack, path) == Some(Leaf(At(MergeAll(EMPTY_TABLE, stack), path).value))
  {
    MergeAllCell(EMPTY_TABLE, stack, path);
    Descend(EMPTY_TABLE, path);
  }
}
