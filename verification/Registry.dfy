/**
 One boolean `[features]` key, read layer by layer, against the same key in the effective config.
 Models `Feature::config_layers` and `FeatureConfigLayers::merged` of `registry.rs`.
 */
module Registry {
  import opened Prelude
  import opened Toml
  import opened Patches
  import opened Layers

  datatype ConfigLayer = SystemManaged | Managed | CampaignLayer | Overlay

  datatype LayerValue = LayerValue(layer: ConfigLayer, value: bool)

  /** What decides a feature: the pin, and the values above, in and below the file a user can edit. */
  datatype FeatureLayers = FeatureLayers(
    pin: Option<bool>,
    user: Option<bool>,
    aboveUser: Option<LayerValue>,
    belowUser: Option<LayerValue>)
  {
    function Merged(): Option<bool> {
      ValueOf(aboveUser).Or(user).Or(ValueOf(belowUser))
    }
  }

  function ValueOf(v: Option<LayerValue>): Option<bool> {
    if v.Some? then Some(v.value.value) else None
  }

  function FeaturePath(key: string): Path { ["features", key] }

  /** The boolean a document holds for the feature; anything else counts as unset. */
  function KeyIn(doc: Value, key: string): Option<bool> {
    var v := At(doc, FeaturePath(key));
    if v.Some? && v.value.Bool? then Some(v.value.b) else None
  }

  function KeyInLayer(doc: Option<Value>, key: string): Option<bool> {
    if doc.Some? then KeyIn(doc.value, key) else None
  }

  function Tagged(layer: ConfigLayer, v: Option<bool>): Option<LayerValue> {
    if v.Some? then Some(LayerValue(layer, v.value)) else None
  }

  /** The first active campaign, highest priority first, that sets the key. */
  function CampaignKey(active: seq<Campaign>, key: string): Option<bool> {
    if active == [] then None
    else KeyIn(Table(active[0].patch), key).Or(CampaignKey(active[1..], key))
  }

  function SplitFeature(layers: ConfigLayers, active: seq<Campaign>, key: string): FeatureLayers {
    FeatureLayers(
      KeyInLayer(layers.mdmRequirements, key)
        .Or(KeyInLayer(layers.systemRequirements, key))
        .Or(KeyInLayer(layers.userRequirements, key)),
      KeyIn(layers.user, key),
      Tagged(Overlay, KeyInLayer(layers.envOverlay, key)).Or(Tagged(CampaignLayer, CampaignKey(active, key))),
      Tagged(Managed, KeyIn(layers.managed, key)).Or(Tagged(SystemManaged, KeyIn(layers.systemManaged, key))))
  }

  /** A document in which `features` is a table and the key a boolean, wherever they are present. */
  predicate WellTyped(doc: Value, key: string) {
    && doc.Table?
    && ("features" in doc.entries ==>
          && doc.entries["features"].Table?
          && (key in doc.entries["features"].entries ==> doc.entries["features"].entries[key].Bool?))
  }

  predicate WellTypedLayers(layers: ConfigLayers, active: seq<Campaign>, key: string) {
    && WellTyped(layers.systemManaged, key) && WellTyped(layers.managed, key) && WellTyped(layers.user, key)
    && (layers.envOverlay.Some? ==> WellTyped(layers.envOverlay.value, key))
    && (layers.userRequirements.Some? ==> WellTyped(layers.userRequirements.value, key))
    && (layers.systemRequirements.Some? ==> WellTyped(layers.systemRequirements.value, key))
    && (layers.mdmRequirements.Some? ==> WellTyped(layers.mdmRequirements.value, key))
    && forall i | 0 <= i < |active| :: WellTyped(Table(active[i].patch), key)
  }

  /** The cell a boolean occupies; unset stands for "forces nothing". */
  function BoolCell(v: Option<bool>): Option<Cell> {
    if v.Some? then Some(Leaf(Bool(v.value))) else None
  }

  lemma WellTypedForces(doc: Value, key: string)
    requires WellTyped(doc, key)
    ensures Forced(doc, FeaturePath(key)) == BoolCell(KeyIn(doc, key))
  {
    var path := FeaturePath(key);
    Descend(doc, path);
    if "features" in doc.entries {
      Descend(doc.entries["features"], path[1..]);
    }
  }

  /** No stage of sanitising a campaign patch alters a feature key. */
  lemma FeatureKeySurvivesSanitizing(config: Value, patch: Entries, key: string)
    ensures Forced(Sanitized(config, patch, CAMPAIGN_STRIP_KEYS), FeaturePath(key)) ==
            Forced(Table(patch), FeaturePath(key))
  {
    var path := FeaturePath(key);
    var bare := patch - KeySet(CAMPAIGN_STRIP_KEYS);
    assert "features" !in KeySet(CAMPAIGN_STRIP_KEYS);
    Descend(Table(patch), path);
    Descend(Table(bare), path);
    var clamped := ClampModels(config, bare);
    ClampOnlyRemoves(config, bare, path);
    StripPathsElsewhere(clamped, PATCH_STRIP_PATHS, path);
    NormalizeKeepsOtherCells(Table(StripPaths(clamped, PATCH_STRIP_PATHS)), path);
  }

  lemma {:induction false} PatchedSnoc(config: Value, patches: seq<Entries>, last: Entries)
    ensures Patched(config, patches + [last], CAMPAIGN_STRIP_KEYS) ==
            ApplyPatch(Patched(config, patches, CAMPAIGN_STRIP_KEYS), last, CAMPAIGN_STRIP_KEYS)
    decreases patches
  {
    var longer := patches + [last];
    if patches == [] {
      assert longer == [last] && longer[1..] == [];
    } else {
      assert longer[0] == patches[0] && longer[1..] == patches[1..] + [last];
      PatchedSnoc(ApplyPatch(config, patches[0], CAMPAIGN_STRIP_KEYS), patches[1..], last);
    }
  }

  /** Applying the campaigns lowest first leaves the key as the highest campaign that sets it says. */
  lemma {:induction false} CampaignsSetKey(config: Value, active: seq<Campaign>, key: string)
    requires forall i | 0 <= i < |active| :: WellTyped(Table(active[i].patch), key)
    ensures CellAt(Patched(config, ReversedPatches(active), CAMPAIGN_STRIP_KEYS), FeaturePath(key)) ==
            CellOr(BoolCell(CampaignKey(active, key)), CellAt(config, FeaturePath(key)))
    decreases active
  {
    if active != [] {
      var lower := ReversedPatches(active[1..]);
      var below := Patched(config, lower, CAMPAIGN_STRIP_KEYS);
      CampaignsSetKey(config, active[1..], key);
      PatchedSnoc(config, lower, active[0].patch);
      MergeCell(below, Sanitized(below, active[0].patch, CAMPAIGN_STRIP_KEYS), FeaturePath(key));
      FeatureKeySurvivesSanitizing(below, active[0].patch, key);
      WellTypedForces(Table(active[0].patch), key);
    }
  }

  function ForcedByLayer(layer: Option<Value>, path: Path): Option<Cell> {
    if layer.Some? then Forced(layer.value, path) else None
  }

  lemma ListedForces(layer: Option<Value>, path: Path)
    ensures LastForced(Listed(layer), path) == ForcedByLayer(layer, path)
  {
    if layer.Some? {
      assert Listed(layer)[1..] == [];
    }
  }

  /** The top layers decide a cell from the highest down. */
  lemma TopLayersForce(layers: ConfigLayers, path: Path)
    ensures LastForced(TopLayers(layers), path) ==
            ForcedByLayer(layers.mdmRequirements, path)
              .Or(ForcedByLayer(layers.systemRequirements, path))
              .Or(ForcedByLayer(layers.userRequirements, path))
              .Or(ForcedByLayer(layers.envOverlay, path))
  {
    var u, s, m := Listed(layers.userRequirements), Listed(layers.systemRequirements), Listed(layers.mdmRequirements);
    LastForcedConcat(Listed(layers.envOverlay), RequirementsInOrder(layers), path);
    LastForcedConcat(u + s, m, path);
    LastForcedConcat(u, s, path);
    ListedForces(layers.envOverlay, path);
    ListedForces(layers.userRequirements, path);
    ListedForces(layers.systemRequirements, path);
    ListedForces(layers.mdmRequirements, path);
  }

  /** The per-feature split and the full merge agree on the key. */
  lemma SplitAgreesWithMerge(layers: ConfigLayers, active: seq<Campaign>, key: string)
    requires WellTypedLayers(layers, active, key)
    ensures SplitFeature(layers, active, key).pin.Or(SplitFeature(layers, active, key).Merged()) ==
            KeyIn(ApplyCampaignOverrides(layers, EffectiveBase(layers), active), key)
  {
    var split := SplitFeature(layers, active, key);
    EffectiveCell(layers, active, key);
    CellIsKey(ApplyCampaignOverrides(layers, EffectiveBase(layers), active), key, split.pin.Or(split.Merged()));
  }

  /** What a cell becomes under something that may force it. */
  function CellOr(forced: Option<Cell>, otherwise: Cell): Cell {
    if forced.Some? then forced.value else otherwise
  }

  lemma CellIsKey(doc: Value, key: string, b: Option<bool>)
    requires CellAt(doc, FeaturePath(key)) == CellOr(BoolCell(b), Absent)
    ensures KeyIn(doc, key) == b
  {}

  /** The keys of the layers below the campaigns and the requirements. */
  function LowerKey(layers: ConfigLayers, key: string): Option<bool> {
    KeyIn(layers.user, key).Or(KeyIn(layers.managed, key)).Or(KeyIn(layers.systemManaged, key))
  }

  /** The key's cell in the effective config: the split's values in order of precedence. */
  lemma EffectiveCell(layers: ConfigLayers, active: seq<Campaign>, key: string)
    requires WellTypedLayers(layers, active, key)
    ensures var split := SplitFeature(layers, active, key);
            CellAt(ApplyCampaignOverrides(layers, EffectiveBase(layers), active), FeaturePath(key)) ==
            CellOr(BoolCell(split.pin.Or(split.Merged())), Absent)
  {
    var path, base, top := FeaturePath(key), EffectiveBase(layers), TopLayers(layers);
    var patched := Patched(base, ReversedPatches(active), CAMPAIGN_STRIP_KEYS);
    MergeAllCell(patched, top, path);
    CampaignsSetKey(base, active, key);
    MergeAllCell(Lower(layers), top, path);
    LowerSetsKey(layers, key);
    TopSetsKey(layers, active, key);
    PrecedenceOfSplit(layers, active, key);
  }

  lemma PrecedenceOfSplit(layers: ConfigLayers, active: seq<Campaign>, key: string)
    ensures var split, overlay := SplitFeature(layers, active, key), KeyInLayer(layers.envOverlay, key);
            split.pin.Or(split.Merged()) ==
            split.pin.Or(overlay).Or(CampaignKey(active, key)).Or(LowerKey(layers, key))
  {}

  lemma TopSetsKey(layers: ConfigLayers, active: seq<Campaign>, key: string)
    requires WellTypedLayers(layers, active, key)
    ensures LastForced(TopLayers(layers), FeaturePath(key)) ==
            BoolCell(SplitFeature(layers, active, key).pin.Or(KeyInLayer(layers.envOverlay, key)))
  {
    TopLayersForce(layers, FeaturePath(key));
    if layers.envOverlay.Some? { WellTypedForces(layers.envOverlay.value, key); }
    if layers.userRequirements.Some? { WellTypedForces(layers.userRequirements.value, key); }
    if layers.systemRequirements.Some? { WellTypedForces(layers.systemRequirements.value, key); }
    if layers.mdmRequirements.Some? { WellTypedForces(layers.mdmRequirements.value, key); }
  }

  lemma LowerSetsKey(layers: ConfigLayers, key: string)
    requires WellTypedLayers(layers, [], key)
    ensures CellAt(Lower(layers), FeaturePath(key)) == CellOr(BoolCell(LowerKey(layers, key)), Absent)
  {
    var path := FeaturePath(key);
    MergeCell(Merge(layers.systemManaged, layers.managed), layers.user, path);
    MergeCell(layers.systemManaged, layers.managed, path);
    ForcedIsOwnCell(layers.systemManaged, path);
    WellTypedForces(layers.user, key);
    WellTypedForces(layers.managed, key);
    WellTypedForces(layers.systemManaged, key);
  }

  // ---------------------------------------------------------------- what the parts of the split mean

  function WithoutRequirements(layers: ConfigLayers): ConfigLayers {
    layers.(userRequirements := None, systemRequirements := None, mdmRequirements := None)
  }

  function EffectiveKey(layers: ConfigLayers, active: seq<Campaign>, key: string): Option<bool> {
    KeyIn(ApplyCampaignOverrides(layers, EffectiveBase(layers), active), key)
  }

  /** The merged part is what the key would be without the requirements; the pin is what they say, MDM first. */
  lemma MergedIsWithoutRequirements(layers: ConfigLayers, active: seq<Campaign>, key: string)
    requires WellTypedLayers(layers, active, key)
    ensures SplitFeature(layers, active, key).Merged() == EffectiveKey(WithoutRequirements(layers), active, key)
    ensures SplitFeature(layers, active, key).pin ==
            if KeyInLayer(layers.mdmRequirements, key).Some? then KeyInLayer(layers.mdmRequirements, key)
            else if KeyInLayer(layers.systemRequirements, key).Some? then KeyInLayer(layers.systemRequirements, key)
            else KeyInLayer(layers.userRequirements, key)
  {
    SplitAgreesWithMerge(WithoutRequirements(layers), active, key);
  }

  /**
   A write to the user's file decides the key if and only if nothing is pinned and nothing stands above it;
   otherwise the effective value is what the pin or the layer above says, whatever the user writes.
   */
  lemma UserWriteDecidesExactly(layers: ConfigLayers, active: seq<Campaign>, key: string, user: Value, b: bool)
    requires WellTypedLayers(layers, active, key) && WellTyped(user, key) && KeyIn(user, key) == Some(b)
    ensures var split := SplitFeature(layers, active, key);
            EffectiveKey(layers.(user := user), active, key) ==
            if split.pin.Some? then split.pin
            else if split.aboveUser.Some? then Some(split.aboveUser.value.value)
            else Some(b)
  {
    SplitAgreesWithMerge(layers.(user := user), active, key);
  }

  /** Without a user key the layer below decides, if nothing above does. */
  lemma BelowDecidesWithoutUser(layers: ConfigLayers, active: seq<Campaign>, key: string, user: Value)
    requires WellTypedLayers(layers, active, key) && WellTyped(user, key) && KeyIn(user, key).None?
    ensures var split := SplitFeature(layers, active, key);
            split.pin.None? && split.aboveUser.None? ==>
              EffectiveKey(layers.(user := user), active, key) == ValueOf(split.belowUser)
  {
    SplitAgreesWithMerge(layers.(user := user), active, key);
  }

  /** The labels name the layer the value comes from. */
  lemma LabelsAreRight(layers: ConfigLayers, active: seq<Campaign>, key: string)
    ensures var split := SplitFeature(layers, active, key);
            && (split.aboveUser == if KeyInLayer(layers.envOverlay, key).Some?
                                   then Some(LayerValue(Overlay, KeyInLayer(layers.envOverlay, key).value))
                                   else if CampaignKey(active, key).Some?
                                   then Some(LayerValue(CampaignLayer, CampaignKey(active, key).value)) else None)
            && (split.belowUser == if KeyIn(layers.managed, key).Some?
                                   then Some(LayerValue(Managed, KeyIn(layers.managed, key).value))
                                   else if KeyIn(layers.systemManaged, key).Some?
                                   then Some(LayerValue(SystemManaged, KeyIn(layers.systemManaged, key).value)) else None)
  {}
}
