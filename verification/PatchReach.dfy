/**
 What patches reach, with the protected keys spelt out: which leaves of a patch survive sanitising, what
 no campaign changes, and who decides every other cell of the effective config and of the overlay.
 */
module PatchReach {
  import opened Prelude
  import opened Toml
  import opened Patches
  import opened Layers
  import opened Overlay

  /** One path lies on the way to the other. */
  predicate Meets(p: Path, q: Path) { p <= q || q <= p }

  /** The top-level keys no patch sets, and those no campaign sets. */
  predicate IsStripped(key: string, campaign: bool) {
    || key == "version_overrides" || key == "campaigns" || key == "auth_provider" || key == "model_providers"
    || (campaign && (key == "auth" || key == "ezer_com_config"))
  }

  /** The keys that select a local identity or the destination it is bound to. */
  predicate BindsIdentity(config: Value, path: Path) {
    && |path| >= 3 && path[0] == "model"
    && (path[2] == "mtls_cert_dir"
        || ((path[2] == "base_url" || path[2] == "api_base_url")
            && At(config, ["model", path[1], "mtls_cert_dir"]).Some?))
  }

  function StripKeys(campaign: bool): seq<string> { if campaign then CAMPAIGN_STRIP_KEYS else PATCH_STRIP_KEYS }

  lemma StripKeysAreSpelt(key: string, campaign: bool)
    ensures key in KeySet(StripKeys(campaign)) <==> IsStripped(key, campaign)
  {}

  // ---------------------------------------------------------------- leaves of one patch

  lemma LeafIsForced(v: Value, path: Path)
    ensures IsLeafAt(v, path) <==> Forced(v, path).Some? && Forced(v, path).value.Leaf?
    ensures IsLeafAt(v, path) ==> Forced(v, path) == Some(Leaf(At(v, path).value))
  {
    ForcedIsOwnCell(v, path);
  }

  /** Below a leaf there is nothing. */
  lemma {:induction false} LeafIsLowest(v: Value, p: Path, q: Path)
    requires IsLeafAt(v, p) && At(v, q).Some? && p <= q
    ensures p == q
  {
    assert q == p + q[|p|..];
    AtConcat(v, p, q[|p|..]);
  }

  lemma {:induction false} CutIsOnTheWay(patch: Entries, path: Path)
    requires path != []
    ensures var cut := path[..CutDepth(patch, path)];
            cut < path ==> IsLeafAt(Table(patch), cut)
    decreases path
  {
    var cut := path[..CutDepth(patch, path)];
    if |path| > 1 && path[0] in patch {
      if patch[path[0]].Table? {
        CutIsOnTheWay(patch[path[0]].entries, path[1..]);
        assert cut[1..] == path[1..][..CutDepth(patch[path[0]].entries, path[1..])];
      } else {
        assert cut[1..] == [];
      }
      Descend(Table(patch), cut);
    }
  }

  /** The cut is at or above `path`, and above it only at a leaf. */
  lemma {:induction false} CutReachesLeaf(patch: Entries, path: Path, q: Path)
    requires path != [] && q < path && IsLeafAt(Table(patch), q)
    ensures path[..CutDepth(patch, path)] == q
    decreases path
  {
    Descend(Table(patch), q);
    if patch[path[0]].Table? {
      assert q[1..] < path[1..];
      CutReachesLeaf(patch[path[0]].entries, path[1..], q[1..]);
      assert path[..CutDepth(patch, path)] == [path[0]] + q[1..];
    } else if |q| > 1 {
      assert false;
    }
  }

  /** Stripping a path takes exactly the leaves that meet it. */
  lemma StripPathLeaves(patch: Entries, path: Path, q: Path)
    requires path != []
    ensures IsLeafAt(Table(StripPath(patch, path)), q) <==> IsLeafAt(Table(patch), q) && !Meets(path, q)
    ensures IsLeafAt(Table(StripPath(patch, path)), q) ==> At(Table(StripPath(patch, path)), q) == At(Table(patch), q)
  {
    var cut := path[..CutDepth(patch, path)];
    StripPathIsOneCut(patch, path, q);
    LeafIsForced(Table(patch), q);
    LeafIsForced(Table(StripPath(patch, path)), q);
    if IsLeafAt(Table(patch), q) {
      if q < path {
        CutReachesLeaf(patch, path, q);
      } else if cut <= q {
        CutIsOnTheWay(patch, path);
        if cut != path {
          LeafIsLowest(Table(patch), cut, q);
        }
      }
    }
  }

  lemma StripBothPaths(patch: Entries)
    ensures StripPaths(patch, PATCH_STRIP_PATHS) ==
            StripPath(StripPath(patch, ["ui", "status_line"]), ["ui", "notifications", "hooks"])
  {
    assert PATCH_STRIP_PATHS[1..][1..] == [];
  }

  /** The two command-carrying paths below `ui`. */
  predicate MeetsCommand(path: Path) {
    Meets(["ui", "status_line"], path) || Meets(["ui", "notifications", "hooks"], path)
  }

  lemma StripPathsLeaves(patch: Entries, path: Path)
    ensures var kept := Table(StripPaths(patch, PATCH_STRIP_PATHS));
            && (IsLeafAt(kept, path) <==> IsLeafAt(Table(patch), path) && !MeetsCommand(path))
            && (IsLeafAt(kept, path) ==> At(kept, path) == At(Table(patch), path))
  {
    StripBothPaths(patch);
    StripPathLeaves(patch, ["ui", "status_line"], path);
    StripPathLeaves(StripPath(patch, ["ui", "status_line"]), ["ui", "notifications", "hooks"], path);
  }

  lemma BareLeaves(patch: Entries, campaign: bool, path: Path)
    requires path != []
    ensures var bare := Table(patch - KeySet(StripKeys(campaign)));
            At(bare, path) == if IsStripped(path[0], campaign) then None else At(Table(patch), path)
  {
    StripKeysAreSpelt(path[0], campaign);
    Descend(Table(patch), path);
    Descend(Table(patch - KeySet(StripKeys(campaign))), path);
  }

  /** Clamping one model takes the keys that bind its identity. */
  lemma ClampModelLeaves(config: Value, id: string, model: Value, rest: Path)
    ensures var kept := ClampModel(model, HasIdentity(config, id));
            IsLeafAt(model, rest) && !BindsIdentity(config, ["model", id] + rest) ==> At(kept, rest) == At(model, rest)
    ensures var kept := ClampModel(model, HasIdentity(config, id));
            IsLeafAt(kept, rest) ==> At(kept, rest) == At(model, rest) && !BindsIdentity(config, ["model", id] + rest)
  {
    var path := ["model", id] + rest;
    if rest != [] {
      assert path[2] == rest[0];
      Descend(model, rest);
      Descend(ClampModel(model, HasIdentity(config, id)), rest);
    }
  }

  lemma ClampLeaves(config: Value, patch: Entries, path: Path)
    requires path != []
    ensures var kept := Table(ClampModels(config, patch));
            && (IsLeafAt(kept, path) <==> IsLeafAt(Table(patch), path) && !BindsIdentity(config, path))
            && (IsLeafAt(kept, path) ==> At(kept, path) == At(Table(patch), path))
  {
    var kept := Table(ClampModels(config, patch));
    Descend(Table(patch), path);
    Descend(kept, path);
    if path[0] == "model" && |path| > 1 && "model" in patch && patch["model"].Table? {
      Descend(patch["model"], path[1..]);
      Descend(kept.entries["model"], path[1..]);
      var id, rest := path[1], path[2..];
      assert path[1..][1..] == rest && path == ["model", id] + rest;
      if id in patch["model"].entries {
        ClampModelLeaves(config, id, patch["model"].entries[id], rest);
      }
    }
  }

  /** No stage of sanitising takes a leaf at `path`. */
  predicate Survives(config: Value, path: Path, campaign: bool) {
    && path != [] && !IsStripped(path[0], campaign) && !BindsIdentity(config, path) && !MeetsCommand(path)
  }

  /**
   Sanitising keeps exactly the leaves that are not below a stripped key, do not meet a command-carrying
   path and do not bind an identity, with their values; the coupled domain lists apart.
   */
  lemma SanitizedLeavesExactly(config: Value, patch: Entries, campaign: bool, path: Path)
    requires path != [] && !InDomainLists(path)
    ensures var kept := Sanitized(config, patch, StripKeys(campaign));
            && (IsLeafAt(kept, path) <==> IsLeafAt(Table(patch), path) && Survives(config, path, campaign))
            && (IsLeafAt(kept, path) ==> At(kept, path) == At(Table(patch), path))
  {
    var bare := patch - KeySet(StripKeys(campaign));
    var clamped := ClampModels(config, bare);
    var stripped := Stripped(config, patch, StripKeys(campaign));
    BareLeaves(patch, campaign, path);
    ClampLeaves(config, bare, path);
    StripPathsLeaves(clamped, path);
    NormalizeKeepsOtherCells(stripped, path);
    LeafIsForced(stripped, path);
    LeafIsForced(Normalize(stripped), path);
  }

  // ---------------------------------------------------------------- campaigns

  /** The subtrees no campaign changes. */
  predicate OutOfReach(path: Path) {
    || path == ["version_overrides"] || path == ["campaigns"] || path == ["auth_provider"]
    || path == ["model_providers"] || path == ["auth"] || path == ["ezer_com_config"]
    || path == ["ui", "status_line"] || path == ["ui", "notifications", "hooks"]
  }

  lemma OutOfReachIsProtected(path: Path)
    requires OutOfReach(path)
    ensures Protected(path, CAMPAIGN_STRIP_KEYS)
  {
    assert ["ui", "status_line"] == PATCH_STRIP_PATHS[0] && ["ui", "notifications", "hooks"] == PATCH_STRIP_PATHS[1];
    if |path| == 1 {
      StripKeysAreSpelt(path[0], true);
    }
  }

  /** Whatever the campaigns, these subtrees of the effective config are those of the base. */
  lemma CampaignsCannotReach(layers: ConfigLayers, remote: seq<Campaign>, dismissed: set<string>,
                             envSwitch: Option<bool>, path: Path)
    requires OutOfReach(path)
    ensures At(Effective(layers, remote, dismissed, envSwitch), path) == At(EffectiveBase(layers), path)
  {
    var base := EffectiveBase(layers);
    var patches := ReversedPatches(ResolveCampaigns(layers, base, remote, dismissed, envSwitch));
    OutOfReachIsProtected(path);
    PatchedKeepsProtected(base, patches, CAMPAIGN_STRIP_KEYS, path);
    ReappliedSubtreeIsBase(layers, Patched(base, patches, CAMPAIGN_STRIP_KEYS), path);
  }

  /** A path no stage of sanitising looks at. */
  predicate IsOrdinary(path: Path) {
    && path != [] && path[0] != "model" && path[0] != "ui" && !IsStripped(path[0], true) && !InDomainLists(path)
  }

  lemma OrdinaryCellIsKept(config: Value, patch: Entries, campaign: bool, path: Path)
    requires IsOrdinary(path)
    ensures Forced(Sanitized(config, patch, StripKeys(campaign)), path) == Forced(Table(patch), path)
  {
    var bare := patch - KeySet(StripKeys(campaign));
    StripKeysAreSpelt(path[0], campaign);
    Descend(Table(patch), path);
    Descend(Table(bare), path);
    ClampOnlyRemoves(config, bare, path);
    StripPathsElsewhere(ClampModels(config, bare), PATCH_STRIP_PATHS, path);
    NormalizeKeepsOtherCells(Stripped(config, patch, StripKeys(campaign)), path);
  }

  /** The cell forced by the last patch that forces one. */
  function LastPatch(patches: seq<Entries>, path: Path): Option<Cell> {
    if patches == [] then None else LastPatch(patches[1..], path).Or(Forced(Table(patches[0]), path))
  }

  /** The cell forced by the first campaign, the one of highest priority, that forces one. */
  function FirstCampaign(active: seq<Campaign>, path: Path): Option<Cell> {
    if active == [] then None else Forced(Table(active[0].patch), path).Or(FirstCampaign(active[1..], path))
  }

  function CellOf(forced: Option<Cell>, otherwise: Cell): Cell { if forced.Some? then forced.value else otherwise }

  lemma {:induction false} PatchedCell(config: Value, patches: seq<Entries>, campaign: bool, path: Path)
    requires IsOrdinary(path)
    ensures CellAt(Patched(config, patches, StripKeys(campaign)), path) == CellOf(LastPatch(patches, path), CellAt(config, path))
    decreases patches
  {
    if patches != [] {
      var over := Sanitized(config, patches[0], StripKeys(campaign));
      PatchedCell(Merge(config, over), patches[1..], campaign, path);
      MergeCell(config, over, path);
      OrdinaryCellIsKept(config, patches[0], campaign, path);
    }
  }

  lemma {:induction false} LastPatchSnoc(patches: seq<Entries>, last: Entries, path: Path)
    ensures LastPatch(patches + [last], path) == Forced(Table(last), path).Or(LastPatch(patches, path))
  {
    var more := patches + [last];
    if patches == [] {
      assert more[1..] == [];
    } else {
      assert more[1..] == patches[1..] + [last];
      LastPatchSnoc(patches[1..], last, path);
    }
  }

  lemma {:induction false} LastPatchIsFirstCampaign(active: seq<Campaign>, path: Path)
    ensures LastPatch(ReversedPatches(active), path) == FirstCampaign(active, path)
  {
    if active != [] {
      LastPatchSnoc(ReversedPatches(active[1..]), active[0].patch, path);
      LastPatchIsFirstCampaign(active[1..], path);
    }
  }

  /** Every ordinary cell is decided by the top layers, then by the highest campaign forcing it, then by the base. */
  lemma OrdinaryCellIsDecided(layers: ConfigLayers, base: Value, active: seq<Campaign>, path: Path)
    requires IsOrdinary(path)
    ensures CellAt(ApplyCampaignOverrides(layers, base, active), path) ==
            CellOf(LastForced(TopLayers(layers), path).Or(FirstCampaign(active, path)), CellAt(base, path))
  {
    var patches := ReversedPatches(active);
    MergeAllCell(Patched(base, patches, CAMPAIGN_STRIP_KEYS), TopLayers(layers), path);
    PatchedCell(base, patches, true, path);
    LastPatchIsFirstCampaign(active, path);
  }

  /** A model that is still bound to a certificate directory after the campaigns kept it and its destinations. */
  lemma CampaignsCannotRebind(layers: ConfigLayers, active: seq<Campaign>, id: string)
    ensures var base := EffectiveBase(layers);
            var patched := Patched(base, ReversedPatches(active), CAMPAIGN_STRIP_KEYS);
            At(patched, ["model", id, "mtls_cert_dir"]).Some? ==>
              forall key | key == "mtls_cert_dir" || key == "base_url" || key == "api_base_url" ::
                At(patched, ["model", id, key]) == At(base, ["model", id, key])
  {
    var base, patches := EffectiveBase(layers), ReversedPatches(active);
    if At(Patched(base, patches, CAMPAIGN_STRIP_KEYS), ["model", id, "mtls_cert_dir"]).Some? {
      PatchedKeepsIdentity(base, patches, CAMPAIGN_STRIP_KEYS, id, "mtls_cert_dir");
      PatchedKeepsIdentity(base, patches, CAMPAIGN_STRIP_KEYS, id, "base_url");
      PatchedKeepsIdentity(base, patches, CAMPAIGN_STRIP_KEYS, id, "api_base_url");
    }
  }

  // ---------------------------------------------------------------- the overlay

  /** The nine paths an overlay may set, each with what lies below it. */
  predicate IsOpenToOverlay(path: Path) {
    || ["models"] <= path || ["features"] <= path
    || ["toolset", "bash", "login_shell_capture"] <= path
    || ["toolset", "web_search", "allowed_domains"] <= path
    || ["toolset", "web_search", "excluded_domains"] <= path
    || ["shell_environment_policy", "inherit"] <= path
    || ["shell_environment_policy", "ignore_default_excludes"] <= path
    || ["shell_environment_policy", "exclude"] <= path
    || ["shell_environment_policy", "include_only"] <= path
  }

  lemma OpenIsAllowed(path: Path)
    ensures Allowed(OVERLAY_ALLOW_PATHS, path) <==> IsOpenToOverlay(path)
  {
    var all := OVERLAY_ALLOW_PATHS;
    assert all[0] == ["models"] && all[1] == ["features"] && all[2] == ["toolset", "bash", "login_shell_capture"]
           && all[3] == ["toolset", "web_search", "allowed_domains"]
           && all[4] == ["toolset", "web_search", "excluded_domains"]
           && all[5] == ["shell_environment_policy", "inherit"]
           && all[6] == ["shell_environment_policy", "ignore_default_excludes"]
           && all[7] == ["shell_environment_policy", "exclude"]
           && all[8] == ["shell_environment_policy", "include_only"] && |all| == 9;
  }

  lemma WithoutOther(v: Value, key: string, path: Path)
    requires path != [] && path[0] != key
    ensures At(Without(v, key), path) == At(v, path)
  {
    Descend(v, path);
    Descend(Without(v, key), path);
  }

  /** Before it is restricted, an overlay holds the last version patch forcing an ordinary cell, else what was expanded. */
  lemma PreparedCell(overlay: Value, expand: Value -> Value, versionPatches: seq<Entries>, path: Path)
    requires IsOrdinary(path)
    ensures CellAt(Prepared(overlay, expand, versionPatches), path) ==
            CellOf(LastPatch(versionPatches, path), CellAt(expand(overlay), path))
  {
    var own := Without(expand(overlay), "version_overrides");
    WithoutOther(expand(overlay), "version_overrides", path);
    PatchedCell(own, versionPatches, false, path);
    WithoutOther(Patched(own, versionPatches, PATCH_STRIP_KEYS), "campaigns", path);
  }

  /**
   A usable overlay has a leaf at an ordinary path exactly when the path is open to overlays and nested, and
   the last version patch that forces its cell, or else the expanded overlay, has that leaf there.
   */
  lemma OverlayLeavesExactly(overlay: Value, expand: Value -> Value, versionPatches: seq<Entries>, path: Path)
    requires IsOrdinary(path) && FinalizeOverlay(overlay, expand, Some(versionPatches)).Some?
    ensures var final := FinalizeOverlay(overlay, expand, Some(versionPatches)).value;
            var asked := CellOf(LastPatch(versionPatches, path), CellAt(expand(overlay), path));
            && (IsLeafAt(final, path) <==> IsOpenToOverlay(path) && |path| > 1 && asked.Leaf?)
            && (IsLeafAt(final, path) ==> asked == Leaf(At(final, path).value))
  {
    FinalOverlayIsConfined(overlay, expand, versionPatches, path);
    PreparedCell(overlay, expand, versionPatches, path);
    OpenIsAllowed(path);
  }
}
