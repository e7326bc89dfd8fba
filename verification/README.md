# Verified model of the configuration, publication and cache cores

A Dafny 4.11 model of five stateful parts of the repository, with proofs that hold for every input,
every run and every interleaving. `dafny verify dfyconfig.toml` checks the whole project.

| part | modules | main results |
|---|---|---|
| layered configuration | `Toml`, `Patches`, `Layers`, `CampaignOrder`, `Registry`, `Overlay`, `PatchReach` | overlay and requirement leaves always win; re-applying them is a no-op without campaigns; dismissal restores the base exactly outside the coupled lists; exactly which leaves of a patch survive, and that none reaches a protected key or retargets an identity; the two domain lists always come from one source; the per-feature split agrees with the merge; the overlay is confined |
| atomic publication | `FileTree`, `Resolver`, `BoundIdentity`, `BoundChecks`, `Publish`, `PublishedLast` | the symlink resolver refines POSIX pathname resolution and always terminates within its budget; what a passing identity check means while the hold is open, and exactly when the rename replaces the file checked; a destination is never partial; success means published and the last publication wins; exclusive creation has one winner |
| bundle cache | `BundleNames`, `BundleSync`, `BundleMembers`, `BundleInputs`, `BundlePayload`, `BundlePaths`, `BundleRetry`, `BundleCache`, `BundleRuns` | user content survives every step of every sync, failing ones included; exactly which paths are accepted, and that no sync leaves them; exactly when the manifest tells the truth about what was last written, when a repeated or a retried sync converges; JSON syncs are confluent and idempotent |
| session registry | `Sessions` | committed changes are serialised in rename order, readers see whole lists, time-outs change nothing |
| agent discovery | `Discovery` | the listing and the lookup by name agree, with the exact exceptions |

How the parts are modelled:

- **Configuration.** A document is a tree of tables, arrays and scalars. The proofs rest on reading a
  document as cells, one per path: merging a layer is a register write to the cells that layer
  *forces*, so a stack of layers is last-write-wins although the merge of trees is not associative.
- **Resolver.** The file system is a tree of inodes that may be a different one at every system call.
  On a still one the work-list loop is shown to simulate the recursive resolution of section 4.13 of
  POSIX.1-2017 in both directions, counting links. Permissions, the sticky-directory rule and the follow
  probe are answers of the kernel given from outside.
- **Concurrent protocols** (`BoundIdentity`, `Publish`, `Sessions`) are state machines with one event
  per system call, any number of processes, failures and crashes at every point, and theorems about
  every reachable state.
- **Bundle cache.** A class over a disk map and a manifest file. Every file-system call may fail, and a
  failing write may leave anything in the file. A ghost trace records the disk after every change, a
  ghost counter the calls that failed.
  Checksums are an arbitrary function.
- **Loops over maps and directories** take their elements in an arbitrary order.

Where the code and its documentation part ways, the model follows the code:

- `patch_touches_path` is documented as telling whether the patch affects the path; for the empty path it
  answers false although every patch holding a key changes the document. The exact condition is
  `Patches.TouchesIsExactBelowRoot`.
- Publishing "must prove this dest is still the same file, or still absent", but the proof follows links and
  the rename does not: `BoundIdentity.SwappedInLinkIsReplaced` and `BoundIdentity.DanglingLinkIsReplaced`,
  with the exact conditions in `BoundIdentity.NoAbaOnPublish` and `BoundIdentity.AbsentStaysAbsent`.
- Dismissing the campaigns that touch a web-search domain list does not always restore it, because
  normalisation couples the two lists: `Layers.DomainListsAreCoupled`, with the exact condition in
  `Layers.DismissalRestoresExactly` and the remedy in `Layers.DismissingBothListsRestores`.
- An archive with two members on one cache path judges the second one against the old manifest:
  `BundleRuns.DuplicateTargetsBreakHistory`, with the exact conditions in `BundleRuns.EveryRunHasHistory`
  and `BundleRuns.RepeatedArchiveChangesNothing`.
- A sync that fails after updating a file is not made up for by a retry, unless the file kept its checksum:
  `BundleRetry.UpdatedFileIsOrphaned`, with the exact condition in `BundleRetry.RetryConvergesExactly`.
- "Visible equals callable" fails for the built-ins outside `subagent_variants()` unless the project
  defines the name, and for the empty name: `Discovery.VisibleIffCallable`. (The comment on the
  built-in names counts six unadvertised ones; there are nine.)

## Model

| member | source | states |
|---|---|---|
| `Toml.DeepMerge` | crates/codegen/ezer-config/src/loader.rs:554-569 | the in-place merge, for every iteration order over the overriding table, computes the recursive merge |
| `Toml.MergeCell` | crates/codegen/ezer-config/src/loader.rs:554-569 | merging one layer writes every cell that layer forces (a leaf, or the absence of anything below one) and changes no other cell of the document |
| `Toml.MergeAllCell` | crates/codegen/ezer-config/src/config_layers.rs:127-148 | after any stack of layers a cell holds what the last layer forcing it says, else what the base held |
| `Toml.ForcedIsOwnCell` | crates/codegen/ezer-config/src/loader.rs:554-569 | a document holds exactly the cells it forces, and is empty where it forces none |
| `Toml.CellsDetermineValue` | crates/codegen/ezer-config/src/loader.rs:554-569 | two documents that agree in every cell are equal: the cell reading loses nothing |
| `Toml.CellsBelowDetermineSubtree` | crates/codegen/ezer-config/src/loader.rs:554-569 | agreement of every cell at or below a path is equality of the subtrees there |
| `Toml.MergeAllIdempotent` | crates/codegen/ezer-config/src/config_layers.rs:194-199 | folding the same sequence of layers in twice gives the tree that folding it in once gives |
| `Toml.TopLayersWin` | crates/codegen/ezer-config/src/config_layers.rs:194-199 | every cell of the top layers merged among themselves is a cell of the result, above any base whatever |
| `Toml.UnforcedKeepsSubtree` | crates/codegen/ezer-config/src/loader.rs:554-569 | a layer that forces nothing at a path leaves the whole subtree there as it was |
| `Toml.MergeIsNotAssociative` | crates/codegen/ezer-config/src/loader.rs:554-569 | a table, a scalar and a table for which regrouping the merge changes the result |
| `Patches.PatchTouchesPath` | crates/codegen/ezer-config/src/config_override.rs:51-68 | the cursor walk answers whether the merge of the patch reaches the path, through a non-table ancestor included |
| `Patches.TouchesIsExactBelowRoot` | crates/codegen/ezer-config/src/config_override.rs:48-68 | the answer is exact (true iff some document, a table at its root, changes at the path under the merge) if and only if the path is not empty or the patch is; at the empty path the code always answers false |
| `Patches.StripPathIsOneCut` | crates/codegen/ezer-config/src/config_override.rs:196-212 | stripping cuts out one subtree, at the path or at the first non-table above it, and keeps every other cell |
| `Patches.StripPathsOnlyRemoves` | crates/codegen/ezer-config/src/config_override.rs:185-187 | stripping a list of paths forces nothing the patch did not force already |
| `Patches.StripPatchKeys` | crates/codegen/ezer-config/src/config_override.rs:165-168 | the loop over the strip keys removes exactly those keys |
| `Patches.StripPatchPaths` | crates/codegen/ezer-config/src/config_override.rs:185-187 | the loop over the strip paths computes the successive cuts |
| `Patches.ClampPatchModels` | crates/codegen/ezer-config/src/config_override.rs:169-184 | the loop over the models of a patch, in any order, clamps each against the config as it stands |
| `Patches.ClampedModelKeys` | crates/codegen/ezer-config/src/config_override.rs:169-184 | a clamped patch selects no certificate directory, and no destination for a model that has one |
| `Patches.ClampOnlyRemoves` | crates/codegen/ezer-config/src/config_override.rs:169-184 | clamping only removes, and only inside the model tables |
| `Patches.NormalizeKeepsOtherCells` | crates/codegen/ezer-config/src/loader.rs:519-550 | normalising a layer changes no cell outside the two web-search domain lists |
| `Patches.NormalizeDecidesBothLists` | crates/codegen/ezer-config/src/loader.rs:519-550 | a normalised layer that sets one non-empty list holds both lists |
| `Patches.NormalizeExactly` | crates/codegen/ezer-config/src/loader.rs:536-550 | if exactly one domain list is set, it is kept and the other one cleared; otherwise the layer is unchanged |
| `Patches.NormalSetsBoth` | crates/codegen/ezer-config/src/loader.rs:519-550 | in a layer normalisation leaves alone, a non-empty list comes with a list, perhaps empty, on the other side |
| `Patches.NormalizeIsNormal` | crates/codegen/ezer-config/src/loader.rs:519-550 | normalising twice is normalising once |
| `Patches.ApplyPatches` | crates/codegen/ezer-config/src/config_override.rs:160-194 | the loop that strips, clamps, normalises and merges each patch in turn computes the fold over the patches |
| `Patches.SanitizedOnlyRemoves` | crates/codegen/ezer-config/src/config_override.rs:160-194 | a patch after sanitising forces a subset of what it forced, the coupled domain lists apart |
| `Patches.PatchedKeepsProtected` | crates/codegen/ezer-config/src/config_override.rs:77-98 | for every list of patches, the value at every stripped key and stripped path stays what it was |
| `Patches.ApplyPatchKeepsIdentity` | crates/codegen/ezer-config/src/config_override.rs:169-184 | one patch: a model that still has its certificate directory afterwards kept that, its base URL and its API base URL |
| `Patches.PatchedKeepsIdentity` | crates/codegen/ezer-config/src/config_override.rs:160-194 | the same for every list of patches, those replacing ancestors with scalars included |
| `Layers.MergeLayers` | crates/codegen/ezer-config/src/config_layers.rs:127-148 | the in-place merge of the layers, with and without the overlay, is the fold in precedence order |
| `Layers.MergeCampaignEntries` | crates/codegen/ezer-config/src/campaigns.rs:77-90 | the nested loops with a seen set keep, of all sources in order, the first entry of each id |
| `Layers.UnseenSelectsFirst` | crates/codegen/ezer-config/src/campaigns.rs:77-90 | an entry is kept iff it is the first one bearing its id and that id is new |
| `Layers.UnseenDistinct` | crates/codegen/ezer-config/src/campaigns.rs:77-90 | kept entries have pairwise distinct ids |
| `Layers.FilterActiveMembers` | crates/codegen/ezer-config/src/campaigns.rs:92-101 | the active campaigns are exactly the merged ones that are not dismissed |
| `Layers.EffectiveConfigWithCampaigns` | crates/codegen/ezer-config/src/config_layers.rs:215-226 | the in-place pipeline computes base, campaigns lowest priority first, overlay, requirements |
| `Layers.ClampedLeavesWin` | crates/codegen/ezer-config/src/config_layers.rs:192-213 | for every layer stack, every config and every set of active campaigns, each leaf of the overlay and the requirements merged in order is a leaf of the effective config with the same value |
| `Layers.NoCampaignsIsBase` | crates/codegen/ezer-config/src/config_layers.rs:118-148 | with no active campaign the re-applied overlay and requirements change nothing: the result equals the base |
| `Layers.ReappliedSubtreeIsBase` | crates/codegen/ezer-config/src/config_layers.rs:194-199 | re-applying the top layers to a document that agrees with the base below a path gives the base there |
| `Layers.SurvivorsDoNotTouch` | crates/codegen/ezer-config/src/campaigns.rs:103-110 | no campaign still active after dismissing the ids touching a path touches that path |
| `Layers.DismissalRestoresBase` | crates/codegen/ezer-config/src/campaigns.rs:103-118 | dismissing the campaigns that touch a path brings the campaign-free value back there, outside the coupled lists |
| `Layers.DismissalRestoresExactly` | crates/codegen/ezer-config/src/campaigns.rs:103-118 | dismissal by path restores the base value in every situation iff the path is not the root and not on or below a domain list |
| `Layers.DomainListsAreCoupled` | crates/codegen/ezer-config/src/config_layers.rs:81-83 | a campaign setting only the other domain list changes the value unseen by the touch test: the concrete failing situation, for every such path |
| `Layers.DismissingBothListsRestores` | crates/codegen/ezer-config/src/campaigns.rs:103-118 | for a coupled list, dismissing what touches either list restores the base value |
| `Layers.DomainListsHaveOneSource` | crates/codegen/ezer-config/src/loader.rs:519-521 | over normalised layers and any active campaigns, if both domain lists are non-empty in the effective config then one single layer or campaign patch set them both: an allowlist and a blocklist of two sources are never mixed |
| `Layers.EffectiveIsStack` | crates/codegen/ezer-config/src/config_layers.rs:201-226 | the effective config is the merge of one sequence: layers, top layers, sanitised campaign patches, top layers again |
| `Layers.RootIsNeverReported` | crates/codegen/ezer-config/src/config_override.rs:51-68 | at the root a campaign changes the value and none is reported |
| `CampaignOrder.ActiveComesFromHighestSource` | crates/codegen/ezer-config/src/config_layers.rs:162-192 | a campaign is active if and only if campaigns are on, its id is not dismissed, and it is the first with that id in the highest of requirements, remote, user, managed and system managed that bears the id |
| `CampaignOrder.ActiveInSourceOrder` | crates/codegen/ezer-config/src/config_layers.rs:160-192 | the active list is the requirements part, then remote, user, managed and system managed, each in its own order |
| `CampaignOrder.SwitchedOffIsBase` | crates/codegen/ezer-config/src/config_layers.rs:248-258 | with the environment switch off or `features.campaigns = false` in the base, the effective config is the base |
| `Registry.FeatureKeySurvivesSanitizing` | crates/codegen/ezer-config-types/src/registry.rs:369-412 | no stage of sanitising a campaign patch alters a feature key |
| `Registry.CampaignsSetKey` | crates/codegen/ezer-config/src/campaigns.rs:112-118 | applying the campaigns lowest first leaves the key as the highest campaign setting it says |
| `Registry.TopLayersForce` | crates/codegen/ezer-config/src/config_layers.rs:150-160 | the overlay and the requirements decide a cell from MDM down to the overlay |
| `Registry.SplitAgreesWithMerge` | crates/codegen/ezer-config-types/src/registry.rs:132-140 | where `features` is a table and the key a boolean wherever present, the pin or else the merged split equals the boolean read from the effective config built with the same campaigns |
| `Registry.MergedIsWithoutRequirements` | crates/codegen/ezer-config-types/src/registry.rs:118-140 | the merged part is the key of the effective config without the requirements, and the pin what they say, MDM first |
| `Registry.UserWriteDecidesExactly` | crates/codegen/ezer-config-types/src/registry.rs:118-130 | a write to the user file decides the key if and only if nothing is pinned and nothing stands above it; otherwise the effective value does not depend on the write |
| `Registry.BelowDecidesWithoutUser` | crates/codegen/ezer-config-types/src/registry.rs:118-130 | without a user key, and nothing pinned or above, the layer below decides |
| `Registry.LabelsAreRight` | crates/codegen/ezer-config-types/src/registry.rs:369-412 | the labels above and below the user file name the layer the value comes from |
| `Overlay.RetainAllowedPaths` | crates/codegen/ezer-config/src/config_override.rs:130-155 | the in-place retain, for every visiting order, computes the restriction |
| `Overlay.RetainedLeavesExactly` | crates/codegen/ezer-config/src/config_override.rs:126-155 | a leaf survives with its value iff an allowed path is a prefix of its path and it is not a bare top-level value; no other leaf appears |
| `Overlay.RetainIdempotent` | crates/codegen/ezer-config/src/config_override.rs:126-155 | restricting twice is restricting once |
| `Overlay.FinalOverlayIsConfined` | crates/codegen/ezer-config/src/env_overlay.rs:169-195 | after expansion, version overrides and normalisation the overlay holds only allowed nested leaves: away from the domain lists exactly those of the prepared overlay with their values, at or below a domain list those or a cleared list |
| `Overlay.OverlayIsUsableIff` | crates/codegen/ezer-config/src/env_overlay.rs:169-195 | an overlay is usable if and only if its version overrides apply and it holds something at an allowed path, a table if at the top level |
| `Overlay.OverlayCannotReach` | crates/codegen/ezer-config/src/env_overlay.rs:169-195 | no overlay changes the effective base at a path that is neither above nor below an allowed one |
| `PatchReach.SanitizedLeavesExactly` | crates/codegen/ezer-config/src/config_override.rs:77-212 | away from the coupled domain lists, a leaf of a patch survives sanitising, with its value, if and only if it is not below a stripped top-level key, does not meet `ui.status_line` or `ui.notifications.hooks`, is not a certificate directory and is not a destination of a model that has one; keys by name, for campaigns and for version overrides |
| `PatchReach.CampaignsCannotReach` | crates/codegen/ezer-config/src/campaigns.rs:112-118 | whatever the campaigns, the subtrees of the six stripped keys and of the two command paths in the effective config are those of the base |
| `PatchReach.OrdinaryCellIsDecided` | crates/codegen/ezer-config/src/config_layers.rs:194-199 | at every other path outside `model`, `ui` and the domain lists, a cell of the effective config is decided by the top layers, else by the active campaign of highest priority that forces it, else by the base |
| `PatchReach.CampaignsCannotRebind` | crates/codegen/ezer-config/src/config_override.rs:169-184 | a model that still has a certificate directory after all campaigns kept it and both destination keys |
| `PatchReach.PreparedCell` | crates/codegen/ezer-config/src/env_overlay.rs:169-195 | before it is restricted, an overlay holds at such a path what the last version patch forcing it says, else what was expanded |
| `PatchReach.OverlayLeavesExactly` | crates/codegen/ezer-config/src/config_override.rs:101-155 | a usable overlay has a leaf at such a path if and only if the path is nested and at or below one of the nine open paths, named, and that deciding document has the leaf |
| `BundleNames.SanitizeNeverRewrites` | crates/codegen/ezer-bundle/src/lib.rs:402-442 | the sanitiser accepts a path as it stands or rejects it, so that accepted paths are its fixed points |
| `BundleNames.SanitaryPathsStayInside` | crates/codegen/ezer-bundle/src/lib.rs:402-442 | no component of an accepted path is empty, `.` or `..`, and it starts in one of the bundle directories |
| `BundleNames.ArchivePathsAreSanitary` | crates/codegen/ezer-bundle/src/lib.rs:444-455 | every cache path an archive path maps to is accepted by the sanitiser |
| `BundleNames.BundlePathsAreSanitary` | crates/codegen/ezer-bundle/src/lib.rs:490-509 | every path built for a valid name is accepted by the sanitiser |
| `BundleNames.BundlePathsAreInjective` | crates/codegen/ezer-bundle/src/lib.rs:490-495 | distinct kinds or names get distinct paths |
| `BundleNames.TwoPartPathsAreBundleFiles` | crates/codegen/ezer-bundle/src/lib.rs:402-442 | a two-component path is accepted iff it is the path of some valid name of a kind other than skills |
| `BundleSync.InstallAllIsInstall` | crates/codegen/ezer-bundle/src/lib.rs:126-147 | installing files with distinct paths one by one depends on their set only, not on the order |
| `BundleSync.SyncAt` | crates/codegen/ezer-bundle/src/lib.rs:119-163 | closed form of a whole sync at every path: content and checksum in terms of the old file, the old manifest and the wanted file |
| `BundleSync.SyncIsIdempotent` | crates/codegen/ezer-bundle/src/lib.rs:119-175 | syncing the same files again changes neither the disk nor the checksums |
| `BundleInputs.ListBundleFiles` | crates/codegen/ezer-bundle/src/lib.rs:465-488 | the loops over the payload, in any map order, list every file exactly once, or fail iff some name is invalid |
| `BundleInputs.BundleFilePaths` | crates/codegen/ezer-bundle/src/lib.rs:465-509 | the paths of a valid payload are sanitary and none is a workflow |
| `BundleInputs.ArchiveFilesAreSanitary` | crates/codegen/ezer-bundle/src/lib.rs:205-247 | every file an archive installs lands on a sanitary path |
| `BundlePayload.PathsAreSpelt` | crates/codegen/ezer-bundle/src/lib.rs:490-495 | the path of every kind and name, as a literal |
| `BundlePayload.PlainNamesAreValid` | crates/codegen/ezer-bundle/src/lib.rs:497-509 | letters, digits, dashes and underscores make a valid name |
| `BundlePayload.PayloadExactly` | crates/codegen/ezer-bundle/src/lib.rs:465-495 | the JSON payload asks for `personas/n.toml`, `roles/n.toml`, `agents/n.md` and `skills/n/SKILL.md` for the names of the respective tables, and nothing else |
| `BundlePayload.PayloadContents` | crates/codegen/ezer-bundle/src/lib.rs:465-495 | the content at each of these paths is that of its table |
| `BundlePayload.PayloadIsValid` | crates/codegen/ezer-bundle/src/lib.rs:474-488 | a payload is refused if and only if some name in some table is invalid |
| `BundlePayload.JsonSyncInstalls` | crates/codegen/ezer-bundle/src/lib.rs:119-148 | after a JSON sync each file of the payload the user does not own holds its content under its literal path and is recorded with its checksum |
| `BundlePayload.ArchivePathsExactly` | crates/codegen/ezer-bundle/src/lib.rs:444-455 | a member lands on a cache path if and only if the path is sanitary and the member is spelt `subagents/` and that path, or that path itself below `skills/` or `workflows/` |
| `BundlePayload.ArchiveFilesExactly` | crates/codegen/ezer-bundle/src/lib.rs:195-247 | an accepted archive installs exactly the files its regular members carry |
| `BundlePayload.ArchiveAcceptedExactly` | crates/codegen/ezer-bundle/src/lib.rs:195-266 | an archive is accepted if and only if it has at most 1000 regular members of at most 1 MiB and 50 MiB in all, its version files parse, and the last of them names a version |
| `BundlePaths.JoinUndoesSplit` | crates/codegen/ezer-bundle/src/lib.rs:402-410 | splitting at slashes loses nothing |
| `BundlePaths.SplitUndoesJoin` | crates/codegen/ezer-bundle/src/lib.rs:402-410 | joining components without slashes and splitting gives them back |
| `BundlePaths.SanitaryExactly` | crates/codegen/ezer-bundle/src/lib.rs:402-442 | the sanitiser accepts exactly `personas/n.toml`, `roles/n.toml`, `agents/n.md` and `workflows/n.rhai`, and any path of at least two components below `skills/`, for components that are not empty, `.` or `..` and hold no separator or control character |
| `BundlePaths.JsonSyncStaysInside` | crates/codegen/ezer-bundle/src/lib.rs:119-175 | whatever the stored manifest lists, a JSON sync leaves every other path alone and unrecorded |
| `BundlePaths.ArchiveSyncStaysInside` | crates/codegen/ezer-bundle/src/lib.rs:177-283 | the same for an archive sync, whatever the names of its members |
| `BundleCache.Cache.InstallFile` | crates/codegen/ezer-bundle/src/lib.rs:126-147 | installs one file unless the user owns what is there; every disk state on the way, failing and torn writes included, keeps the user content |
| `BundleCache.Cache.PruneRemovedFiles` | crates/codegen/ezer-bundle/src/lib.rs:312-336 | the pruning loop, in any order, removes exactly the managed files no longer wanted, and keeps the user content at every step |
| `BundleCache.Cache.WriteBundleToCache` | crates/codegen/ezer-bundle/src/lib.rs:119-175 | a JSON sync: on success the disk and manifest are those of the specification; on success and on failure, at every intermediate step, each file that differs from its sanitised entry or has none is neither overwritten nor deleted; a failure leaves a disk that differs only by wanted files written and managed ones pruned; if no file-system call fails, it succeeds if and only if the payload is valid and the old manifest parses |
| `BundleCache.Cache.ExtractBundleArchive` | crates/codegen/ezer-bundle/src/lib.rs:177-283 | the same for an archive sync, with its limits on members and sizes and its version file; if no file-system call fails, it succeeds if and only if the archive is accepted and the old manifest parses |
| `BundleCache.PruneIsPointwise` | crates/codegen/ezer-bundle/src/lib.rs:312-336 | pruning path by path in any order is pruning all at once |
| `BundleCache.PlanContinuesOn` | crates/codegen/ezer-bundle/src/lib.rs:189-271 | one turn of the extraction loop keeps its tie to the outcome of the whole archive |
| `BundleCache.KeptByWrite` | crates/codegen/ezer-bundle/src/lib.rs:375-385 | changing only a path whose content matches its manifest entry keeps all user content |
| `BundleMembers.InstallAllAt` | crates/codegen/ezer-bundle/src/lib.rs:189-262 | the loop over all members of an archive is, at each path, the loop over the members that land there |
| `BundleMembers.PutAllManaged` | crates/codegen/ezer-bundle/src/lib.rs:236-259 | a managed path is rewritten up to and including the first member with another checksum, and recorded under the old checksum if members follow |
| `BundleMembers.ExtractedTellsTruth` | crates/codegen/ezer-bundle/src/lib.rs:177-283 | at one path, if the old checksum is that of the content last written, the new one is if and only if the path has no entry, or the user owns the file, or every member on it but the last has the old checksum |
| `BundleMembers.ExtractedIsRepeatable` | crates/codegen/ezer-bundle/src/lib.rs:177-283 | at one path, a second identical archive sync changes nothing if and only if a condition on the old entry, the old file and the members holds |
| `BundleRetry.RetryConvergesExactly` | crates/codegen/ezer-bundle/src/lib.rs:119-175 | after a failure, running the sync again ends as the sync would have ended at once if and only if every file the failed attempt changed still bears its checksum of the old manifest |
| `BundleRetry.UpdatedFileIsOrphaned` | crates/codegen/ezer-bundle/src/lib.rs:119-175 | an updated file and a failure before the manifest is written: the retry leaves the new content recorded under the old checksum |
| `BundleRetry.PruningIsInterrupted` | crates/codegen/ezer-bundle/src/lib.rs:312-336 | a failure during or after pruning has only written wanted files and dropped managed ones |
| `BundleRuns.SyncedKeepsHistory` | crates/codegen/ezer-bundle/src/lib.rs:126-175 | a successful JSON sync keeps the history invariant |
| `BundleRuns.ArchivedKeepsRecordExactly` | crates/codegen/ezer-bundle/src/lib.rs:177-283 | at every path and for every archive, the manifest still tells the truth after the sync if and only if the members that share the path meet the condition checked on the state before |
| `BundleRuns.StepKeepsHistoryExactly` | crates/codegen/ezer-bundle/src/lib.rs:119-283 | an event keeps the history invariant if and only if it is not an archive sync that fails that condition at some path |
| `BundleRuns.EveryRunHasHistory` | crates/codegen/ezer-bundle/src/lib.rs:119-283 | over every run of successful syncs and arbitrary user writes and deletes from an empty cache: each manifest checksum is, at every moment, that of the last content the cache itself wrote there, at a path the sanitiser accepts, if and only if every archive sync met the condition when it started |
| `BundleRuns.DistinctTargetsAreTruthful` | crates/codegen/ezer-bundle/src/lib.rs:236-259 | members on distinct paths always meet the condition |
| `BundleRuns.EditedFilesSurviveNextSync` | crates/codegen/ezer-bundle/src/lib.rs:375-385 | in such a run a file whose checksum is not that of what the cache last wrote survives the next sync unchanged, whatever its members |
| `BundleRuns.ArchiveLoopIsSync` | crates/codegen/ezer-bundle/src/lib.rs:189-271 | with distinct targets the archive loop is the sync of the set of its files |
| `BundleRuns.InstallOrderIsIrrelevant` | crates/codegen/ezer-bundle/src/lib.rs:126-147 | two listings of the same payload give the same disk and checksums |
| `BundleRuns.JsonSyncKeepsWorkflows` | crates/codegen/ezer-bundle/src/lib.rs:149-163 | no JSON sync changes, removes or forgets a workflow file |
| `BundleRuns.RepeatedSyncChangesNothing` | crates/codegen/ezer-bundle/src/lib.rs:119-175 | a second identical JSON sync changes neither the disk nor the manifest file |
| `BundleRuns.RepeatedArchiveChangesNothing` | crates/codegen/ezer-bundle/src/lib.rs:177-283 | a second identical archive sync changes neither of them if and only if every path is repeatable, which distinct targets always are |
| `BundleRuns.SyncedSumsAreSanitary` | crates/codegen/ezer-bundle/src/lib.rs:387-400 | reading back the manifest a sync stored gives exactly the checksums it recorded: sanitising drops none of them |
| `BundleRuns.DuplicateTargetsBreakHistory` | crates/codegen/ezer-bundle/src/lib.rs:236-259 | at every cache path, an archive that carries it twice with a new checksum first breaks the invariant in a two-sync run from the empty cache |
| `FileTree.ResolveSplice` | crates/codegen/ezer-config/src/fs_atomic.rs:177-226 | in the recursive resolution of POSIX.1-2017 section 4.13, resolving in two stages is resolving the concatenation, link count included |
| `FileTree.DeeperIsSame` | crates/codegen/ezer-config/src/fs_atomic.rs:41-145 | an answer found at one nesting depth is the answer at every greater depth |
| `FileTree.ResolveWithoutDots` | crates/codegen/ezer-config/src/fs_atomic.rs:160-175 | dropping inner dots does not change a resolution, nor what is left pending below a missing entry |
| `FileTree.TrailingDotAsksDirectory` | crates/codegen/ezer-config/src/fs_atomic.rs:634-653 | a path spelt as a directory gets to a directory, or to a missing entry of which a directory is asked |
| `FileTree.ResolvePhysical` | crates/codegen/ezer-config/src/fs_atomic.rs:41-145 | the kernel walks a link-free path to the object it names |
| `Resolver.ReadFollowableLinkTarget` | crates/codegen/ezer-config/src/fs_atomic.rs:319-348 | at most sixteen looks, and it gives up on a path that stays a link only after four attempts; a target returned was read between looks that found one and the same link before, right after, and once more; on a link that holds still, with nothing refused, a target is returned |
| `Resolver.PosixAnswerIsUnique` | crates/codegen/ezer-config/src/fs_atomic.rs:41-145 | POSIX resolution has at most one answer, with one number of links |
| `Resolver.LinkLeads` | crates/codegen/ezer-config/src/fs_atomic.rs:177-226 | putting the target of a link in front of the queue reaches what following the link reaches and nothing else, at the cost of exactly one link |
| `Resolver.TrackLink` | crates/codegen/ezer-config/src/fs_atomic.rs:86-139 | following a link keeps the tie between queue and request; without hops left, the request follows more links than the limit |
| `Resolver.TrackParent` | crates/codegen/ezer-config/src/fs_atomic.rs:66-78 | popping a parent keeps that tie |
| `Resolver.TrackMissing` | crates/codegen/ezer-config/src/fs_atomic.rs:79-92 | at a missing name the request reaches that missing entry, with everything pending below it, and nothing else |
| `Resolver.MissingTailIsFine` | crates/codegen/ezer-config/src/fs_atomic.rs:79-92 | the missing name followed by every pending name is the link-free path the request asks for |
| `Resolver.StepMissing` | crates/codegen/ezer-config/src/fs_atomic.rs:79-92 | a missing name: a pending `..` is refused, otherwise the result continues with every component still pending |
| `Resolver.StepName` | crates/codegen/ezer-config/src/fs_atomic.rs:79-143 | one named component: the hop budget is charged per link, and on a still tree the step is sound |
| `Resolver.ResolveDestination` | crates/codegen/ezer-config/src/fs_atomic.rs:41-145 | terminates and follows at most the platform limit of links on every file system, even one that changes at every call; on a still one a returned path has no link component and names what POSIX resolution comes to within the limit: the object, the missing entry, or the missing entry and every component below it; running out of hops means that more links than the limit are needed, a refusal that a permission was missing, any other failure that no file can be written there |
| `BoundIdentity.ActKeepsValid` | crates/codegen/ezer-config/src/fs_atomic.rs:978-990 | whatever other processes do, symbolic links included, live objects keep distinct inode numbers and objects keep their number and nature |
| `BoundIdentity.StepKeepsInv` | crates/codegen/ezer-config/src/fs_atomic.rs:1106-1168 | every step of publisher or environment keeps the identity invariant, the checks of a follow destination going through links |
| `BoundIdentity.NoAbaOnPublish` | crates/codegen/ezer-config/src/fs_atomic.rs:1106-1168 | in every run, once the hold was opened a passing proof reached the very object opened at bind time; if nobody acts after that look the rename replaces that object if and only if the destination was not a link at the look |
| `BoundIdentity.AbsentStaysAbsent` | crates/codegen/ezer-config/src/fs_atomic.rs:1117-1137 | a destination bound as absent is, when nobody acts after the last look, replaced while absent if and only if it was not a link at that look; always for a slot |
| `BoundIdentity.SlotReplacesWhatItBound` | crates/codegen/ezer-config/src/fs_atomic.rs:1033-1056 | a slot destination, checked without following, is replaced in quiet by an entry of the bound identity only, link or not |
| `BoundIdentity.SwappedInLinkIsReplaced` | crates/codegen/ezer-config/src/fs_atomic.rs:462-467 | with the hold open, moving the file away and linking the destination to it passes every check, and the rename replaces the link |
| `BoundIdentity.DanglingLinkIsReplaced` | crates/codegen/ezer-config/src/fs_atomic.rs:1117-1137 | a dangling link put at a destination bound as absent passes every check and is replaced |
| `BoundIdentity.WithoutHoldAbaHappens` | crates/codegen/ezer-config/src/fs_atomic.rs:1074-1084 | without the open hold the same checks pass on a different file under a reused inode number, which is replaced |
| `BoundChecks.PublishedAfterAllChecks` | crates/codegen/ezer-config/src/fs_atomic.rs:1106-1168 | in every run that published, both identities were read, the parent passed its check against the one read, and the hold, if opened, bore the identity of the destination |
| `BoundChecks.PublishInstallsTemp` | crates/codegen/ezer-config/src/fs_atomic.rs:1204-1218 | the rename puts the object of the temporary file under the destination; no entry other than these two changes |
| `Publish.StepKeepsInv` | crates/codegen/ezer-config/src/fs_atomic.rs:1307-1362 | every step of every writer, every crash and every power loss keeps the invariant of the protocol |
| `Publish.PublishedFilesAreFrozen` | crates/codegen/ezer-config/src/fs_atomic.rs:1307-1362 | a file a destination ever named is never written again |
| `Publish.DestinationIsNeverPartial` | crates/codegen/ezer-config/src/fs_atomic.rs:1204-1218 | at every point of every interleaving a destination names a synced file holding its initial contents or one of its writers' contents in full |
| `Publish.AtMostOneCreatorSucceeds` | crates/codegen/ezer-config/src/fs_atomic.rs:1276-1303 | with hard links and a destination absent at the start, at most one exclusive creator succeeds; once any link call gets through there is a winner, which succeeds unless it crashes; the destination holds the winner's contents whatever the losers do |
| `Publish.StepKeepsExclusive` | crates/codegen/ezer-config/src/fs_atomic.rs:1286-1301 | every step keeps the one-winner invariant |
| `PublishedLast.LastPublicationWins` | crates/codegen/ezer-config/src/fs_atomic.rs:1204-1218 | over every run without power loss: a finished writer reported success if and only if it renamed or linked its file into place, and each destination holds the complete synced contents of the last writer to have done so, or what it named at the start |
| `PublishedLast.StepKeepsLogTrue` | crates/codegen/ezer-config/src/fs_atomic.rs:1307-1362 | every step keeps the log of publications true to who succeeded |
| `PublishedLast.UndisturbedWriterPublishes` | crates/codegen/ezer-config/src/fs_atomic.rs:1307-1362 | a writer that nothing disturbs, and that meets fewer than 32 taken temporary names in a row, ends in success with its contents at its destination |
| `Sessions.Retained` | crates/codegen/ezer-active-sessions/src/lib.rs:45-53 | an unregistration keeps exactly the sessions with another id, a registration those with another id whose process id is positive, fits 31 bits and answers |
| `Sessions.ApplyExactly` | crates/codegen/ezer-active-sessions/src/lib.rs:45-58 | who is listed after one change, literally, the registered session last |
| `Sessions.RetainedInOrder` | crates/codegen/ezer-active-sessions/src/lib.rs:45-58 | retained sessions keep their order |
| `Sessions.UnregisteredStaysAway` | crates/codegen/ezer-active-sessions/src/lib.rs:55-67 | over every run, once an unregistration has committed and until its id is registered again, neither the data file nor any list read holds the id |
| `Sessions.UndisturbedCallCommits` | crates/codegen/ezer-active-sessions/src/lib.rs:69-100 | a call that finds the lock free and that nothing disturbs commits its change and releases the lock |
| `Sessions.StepKeepsInv` | crates/codegen/ezer-active-sessions/src/lib.rs:69-100 | every step of every process, time-outs, failures and crashes included, keeps the invariant of the protocol |
| `Sessions.RunsAreSerial` | crates/codegen/ezer-active-sessions/src/lib.rs:69-141 | after every run the data file is the committed changes applied one by one in rename order; a finished call is among them iff it reported success, and none twice |
| `Sessions.ReadersSeeCommittedLists` | crates/codegen/ezer-active-sessions/src/lib.rs:64-67 | an unlocked reader gets the whole list as of the commits before it opened the file |
| `Sessions.LockIsExclusive` | crates/codegen/ezer-active-sessions/src/lib.rs:77-95 | at most one call is past the lock |
| `Sessions.WaitingIsBounded` | crates/codegen/ezer-active-sessions/src/lib.rs:80-95 | nobody sleeps past its deadline, and an unregistration never sleeps |
| `Sessions.WaitingIsExact` | crates/codegen/ezer-active-sessions/src/lib.rs:69-95 | in every run, a registration that reports a timeout has waited two seconds since its call and an unregistration not at all; nobody sleeps beyond that, nor more than 50 ms at a time |
| `Sessions.CommittedFileParses` | crates/codegen/ezer-active-sessions/src/lib.rs:69-141 | once a change is committed the data file parses and holds the committed changes applied to what it listed at the start, where a missing or unparsable file lists nothing |
| `Sessions.IdsStayDistinct` | crates/codegen/ezer-active-sessions/src/lib.rs:45-62 | session ids stay distinct, in the file and in every list read, if they start so |
| `Sessions.ListedIffRegistered` | crates/codegen/ezer-active-sessions/src/lib.rs:45-62 | a session is listed iff it was registered, or there from the start, and every later committed change spares it, as spelt out above |
| `Discovery.ProjectAgentDirs` | crates/codegen/ezer-agent/src/repo.rs:121-132 | the nested loops list the existing agent directories along the chain in order |
| `Discovery.ProjectDirsNearestFirst` | crates/codegen/ezer-agent/src/repo.rs:121-132 | the nearest directory comes first, and below it `.ezer/agents` before `.claude/agents` |
| `Discovery.BuiltinNamesExactly` | crates/codegen/ezer-agent/src/config.rs:648-696 | the three advertised and the nine unadvertised built-in names, spelt out |
| `Discovery.ByNameInCwd` | crates/codegen/ezer-agent/src/discovery.rs:256-267 | the search chain is: first project directory defining the name, built-in, first user or bundled directory |
| `Discovery.LoadDefinitionsFromDir` | crates/codegen/ezer-agent/src/discovery.rs:616-646 | one directory, in the order it is read, adds the first definition of each name not seen before |
| `Discovery.DiscoverWithHome` | crates/codegen/ezer-agent/src/discovery.rs:206-224 | discovery is that over project, user and bundled directories in order |
| `Discovery.MergeSubagents` | crates/codegen/ezer-agent/src/discovery.rs:83-166 | the loop over discovered definitions and the toggle filter compute the listing |
| `Discovery.AllSubagents` | crates/codegen/ezer-agent/src/discovery.rs:70-78 | the listing built end to end from the directories |
| `Discovery.ListingShowsBest` | crates/codegen/ezer-agent/src/discovery.rs:83-166 | for every list of discovered definitions, a name that no toggle sets to false shows the best eligible definition, else the built-in subagent |
| `Discovery.BestIsFirstHighest` | crates/codegen/ezer-agent/src/discovery.rs:118-156 | the definition chosen one replacement at a time is the first one of highest scope priority |
| `Discovery.ListedNamesAreUnique` | crates/codegen/ezer-agent/src/discovery.rs:83-166 | listed names are unique whatever was discovered |
| `Discovery.DiscoveredIffFirst` | crates/codegen/ezer-agent/src/discovery.rs:206-224 | what discovery keeps under a name is what the search through the same directories finds first |
| `Discovery.UserDirsFallInPriority` | crates/codegen/ezer-agent/src/discovery.rs:168-198 | directories are searched in falling scope priority, the configured home first; the whole list where both homes are known |
| `Discovery.VisibleIffCallableOnDisk` | crates/codegen/ezer-agent/src/discovery.rs:206-274 | the same end to end, for every directory chain, home and toggle map on a disk whose files declare their own names |
| `Discovery.VisibleIffCallable` | crates/codegen/ezer-agent/src/discovery.rs:83-166 | where each `X.md` declares the name X, a name is listed iff no toggle sets it to false and the search finds it, with the entry showing the name, text, scope and origin of the definition found, if and only if it is not one of the nine unadvertised built-ins without a project definition and not the empty name of a file called `.md` |

## Left out

- Windows branches of `fs_atomic.rs`: reparse points, handles and volume roots are foreign calls, and a component is re-queued when a swap is seen.
- The gap between the last identity check and the rename: the publication results are stated relative to a quiet environment in it, as nothing in the code closes it.
- The parent directory in `BoundIdentity` is checked by inode number only, as in the code, and no ABA freedom is claimed for it.
- Resolver.ResolveDestination: search permission, the sticky-directory rule and the follow probe (fs_atomic.rs:367-435) are answers given from outside, not derived from modes, owners or the tree.
- Publish.DestinationIsNeverPartial: destinations whose own name has the form of a temporary name are outside the model, and so are changes of file mode.
- PublishedLast.LastPublicationWins: power loss is excluded, since an unsynced directory entry may revert; process crashes are included.
- Publish.AtMostOneCreatorSucceeds: power loss is excluded here, since an unsynced directory entry may revert; process crashes are included.
- Sessions.RunsAreSerial: the code does not sync the data file, so power loss is outside the model; the answers of the processes probed by one registration are taken at one moment.
- BundleCache.Cache.WriteBundleToCache: user edits are interleaved between syncs and not within one, where the code itself has a window between reading a file and writing it.
- BundleRetry.RetryConvergesExactly: for files on distinct paths and a manifest file still intact; a manifest torn by the failure makes every later sync fail.
- BoundIdentity.SlotReplacesWhatItBound: a slot that may not be read is bound as unreadable and then hardly checked; that case is not modelled. Paths are whole names, so an ancestor swap shows up only as changes of the names below it.
- Discovery.VisibleIffCallable: names containing a slash, which make the lookup leave the agent directory, and plugin agents are not modelled.
- `Feature::resolve`, `BoolFlag` and the memory settings: field-by-field fallbacks that would only add easy members.
- Parsing of TOML, JSON and YAML, decoding of archives, expansion of environment variables, selection of version overrides and the checksum function: parameters of the model.
- Choice between the inline and the file overlay (`resolve_overlay_detailed`): a fall-through of two candidates.
- `AgentBuilder::build`, authentication retries, MCP conversion, prompt rendering and telemetry: list filters and plumbing.
- Case-insensitive file systems, and files standing where the bundle expects directories: outside the abstract disk.
