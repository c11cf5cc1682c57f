# fathm governance core: a verified model

fathm keeps versioned *Analysis Packages*. This project models the part of it that decides what is
published, approved, superseded, purged, indexed, quoted and turned into live rules, and proves what
those decisions guarantee over every run and, where calls can overlap, over every interleaving.

Each stateful object of the program is a Dafny class over the same fields; its methods are proved to
compute a specification function of the old state, and the guarantees are lemmas about runs of those
functions. Where calls can overlap the calls are cut into single reads and writes, and a lemma shows
that the steps of an undisturbed call add up to the whole call.

| files | what they hold |
|---|---|
| `Wrappers`, `Text`, `Versions`, `Identity` | option and result, string operations, version strings, roles |
| `Registry`, `ProfileLoader` | the versioned profile registry and the read cache in front of it |
| `RegistryRace`, `RegistryRaceLimits`, `RegistryRaceExact`, `RegistryCrash` | concurrent approvals of one profile, step by step, with crashes; what exactly makes them safe |
| `Proposals`, `ProposalRuns`, `Decisions`, `RuleChanges` | proposals, who may decide them and when it works, what approved diffs make of the rules |
| `DecideRace`, `DecideWinners` | overlapping decisions, step by step |
| `DryRun` | the dry run, its report and what that forecasts |
| `Gate`, `FieldPath` | the gate's waiver passes and verdict; field-path templates |
| `PackageStore`, `StoreRuns` | rows, audit log and shared blobs |
| `Workflows`, `Interleavings`, `StaleReads`, `Answers`, `Schedules`, `Succession`, `SuccessionLimits` | review and lifecycle, whole and interleaved |
| `Index`, `IndexRace` | redaction, the search index, the routes that keep it current, overlapping reindexes |
| `Auth`, `AuthHistory` | users, the last-admin guard, tokens; answers, passwords and audit told from the history of calls |
| `ManagerBot`, `BotProgress` | the bounded tool loop and its citations; when it answers and what its tools show |
| `EndToEnd` | from the review to the citation, across all of the above |
| `Telegram` | polling, the stored offset, retries and crashes |

Parameters stand for what the code cannot see: the content hash and the token hash (injective), the gate
and the content reader (total functions of the bytes), the text search (returns indexed rows), the
language model (any function of what it was shown), the chat server and the clock.

## Findings

What the code or its comments suggest and what does not hold. Each has a run from the empty state, or a
concrete input the code can receive, and the exact condition.

- The registry's directory rename is not a create-if-absent when the directory already there is empty. On
  a profile seeded with no file an approval that reported success can be lost
  (`RegistryRaceLimits.EmptySeedLosesAnUpdate`); on one seeded with a single file so can its deletion
  (`RegistryRaceExact.DeletionIsUndone`). Approvals drawn from a set of diffs are safe against each other if
  and only if none of them is ever applied or one seeded file is deleted by none of them
  (`RegistryRaceExact.SafeIffOneFileKept`).
- A crash between creating a version directory and writing the pointer, while seeding or while applying,
  leaves a directory that is in the way of every later approval of that profile
  (`RegistryCrash.CrashWhileSeeding`, `RegistryCrash.CrashWhileApplying`; where one seeded file stays,
  exactly at that step: `RegistryCrash.CrashOrphansIff`). In every reachable state an undisturbed approval
  gets through exactly if the next directory is not there (`RegistryCrash.AppliesIffFree`). An empty
  directory left this way can still be overtaken by a call that was already past its existence check
  (`RegistryCrash.OrphanIsOvertaken`); approvals drawn from a set of diffs leave every such directory in the
  way for good if and only if none of them is ever applied or one seeded file is deleted by none of them
  (`RegistryCrash.OrphanStaysIffOneFileKept`).
- Two decisions on one proposal can both apply its diff, although only one of them swaps the status: two
  versions with one approval behind them (`DecideRace.TwiceApplied`). The fold of the approved diffs is then
  no longer what is in force; what remains true under every interleaving is that the versions are one chain,
  each approved diff in it once under its own version, and every other entry the work of a call that lost the
  swap, crashed, or has not reached it (`DecideRace.OverlappedDecisions`).
- Recorded supersede links are acyclic if and only if restore is not permitted
  (`SuccessionLimits.CyclesIffRestore`) and, between overlapping calls, no supersede may commit after its
  successor was itself superseded (`SuccessionLimits.CyclesIffStaleCommit`), which takes another supersede
  that commits while this one is past its successor check (`SuccessionLimits.CyclesIffOvertaken`); with
  whole calls the links that still hold are acyclic all the same (`Succession.LiveSuccessionEnds`).
- The dry run that an approval needs on record may be of another diff, or of older rules: an edit of another
  profile can be approved on it (`Decisions.AnotherDiffIsApproved`). An approval writes the files the record
  shows if and only if a dry run of the diff it applies, taken just before, would show the same
  (`Decisions.ShownIsWrittenIff`); straight after a dry run of that diff it does (`Decisions.DryRunForecasts`).
- A package can flip its verdict in a dry run with no recorded movement: exactly if no simple check's result
  changed and the package is not marked approved or waives the meta check (`DryRun.SilentFlipIff`,
  `DryRun.FlipWithoutMovement`).
- A dry run can report a package the proposal does not touch, because everything but the evaluated version
  is rescanned against repository defaults (`DryRun.UntouchedReported`). With nothing proposed a package is
  scanned alike both times exactly if it declares no version, or its version is not registered, or is
  registered as the repository has it while unknown versions are tolerated; the evaluated version is scanned
  alike once it is current (`DryRun.NothingProposedIff`).
- A token whose user is disabled between the check and the insert of its issue resolves once the user is
  enabled again (`TokenHistory.DisableBetweenLeaks`, exactly: `TokenHistory.ComesBackIff`).
- A reindex that read a version as approved and writes after that version was recalled and reindexed leaves
  it in the index (`IndexRace.StaleWriteKeepsRecalled`, exactly: `IndexRace.FollowsIff`); any later
  reindex repairs it (`IndexRace.LaterReindexRepairs`).
- Saving the chat offset empties the file before it writes it. At-most-once survives a save torn in between
  if and only if the server remembers the highest offset it was asked with (`Delivery.AtMostOnceIff`).

The model follows the code where comments differ: recording a dry run is documented as possible on a
pending proposal only, but the store does not look at the status, and neither does the model.

## Model

| member | source | states |
|---|---|---|
| `Versions.ParsePrint` | src/ap_proposals/apply.py:32-40 | reading back a printed integer gives that integer, so version numbers survive printing |
| `Versions.ParsePlus` | src/ap_registry/profile_registry.py:59-67 | a plus sign in front of a number is read over |
| `Versions.SortKeyIs` | src/ap_registry/profile_registry.py:59-67 | the sort key has one number for each dot-separated part, 0 where the part is none |
| `Versions.KeyLessIff` | src/ap_registry/profile_registry.py:59-67 | one key is before another exactly if they agree up to a place where it is smaller or ends |
| `Versions.BumpShape` | src/ap_proposals/apply.py:32-40 | what can be bumped is exactly `major.minor` with a numeric minor |
| `Versions.BumpIncreases` | src/ap_registry/profile_registry.py:59-67 | every successful minor bump is strictly newer in the registry's own order, so a sequential apply never fails the monotonic check |
| `Versions.VersionAtInjective` | src/ap_proposals/apply.py:32-40 | the versions of successive bumps are pairwise different |
| `Registry.ProfileRegistry.EnsureSeeded` | src/ap_registry/profile_registry.py:123-150 | the whole call: an unseeded profile gets its first version, pointer and changelog row, a seeded one is left alone; cached reads are dropped exactly if something changed |
| `Registry.ProfileRegistry.BumpVersion` | src/ap_registry/profile_registry.py:152-191 | the whole call: refusal when not newer or already there, else the patched copy of the current version, pointer, one changelog row |
| `Registry.ProfileRegistry.SeedVersion` | src/ap_registry/profile_registry.py:193-202 | a scratch registry gets the given files under the given version |
| `Registry.ProfileRegistry.WriteVersionDir` | src/ap_registry/profile_registry.py:204-220 | a version directory is written once and never over an existing one |
| `Registry.Overlay` | src/ap_registry/profile_registry.py:176-184 | the loop over changed files replaces each named file, removes it when its new content is null, and keeps every other |
| `Registry.FileCache.Invalidate` | src/ap_gate/profiles.py:103-114 | exactly the entries of the given root and name are dropped |
| `Registry.FileCache.Read` | src/ap_gate/profiles.py:117-131 | a hit answers from the cache, a miss reads the disk and remembers, an absent version directory is reported and not remembered |
| `RegistrySpec.SeedingKeepsRules` | src/ap_registry/profile_registry.py:123-150 | seeding a profile changes no rule in force |
| `RegistrySpec.ApplyShape` | src/ap_proposals/apply.py:78-95 | an apply that succeeds is a bump of the seeded profile to the next minor version with the diff's patch |
| `RegistrySpec.ComponentIff` | src/ap_registry/profile_registry.py:43-56 | a valid name is one segment of a path, however paths are written, and not a step up or in place |
| `RegistrySpec.ApplyErrors` | src/ap_proposals/apply.py:78-95 | a failed apply says whether the reason-code file could not be merged or the registry refused |
| `RegistrySpec.BumpWrites` | src/ap_registry/profile_registry.py:152-191 | a bump's new directory is the old current files with the patch applied, and every other directory is untouched |
| `RegistrySpec.DryRunPredictsApply` | src/ap_planner_bot/dry_run.py:117-139 | from any registry state, seeded or not, the files the dry run overlays are the files the approval writes as the next version |
| `ProfileLoader.LoadProfileFile` | src/ap_gate/profiles.py:134-168 | the cached lookup answers as specified: registry, then the fail-closed error, then the repository default |
| `ProfileLoader.StepStaysCoherent` | src/ap_gate/profiles.py:100-131 | reads, seeds, bumps, scratch registries, invalidations and deleted or reused roots all leave every cache entry equal to the disk wherever its directory exists |
| `ProfileLoader.CacheRefinesUncachedRead` | src/ap_gate/profiles.py:134-168 | from an empty cache, over every run of steps, a cached load answers what an uncached one would |
| `ProfileLoader.LookUpIs` | src/ap_gate/profiles.py:134-168 | by the form of the declaration: nothing without a name; the shipped file for a bare name, an empty version or no registry; the registered version's file for `name/version`; for an unregistered one the error or the shipped file, as the knob says |
| `ProfileLoader.RegistryOnlyGrows` | src/ap_registry/profile_registry.py:152-220 | over every run of reads, seeds and bumps no version directory changes or goes, and the pointer only moves to newer versions |
| `ProfileLoader.PinnedRulesNeverChange` | src/ap_gate/profiles.py:134-168 | a package pinned to a registered version is judged by the same files for good, whatever is approved later |
| `RegistryRace.CreatorIsCurrent` | src/ap_registry/profile_registry.py:204-226 | a call that has created its directory and not yet flipped the pointer is the only one, and the pointer still stands where it read it |
| `RegistryRace.HappenKeepsInv` | src/ap_registry/profile_registry.py:123-226 | every single step of every overlapping call keeps the chain of versions |
| `RegistryRace.NoLostUpdate` | src/ap_registry/profile_registry.py:152-226 | under every interleaving and crash, visible versions form one chain, each its predecessor with its own writer's patch applied; the current version is complete; a call that reports success is in the chain; visible content never changes |
| `RegistryRaceLimits.SoloRunIsApply` | src/ap_proposals/apply.py:78-95 | undisturbed, the steps of one call are the whole call, success or failure, seeded or not |
| `RegistryRaceLimits.EmptySeedLosesAnUpdate` | src/ap_registry/profile_registry.py:204-220 | a concrete run on an empty seed in which an approval reports success and its version is no longer current |
| `RegistryRaceLimits.SafeIffSeeded` | src/ap_registry/profile_registry.py:204-220 | approvals that delete nothing are safe in every interleaving if and only if the repository seeds the profile with at least one file; the case of all diffs is `RegistryRaceExact.SafeIffOneFileKept` |
| `RegistryRaceExact.SafeIffOneFileKept` | src/ap_registry/profile_registry.py:204-220 | for any set of diffs, deletions included: over every interleaving and crash the visible versions are one chain, reported successes are in it and visible content never changes, if and only if none of the diffs is ever applied or some seeded file is deleted by none of them |
| `RegistryRaceExact.DeletionIsUndone` | src/ap_registry/profile_registry.py:176-184 | a run in which the deletion of the only seeded file reports success and the file is back |
| `RegistryRaceExact.Breaks` | src/ap_registry/profile_registry.py:176-226 | if every file in force can be deleted, deleting them one by one and racing on the last breaks the chain |
| `RegistryCrash.CrashWhileSeeding` | src/ap_registry/profile_registry.py:123-150 | a run from nothing: the first call crashes after its directory appeared, leaving no pointer and the initial directory in the way |
| `RegistryCrash.CrashWhileApplying` | src/ap_registry/profile_registry.py:184-226 | a run from nothing: an approval crashes after its directory appeared |
| `RegistryCrash.CrashOrphansIff` | src/ap_registry/profile_registry.py:184-226 | where one seeded file is kept, a crash leaves an orphaned directory exactly at the step between directory and pointer, or if there was one |
| `RegistryCrash.OrphanBlocksForever` | src/ap_registry/profile_registry.py:204-220 | where one seeded file is kept: after that, seeding included, pointer, directories and visible versions never change, and no call succeeds that had not written its pointer before |
| `RegistryCrash.OrphanIsOvertaken` | src/ap_registry/profile_registry.py:204-226 | a run from nothing: a deletion of the last file crashes after its empty directory appeared, and a second call renames over it and reports success |
| `RegistryCrash.OrphanStaysIffOneFileKept` | src/ap_registry/profile_registry.py:204-220 | for any set of diffs: every orphan keeps pointer and directories as they are, whatever comes later, if and only if none of the diffs is ever applied or some seeded file is deleted by none of them |
| `RegistryCrash.AppliesIffFree` | src/ap_proposals/apply.py:78-95 | in every state that overlapping calls and crashes can reach, other calls standing anywhere, an undisturbed approval succeeds if and only if its diff merges, its names are valid and the next directory is not there |
| `Proposals.ProposalStore.Create` | src/ap_proposals/store.py:77-125 | a new row is pending and audited; a diff that does not fit its kind is refused and changes nothing |
| `Proposals.ProposalStore.SetStatus` | src/ap_proposals/store.py:161-222 | the status changes only from the expected one, with decision columns and one audit row; given values win over stored ones |
| `Proposals.ProposalWorkflow.ApplyDeclarative` | src/ap_proposals/apply.py:78-95 | the registry after an apply is the specified one, for this profile only |
| `Proposals.ProposalWorkflow.CheckDecide` | src/ap_proposals/workflow.py:126-160 | every refusal of a decision, in the code's order |
| `Proposals.ProposalWorkflow.Decide` | src/ap_proposals/workflow.py:117-199 | both stores after a decision: applied first, status second, nothing on refusal |
| `ProposalRuns.RegistryEqualsApprovals` | src/ap_proposals/workflow.py:117-199 | over every run of creations, dry runs and decisions each profile's rules are its seed folded with the effective diffs of its approved proposals in decision order, and its changelog has one row more than those |
| `ProposalRuns.RegistryEqualsApprovalsPlainly` | src/ap_registry/profile_registry.py:110-115 | the same with no filtering when every approved diff names a `.json` file |
| `ProposalRuns.RaisingDecisionChangesNothing` | src/ap_proposals/workflow.py:151-170 | a decision that raises, from any state, changes no proposal, no audit row and no rule in force, even if it seeded |
| `Decisions.ApprovalSucceedsIff` | src/ap_proposals/workflow.py:144-199 | in every reachable state an approval of a declarative proposal goes through if and only if it is pending, the actor is a standard approver or an admin, an edit is complete and of its kind, a required dry run is on record, the diff merges and its names are valid; never is it stopped by a version conflict |
| `Decisions.DecisionSucceedsIff` | src/ap_proposals/workflow.py:117-199 | the same for all targets: approved, rejected (with a reason) and withdrawn; what goes through leaves the decider, reason, edit, spec and one audit entry, what does not leaves rows, audit and specs alone |
| `Decisions.EveryDecisionWasAllowed` | src/ap_proposals/workflow.py:126-170 | over every run each proposal was created complete and of its kind, and each that is not pending was decided by a call the policy allowed, whose decider, edit and reason it carries |
| `Decisions.DryRunForecasts` | src/ap_proposals/workflow.py:201-227 | a recorded dry run shows the version it evaluated and the files that approving the same diff right afterwards writes |
| `Decisions.ShownIsWrittenIff` | src/ap_proposals/workflow.py:169-180 | an approval writes the files its record shows exactly if a fresh dry run of the applied diff would show the same |
| `Decisions.AnotherDiffIsApproved` | src/ap_proposals/workflow.py:169-180 | a run from nothing: one diff is dry-run, an edit of another profile is approved on that record |
| `RuleChanges.ReasonCodeAddWrites` | src/ap_proposals/apply.py:60-74 | adding a reason code rewrites reason_codes.json alone and in it only the list: the listed codes and, unless listed, this one; a new file where there is none or an empty one; an error where the file or the list is of another shape |
| `RuleChanges.LastChangeRules` | src/ap_proposals/apply.py:50-75 | after every run each file of a profile is as shipped, or as the last approved profile change for it says, null deleting it |
| `RuleChanges.ApprovedCodesAreListed` | src/ap_proposals/apply.py:60-74 | after every run every code added since the file was last replaced as a whole is listed, after the codes it listed then and with no others |
| `DecideRace.OverlappedDecisions` | src/ap_proposals/workflow.py:117-199 | under every interleaving of decisions, their apply steps and crashes: each profile is one chain, each approved declarative proposal's effective diff is in it under its applied version, and every other entry belongs to a call that lost the swap, crashed or has not reached it |
| `DecideWinners.OneAllowedWinner` | src/ap_proposals/workflow.py:126-180 | under every interleaving and crash each decided proposal was decided by exactly one call, which the policy allowed (role, reason, edit, dry run) and whose decision the row carries |
| `DecideWinners.SoloIsDecide` | src/ap_proposals/workflow.py:117-199 | the steps of a decision nobody interferes with add up to the whole decision |
| `DecideRace.TwiceApplied` | src/ap_proposals/workflow.py:144-199 | a run from nothing: one proposal decided twice at once, two versions applied, one approval |
| `DryRun.Diff` | src/ap_planner_bot/dry_run.py:142-179 | the comparison loop computes the specified report |
| `DryRun.ScanCorpus` | src/ap_planner_bot/scan.py:145-187 | every approved package is judged on the profile files its own declaration resolves to under the given registry root, cache or not |
| `DryRun.Evaluate` | src/ap_planner_bot/dry_run.py:91-139 | both scans, the overlay at the version packages already pin in a scratch registry that holds nothing else, the comparison; disk and cache are left as they were |
| `DryRun.OthersIgnoreProposal` | src/ap_planner_bot/dry_run.py:134-137 | a package not pinned to the evaluated version is rescanned alike whatever is proposed |
| `DryRun.PinnedFollowsProposal` | src/ap_planner_bot/dry_run.py:105-115 | a pinned package is rescanned like the first time unless the proposal names a file its gate reads |
| `DryRun.NothingProposedIff` | src/ap_planner_bot/dry_run.py:117-139 | an empty proposal for the current version leaves a package's scan as it is, whatever its checks do, exactly if the package declares no version, or the evaluated one (current, or unseeded with unknown versions tolerated or registered as the repository has it), or another that is unregistered, or registered as the repository has it with unknown versions tolerated |
| `DryRun.UntouchedReported` | src/ap_planner_bot/dry_run.py:134-139 | an empty proposal for one profile reports a package of another, whose registered training grade demands an agent draft |
| `DryRun.ReportedIff` | src/ap_planner_bot/dry_run.py:142-179 | a key is newly failing, or passing, exactly if it is in both scans and its verdict flipped that way; the movements are those of the packages in both |
| `DryRun.FlipHasACause` | src/ap_planner_bot/dry_run.py:80-81 | a verdict flips only if some check changed its result or its severity |
| `DryRun.MovementIff` | src/ap_planner_bot/dry_run.py:151-166 | the movements of a package are exactly its checks whose result changed, with old and new result |
| `DryRun.ReportForecasts` | src/ap_planner_bot/dry_run.py:99-139 | a package pinned to the evaluated version is reported newly failing if and only if it passes the gate now and would fail it, once the diff is approved, pinned to the version the approval creates; newly passing the other way round |
| `DryRun.GateScans` | src/ap_planner_bot/scan.py:163 | what the gate returns has one outcome for each check id, the same ids every time, waived ones passing |
| `DryRun.SilentFlipIff` | src/ap_planner_bot/dry_run.py:154-171 | a verdict of the gate flips without a recorded movement exactly if no simple result changed and the package is not marked approved or waives the meta check |
| `DryRun.FlipWithoutMovement` | src/ap_planner_bot/dry_run.py:142-179 | a concrete flip with no recorded movement, on two full outputs of the gate that differ only in the severity of the draft check |
| `Gate.WaiverTable` | src/ap_gate/checks/registry.py:68-75 | the waiver table: later entries win, unusable ones are skipped |
| `Gate.ApplyWaivers` | src/ap_gate/checks/registry.py:68-83 | exactly the failing outcomes that are waived become passes, in place |
| `Gate.RunChecks` | src/ap_gate/checks/registry.py:86-101 | the two-pass run returns the specified outcomes |
| `Gate.PassIff` | src/ap_gate/report/model.py:38 | the gate passes exactly if every simple check that fails at required severity is named by an entry of the manifest's waivers |
| `Gate.WaiversAre` | src/ap_gate/checks/registry.py:75-76 | the table holds exactly the checks some usable entry names, each with the reason of its last entry |
| `Gate.GateReports` | src/ap_gate/checks/registry.py:77-83 | what the gate reports of each simple check: a failing one that is waived as a pass marked waived with the last entry's reason in its message, any other untouched |
| `Gate.MetaIff` | src/ap_gate/checks/qa.py:26-58 | the meta check skips exactly on packages not approved, and fails exactly if a required check other than the engine replay failed and neither is waived |
| `Gate.MetaNeverDecides` | src/ap_gate/checks/qa.py:26-58 | the meta check never changes the verdict |
| `Gate.MetaRepeatsVerdict` | src/ap_gate/checks/qa.py:26-58 | on approved packages the meta outcome repeats the verdict unless waived; on others it skips |
| `Gate.SecondPassIsIdle` | src/ap_gate/checks/registry.py:68-83 | the second waiver pass leaves the simple outcomes as they are, messages included |
| `Gate.WaiversNeverHurt` | src/ap_gate/checks/registry.py:68-101 | adding waivers never turns pass into fail |
| `Gate.WaivedMeansPass` | src/ap_gate/checks/types.py:33-34 | a waived outcome reads as a pass; one outcome per check, the meta check last |
| `FieldPath.TemplateToParts` | src/ap_gate/field_path.py:25-36 | the scanner loop splits a template into literals and placeholders |
| `FieldPath.NextIsLeftmost` | src/ap_gate/field_path.py:31 | the scanner finds the leftmost placeholder and skips none |
| `FieldPath.PlaceholderIff` | src/ap_gate/field_path.py:22 | a placeholder is an identifier in braces |
| `FieldPath.PartsSpellTemplate` | src/ap_gate/field_path.py:29-35 | the pieces spell the template again and no literal hides a placeholder |
| `FieldPath.MatchIffRenders` | src/ap_gate/field_path.py:36 | for distinct placeholders a path matches exactly if it is a rendering, or one followed by a newline |
| `FieldPath.MatchInvertsRender` | src/ap_gate/field_path.py:25-36 | with at most one placeholder to a segment a path without trailing newline matches with given captures exactly if it is the template rendered with those non-empty dot-free values |
| `FieldPath.RenderInjective` | src/ap_gate/field_path.py:25-36 | such a template renders different values to different paths |
| `FieldPath.ResolveFindsFirst` | src/ap_gate/field_path.py:39-62 | for every grammar and path: the answer is the first output whose template reaches the path, with the key columns of such a rendering; nothing exactly if all are passed over; failure exactly at a template that does not compile |
| `FieldPath.AnswerIsUnique` | src/ap_gate/field_path.py:25-36 | with at most one placeholder to a segment and no trailing newline that rendering is the only one |
| `PackageStores.BlobStore.Put` | src/ap_store/blobstore.py:146-153 | bytes already stored under a hash stay |
| `PackageStores.BlobStore.Delete` | src/ap_store/blobstore.py:158-165 | exactly one blob goes |
| `PackageStores.PackageStore.Publish` | src/ap_store/store.py:110-195 | the whole new store: first publication, idempotent republish, refusal of other content, refusal of an empty id |
| `PackageStores.PackageStore.Extract` | src/ap_store/store.py:217-224 | a version's stored bytes, or why there are none |
| `PackageStores.PackageStore.SetStatus` | src/ap_store/store.py:284-316 | compare-and-swap on the status with one audit row |
| `PackageStores.PackageStore.LinkReplaces` | src/ap_store/store.py:320-349 | the successor's replaces columns are overwritten and audited |
| `PackageStores.PackageStore.SetLegalHold` | src/ap_store/store.py:351-380 | the hold flag and its reason, audited |
| `PackageStores.PackageStore.Purge` | src/ap_store/store.py:382-440 | refusals, idempotence, the blob deleted exactly if nobody else needs it, the tombstone |
| `StoreRuns.DoKeepsInv` | src/ap_store/store.py:134-195 | every store call keeps: a blob is present exactly if an unpurged row names its hash |
| `StoreRuns.FirstBytesReadBack` | src/ap_store/store.py:402-440 | over every run an unpurged version reads back its first published bytes, a purged one reads back nothing unless an unpurged version was published with the same bytes |
| `StoreRuns.PublishSucceedsIff` | src/ap_store/store.py:125-205 | over every run a publication goes through exactly if its ids are not empty and the version is new or has the same bytes; a new version is a draft recording publisher and gate verdict, anything else changes nothing |
| `StoreRuns.AuditReplays` | src/ap_store/store.py:302-316 | over every run a version's audit entries chain without gap to its live status, hold flag and replaces columns |
| `Workflows.ReviewWorkflow.Transition` | src/ap_review/workflow.py:60-94 | the whole call: transition table, policy checks, status change |
| `Workflows.ReviewWorkflow.CheckSubmit` | src/ap_review/workflow.py:96-110 | submitting needs an analyst and, by policy, stored bytes that pass the gate |
| `Workflows.ReviewWorkflow.CheckDecide` | src/ap_review/workflow.py:112-131 | role, self-review and reason |
| `Workflows.ReviewWorkflow.CheckPullback` | src/ap_review/workflow.py:133-146 | the version's analyst or an admin |
| `Workflows.LifecycleWorkflow.Supersede` | src/ap_lifecycle/workflow.py:89-120 | the whole call: guards, approved successor, status change, then the link |
| `Workflows.LifecycleWorkflow.Recall` | src/ap_lifecycle/workflow.py:122-137 | the whole call |
| `Workflows.LifecycleWorkflow.Restore` | src/ap_lifecycle/workflow.py:139-160 | the whole call |
| `Workflows.LifecycleWorkflow.SetLegalHold` | src/ap_lifecycle/workflow.py:164-178 | the whole call |
| `Workflows.LifecycleWorkflow.Purge` | src/ap_lifecycle/workflow.py:192-205 | the whole call |
| `Interleavings.SoloIsCall` | src/ap_review/workflow.py:60-94 | undisturbed, the reads and writes of any workflow call add up to the whole call |
| `StaleReads.LookOk` | src/ap_review/workflow.py:69-85 | what a call has checked stays true whatever others do before it commits |
| `StaleReads.HappenKeepsInv` | src/ap_store/store.py:302-316 | every step of every overlapping call keeps the audit lawful and the live rows explained by it |
| `StaleReads.StaleReadsAreSafe` | src/ap_review/workflow.py:60-146 | under every interleaving each committed entry obeys its policy against the version as published, every edge is an allowed transition or the purge of an unapproved, unheld version, nothing follows a purge, bytes read back, the audit replays |
| `StaleReads.EveryApprovalWasReviewed` | src/ap_review/workflow.py:96-131 | by default policy every approval, a restore included, has behind it a submission by an analyst or admin of bytes that pass the gate and then an approval by a reviewer other than the analyst, or by an admin |
| `Answers.CallSucceedsIff` | src/ap_review/workflow.py:60-146 | in every state any interleaving can reach, a whole workflow call goes through if and only if its policy allows it, judged on the version as published; it then has exactly its effect on that row, a successor's link and the audit and no other; otherwise it changes nothing and its error is true of the version or the caller |
| `Answers.ReviewSucceedsIff` | src/ap_review/workflow.py:96-146 | the same for review calls: transition, role, gate on the published bytes, self-review, reason, ownership |
| `Answers.LifecycleSucceedsIff` | src/ap_lifecycle/workflow.py:89-205 | the same for supersede, recall, restore, hold and purge |
| `Succession.TakeShape` | src/ap_lifecycle/workflow.py:89-120 | a whole call either supersedes one approved version by another and links them, or supersedes and links nothing; only restore brings a superseded version back |
| `Succession.SuccessionIsAcyclic` | src/ap_lifecycle/workflow.py:63-70 | without restore each superseded version has one recorded successor, following successors never returns, and it ends at a version that is not superseded |
| `Succession.LiveSuccessionEnds` | src/ap_store/store.py:320-349 | with restore too, the latest successors of superseded versions never lead back and end at one not superseded; the replaces columns hold the newest link |
| `SuccessionLimits.RestoreMakesCycle` | src/ap_lifecycle/workflow.py:139-160 | a run from nothing: supersede, restore, supersede the other way; the recorded links and the columns form a cycle |
| `SuccessionLimits.CyclesIffRestore` | src/ap_lifecycle/workflow.py:63-70 | over whole calls of any permitted kinds recorded links are acyclic if and only if publish, review, supersede and restore are not all permitted or nothing can pass review |
| `SuccessionLimits.OverlapMakesCycle` | src/ap_lifecycle/workflow.py:99-119 | a run from nothing: two overlapping supersedes supersede each other |
| `SuccessionLimits.CyclesIffStaleCommit` | src/ap_lifecycle/workflow.py:99-119 | over every interleaving and crash without restore recorded links are acyclic if and only if no supersede may commit after its successor was superseded, or nothing can pass review |
| `SuccessionLimits.CyclesIffOvertaken` | src/ap_lifecycle/workflow.py:99-119 | the same for the overlap behind it: a supersede commits while another call that names its version as successor is past its successor check |
| `Succession.InterleavedSupersedesCycle` | src/ap_lifecycle/workflow.py:99-119 | from any two approved versions, two supersedes read before either commits supersede each other |
| `IndexSpec.RedactPackage` | src/ap_redact/redact.py:49-123 | a blocked version yields nothing, any other at least one chunk, all its own and with its confidentiality |
| `IndexSpec.EveryRowHasItsChunk` | src/ap_redact/chunk.py:134-139 | unblocked, one chunk for the summary, each label row, each run-summary section and each exception, in that order, with its id, kind, field path, text and the version's as-of and profile |
| `IndexStores.IndexStore.IndexPackage` | src/ap_index/index_store.py:57-90 | exactly one version's chunks are replaced; no chunks change nothing; mixed versions are refused |
| `IndexStores.IndexStore.RemovePackage` | src/ap_index/index_store.py:92-98 | exactly one version's chunks go |
| `IndexStores.IndexStore.GetChunk` | src/ap_index/index_store.py:102-105 | a chunk with that id if one is indexed |
| `IndexStores.IndexStore.Search` | src/ap_index/index_store.py:107-142 | matching rows the filters admit, cut to the limit |
| `IndexSpec.SearchRows` | src/ap_index/index_store.py:107-142 | every result passes every filter, and a filter-only search finds something whenever there is something |
| `IndexSpec.AdmittedOneMore` | src/ap_index/index_store.py:107-142 | the filters keep exactly the chunks of the package, profile, kind and confidentiality asked for, in their order |
| `IndexStores.ReindexPackage` | src/ap_index/reindex.py:24-54 | membership worked out again from the live status |
| `IndexRuns.ReindexedIs` | src/ap_index/reindex.py:39-54 | reindexing puts in what is expected of that version and leaves the others alone |
| `IndexRuns.IncrementalEqualsRebuild` | src/ap_api/lifecycle_routes.py:42-104 | after every run of whole routes the index equals a rebuild from scratch, a chunk is indexed if and only if it shows a row of an approved, unblocked version as published, and no reindex raised |
| `IndexRuns.OnlyApprovedIndexed` | src/ap_index/reindex.py:32-40 | every indexed chunk comes from the redacted published bytes of an approved, unblocked version |
| `IndexRace.HalvesAreReindex` | src/ap_index/reindex.py:39-54 | the reading and the writing half with nothing in between are the whole reindex |
| `IndexRace.IndexShowsLastWrite` | src/ap_index/reindex.py:39-54 | with reindexes overlapping each other and single steps of store calls, the index shows of each version what the last write of it had decided when it read the store |
| `IndexRace.FollowsIff` | src/ap_index/reindex.py:39-54 | the index is right about a version exactly if its last writer read it approved and it is approved now, or neither |
| `IndexRace.StaleWriteKeepsRecalled` | src/ap_api/lifecycle_routes.py:78-85 | a run from nothing that leaves a recalled version indexed |
| `IndexRace.LaterReindexRepairs` | src/ap_console/admin_routes.py:418-435 | a reindex with nothing in between makes the index right about its version, whatever happened before |
| `IndexRace.IndexedWasApproved` | src/ap_index/reindex.py:32-40 | stale writes included, every indexed chunk's version was approved at a moment a reindex read it |
| `Identity.ParseCsv` | src/ap_auth/identity.py:50-62 | a stored role set reads back as itself; the empty one reads back as an error |
| `Identity.ParseRolesIff` | src/ap_auth/identity.py:55-62 | parts are stripped, blank ones do not count, every other must name a role and one must be there; the result is those roles |
| `Text.HasReasonIff` | src/ap_proposals/workflow.py:238 | a reason is one exactly if it holds a character that is not whitespace |
| `AuthStores.AuthStore.CreateUser` | src/ap_auth/store.py:89-114 | the whole new state |
| `AuthStores.AuthStore.SetPassword` | src/ap_auth/store.py:116-123 | the whole new state |
| `AuthStores.AuthStore.SetDisabled` | src/ap_auth/store.py:125-146 | the guard, the flag, and every token of the user revoked |
| `AuthStores.AuthStore.SetRoles` | src/ap_auth/store.py:148-170 | the guard and the new role text |
| `AuthStores.AuthStore.CountEnabledAdmins` | src/ap_auth/store.py:172-180 | the number of other enabled admins, or the failure on unreadable roles |
| `AuthStores.AuthStore.CheckEnabled` | src/ap_auth/store.py:225-228 | the first hold of the lock: is there such an enabled user |
| `AuthStores.AuthStore.InsertToken` | src/ap_auth/store.py:229-239 | the second: a fresh row, its expiry cut to seconds, none for a zero lifetime |
| `AuthStores.AuthStore.IssueToken` | src/ap_auth/store.py:216-240 | both with nothing in between |
| `AuthStores.AuthStore.RevokeToken` | src/ap_auth/store.py:242-244 | exactly that token is revoked |
| `AuthStores.AuthStore.RevokeSessionByHash` | src/ap_auth/store.py:246-256 | exactly that token is revoked, or refused as unknown |
| `AuthStores.AuthStore.IdentityForToken` | src/ap_auth/store.py:278-295 | the resolution as specified |
| `AuthRuns.DisableRefusedIff` | src/ap_auth/store.py:131-140 | disabling is refused exactly for the only enabled admin, and never for unreadable roles |
| `AuthRuns.RolesRefusedIff` | src/ap_auth/store.py:160-166 | a role change is refused exactly where it takes admin from the only enabled admin |
| `AuthRuns.AnAdminRemains` | src/ap_auth/store.py:125-180 | once an enabled admin exists every run of calls keeps one |
| `AuthHistory.CallSucceedsIff` | src/ap_auth/store.py:89-256 | after every run any call goes through if and only if the history allows it, and the error of one that does not is true of it |
| `AuthHistory.PasswordTells` | src/ap_auth/store.py:89-123 | a stored password is the one last given by a call that succeeded |
| `AuthHistory.AuditIsHistory` | src/ap_auth/store.py:89-256 | the audit holds one row for each change of a user, each revocation by hash and each audited issue, in order, and no other |
| `TokenHistory.SessionTells` | src/ap_auth/store.py:216-256 | a session row exists exactly for issued tokens, and is revoked exactly if a later call revoked it or disabled its owner |
| `TokenHistory.ResolvesIff` | src/ap_auth/store.py:278-295 | with check and insert of an issue apart: a token resolves exactly if it was inserted, the end of its lifetime, cut to the second, has not passed, nothing since revoked it or disabled its owner, and its owner is enabled; and then to the owner with the roles last granted |
| `AuthSpec.ExpiredIff` | src/ap_auth/store.py:229-231 | a token is expired from the end of its lifetime on, at most a second earlier, and without a lifetime never |
| `TokenHistory.UnbrokenIsEnabled` | src/ap_auth/store.py:225-239 | if nobody disabled the owner between check and insert, a token not ended has an enabled owner |
| `TokenHistory.DisableBetweenLeaks` | src/ap_auth/store.py:225-239 | a run in which a disable between check and insert does not keep the token from resolving later |
| `TokenHistory.ComesBackIff` | src/ap_auth/store.py:141-146 | an issued token can come to resolve again if and only if nothing after its insert revoked it or disabled its owner |
| `TokenHistory.RevocationIsPermanent` | src/ap_auth/store.py:141-146 | a token revoked, or whose owner was disabled, after its insert never resolves again, re-enabling included |
| `ManagerSpec.VisibleTo` | src/ap_manager_bot/scoping.py:35-42 | restricted content is visible exactly to analysts, reviewers, standard approvers and admins |
| `ManagerBots.ManagerBotTools.SearchPackages` | src/ap_manager_bot/tool_backend.py:115-121 | results filtered before and after the search, each registered as citable |
| `ManagerBots.ManagerBotTools.GetPackageSummary` | src/ap_manager_bot/tool_backend.py:123-128 | the visible summary chunk, registered, or an error |
| `ManagerBots.ManagerBotTools.GetGateReport` | src/ap_manager_bot/tool_backend.py:130-161 | a gate report only behind a visible summary, registered, or an error |
| `ManagerBots.ManagerBot.Answer` | src/ap_manager_bot/service.py:75-97 | the bounded loop computes the specified conversation, and counts the calls of the model |
| `ManagerBots.ManagerBot.FinalAnswerOf` | src/ap_manager_bot/service.py:118-138 | the closing decision as specified |
| `CitationContract.FinalAnswerContract` | src/ap_manager_bot/service.py:118-138 | when the loop ends, when the answer is refused, its text without outer whitespace, and exactly which citations it has |
| `CitationContract.CitedInOrder` | src/ap_manager_bot/service.py:124-129 | citations come in the order they are cited; what was never handed out is left out |
| `CitationContract.ToolIsScoped` | src/ap_manager_bot/tool_backend.py:115-161 | no tool result shows anything outside the caller's scope or the index |
| `CitationContract.ConverseIsGrounded` | src/ap_manager_bot/service.py:80-97 | every turn keeps: what can be cited was shown in a tool result of this conversation |
| `CitationContract.EveryAnswerIsCited` | src/ap_manager_bot/service.py:75-138 | for every model, and store and index changing between turns: at most the allowed number of calls, and an answer that is no refusal has text and citations, each carried by a tool result of an earlier turn |
| `BotProgress.ShownIs` | src/ap_manager_bot/service.py:75-97 | the model is shown the question and then, turn by turn, what it asked for and what it got |
| `BotProgress.AnsweredIff` | src/ap_manager_bot/service.py:75-138 | for every model: the bot goes on while tools are asked for and turns are left, and answers if and only if the model in time provides something not flagged as no evidence, with text, that cites what an earlier turn handed out |
| `BotProgress.CitedAnswerIsGiven` | src/ap_manager_bot/service.py:118-138 | so an answer with text that cites anything a tool result of this conversation carried is given |
| `BotProgress.SearchShows` | src/ap_manager_bot/tool_backend.py:115-121 | a search shows, up to the limit and in order, every chunk the caller may see of the package and kind asked for |
| `BotProgress.SummaryShows` | src/ap_manager_bot/tool_backend.py:123-161 | a summary is shown exactly if the caller may see one, a gate report exactly if besides the version's bytes can be read |
| `Schedules.CallsAreEvents` | src/ap_review/workflow.py:60-94 | a run of whole calls is one of the interleavings, with the same store and first publications |
| `EndToEnd.RoutesAreEvents` | src/ap_api/app.py:160-178 | so is a run of whole routes |
| `EndToEnd.IndexedWasReviewed` | src/ap_index/reindex.py:39-54 | by default policy everything indexed after any run of whole routes passed the gate and an independent review |
| `EndToEnd.OverlappedWasReviewed` | src/ap_index/reindex.py:39-54 | with overlapping reindexes too, everything indexed had passed the gate and an independent review when it was read |
| `EndToEnd.EveryCitationWasReviewed` | src/ap_manager_bot/service.py:118-138 | for any model and caller, whatever steps of reviews, lifecycle calls and reindexes overlap between the turns, what an answer cites belongs to a version of which the caller could see a chunk when it was shown and which had passed the gate and an independent review when it was read into the index |
| `Telegram.OffsetStore.Save` | src/ap_chat/telegram/offset_store.py:25-27 | the file holds the new offset, or the old one if the save raised before touching it, or none if it was torn |
| `Telegram.TelegramPlatform.Poll` | src/ap_chat/telegram/adapter.py:44-59 | the offset moves past the highest id seen, answered or not, before the batch is handed over |
| `Telegram.BotRunner.TryOnce` | src/ap_chat/runner.py:75-82 | one batch: which messages reached the handler, and whether it raised |
| `Telegram.BotRunner.RunForever` | src/ap_chat/runner.py:68-89 | the loop as a sequence of attempts, ending at the cycle limit |
| `Delivery.ProcessIsRun` | src/ap_chat/runner.py:68-89 | one process, started after any history of crashes, is a piece of a run |
| `Delivery.AtMostOnce` | src/ap_chat/telegram/adapter.py:44-59 | whatever fails and whenever it crashes, short of a torn save, no message reaches the handler twice and the stored offset never goes back |
| `Delivery.AtMostOnceIff` | src/ap_chat/telegram/offset_store.py:18-27 | with torn saves and torn crashes too: at most once in every run if and only if no save is torn or the server remembers the highest offset it was asked with |
| `Delivery.NothingLost` | src/ap_chat/runner.py:74-89 | without crashes and handler failures every message is handled, once and in order |
| `Delivery.HandledIs` | src/ap_chat/runner.py:74-82 | in every run what was handled is, event by event, all messages of a batch saved whole, cut where a handler raised or the process crashed |
| `Delivery.BatchKeepsOrder` | src/ap_chat/telegram/adapter.py:46-51 | the messages to answer keep the order they were returned in |
| `Delivery.OffsetIsLastWritten` | src/ap_chat/telegram/offset_store.py:18-27 | the file reads as the last event that wrote it left it: one past the highest id returned, or nothing if torn; no message is skipped unseen |
| `Delivery.BackoffIs` | src/ap_chat/runner.py:72-87 | the delay is the least one doubled per failure in a row, capped |
| `Delivery.SleepsAndCycles` | src/ap_chat/runner.py:68-89 | one sleep for each failure, of the least delay after a handler failure and the doubled, capped one otherwise; cycles count the polls completed since the start |

## Left out

- HTTP routes, console, command line and streaming: only the order "workflow call, then reindex" (or "purge, then remove") is modelled, as one composite route; routes do not overlap each other in the rebuild theorem (overlaps are the subject of `IndexRace`, where a reindex reads the store in one step and writes the index in another).
- SQLite, tar, gzip, SHA-256, scrypt, YAML and JSON Schema: maps, sequences, injective hashes and atomic steps; a crash inside one package-store call (blob written or deleted, transaction not committed) is not modelled.
- Single gate checks, secret detectors, text scrubbing and chunk extraction: total functions of the content, so an exception inside them is not modelled; redaction-report sidecars are left out.
- Time: timestamps, display fields and the wording of errors; notifier calls, whose failures the code swallows.
- DecideRace.OverlappedDecisions: asks, profile by profile, one seeded file that no proposal and no edit deletes, because an empty version directory can be replaced (`RegistryRaceExact.SafeIffOneFileKept`).
- Registry races: the read cache is treated in its own theorem, with each registry call atomic; writing the pointer file is one atomic step, and temporary directories left by a crash are not listed (`versions()` is left out).
- Names with path meaning (`.`, `..`, `/`) in a package's declared profile or version, and versions named like the registry's own bookkeeping files.
- JSON numbers are reals; a reason-code list given as a JSON object counts as a merge error; non-ASCII digits and white space, and the interpreter's limit on integer length, are left out of number parsing.
- The meta check's message text is simplified; unknown proposal kinds and an unresolvable kind at decision time do not occur, since a diff carries its kind.
- The profile's grammar lookup before the field-path resolver (no grammar means no answer).
- Statuses outside the seven used ones as a requested target: they are refused like any pair outside the tables.
- Replaces-link audit notes are kept as the key itself, not as the text `id/version`.
- Retention settings, listing, statistics, login by password, and the allowlist and reply text of the chat runner.
- A model that sends tool input of the wrong shape to the closing tool (the code then raises); other malformed tool input gets an error result, as in the code.
- RegistryRace.NoLostUpdate: asks one seeded file that no approval deletes, because an empty version directory can be replaced; that this is exactly what is needed is `RegistryRaceExact.SafeIffOneFileKept`.
- RegistryRaceLimits.SafeIffSeeded: speaks of approvals that delete nothing; all others are in `RegistryRaceExact.SafeIffOneFileKept`.
- RegistryCrash.CrashOrphansIff: asks one seeded file that no approval deletes; without it a call can stand between directory and pointer while another has moved the pointer on.
- RegistryCrash.OrphanBlocksForever: asks the same; that this is exactly what is needed is `RegistryCrash.OrphanStaysIffOneFileKept`.
- DryRun.ReportForecasts: takes checks that look at the files of a profile and not at the number of the declared version, and a corpus in which no two packages share a report key.
- Delivery.AtMostOnce: asks that no save is torn, and that the server returns distinct ids at or above the offset it is asked with; what torn saves need is `Delivery.AtMostOnceIff`.
