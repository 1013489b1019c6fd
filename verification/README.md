# Verification of the PRISM-X browser core

PRISM-X keeps all its state in plain records in the browser, which small operations change in place. Several of these
operations promise something about whole runs: extensions are dependency-safe, an evolution change can be rolled back,
histories are bounded, an action needs a permission. This project models the operations in Dafny and proves those
promises for every input, every catalog and every sequence of operations.

Each component has the same layout. A state datatype and a step function describe what the operations do. A class with
the source's own mutable fields has one method per operation, written in the source's loop-and-assign form and proved
equal to the step on its abstract state. Lemmas about runs of steps state what the component promises.

| file | models |
|---|---|
| `Versions`, `Extensions`, `ExtensionRuns` | the extension manager: install, approve, enable, uninstall, update, the listener index |
| `EventBus`, `Taps`, `Traces`, `Cascades`, `Reach`, `Rankings`, `Shipped` | emit, the names an event is published under, listeners that emit again through their permission-gated facade, whom an event reaches, which catalogs have only finite cascades, and the shipped catalog |
| `Evolution`, `EvolutionRuns`, `Stages`, `RegistryOrder`, `LastInFirstOut`, `ToneRuns`, `Proposals`, `Analysis` | the safe-evolution state machine, the life of a suggestion, undoing in any order, and what the analysis proposes when |
| `Prompts`, `Performance`, `Seeded`, `Trends` | prompt versions, the 30-day ledger, hash and random generator, weekly charts |
| `Knowledge`, `KnowledgeRuns`, `KnowledgeEdits`, `KnowledgeSync`, `Search`, `Thresholds`, `SearchUndo` | the document vault, its link graph, imports from other nodes, ranked search, which matches outrank which, archiving |
| `Lineage`, `LineageRows`, `Columns` | the lineage walk and the day columns of the app |
| `Execution`, `ExecutionRuns` | concurrent action runs with retries |
| `Ledger` | the revenue center |
| `Rings`, `Sequences`, `Sorting`, `Preorder`, `Rounding`, `Texts`, `Wrappers` | bounded lists, sequences, stable sort, preorder sequences, rounding, substrings, options |

## Where the code promises more than it does

The model follows the code. Where one of its own claims is false as it stands, the exact condition is proved.

- A rollback announces "Previous state restored" (js/evolution.js:291). Archived flags always come back. The workflow
  registry comes back in content, because a removed workflow is appended at the end; its order comes back exactly when
  the workflows put back were its last ones, in that order (`OrderComesBackExactly`, `OrderIsLostSomewhere`). A clone's
  tone comes back exactly when the clone had it at the moment the switch rolled back last was carried out, so always
  when the first switch is undone last (`ToneComesBackExactly`, `FirstAppliedLastUndone`, `ToneIsLostSomewhere`); a
  recorded empty tone is ignored (`ToneComesBackExactlyWhenNamed`).
- A merge is said to consolidate two workflows (js/evolution.js:227). Apply never looks for the one to keep, which is
  registered afterwards exactly when it was before (`MergeIgnoresItsPartner`); deleting it between the approval and the
  apply leaves neither (`MergeLeavesNeitherSomewhere`).
- Importing simulated earnings is guarded by the ghost line only (js/enterprise.js:193). A second import adds nothing
  exactly while a ghost line is among the last 400 entries, or nothing positive is left
  (`LaterImportAddsNothingExactly`); 400 other entries in between defeat the guard (`GuardLastsExactly`), and so does
  a first import without ghost revenue (`SecondImportAddsNothingExactly`).
- A publish that catches what its listeners throw reads the message of it (js/extensions.js:63-66), which fails for
  null and undefined. Such a throw skips the later subscribers and names (`PublishReachesEveryListenerExactly`,
  `EveryNameIsPublishedExactly`), and in an init hook it leaves the install or approval (`InstallContainsInit`). When it
  does not depend on the past whether a listener throws so, all subscribers are reached exactly when none before the
  last does, and all names published exactly when no subscriber of an earlier name does
  (`SteadyListenersAreReachedExactly`, `SteadyNamesArePublishedExactly`); in general no listener that might do so and
  some listener that always does decide it (`SafeListenersAreAllReached`, `SafeNamesAreAllPublished`). Two installed
  listeners that throw null show the loss (`OneThrowHidesTheEvent`).
- Enabling, disabling and uninstalling end by reading the name in the catalog entry (js/extensions.js:417, 430), so
  they take effect and then throw when the catalog no longer lists the extension (`UninstallSucceedsExactly`); no run
  from an empty manager gets there (`OnlyInitCrashes`).
- Lifetime tasks and leads are more than the daily entries ever add up to: collaboration partners and outer shells
  credit them directly (js/store.js:275, js/shells.js:219), so the figures agree exactly when that never happened
  (`IndexAccountsForLifetimeExactly`).
- `current()` (js/execution.js:465) shows the record ticked last, not whether anything runs (`InFlightIsLastTicked`,
  `NothingInFlightWhileRunning`).
- A title match outranks body matches only while its raw score is more than 65/37 times theirs (`RawGapDecides`), so a
  title match on one term wins in every case exactly when the term has more than 65/111 of the query's weight
  (`TitleBeatsBodyExactly`): for one word, when it has at most one synonym (`SynonymsOutweighTitleExactly`). Against
  matches in tags it is never safe, not even for one word (`TitleIsNeverSafeFromTags`).
- The vault is capped at 300 documents where they are stored (js/knowledge.js:143), but not where they are imported
  (js/network.js:357); a run exceeds the cap by at most the documents it received (`OnlyImportsExceedCap`).
- Of two versions the import takes the more confident one, and freshness is said to break ties (README.md:503-504 of
  PRISM-X). A version that replaces a local one counts as written at the time of the import, so of two equally
  confident ones the newer is taken exactly when the older, met first, did not replace anything, and for an unknown
  title when the older one is dated (`TieTakesNewerExactly`).
- The import says that simulated earnings are never mixed with real bookkeeping (js/enterprise.js:199). Each line is
  tagged, but counts in every figure as one-time revenue (`ImportCountsAsRevenue`).
- The revenue bars add up to revenue exactly when no positive revenue has another category (`CategoriesAddUpExactly`).
- The lineage view hides every clone on a cycle of parents, and everything below it (`AllShownExactlyWithoutCycles`).

## Model

| member | source | states |
|---|---|---|
| `Versions.Compare` | js/extensions.js:348-352 | the sign of the comparison says which version precedes at the first of three numbers where they differ; zero exactly when all three agree |
| `Versions.CmpVersion` | js/extensions.js:348-352 | the comparison loop computes that order |
| `Versions.CompareIsTotalPreorder` | js/extensions.js:348-352 | the order is reflexive, total and transitive, as Semantic Versioning 2.0.0 item 11 asks of the three numbers |
| `Extensions.ExtensionManager.Boot` | js/extensions.js:513-519 | after boot the listener index agrees with the persisted records |
| `Extensions.ExtensionManager.RebuildSubs` | js/extensions.js:402-410 | for every event name, the rebuilt index lists exactly the enabled and approved listeners in install order |
| `Extensions.ExtensionManager.AddListener` | js/extensions.js:405-407 | one extension is appended under exactly the names it listens to |
| `Extensions.ExtensionManager.ActivateExtension` | js/extensions.js:396-401 | only an active extension is initialised, the index agrees afterwards, an init whose error can be read only marks the record, and one whose error cannot be read leaves the operation |
| `Extensions.ExtensionManager.DoInstall` | js/extensions.js:355-383 | takes the install step with its refusals in the source's order, and the index still agrees although it is not always recomputed |
| `Extensions.ExtensionManager.DoApprove` | js/extensions.js:385-395 | takes the approve step, and the index agrees afterwards |
| `Extensions.ExtensionManager.DoSetEnabled` | js/extensions.js:411-420 | takes the enable step, and the index agrees afterwards; without a catalog entry an exception follows the change |
| `Extensions.ExtensionManager.DoUninstall` | js/extensions.js:421-433 | takes the uninstall step: refused while another installed extension depends on it; the index agrees afterwards, and without a catalog entry an exception follows the change |
| `Extensions.ExtensionManager.DoUpdate` | js/extensions.js:434-449 | takes the update step; the index agrees although it is not recomputed |
| `Extensions.IndexSurvivesQuietSteps` | js/extensions.js:355-449 | a step that changes nobody's activity and adds only inactive extensions leaves every subscriber list right |
| `ExtensionRuns.RunIsSound` | js/extensions.js:355-449 | every run keeps keys distinct, dependencies before dependents, and every installed manifest valid and compatible |
| `ExtensionRuns.InsertionOrderIsTopological` | js/extensions.js:360-383 | after any run the insertion order is a topological order, and all dependencies of installed extensions are installed |
| `ExtensionRuns.UninstallingTheNewest` | js/extensions.js:421-433 | the newest extension can always be uninstalled, which leaves the others in order |
| `ExtensionRuns.ReverseUninstallEmpties` | js/extensions.js:421-433 | uninstalling in reverse insertion order succeeds at each step, down to nothing |
| `ExtensionRuns.UninstallSucceedsExactly` | js/extensions.js:421-433 | an uninstall takes effect if and only if the extension is installed and no other installed one depends on it; an exception then leaves it if and only if the catalog has no entry for it |
| `ExtensionRuns.OnlyInitCrashes` | js/extensions.js:355-449 | in every reachable state an operation ends in an exception only when it initialises an active extension whose init throws what cannot be read |
| `ExtensionRuns.InstallRefusedExactly` | js/extensions.js:355-365 | each refusal of an install has its cause: an unknown id, a missing field, list or unknown permission, a newer core, the first dependency not installed, or installed already |
| `ExtensionRuns.InstalledExactly` | js/extensions.js:355-433 | after any run an extension is installed if and only if an install of it took effect and no uninstall since |
| `ExtensionRuns.ActiveExactly` | js/extensions.js:344-420 | after any run an extension is active if and only if an install of it stands, it asks for no permission or was approved since, and it was not switched off since without being switched on again |
| `ExtensionRuns.ApprovedExtensionHears` | js/extensions.js:355-410 | installed and approved, an extension is active, has exactly the grants it asks for, and stands at the end of exactly the subscriber lists its manifest names |
| `ExtensionRuns.VersionExactly` | js/extensions.js:369-449 | the version on record is the catalog's once updated since the install, and until then the one asked for, or the default |
| `ExtensionRuns.KeysAfterStep` | js/extensions.js:355-365 | an install takes effect if and only if the extension is admissible, not installed, and all its dependencies are; nothing else adds a key; a refused operation changes nothing |
| `ExtensionRuns.Replay` | js/extensions.js:355-383 | the installs of one run can be repeated after another run, so reachable sets of extensions can be joined |
| `ExtensionRuns.InstallableIdsAreClosed` | js/extensions.js:355-383 | what can ever be installed is closed under "admissible with all dependencies in the set" |
| `ExtensionRuns.InstallableIsLeastFixedPoint` | js/extensions.js:355-383 | an extension appears in some reachable state if and only if it is in the least fixed point of that rule |
| `ExtensionRuns.BlockedNeverInstalls` | js/extensions.js:360-363 | no run installs anything on or above a dependency cycle, or above an invalid or incompatible entry |
| `ExtensionRuns.GrantsComeFromApproval` | js/extensions.js:366-395 | after any run an extension's grants are its requested permissions if an approval happened since its latest install, and none otherwise |
| `ExtensionRuns.FacadeNeedsApproval` | js/extensions.js:89-99 | a gated facade call goes through if and only if the caller is the owner's console, or the manifest asks for the permission and it was approved since the latest install |
| `ExtensionRuns.UpdatesOnlyRaise` | js/extensions.js:434-449 | no operation lowers an installed version, and right after an update none is on offer |
| `ExtensionRuns.FreshInstallOffersUpdateExactly` | js/extensions.js:369-369 | right after a default install an update is on offer if and only if it is the one extension shipped with an older version |
| `ExtensionRuns.DisablingIsReversible` | js/extensions.js:411-420 | disabling takes exactly this extension out of every subscriber list, and enabling again restores the state |
| `ExtensionRuns.InstallContainsInit` | js/extensions.js:379-379 | a manifest whose init throws is installed like any other: a readable error leaves only a health mark, an unreadable one no mark but an exception; one that runs leaves it healthy |
| `ExtensionRuns.ApproveContainsInit` | js/extensions.js:385-401 | the same for an approval |
| `Traces.EmitAdds` | js/bridge.js:134-151 | what has happened after an emit is what had happened before and behind it the trace of a finite cascade |
| `Traces.EmitStaysWithin` | js/bridge.js:134-151 | a cascade never nests deeper than the rank of its first event |
| `EventBus.Bus.constructor` | js/extensions.js:513-519 | the bus starts from a manager whose index agrees with its records |
| `EventBus.Bus.Emit` | js/bridge.js:134-151 | one emit books exactly its cascade, in order, into the rings and counters, and drops an exception that leaves the tap |
| `EventBus.Bus.OnCoreEvent` | js/extensions.js:71-84 | the event is published under each of its names, in order, until an exception leaves one of the publishes |
| `Taps.PublishedExactly` | js/extensions.js:71-84 | an event is published under a name if and only if it is the core name, or a named event of its kind one of whose patterns the text contains |
| `Taps.PublishedAreEarned` | js/extensions.js:71-84 | the core name comes first, and behind it the names the event earns, in the order of the list |
| `Texts.HasExactly` | js/extensions.js:74-83 | a text matches a pattern if and only if it is something, the pattern, something |
| `Texts.LowerExactly` | js/extensions.js:80-80 | letters are lowered one by one, and everything else stays as it is |
| `EventBus.Bus.Publish` | js/extensions.js:53-55 | the name is booked, then the subscribers of the index are delivered to |
| `EventBus.Bus.DeliverToAll` | js/extensions.js:56-68 | the subscribers are called in order until one throws what the catch cannot read |
| `EventBus.Bus.DeliverTo` | js/extensions.js:57-67 | one delivery runs the listener and books one call, or one error when it throws; it fails itself when what was thrown cannot be read |
| `EventBus.Bus.CallListener` | js/extensions.js:89-142 | a listener runs its facade calls until one is denied or throws |
| `EventBus.Bus.Raise` | js/extensions.js:100-142 | the core events a facade call raises start cascades of their own, one after the other |
| `Cascades.RingsHoldTheLatest` | js/bridge.js:146-147 | whatever a cascade does, the event ring holds the last 500 events emitted and the bus ring the last 60 names published |
| `Cascades.ParentsComeFirst` | js/bridge.js:134-151 | in every cascade each event comes after the one whose listener raised it, nested in preorder |
| `Cascades.PublishReachesEveryListenerExactly` | js/extensions.js:53-69 | a publish calls active listeners of the name, each once, in install order, whatever cascades earlier ones start; it reaches all of them if and only if none before the last throws what cannot be read |
| `Cascades.EveryNameIsPublishedExactly` | js/extensions.js:71-84 | the names are published in order, all of them if and only if no listener of an earlier name throws what cannot be read |
| `Reach.SafeListenersAreAllReached` | js/extensions.js:53-69 | a publish reaches all subscribers when no reaction of one before the last throws what cannot be read, and skips some when every reaction of one before the last does |
| `Reach.SteadyListenersAreReachedExactly` | js/extensions.js:53-69 | when that does not depend on the past, a publish reaches all subscribers if and only if none before the last throws what cannot be read |
| `Reach.SafeNamesAreAllPublished` | js/extensions.js:71-84 | all names of an event are published when no reaction of a subscriber of an earlier name throws what cannot be read, and some are skipped when every reaction of one does |
| `Reach.SteadyNamesArePublishedExactly` | js/extensions.js:71-84 | when that does not depend on the past, all names are published if and only if no subscriber of a name before the last throws what cannot be read |
| `Reach.SafeNamesInclude` | js/extensions.js:53-84 | when no listener of an event may throw what cannot be read, all that each of its listeners does is part of the cascade |
| `Reach.OneThrowHidesTheEvent` | js/extensions.js:53-84 | two installed listeners that throw null: the second hears nothing of the event, and its second name is never published |
| `Cascades.TapIsDistinct` | js/extensions.js:71-84 | no event is published twice under one name |
| `Cascades.CallsAndErrorsCountDeliveries` | js/extensions.js:58-66 | an extension's calls grow by exactly the deliveries to it that finish, and its errors by those that throw, nested ones included |
| `Cascades.CallsAndErrorsFromNothing` | js/extensions.js:58-66 | from an empty book they are these numbers |
| `Cascades.FirstBadCallEndsListener` | js/extensions.js:94-99 | the first denied or throwing call ends a listener and decides how it ends; what follows it has no effect |
| `Rankings.RankingExistsExactly` | js/extensions.js:53-84 | when listeners raise finitely many kinds of events, a ranking that makes every cascade finite exists if and only if no kind leads back to itself |
| `Rankings.ShippedCatalogIsRanked` | js/extensions.js:187-250 | every cascade of the shipped catalog is finite: its listeners lead only from org and mission events to other kinds |
| `Shipped.ShippedInstallableExactly` | js/extensions.js:162-330 | of the shipped catalog everything can be installed except the one entry that asks for a newer core |
| `Shipped.NarratorStoresExactly` | js/extensions.js:232-251 | with the narrator active and allowed to store, the cascade of a mission event contains a knowledge event if and only if its text contains "COMPLETED" |
| `Shipped.ApprovedNarratorStoresExactly` | js/extensions.js:232-251 | installing and approving the narrator from the shipped catalog is enough for that |
| `Evolution.EvolutionEngine.AddSuggestion` | js/evolution.js:152-167 | takes the suggestion step: nothing while a live one has the same target, and at most 40 kept |
| `Evolution.EvolutionEngine.FindMerge` | js/evolution.js:222-231 | the grouping loop finds the first two workflows of the first worker with at least two |
| `Evolution.EvolutionEngine.FindMissingRole` | js/evolution.js:198-209 | finds the first role that no clone has |
| `Evolution.EvolutionEngine.FindWeak` | js/evolution.js:184-196 | finds the clones rated at least twice and below three on average |
| `Evolution.EvolutionEngine.GenerateSuggestions` | js/evolution.js:169-237 | one analysis suggests two stale documents, a prompt for every weakly rated clone, the first missing role, a provider when none is connected, and one merge, in this order |
| `Evolution.EvolutionEngine.Transition` | js/evolution.js:240-249 | moves one suggestion from one stage to another, or does nothing |
| `Evolution.EvolutionEngine.DoApprove` | js/evolution.js:240-240 | takes the approve step |
| `Evolution.EvolutionEngine.DoReject` | js/evolution.js:241-249 | takes the reject step |
| `Evolution.EvolutionEngine.DoAccept` | js/evolution.js:273-275 | takes the accept step |
| `Evolution.EvolutionEngine.DoApply` | js/evolution.js:250-272 | takes the apply step of each of the three reversible kinds |
| `Evolution.EvolutionEngine.DoRollback` | js/evolution.js:276-294 | takes the rollback step of each of the three reversible kinds |
| `Evolution.EvolutionEngine.DoRunWorkflow` | js/bridge.js:307-320 | the first draw seeded with the hash decides; only the counters of the first workflow with this id grow |
| `Evolution.SucceedsExactly` | js/bridge.js:307-320 | a simulated run succeeds if and only if the first scrambled word exceeds three twentieths of the range of words |
| `Evolution.EvolutionEngine.DoDeleteWorkflow` | js/bridge.js:321-324 | takes the delete step: every workflow with this id goes |
| `EvolutionRuns.StepKeepsInv` | js/evolution.js:152-304 | every step keeps at most one live suggestion per target, blank payloads before apply, and archive flags in step with stages: pending targets are not archived, monitored ones are |
| `EvolutionRuns.StepBalances` | js/evolution.js:152-304 | one step: workflows kept plus lost equal workflows kept before plus added, for every way of counting |
| `EvolutionRuns.WorkflowsAreConserved` | js/evolution.js:250-304 | over any run, workflows in the registry or in a monitored merge plus those gone for good are those there at first plus those registered |
| `EvolutionRuns.EachWorkflowIsInOnePlace` | js/bridge.js:285-324 | a workflow ever registered is once in the registry, or once in a monitored payload, or gone for good (deleted, merge accepted, or pushed out by the cap), and in no two of these places |
| `EvolutionRuns.MergeIgnoresItsPartner` | js/evolution.js:259-261 | an applied merge removes one workflow exactly when it is registered, and the one to keep is registered afterwards exactly when it was before |
| `RegistryOrder.MergeLeavesNeitherSomewhere` | js/evolution.js:222-261 | from an empty registry: two workflows, the merge the analysis proposes for them, its approval, the deletion of the one to keep, and the apply leave an empty registry |
| `EvolutionRuns.StepKeepsCountersSane` | js/bridge.js:307-320 | no workflow, registered or set aside, ever has more successes than runs |
| `EvolutionRuns.RunsAreCounted` | js/bridge.js:307-320 | running a registered workflow adds to its runs, and the successful runs to its successes, and changes nothing else |
| `Stages.StageFollowsDecisions` | js/evolution.js:240-304 | after any run a suggestion is in the stage that the table of decisions makes of those naming it, whatever else happens, unless the cap has pushed it out |
| `Stages.RejectedNeverDeploys` | js/evolution.js:244-244 | a rejected suggestion is never deployed in any run |
| `Stages.DeployedOnlyWhenDecided` | js/evolution.js:240-272 | a suggestion is deployed only after an approval, with no rejection before it, and an apply behind it |
| `Stages.OnlyApprovedApplies` | js/evolution.js:250-280 | applying what is not approved, or rolling back what is not monitored, changes nothing at all |
| `Stages.TargetIsFreeAgain` | js/evolution.js:154-154 | once a suggestion is rejected or rolled back, its target can be suggested again |
| `Stages.TargetIsTaken` | js/evolution.js:154-154 | while one is pending, approved, monitored or accepted, suggesting its target again does nothing |
| `Stages.SuggestionsAreBounded` | js/evolution.js:165-165 | no more than 40 suggestions are ever listed |
| `EvolutionRuns.StepKeepsUnderlying` | js/evolution.js:250-294 | a suggestion step leaves every archived flag that is not due to a monitored suggestion as it was |
| `EvolutionRuns.UndoingInAnyOrderRestores` | js/evolution.js:250-294 | once the monitored archives and merges are those of the start again, undone in any order, all flags and the registry as a multiset are what they were |
| `RegistryOrder.RegistryAfterRun` | js/evolution.js:258-284 | after any run, with workflows registered, run, deleted, merged and put back, the registry lists what was never taken out, in its order, and behind it what was registered or put back, in that order |
| `RegistryOrder.SurvivorsKeepOrderExactly` | js/evolution.js:258-284 | over any run, the workflows registered before and after it stand in their old order if and only if those of them that were put back end the old order, put back in that order |
| `RegistryOrder.OrderComesBackExactly` | js/evolution.js:258-284 | once archives and merges are undone, in any order, the registry has its old order if and only if the workflows put back are its last ones, put back in the order in which they stood |
| `RegistryOrder.MergeUndoneKeepsOrderExactly` | js/evolution.js:258-284 | one merge undone at once keeps the order if and only if the removed workflow was the last one or not registered |
| `RegistryOrder.OrderIsLostSomewhere` | js/evolution.js:222-284 | from an empty registry, three workflows, the merge the analysis proposes and its rollback leave another order |
| `RegistryOrder.FreshIdsLeaveNoTwins` | js/bridge.js:285-305 | with fresh ids no run leaves two workflows with one id |
| `LastInFirstOut.RecordSurvives` | js/evolution.js:250-294 | what an apply recorded is still there when its suggestion is rolled back after any run in between |
| `LastInFirstOut.NestRestores` | js/evolution.js:250-294 | properly nested applies and rollbacks restore every tone and every claim |
| `LastInFirstOut.LastInFirstOutRestores` | js/evolution.js:250-294 | a run undone last in, first out restores tones and archived flags exactly and the registry as a multiset |
| `ToneRuns.FinalToneIsLastRestored` | js/evolution.js:261-288 | after any run that undoes every switch of a clone, in any order, its tone is the one that the switch rolled back last had recorded |
| `ToneRuns.ToneComesBackExactly` | js/evolution.js:261-288 | the tone is back if and only if nothing wrote it, or the clone had it when the switch rolled back last was carried out |
| `ToneRuns.FirstAppliedLastUndone` | js/evolution.js:261-288 | so it is back whenever the switch applied first is rolled back last, in whatever order the others are undone |
| `ToneRuns.ToneIsLostSomewhere` | js/evolution.js:261-288 | from a fresh start, two switches of one clone undone first in, first out leave it with another tone |
| `LastInFirstOut.ToneComesBackExactlyWhenNamed` | js/evolution.js:261-288 | apply then rollback restores the tone if and only if it was not empty, or the new one is empty as well |
| `LastInFirstOut.ToneOrderMatters` | js/evolution.js:261-288 | undone first in, first out, two switches of one clone leave it with the first switch's tone |
| `Proposals.MergesAreGrounded` | js/evolution.js:222-231 | a proposed merge names two different registered workflows of one worker |
| `Proposals.MergeProposedExactly` | js/evolution.js:222-224 | a merge is proposed if and only if some worker has at least two workflows |
| `Analysis.ArchiveProposedExactly` | js/evolution.js:174-183 | archiving a document is proposed if and only if it is listed, unarchived, never retrieved, more than three days old and not from the learning engine, behind at most one other such document |
| `Analysis.RetrievedIsNeverProposed` | js/evolution.js:175-175 | a document that a retrieval has ever hit is never proposed for archiving, whatever the vault does later |
| `Analysis.PromptProposedExactly` | js/evolution.js:184-196 | a better prompt is proposed if and only if a clone is rated at least twice and its ratings sum to less than three each |
| `Analysis.RoleProposedExactly` | js/evolution.js:198-209 | a worker is proposed if and only if its role is the first of the list that no clone has |
| `Analysis.ProviderProposedExactly` | js/evolution.js:210-219 | a provider is proposed if and only if the neural engine is not selected or has no key |
| `Analysis.MergePairExactly` | js/evolution.js:220-231 | a merge of two workflows is proposed if and only if they are the first two of the first worker who has two |
| `Analysis.AnalysisSuggestsExactly` | js/evolution.js:152-237 | while the list has room, exactly the generated targets, and those that had one before, have a live suggestion after an analysis |
| `Proposals.AnalysisDeploysNothing` | js/evolution.js:169-237 | an analysis is a run of proposals about unarchived documents and registered workflows, and deploys nothing: registry, flags and tones stay, and new suggestions are pending |
| `Prompts.Clone.SavePromptVersion` | js/evolution.js:315-332 | appends a numbered snapshot with the rating totals of that moment |
| `Prompts.Clone.RecordRating` | js/engine.js:662-663 | adds one rating to the two totals |
| `Prompts.Clone.RollbackPrompt` | js/evolution.js:338-347 | restores the first version with this number, or does nothing |
| `Prompts.RunAccounts` | js/engine.js:659-663 | over any run ratings are counted once each, and versions stay numbered 1 to n and are only appended |
| `Prompts.PerformanceIsMeanSinceSave` | js/evolution.js:333-337 | the performance of a saved version is the mean of exactly the ratings recorded after its save, across any saves, edits and rollbacks |
| `Prompts.RollbackRestoresPrompt` | js/evolution.js:338-347 | save, any run, roll back: the four prompt fields are as saved, and nothing else changes |
| `Performance.CloneLedger.RecordOutcome` | js/engine.js:653-669 | adds one outcome and deletes the oldest days beyond 30 |
| `Performance.LaterAmongLatest` | js/engine.js:666-668 | a day that is not among the 30 latest has 30 later days that are |
| `Performance.LatestIsCumulative` | js/engine.js:666-668 | trimming and then adding a day keeps the same days as trimming the whole history once |
| `Performance.DailyIsLatestDays` | js/engine.js:647-671 | for any order of dates the index is the unbounded per-day totals restricted to the 30 latest days ever recorded |
| `Performance.LifetimeCountsOutcomes` | js/engine.js:659-661 | lifetime totals are the earnings summed, the leads summed, and one task per outcome |
| `Performance.DayCountsOutcomes` | js/engine.js:654-657 | and so is each day, over the outcomes of that day |
| `Performance.CloneLedger.CreditPartner` | js/store.js:272-277 | a rated collaboration adds one task to the partner's lifetime totals and nothing to its daily index |
| `Performance.CloneLedger.RouteLeads` | js/shells.js:215-222 | leads routed in by an outer shell are added to the lifetime totals alone |
| `Performance.LifetimeIsRetainedPlusEvictedPlusCredits` | js/engine.js:658-668 | lifetime totals are the retained days plus the outcomes of the days pushed out plus what was credited outside the index |
| `Performance.EarningsAlwaysAgree` | js/engine.js:659-659 | for earnings nothing is ever credited outside, so they agree with the index always |
| `Performance.IndexAccountsForLifetimeExactly` | js/store.js:272-277 | all three figures agree with the index if and only if nothing was ever credited to a partner or routed in |
| `Performance.PartnerTaskIsNotDaily` | js/store.js:272-277 | a fresh clone credited once as a partner has one lifetime task and an empty index |
| `Seeded.HashStr` | js/engine.js:23-27 | the hash loop computes the fold of the hash step |
| `Seeded.HashStepIsInjective` | js/engine.js:25-25 | one step is injective in the 32-bit state and in the code unit |
| `Seeded.OneCharacterNeverCollides` | js/engine.js:23-27 | two texts of equal length that differ in exactly one character never have the same hash |
| `Seeded.Rng.Draw` | js/engine.js:14-22 | the n-th draw moves the state by the odd increment modulo 2^32 and yields a number in [0, 1) |
| `Seeded.StatesAreDistinct` | js/engine.js:14-22 | within 2^32 draws no state repeats, and after 2^32 draws the first state is back |
| `Seeded.OrWithOne` | js/engine.js:18-18 | or-ing 1 into a word gives the odd one of a and its successor |
| `Seeded.ShiftIsDivision` | js/engine.js:18-20 | a shift to the right divides by a power of two, rounding down |
| `Seeded.PickIsInRange` | js/engine.js:28-28 | a draw scaled to a nonempty list is an index into it |
| `Seeded.OutcomeBounds` | js/engine.js:647-652 | for ratings 1 to 5 and every shipped role, leads lie in 1..13 and earnings in 0..378, zero exactly below rating 3 |
| `Seeded.Simulate` | js/engine.js:647-652 | one generator is seeded with the hash; the first draw gives the leads, the second the earnings, from rating 3 on |
| `Seeded.OutcomeAtDraws` | js/engine.js:650-652 | the leads and earnings at the lowest and at the middle draw, for every rating and role |
| `Seeded.OutcomeGrows` | js/engine.js:650-652 | a better rating or a higher draw never gives less |
| `Trends.WeeklySeries` | js/engine.js:673-687 | point k of the series is what was recorded n - 1 - k days ago |
| `Trends.CombinedWeekly` | js/engine.js:689-701 | point k of the combined chart is what all clones recorded 6 - k days ago |
| `Trends.SumRange` | js/app.js:106-113 | the loop sums one figure over a range of days |
| `Trends.NetworkDelta` | js/app.js:114-121 | the two figures are the network's sums over the current and the previous week |
| `Trends.ChartMatchesDelta` | js/app.js:114-121 | the points of the combined chart add up to the current figure of the delta |
| `Trends.WeeksJoin` | js/app.js:114-121 | the two weeks share no day and leave none out |
| `Knowledge.Vault.AddLinkBetween` | js/knowledge.js:174-181 | links two different live documents that are not joined in either direction yet |
| `Knowledge.Vault.AutoLink` | js/knowledge.js:182-190 | links the first two of the ranked candidates |
| `Knowledge.Vault.AddDocument` | js/knowledge.js:124-148 | stores, pushes out the oldest beyond 300, then links automatically |
| `Knowledge.Vault.DeleteDocument` | js/knowledge.js:149-156 | removes the document and every link touching it |
| `Knowledge.Vault.MarkUsed` | js/knowledge.js:223-223 | counts one use for each of the given documents and notes the time |
| `Knowledge.Vault.FindName` | js/network.js:350-350 | finds the first document with a title |
| `Knowledge.Vault.ImportAll` | js/network.js:336-380 | receives a payload document by document, writes nothing when read-only, and counts documents added, incoming versions that won and local ones kept |
| `KnowledgeRuns.LinkGraphStaysSound` | js/knowledge.js:124-181 | over all runs, imports included: no self-loop, at most one link per unordered pair, every endpoint live or pushed out by the cap, never again a link to a deleted document |
| `KnowledgeRuns.ImportIsRun` | js/network.js:349-374 | importing a payload is a run of single imports, so what holds over runs holds over imports |
| `KnowledgeRuns.OnlyImportsExceedCap` | js/knowledge.js:143-143 | the vault never holds more than 300 documents, or what it held at first, plus the documents received under unknown titles |
| `KnowledgeSync.ImportTakesTheBest` | js/network.js:349-374 | a title ends with the highest confidence there was or came in; its document stays as it is unless an incoming one beats it, and else takes body and confidence from one of them |
| `KnowledgeSync.TieTakesNewerExactly` | js/network.js:360-368 | of two equally confident versions the newer one, met second, is taken if and only if the older one replaced nothing, and for an unknown title if and only if the older one is dated |
| `KnowledgeSync.ImportChangesNothingExactly` | js/network.js:349-374 | an import changes nothing if and only if every document in it is known by title and beats nothing here |
| `KnowledgeSync.SecondImportChangesNothing` | js/network.js:336-380 | the same payload imported again changes nothing more, as long as nothing in it is dated in the future |
| `KnowledgeSync.OwnExportChangesNothingExactly` | js/network.js:329-380 | a vault that imports its own export stays as it is if and only if the first document of every title is its best version |
| `KnowledgeSync.ExportImportExactly` | js/network.js:329-380 | an empty node that imports an export holds the same documents, under its own ids, if and only if their titles differ |
| `KnowledgeRuns.NewDocGetsBestLinks` | js/knowledge.js:182-190 | a new document gets exactly min(2, number of documents at least 3 similar) links, to candidates that no other exceeds in similarity |
| `KnowledgeEdits.LinkedWhenAlike` | js/knowledge.js:166-190 | a new document is linked only with documents that share two words in its category, or three across categories; with at most two of them in the vault, with all |
| `KnowledgeEdits.LinkedExactly` | js/knowledge.js:182-190 | storing a document links it with the first two of its candidates and nobody else |
| `KnowledgeEdits.AddLinkExactly` | js/knowledge.js:174-181 | a link by hand joins its two ends, when both are live and different, and nobody else |
| `KnowledgeEdits.DeleteExactly` | js/knowledge.js:149-156 | a deletion removes the document and the links that touch it, and nothing else |
| `KnowledgeEdits.DeleteUndoesAdd` | js/knowledge.js:124-156 | a document stored and deleted again leaves documents and links as they were, but for one pushed out by the cap |
| `KnowledgeEdits.VaultHoldsLatest` | js/knowledge.js:142-143 | without deletions and imports the vault holds the last 300 documents ever stored |
| `KnowledgeEdits.MissingFigures` | js/network.js:352-363 | a missing confidence counts as 55, a missing date as the beginning of time, and a copy without one gets today's |
| `Search.ScoreDoc` | js/knowledge.js:200-212 | the scoring loop sums 3, 2 or 1 weights per term for title, tag or body, and drops to zero outside the asked layer or category |
| `Search.RetrieveFrom` | js/knowledge.js:221-229 | retrieves the first hits of an unfiltered search, three unless told otherwise, and counts one use for exactly these |
| `Search.ResultsAreTopK` | js/knowledge.js:193-218 | results are the first k of all unarchived positive matches by rank: no omitted match ranks above a returned one |
| `Search.FoundExactly` | js/knowledge.js:193-216 | a document is in the ranking if and only if it is in the vault, unarchived, let through by the filters, and some term meets its title or tags or is a word of its body |
| `Search.PointsExactly` | js/knowledge.js:203-210 | a term earns 3, 2 or 1 times its weight for title, tags or body, the first place that has it, and something exactly when one has it |
| `Search.ConfidenceExactly` | js/knowledge.js:116-121 | for a whole base, confidence adds 15 when verified and 3 for each of the first five uses, up to 100 |
| `Search.FreshnessExactly` | js/knowledge.js:112-115 | freshness is 100 on the day of the update, 2 less each day, and never below 20 |
| `Search.EqualRanksKeepVaultOrder` | js/knowledge.js:216-217 | matches of equal rank stay in vault order |
| `Search.ArchivingRemovesFromRanking` | js/knowledge.js:198-199 | archiving a document takes exactly it out of every ranking and keeps the others in order |
| `Search.MultiplierBounds` | js/knowledge.js:112-122 | the reliability multiplier lies in 0.74..1.3 |
| `Search.RawGapDecides` | js/knowledge.js:213-214 | one raw score beats another under every confidence and freshness if and only if it is more than 65/37 times as large |
| `Thresholds.TitleBeatsBodyExactly` | js/knowledge.js:203-216 | for any query, a title match on a term that overlaps no other one ranks above every body-only match if and only if 111 times its weight exceeds 65 times the weight of all terms |
| `Thresholds.TagBeatsBodyExactly` | js/knowledge.js:203-216 | a tag match on it ranks above every body-only match if and only if 74 times its weight exceeds 65 times the weight of all terms |
| `Thresholds.TitleIsNeverSafeFromTags` | js/knowledge.js:203-216 | against tag matches the bound is 111 against 130 times, which no term reaches |
| `Thresholds.PlaceWinsExactly` | js/knowledge.js:203-216 | the same for any two of title, tags and body |
| `Thresholds.SynonymsOutweighTitleExactly` | js/knowledge.js:77-84 | so for a word expanded by synonyms a title match on it always wins if and only if there is at most one synonym |
| `Thresholds.SynonymsOutweighTagExactly` | js/knowledge.js:77-84 | and a tag match on it if and only if there is none |
| `Thresholds.TitleBeatsBody` | js/knowledge.js:203-216 | for one term, with or without filters, an admitted title match always ranks above a body-only match |
| `Thresholds.TitleMayLoseToTwoBodyWords` | js/knowledge.js:203-216 | for two terms it need not: two documents and a query where it does not |
| `Search.RetrievalRaisesConfidenceALittle` | js/knowledge.js:221-229 | a series of retrievals changes only uses, by the number of hits, and the time of the last use; confidence never falls and rises by at most 15 in total |
| `SearchUndo.MonitoredArchiveHides` | js/knowledge.js:198-199 | after any run, while an archive suggestion is monitored, its document is in no result of any query |
| `SearchUndo.AppliedArchiveHides` | js/evolution.js:255-257 | once an archive suggestion is applied, its document is in no result of any query |
| `SearchUndo.UndoneArchivesRestoreResults` | js/evolution.js:280-282 | once all are undone, every query finds exactly what it found before, at a fixed clock |
| `Lineage.BuildByParent` | js/app.js:4775-4782 | every clone is filed under its existing parent, or under none, in list order |
| `Lineage.PathIsUnique` | js/app.js:4775-4782 | there is at most one path from a root to a clone |
| `Lineage.PathIsShort` | js/app.js:4785-4819 | a path visits no more clones than there are, which is why the walk terminates even with cyclic parents |
| `Lineage.WalkInto` | js/app.js:4785-4819 | the recursive walk appends exactly the rows below one clone |
| `Lineage.Render` | js/app.js:4761-4819 | the whole view is the walk from the roots |
| `LineageRows.RowsAreRootedClones` | js/app.js:4775-4819 | a row appears if and only if the chain of parents reaches a root, at the depth of the number of its ancestors |
| `LineageRows.EachCloneOnce` | js/app.js:4785-4819 | no clone has two rows |
| `LineageRows.RowsAreInPreorder` | js/app.js:4785-4819 | the parent of a row is the nearest row above it one step further left |
| `LineageRows.SiblingsAreOldestFirst` | js/app.js:4786-4789 | direct children are listed oldest first, none missing |
| `LineageRows.AllShownExactlyWithoutCycles` | js/app.js:4775-4819 | every clone has a row if and only if no clone is its own ancestor |
| `Columns.QueueDayColumns` | js/app.js:1237-1245 | the grouping loop makes one group per day in order of first occurrence, each with the items of its day in their order |
| `Columns.DaysAreDistinct` | js/app.js:1238-1245 | no day has two columns |
| `Columns.ColumnsLoseNothing` | js/app.js:1235-1245 | the columns together are exactly the items, and no column is empty |
| `Execution.ExecutionEngine.StartRun` | js/execution.js:377-420 | up to its first await a run books its record, is refused as unknown or denied, or calls the adapter |
| `Execution.ExecutionEngine.OnAdapterOk` | js/execution.js:419-431 | an answered call ends the run with success |
| `Execution.ExecutionEngine.OnAdapterFails` | js/execution.js:432-453 | a failed call pauses for a retry while tries are left, and otherwise fails for review |
| `Execution.ExecutionEngine.OnTimer` | js/execution.js:418-442 | after the pause the adapter is called again |
| `Execution.ExecutionEngine.SetPermission` | js/execution.js:280-288 | sets one permission of one worker |
| `Execution.ExecutionEngine.ComputeStats` | js/execution.js:466-479 | the counts are those of the history's records by status |
| `Execution.RetryLoop` | js/execution.js:418-453 | the retry loop on its own ends as its signals say: success if and only if some call succeeds, after as many retries as calls failed before it |
| `ExecutionRuns.RunsKeepInv` | js/execution.js:377-453 | under any interleaving every run stays in order, and a record in flight is running |
| `ExecutionRuns.AdapterCallsAreBounded` | js/execution.js:401-453 | in every record of every reachable state at most three calls, none when denied; retries counts the failed calls that were tried again; review marks exactly failures |
| `ExecutionRuns.CallsStayWithinRequest` | js/execution.js:401-453 | per request, whatever runs beside it: at most three calls when retryable, one when not, none if and only if the action is unknown or not permitted; an unknown action fails for review |
| `ExecutionRuns.AnswersDecideExactly` | js/execution.js:414-453 | whatever runs beside it, a permitted run succeeds if and only if one of its first three answers is a success, or its only one when not retryable; it fails if and only if all of them are failures, after 3 calls and 2 retries, or 1 call and none; else it is running |
| `ExecutionRuns.FinishedRunsStay` | js/execution.js:377-453 | a finished run never changes again |
| `ExecutionRuns.SignalsBringTheEndCloser` | js/execution.js:418-453 | a run is running until it is over, some signal always moves it on, and each one brings its end closer |
| `ExecutionRuns.DeniedExactlyWithoutPermission` | js/execution.js:403-411 | under any interleaving a run of a known action is denied if and only if its permission is missing when it starts |
| `ExecutionRuns.LatestSettingDecides` | js/execution.js:280-292 | a worker may act in a category if and only if the latest setting allows it; by default it may not |
| `ExecutionRuns.GateDecidesExactly` | js/execution.js:280-292 | after any operations a run of a known action is denied if and only if the owner may not start it, or the latest setting does not allow it to the worker |
| `ExecutionRuns.RunSeesOwnSignals` | js/execution.js:377-453 | however runs interleave, each ends up as if only its own signals had occurred |
| `ExecutionRuns.StatsAddUp` | js/execution.js:466-479 | in every reachable state total = success + failed + denied + running, and review = failed |
| `ExecutionRuns.HistoryIsLatestRuns` | js/execution.js:396-397 | the history lists the last 100 runs started, oldest first |
| `ExecutionRuns.InFlightIsLastTicked` | js/execution.js:398-399 | at every yield point in flight is the run ticked last if it is still running, and nothing otherwise |
| `ExecutionRuns.NothingInFlightWhileRunning` | js/execution.js:398-399 | so nothing may be in flight while a run is running: two runs, the second finishing first |
| `Ledger.RevenueCenter.AddEntry` | js/enterprise.js:168-189 | normalises one entry and keeps the last 400 |
| `Ledger.RevenueCenter.ImportSimEarnings` | js/enterprise.js:190-201 | is refused when the ghost line is there, and otherwise adds the positive lines |
| `Ledger.FiguresAfterEntry` | js/enterprise.js:168-216 | one entry raises the figure of its kind, for its organization and for all, by its amount when positive and else by nothing; refunds and expenses lower the profit |
| `Ledger.ClientAfterEntry` | js/enterprise.js:145-148 | it adds to what its client brought in, or takes a refund away |
| `Ledger.BarAfterEntry` | js/enterprise.js:174-217 | it shows in the bar of its category, and revenue without one as one-time |
| `Ledger.ImportCountsAsRevenue` | js/enterprise.js:190-201 | an import raises revenue, profit and one-time revenue by all there is to import |
| `Ledger.RevenueIsRecurringPlusOneTime` | js/enterprise.js:202-216 | for every ledger and scope, revenue is recurring plus one-time revenue |
| `Ledger.SumByIds` | js/enterprise.js:202-217 | any filtered sum is the sum over distinct ids plus the entries naming none of them |
| `Ledger.OrganizationsAddUp` | js/enterprise.js:202-223 | every figure over all organizations is the sum of the per-organization figures plus the entries naming no known one |
| `Ledger.KnownOrganizationsCoverLedger` | js/enterprise.js:168-189 | as long as callers name known organizations or none, nothing is left over, through any additions and evictions |
| `Ledger.ClientsAddUp` | js/enterprise.js:145-148 | client revenues summed plus what names no known client are revenue less refunds |
| `Ledger.CategoriesAddUpExactly` | js/enterprise.js:217-217 | the category bars never exceed revenue, and equal it if and only if no positive revenue has another category |
| `Ledger.DefaultCategoryFillsBars` | js/enterprise.js:174-175 | as long as callers name listed categories or none, the bars add up to revenue |
| `Ledger.LedgerHoldsLatest` | js/enterprise.js:176-184 | the ledger holds the last 400 entries ever added, each with a nonnegative amount |
| `Ledger.SecondImportAddsNothingExactly` | js/enterprise.js:190-201 | an import repeated at once adds nothing if and only if there was a ghost line, ghost revenue or no clone revenue |
| `Ledger.LaterImportAddsNothingExactly` | js/enterprise.js:183-201 | after any entries in between, a second import adds nothing if and only if a ghost line is among the last 400 entries there ever were or nothing positive is left to import |
| `Ledger.GuardLastsExactly` | js/enterprise.js:183-201 | the guard lasts if and only if at most 399 entries came in between, 398 when the clone line was added too |
| `Ledger.HealthCapNeverBinds` | js/enterprise.js:349-365 | with ratios in 0..1 and scores in 0..100 the health points lie in 5..100, so the cap at 100 cuts nothing off |
| `Ledger.HealthIsFullExactly` | js/enterprise.js:349-365 | the points are 100, and 5, under exactly these conditions on profit, activity, use, won clients and evolution |
| `Ledger.ProfitIsWorthTwenty` | js/enterprise.js:360-360 | revenue without profit is worth 7 points more than none, and a profit 13 more |
| `Rings.RingHoldsLast` | js/bridge.js:192-193 | any list that is pushed to and shifted past its cap holds exactly the last n things pushed, as the memory, event, suggestion, history and ledger lists are |

## Left out

- Value: only that a draw lies in [0, 1); the output mix is that of the source, but nothing is stated about the words it makes.
- ImportAll: an unreadable payload is refused before anything changes; the type, owner and source of a received document, the sync log and the links of a payload, which the import ignores, are not modelled.
- ExportImportExactly: the payload carries confidence and date of every document; its way through JSON is not modelled.
- GenerateSuggestions: every target gets an id of its own even when it is a duplicate; titles, details and impact are not modelled.
- DoRunWorkflow: the text that seeds the run, the id and the time, is an input; status and last-run time are not modelled.
- Performance: the model of the version performance is before rounding to one decimal.
- Record objects that are shared by reference (a suggestion's removed workflow, a history record changed after it left the list) are values; a run and its history record are one value, and the history lists run numbers.
- Numbers: scores, amounts and confidences are reals, so floating-point error and `toFixed` rounding are not modelled; version texts are their lists of numbers.
- Object keys: ids that look like integers (which JavaScript moves to the front of a record map) or that name a prototype member; empty strings given as ids read as no id.
- Dates are day numbers and instants in days; how a time stamp becomes a date or a column key, and time zones, are not modelled.
- Dedupe keys are the targets themselves; two targets whose key texts would coincide only because an id contains a colon are told apart.
- Extensions: settings, logs, the init hooks that boot runs, update notes, UI contributions, the teardown hook, what init hooks do beyond throwing, and the facade's read-only answers.
- Events: categories and priorities, the filters of the event view, worker attribution, event texts beyond the patterns the tap looks for, and listener code that reaches past its facade.
- Evolution: experiments, insights, score cards, the system score and the timeline.
- Knowledge: tokenising, the synonym table, classification, summaries and statistics; token lists and weighted terms are inputs. Toggling a document's verification is not modelled.
- Execution: the adapter is an oracle that answers or fails with an error that has a message, as everything it throws has; transports, time-outs, the key vault, the retry delay, error texts and the tick callback are not modelled. An action always belongs to a defined integration.
- Lineage: the fitness, status and link content of a row; the column heads of the queue.
- Enterprise: clients, projects, teams, automations, growth percentages, expense categories and the simulated total.
- Saving, notifications and everything else the app draws; the missions and provider files, of the network file everything but the knowledge sync, and of the store and the outer shells everything but the two lines that credit lifetime totals; the backend.
