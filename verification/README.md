# Routevane: verified models of its stateful core

Routevane publishes routing lists to home routers. Several published outputs can
share one router, the library they are built from changes while builds run, and
passwords, consent and device state live in stores that fail independently. This
project models the parts of the Go program where state, interleaving and ordering
decide correctness, and proves what the program promises about them. The Dafny
verifier checks everything: `dafny verify dfyconfig.toml`.

## How the files fit together

| part | files | what is proved |
|---|---|---|
| text, addresses, order | `Text`, `Utf8`, `Net`, `Sorting`, `Wrappers` | byte order, stable strings, UTF-8 (section 4 of RFC 3629), CIDR prefixes (section 3.1 of RFC 4632), any unstable sort |
| managed-route ledger | `RouteLabels`, `RouteLedger`, `ManagedRoutes`, `Reconciliation`, `Convergence`, `RouteConfluence`, `RouteAuthority` | one send computes the same thing whatever order maps and sorts take; sends converge, commute and conserve foreign routes; nothing is removed without earned authority |
| device lifecycle | `DeviceTrace`, `DeviceLifecycle`, `DeviceCleanup` | the protocol of a deployment and a removal: order rules, every outcome and its reason, with any call failing and others editing the device; all-or-nothing cleanup |
| publication | `Publication` | optimistic commits are atomic, and stored profiles never name what the library lost, in every interleaving; builds, edits and removals do get through |
| library and import | `Composition`, `ConfigImport` | category overlays, complete priority orders, and import validation that accepts and resolves what the installed library does |
| consent and credentials | `Credentials`, `DeliveryGate` | two stores without a transaction stay safe after every single write; a one-token gate keeps scheduled sends authorized |
| planner | `ListPriority`, `Canonical` | dropping redundant rules preserves routing; the canonical order is the order that preflight checks, and the hash ignores input order and tells plans apart |
| algorithms | `DiscoveryProxy`, `DiscoveryRequests`, `PortSearch`, `ListFreshness` | admission accounting in every interleaving of requests, a uniform draw without replacement, freshness from two stamps per value |

`RouteLedger` is the value model of one router surface: the router is a map from
prefixes to descriptions, the ledger a map from prefixes to a description and a
created flag, and a claim a set of labels. `ManagedRoutes` and `Reconciliation`
are the loops of the source over slices and maps, each method proved against that
model; a loop over a Go map takes its keys in an arbitrary order. `DeviceLifecycle`
drives those methods from a `Site`, whose methods stand for the device and the
stores: each may fail, and before each call somebody else may edit the device. Its
ghost trace records what the device and the stores saw, and its ghost history is
the input of `RouteAuthority`.

`DeviceTrace` says which whole traces there are. `Turn` is the next step of a
deployment or removal given what was answered so far, `Ended` a run that stopped
because nothing had its turn, `ReportOf` what is reported about it. The lifecycle
methods are proved to make such runs, whatever the calls answer, and the lemmas of
`DeviceTrace` say in words of the request and the answers what such a run achieved
or why it stopped.

`Publication` and `DeliveryGate` are state machines over small steps, because the
promises are about interleavings. In `Publication` every mutator of the library
(category, list and tuning edits, removals, imports) is the same sequence: take
the write lock, check references, write the store, write registry entries one by
one, advance the generation, release. What a build reads next is a function of what
it has read. `DiscoveryProxy` is a class whose methods are the atomic sections of
the source, each equal to a function of what the proxy remembers;
`DiscoveryRequests` runs any number of requests over these functions, each with its
deferred release and the two directions of its tunnel. `DeviceLifecycle.Site` keeps
one trace for each operation, so that what a cleanup did first can be read off the
traces. Safety is not enough for these machines, so each of them also has runs that
get somewhere: commits, sends, connections, each from any state that allows them.
In `Credentials` every operation logs its calls to the two stores, and what it does
and answers follows from its input and the answers in that log.

## Where the code decides

* Two sends commute only when labels are there. A claim without labels falls back
  on the last description, and then the first send decides. `SendsCommuteIff` gives
  the exact condition from the inputs, `UnlabelledSendsDiffer` the family of ledgers
  on which it fails.
* A deployment that ends in an FQDN ownership conflict is not rolled back even if
  the deployer reports that it may have written; a removal is. The comment at
  internal/application/deploy.go:417-418 says that a fresh read raises this refusal
  before any mutation is submitted; `DeviceLifecycle.Site.Submit` takes that as
  given, and under it no submitted change goes unrecovered.
* The evidence of a discovery session never reports a contacted host as refused,
  but the unfiltered answer of the proxy can: a host that was contacted and later
  fails to resolve, asks without TLS, or comes after the request limit is in both
  lists as long as there is room to remember the refusal. `ApartExactly` says that
  the lists stay apart exactly when no such step happens, `BothExactly` which hosts
  are in both, and `FailedReturnVisit` makes one such visit.
* The hash payload ignores the order of sightings exactly when sightings of one
  observation agree on their source class (`OnePayloadIff`).
* The comment of `ApplyListPriority` says that a rule goes when a better-placed rule
  wholly covers it. That holds for every pair of values but one
  (`DropsWhatIsCovered`): an address covers its own network of full width, and the
  network stays (`AddressSparesItsNetwork`).

## What is taken as given

Calls into stores, devices, the secret store, clocks and random sources are
parameters or arbitrary choices. A ledger write either happens or does not; a write
to the device rows or the secret store may also take effect and still report an
error. Deployers keep the documented contract of `MutationAwareDeployer`: they may
say that nothing was submitted only when nothing was. Identities made up at random
are fresh. Hashes are injective, and an encoding stands for the value it encodes.

## Model

| member | source | states |
|---|---|---|
| `RouteLabels.LongestFitIsMaximal` | internal/application/managed_routes.go:170-173 | the kept part of a label is whole characters from the front, fits the budget, and one more character would not |
| `RouteLabels.TruncatedIsValid` | internal/application/managed_routes.go:159-175 | a cut label is valid text without controls, keeps its parentheses, fits the bound, ends between two characters and is as long as the bound allows |
| `RouteLabels.TruncateManagedLabel` | internal/application/managed_routes.go:159-175 | the loop that drops one decoded character at a time computes that longest fit |
| `RouteLabels.DescribeIsValid` | internal/application/managed_routes.go:144-157 | every description is valid UTF-8 without controls and at most 96 bytes, for any provenance set a slice can hold |
| `RouteLabels.DescribeIsEmpty` | internal/application/managed_routes.go:147-151 | only an empty or unusable provenance set has the empty description |
| `RouteLabels.DescribeShows` | internal/application/managed_routes.go:144-175 | the comment is the least label, then the number of the others; a label that does not fit loses whole characters at its end for an ellipsis, no more than needed |
| `RouteLabels.PlainLabel` | internal/application/managed_routes.go:100-120 | a plain label is "(category/list)" of two segments without a slash, at most 1024 bytes long |
| `RouteLabels.PlainSegment` | internal/application/managed_routes.go:110-114 | a plain segment is one or more words with single spaces between them, without the bytes that mean something in a comment |
| `RouteLabels.CompactManagedRouteDescription` | internal/application/managed_routes.go:147-157 | the description depends on the set of labels alone, not on order or repetition, and is the one `DescribeShows` spells out |
| `RouteLabels.SortedIsStable` | internal/domain/plan.go:152-159 | stable strings are the one sorted arrangement of their set |
| `Text.IncreasingUnique` | internal/domain/plan.go:152-159 | a sorted duplicate-free slice is determined by its elements |
| `Utf8.LastRuneIsLast` | internal/application/managed_routes.go:170-173 | decoding the last rune of valid text finds its last character |
| `Utf8.RunesAreCodePoints` | internal/application/managed_routes.go:101 | valid characters are exactly the shortest encodings of the code points |
| `Net.PrefixTextInjective` | internal/application/managed_routes.go:98 | canonical IPv4 prefixes with the same text are the same, so the text order is strict on them |
| `RouteLedger.SendNormalForm` | internal/application/managed_routes.go:299-339 | after a send the table is exactly the foreign routes and the claimed ones; foreign routes keep presence and description; a claimed route counts as created exactly when it is not foreign, and then shows the stored description |
| `RouteLedger.WhatTheRouterShows` | internal/application/managed_routes.go:291-339 | prefix by prefix after a send: a foreign route as it was, a claimed one with the labels of all its claimants or with what it showed last, and nothing where nobody claims any more |
| `RouteLedger.SendKeepsValid` | internal/application/managed_routes.go:349-352 | the result of a send on valid inputs is a valid ledger, so the final check never refuses |
| `RouteLedger.AppliedVerifies` | internal/application/managed_routes.go:356-383 | applying the mutation always passes verification |
| `RouteLedger.Convergent` | internal/application/managed_routes.go:265-354 | sending again gives an empty mutation and the same ledger |
| `RouteLedger.SendsCommuteIff` | internal/application/managed_routes.go:265-354 | sends of two outputs commute exactly when, for each owned route left without provenance, either send alone would remember the same description |
| `RouteLedger.LabelledSendsCommute` | internal/application/managed_routes.go:265-354 | with a label on every claim two sends commute: same claims, created flags, descriptions and router table |
| `RouteLedger.RunConserves` | internal/application/device_removal.go:117-131 | over any run of sends and removals the foreign table is conserved and the ledger stays valid |
| `RouteLedger.RemovingAllRestores` | internal/application/device_removal.go:117-131 | removing every output that owns something returns the router to its original foreign table and empties the ledger |
| `RouteConfluence.StepsCommute` | internal/application/managed_routes.go:265-354 | a send or removal of one output commutes with a send or removal of another |
| `RouteConfluence.OrderDoesNotMatter` | internal/application/managed_routes.go:265-354 | any two orders of sends and removals of different outputs end in the same ledger and router table |
| `RouteAuthority.MadeIsEarned` | internal/application/managed_routes.go:313-339 | the created flag means exactly that a committed send wrote the route while it was absent and the ledger has kept it ever since |
| `RouteAuthority.AuthorityOverRoutes` | internal/application/managed_routes.go:313-339 | over any history of failed, committed and retired sends with arbitrary router edits, only earned routes are removed or rewritten in place |
| `RouteAuthority.EarnedIsReclaimed` | internal/application/managed_routes.go:329-339 | an earned route that no output claims any more is removed if it is still there |
| `RouteAuthority.RetirementForfeits` | internal/application/managed_routes.go:67 | after a ledger is retired nothing on the router is removed or rewritten |
| `ManagedRoutes.CanonicalManagedLabels` | internal/application/managed_routes.go:134-142 | the stable form, refused exactly when some label is invalid |
| `ManagedRoutes.HexDigits` | internal/application/publication.go:1185-1191 | an identity is 32 lower-case hexadecimal digits |
| `ManagedRoutes.PlainScope` | internal/application/managed_routes.go:84-96 | the length bounds of a surface's endpoint, target and interface |
| `ManagedRoutes.ValidateManagedRouteOwnership` | internal/application/managed_routes.go:215-261 | accepts exactly the valid ledgers: canonical routes and claims, each once, every route claimed, descriptions that follow from the claims |
| `ManagedRoutes.ValidLedgerIsValidBook` | internal/application/managed_routes.go:215-261 | a validated slice ledger satisfies the invariant of the value model |
| `ManagedRoutes.ValidBookIsValidLedger` | internal/application/managed_routes.go:348-352 | well-formed slices that stand for a valid book pass validation |
| `Reconciliation.CanonicalDesiredSpecs` | internal/application/managed_routes.go:177-199 | refuses exactly ill-formed specs; otherwise one spec per prefix with the union of its labels, in strict order |
| `Reconciliation.CurrentSpecMap` | internal/application/managed_routes.go:201-213 | refuses exactly malformed or duplicated observations; otherwise the observed table |
| `Reconciliation.MergeClaims` | internal/application/managed_routes.go:282-290 | other outputs keep their claims, this output gets exactly its desired ones |
| `Reconciliation.PlanRoutes` | internal/application/managed_routes.go:296-328 | the loop over claimed prefixes, in any order, gives the upserts and next routes of the value model |
| `Reconciliation.PlanRemovals` | internal/application/managed_routes.go:329-339 | owned routes that lost their last claim and are still observed |
| `Reconciliation.Reconcile` | internal/application/managed_routes.go:265-354 | refuses exactly the invalid inputs, in this order; on all others answers with the value model's send, in sorted slices, as a valid ledger; the final check can refuse only past the largest slice |
| `Reconciliation.VerifyManagedRouteMutation` | internal/application/managed_routes.go:356-383 | accepts exactly observations that hold every ledger route with its owned description and none of the removals |
| `Convergence.CanonicalLedger` | internal/application/managed_routes.go:340-348 | two valid ledgers in canonical order that say the same are equal slice for slice |
| `Convergence.SendingAgain` | internal/application/managed_routes.go:265-354 | sending again writes nothing and returns the same ledger slices |
| `Convergence.SendsCommuteAsSlices` | internal/application/managed_routes.go:265-354 | both orders of two labelled sends, reading the router in between, store identical ledgers and leave the same table |
| `Convergence.UnlabelledSendsDiffer` | internal/application/managed_routes.go:308-312 | for every label there is a ledger on which the order of two sends matters when a claim has no label |
| `Convergence.SomeLabel` | internal/application/managed_routes.go:100-120 | that family is not empty |
| `DeviceTrace.OrderHolds` | internal/application/deploy.go:275-281 | in a disciplined attempt every change follows a stored verified backup, every commit follows the read that justifies it, and a rollback restores that backup |
| `DeviceTrace.ContactedExactly` | internal/application/deploy.go:284-316 | a whole attempt contacts the device exactly when the request is not refused and, for a removal, something is owned; then the probe comes first |
| `DeviceTrace.DeploymentBlocks` | internal/application/deploy.go:326-383 | a deployment gets from its probe to its backup exactly when every ledger it needs is there, readable and of this surface and the artifact decodes |
| `DeviceTrace.RemovalRefusals` | internal/application/device_removal.go:186-238 | when a removal is refused before any contact, and which refusal it is |
| `DeviceTrace.GoodAnswersSuffice` | internal/application/deploy.go:282-459 | a whole attempt that has what it needs and meets only good answers ends with the ledger committed, or checked where there is none |
| `DeviceTrace.SuccessExactly` | internal/application/deploy.go:422-463 | success ends in the commit of the ledger, or in a good check where there is none, and only of what had all it needs; a removal of nothing succeeds at once |
| `DeviceTrace.CommitsEnd` | internal/application/deploy.go:435-459 | a ledger is committed once, at the very end, or not at all |
| `DeviceTrace.WhyItFailed` | internal/application/deploy.go:461-484 | each failure comes from its own step: the check or second read, the commit, the backup, the refused change, the firmware, the rollback |
| `DeviceLifecycle.Site.StoreVerifiedBackup` | internal/application/deploy.go:493-512 | a usable backup was taken, is not empty by the recorded size, was stored and could be read back; otherwise the attempt ends there as the protocol says |
| `DeviceTrace.VerifiedParts` | internal/application/deploy.go:116-118 | a stored backup can be used when nothing about it is missing |
| `DeviceLifecycle.ManagedChange` | internal/application/deploy.go:394-411 | a failed read or reconciliation submits nothing; otherwise the mutation is the reconciliation of what was read, and is submitted exactly when it is not empty |
| `DeviceLifecycle.ManagedVerify` | internal/application/deploy.go:425-429 | success means that the read just made shows the next ledger |
| `DeviceLifecycle.FinishManaged` | internal/application/deploy.go:385-484 | from the backup on: one commit of the reconciliation after a fresh read, or none and the recovery that is due |
| `DeviceLifecycle.FinishPlain` | internal/application/deploy.go:412-484 | the same for deployers with an FQDN ledger or none |
| `DeviceLifecycle.Recover` | internal/application/deploy.go:463-483 | one rollback attempt; success leaves the device as its backup |
| `DeviceLifecycle.PrepareDeployment` | internal/application/deploy.go:284-383 | nothing is written before the backup; the first missing or refused thing ends the attempt, with its failure |
| `DeviceLifecycle.DeployToDevice` | internal/application/deploy.go:282-484 | whichever call fails: a whole run of the protocol, reported as its trace says; no contact exactly when the request is refused, with which refusal; one rollback exactly when a change may have been submitted that its refusal does not rule out; ledgers unchanged on failure |
| `DeviceLifecycle.FindNothingOwned` | internal/application/device_removal.go:48-58 | whether the output's ledger names anything on the surface |
| `DeviceLifecycle.PrepareRemoval` | internal/application/device_removal.go:186-259 | nothing is written; an empty surface is found without contacting the device; otherwise the run of the protocol up to the backup, or its end |
| `DeviceLifecycle.RemoveFromDevice` | internal/application/device_removal.go:81-181 | as for a deployment, and reported as its trace says; success leaves the output owning nothing there, gives nobody else anything, and contacts no device when there was nothing to remove |
| `DeviceLifecycle.SiteAuthority` | internal/application/deploy.go:394-445 | at any site, however it got there, the next send removes or rewrites only what the site's history earned |
| `DeviceLifecycle.Site.Retire` | internal/application/managed_routes.go:67 | a retired surface starts over with an empty ledger |
| `DeviceCleanup.RemovalDeletesRemovable` | internal/application/managed_routes.go:329-339 | a removal deletes the removable routes the router still shows, and no others |
| `DeviceCleanup.RouteCounts` | internal/application/device_cleanup.go:528-556 | claimed is removable plus shared plus preexisting, and on a valid ledger each is the size of what it names |
| `DeviceCleanup.PreviewIsTruthful` | internal/application/device_cleanup.go:528-556 | on a router that shows every ledger route, exactly the routes counted removable are deleted |
| `DeviceCleanup.Match` | internal/application/device_cleanup.go:462-524 | a surface is cleanable exactly when some saved connection can sign in, each blocked one has its reason, and no candidate is better than the chosen one |
| `DeviceCleanup.Entries` | internal/application/device_cleanup.go:394-453 | output by output and in order, each surface on which the output owns something once, and no other |
| `DeviceCleanup.PreviewAll` | internal/application/device_cleanup.go:331-338 | by the sites' traces every device answered, runs a usable firmware and previewed its removal, with nothing written; it stops at a device whose preview failed |
| `DeviceCleanup.Attempt` | internal/application/device_cleanup.go:360-390 | nothing happens before the record is begun; it goes through exactly when both records are taken and the removal succeeds, and then the output owns nothing on the surface |
| `DeviceCleanup.RemoveAll` | internal/application/device_cleanup.go:339-354 | removals stop at the first attempt that does not go through, for that reason only; the sites they came to have a new trace, all others are as they were |
| `DeviceCleanup.Clean` | internal/application/device_cleanup.go:300-355 | each refusal exactly for its reason; by the sites' traces no removal starts before every surface is cleanable and every device was asked; success empties every entry, a failure leaves later sites untouched |
| `DeviceCleanup.Retire` | internal/application/device_cleanup.go:239-281 | retired exactly when permitted, cleaned and stored, and then the outputs own nothing on any surface; blocked exactly when something is owned where nobody can sign in |
| `Publication.StepKeepsLock` | internal/application/publication.go:461-482 | the publication lock is held by exactly the processes that think so, one writer or many readers |
| `Publication.StepKeepsConsistent` | internal/application/publication.go:469-482 | while a build's generation is current and nobody writes registries, everything it read is still current |
| `Publication.StepKeepsIntact` | internal/application/removals.go:95-167 | no step leaves a stored profile naming what the library lost |
| `Publication.CommitIsCurrent` | internal/application/publication.go:475-482 | in every interleaving a commit stands for the output row, profile and registry entries of that moment |
| `Publication.CommitIsUninterrupted` | internal/application/build.go:125-185 | a committed build read exactly what its plan asks for, and any build with that plan over the entries of the commit reads the same |
| `Publication.CurrentBuildCommits` | internal/application/publication.go:475-482 | a build whose generation is current and whose candidate the store accepts takes the lock and commits it |
| `Publication.OtherBuildsDoNot` | internal/application/publication.go:475-481 | one of an older generation gives up, and a candidate that the store refuses is not committed |
| `Publication.EveryOutputCanBePublished` | internal/application/build.go:125-185 | from a resting service, whatever a build has to read, there is a run that reads it and commits |
| `Publication.EveryProfileCanBeSaved` | internal/application/publication.go:929-1005 | a profile that names only what exists can be stored from a resting service |
| `Publication.EveryUnusedEntryCanBeRemoved` | internal/application/removals.go:95-167 | what no stored profile names can be removed from the library |
| `Publication.InstallingPays` | internal/application/config_transfer.go:570-583 | an import that writes every entry its profiles name can always finish, owing nothing |
| `Publication.ReferencesStayIntact` | internal/application/publication.go:929-1005 | in every interleaving of profile edits and library edits, stored profiles name only lists and categories that exist |
| `Publication.NamedEntriesAreKept` | internal/application/removals.go:95-167 | an edit that would release an entry that a stored profile names does not get past its check |
| `Publication.AnybodyCanStop` | internal/application/publication.go:461-482 | a build, a profile edit and a library edit can stop before they store anything, and leave nothing behind |
| `Composition.NormalizePriority` | internal/application/publication.go:758-784 | refuses unknown, repeated or ill-formed names; otherwise appends what is missing in order |
| `Composition.NormalizedIsComplete` | internal/application/publication.go:758-784 | a normalized priority is a duplicate-free order of exactly what resolves, starting with the request |
| `Composition.RestInOrder` | internal/application/publication.go:778-783 | what was not asked for follows in the order in which it resolved |
| `Composition.CompleteIsFixed` | internal/application/publication.go:833-887 | a complete priority is not reordered, whatever order it is resolved in |
| `Composition.FilterKnownPriority` | internal/application/publication.go:875-887 | keeps exactly what still resolves, in order |
| `Composition.ListsComeAndGo` | internal/application/list_tuning.go:457-473 | everything shipped exists until it is removed, and what the operator adds; nothing else appears or goes with it |
| `Composition.MergedCategory` | internal/application/categories.go:225-261 | a category's lists are the shipped ones not removed and the added ones that exist, sorted |
| `Composition.ResolveComposition` | internal/application/publication.go:833-870 | named lists and categories' lists, without exclusions and missing lists, in stored priority |
| `Composition.WhatAProfileRoutes` | internal/application/publication.go:833-870 | a list is routed exactly when it exists, is not excluded, and is named or belongs to a named category by the operator's word or as shipped |
| `Composition.ProfileOrder` | internal/application/publication.go:862-870 | first what the stored priority names, as it does, then the others by name |
| `Composition.MembershipRows` | internal/application/categories.go:405-429 | the stored rows are exactly the difference between the request and the shipped category, ordered by list |
| `Composition.EditedMembers` | internal/application/categories.go:349-398 | an edited category holds exactly what was asked for, and no other category changes |
| `Composition.RowsCanBeStored` | internal/application/categories.go:405-429 | such rows, with one verdict for each list, can always be put in place |
| `Composition.MergePriority` | internal/application/publication.go:707-732 | a duplicate-free order of exactly what exists, saved order first; a complete saved order is unchanged |
| `Composition.NormalizeListDomains` | internal/application/publication.go:790-826 | domains of a profile are accepted exactly for resolving lists, valid names and within the three bounds, whatever order the map is read in |
| `Composition.ValidComposition` | internal/application/publication.go:579-632 | a profile is accepted exactly when its names exist, it stays within the bounds, excludes nothing it names and something is left, and gets its complete order and its domains |
| `ConfigImport.TransferCompositionCatalog` | internal/application/config_transfer.go:1416-1447 | the prospective catalog: effective lists, categories and memberships of the document |
| `ConfigImport.WhatIsPortable` | internal/application/config_transfer.go:1130-1155 | a document may refer to its own entries and to what is shipped, but not to lists only this machine has, nor to categories that hold one |
| `ConfigImport.ValidTransferComposition` | internal/application/config_transfer.go:1452-1512 | accepts exactly what is sound on the prospective catalog, and fixes the complete priority order and the domains |
| `ConfigImport.PrepareTransferRegistries` | internal/application/config_transfer.go:595-650 | the registries to install are the document under its new identities |
| `ConfigImport.InstalledMembers` | internal/application/config_transfer.go:652-664 | an imported category holds, renamed, what was foreseen for it |
| `ConfigImport.ImportAgrees` | internal/application/config_transfer.go:1319-1323 | for every accepted document and all fresh identities a profile resolves after the import to the renamed order that validation computed, and its domains are for lists that resolve |
| `ConfigImport.ImportedNamesExist` | internal/application/config_transfer.go:570-583 | every list and category that an imported profile names is in the library the import installs |
| `ConfigImport.ImportAcceptsTheSame` | internal/application/config_transfer.go:1319-1323 | validation before the import accepts exactly the profiles that the library would accept, renamed, afterwards |
| `ConfigImport.PlainProfilesAreAccepted` | internal/application/config_transfer.go:1452-1512 | a profile of known names, without an order or domains of its own, is accepted in the order of the names |
| `Credentials.DeviceService.ClearCredential` | internal/application/device.go:583-599 | the secret goes first, and the outcome follows from the answers of the calls; success leaves neither secret nor flag and everything else as it was |
| `Credentials.DeviceService.UpdateDevice` | internal/application/device.go:343-397 | a changed connection is never visible with the old secret, flag or consent, whichever write fails; which calls are made and whether it succeeds follows from the request and their answers |
| `Credentials.DeviceService.ForgetDevice` | internal/application/device.go:439-451 | a device that is gone has no secret |
| `Credentials.DeviceService.SaveCredential` | internal/application/device.go:469-508 | a password is stored exactly when it is acceptable and every call succeeds; success stores it for the current connection; every write leaves the stores safe |
| `Credentials.DeviceService.Compensate` | internal/application/device.go:555-560 | taking the secret back is safe whether or not it works |
| `Credentials.DeviceService.RemoveCredential` | internal/application/device.go:566-572 | no secret, no flag, and consent gone exactly where the target needs a password |
| `Credentials.DeviceService.EnableAutoDelivery` | internal/application/device.go:607-636 | consent only with a recorded password where one is needed, no obsolete secret where none is, and the rest of the row as it was |
| `Credentials.DeviceService.DisableAutoDelivery` | internal/application/device.go:641-655 | only the consent changes |
| `Credentials.DeviceService.DeviceCredential` | internal/application/device.go:662-674 | exactly a stored and readable password is given out, and it was saved for the connection the device has now |
| `Credentials.LatePasswordIsSafeIff` | internal/application/device.go:487-489 | a password put after the connection may have moved is safe exactly when it did not |
| `DeliveryGate.StepMovesToken` | internal/application/delivery_gate.go:32-55 | each step moves the token between the channel and the acting caller, or leaves it |
| `DeliveryGate.StepKeepsAuthority` | internal/application/automatic_delivery.go:68-117 | what a holder re-checked stays true until it lets go |
| `DeliveryGate.GateIsExclusive` | internal/application/delivery_gate.go:25-55 | for any callers, cancellations and repeated releases, tokens in the channel plus holders are one |
| `DeliveryGate.ReturningNeverBlocks` | internal/application/delivery_gate.go:46-54 | putting the token back never waits |
| `DeliveryGate.SendsStayAuthorized` | internal/application/automatic_delivery.go:77-117 | during every scheduled send the output stays bound to the device and the device opted in |
| `DeliveryGate.AuthorizedSendIsMade` | internal/application/automatic_delivery.go:68-117 | a send of a bound output to an opted-in device is made, and the gate is free afterwards |
| `DeliveryGate.UnauthorizedSendIsNot` | internal/application/automatic_delivery.go:83-93 | the re-check ends a send whose output is no longer bound or whose device no longer consents |
| `DeliveryGate.NewcomersAuthorizeNothing` | internal/infrastructure/sqlite/config_transfer.go:453 | a new device has not consented, and a new output is bound to nothing |
| `DeliveryGate.ChangesAreMade` | internal/application/delivery_gate.go:32-55 | whoever holds the gate can change bindings and consent, and gives it back |
| `DeliveryGate.CanceledCallersLeave` | internal/application/delivery_gate.go:36-50 | a canceled caller leaves without the token at whichever check it is seen |
| `DiscoveryProxy.GuardedProxy.RefuseLocked` | internal/discovery/proxy.go:368-383 | a refusal is remembered exactly when it was, or has a usable name and room; it breaks the separation of contacted and refused hosts exactly when it is remembered for a contacted one |
| `DiscoveryProxy.RefusedExactly` | internal/discovery/proxy.go:368-383 | the first reason stays, other hosts are untouched, and every refusal of a usable name is remembered or counted |
| `DiscoveryProxy.GuardedProxy.CountRequest` | internal/discovery/proxy.go:227-230 | an attempt goes on exactly while the request limit is not passed |
| `DiscoveryProxy.GuardedProxy.Admit` | internal/discovery/proxy.go:231-240 | a new host is admitted exactly when there is room, and reserves it |
| `DiscoveryProxy.GuardedProxy.Attempt` | internal/discovery/proxy.go:219-241 | background hosts, requests beyond the limit and hosts without room are refused, in this order; otherwise capacity is reserved |
| `DiscoveryProxy.GuardedProxy.Connected` | internal/discovery/proxy.go:255-274 | the reservation becomes a contacted host attributed to the running step and document, and is no longer refused |
| `DiscoveryProxy.ContactIsAttributed` | internal/discovery/proxy.go:255-274 | steps, components and loaders stay recorded for contacted hosts only, and no host loads itself |
| `DiscoveryProxy.KnownFirstIsStronger` | internal/discovery/evidence.go:303-322 | of two components the one that is known first is kept |
| `DiscoveryProxy.GuardedProxy.ReleaseAttempt` | internal/discovery/proxy.go:243-251 | one reservation fewer, and the entry goes with the last |
| `DiscoveryProxy.GuardedProxy.CountBytes` | internal/discovery/proxy.go:196-201 | bytes are accepted exactly while the budget is not passed |
| `DiscoveryProxy.GuardedProxy.Observed` | internal/discovery/proxy.go:387-396 | all contacted hosts in order and all refusals, without any filter between them |
| `DiscoveryProxy.GuardedProxy.Evidence` | internal/discovery/proxy.go:277-306 | every host once and in order, contacted ones with their steps, loaders and component and never as refused, and the totals of the session |
| `DiscoveryProxy.AttemptKeepsRoom` | internal/discovery/proxy.go:231-240 | admission keeps reservations equal to attempts in flight and the total within the bound |
| `DiscoveryProxy.ContactKeepsRoom` | internal/discovery/proxy.go:255-274 | contacting keeps them too |
| `DiscoveryProxy.ReleaseKeepsRoom` | internal/discovery/proxy.go:243-251 | and so does releasing |
| `DiscoveryProxy.FailedReturnVisit` | internal/discovery/proxy.go:387-396 | an attempt that the code makes after which a host is in both answers |
| `DiscoveryRequests.StepKeeps` | internal/discovery/proxy.go:110-241 | every atomic section of every request keeps the reservations, the request count, the byte budget and the attribution |
| `DiscoveryRequests.CapacityIsConserved` | internal/discovery/proxy.go:71-74 | in every interleaving of any number of requests: reservations equal attempts in flight, hosts stay within the bound, exactly the first requests pass, bytes written and still to be written stay within the budget, background hosts are never contacted |
| `DiscoveryRequests.RequestGoesThrough` | internal/discovery/proxy.go:219-274 | after any run a request within the request limit, for a host with room that is no background host, is connected |
| `DiscoveryRequests.BytesGoThrough` | internal/discovery/proxy.go:188-217 | an open tunnel forwards everything within the byte budget; what would pass it ends the direction |
| `DiscoveryRequests.EveryRequestCanFinish` | internal/discovery/proxy.go:110-251 | after any run every request can be brought to its end, whatever the others do, and then holds no attempt |
| `DiscoveryRequests.BothExactly` | internal/discovery/proxy.go:387-396 | a host is in both answers exactly when a refusal was remembered while it was contacted and it was not contacted since |
| `DiscoveryRequests.ApartExactly` | internal/discovery/proxy.go:387-396 | the answers stay apart throughout a run exactly when no step refuses a contacted host with a usable name and room to remember it |
| `PortSearch.DrawsAreDistinct` | cmd/routevane/desktop.go:71-94 | a draw gives distinct cards of the deck |
| `PortSearch.EveryDrawArises` | cmd/routevane/desktop.go:71-94 | every sequence of distinct cards is drawn by some choices |
| `PortSearch.DrawDeterminesChoices` | cmd/routevane/desktop.go:71-94 | and by no others |
| `PortSearch.ListenDesktopBand` | cmd/routevane/desktop.go:71-94 | the sparse map draws what the dense shuffle would; every attempt is in the band, new and not the failed port |
| `PortSearch.SearchIsUniform` | cmd/routevane/desktop.go:67-70 | sequences of distinct eligible ports and sequences of index choices correspond one to one |
| `ListFreshness.StampFacts` | internal/infrastructure/sqlite/observations.go:48-57 | the stamps are the times of the first and the last report |
| `ListFreshness.HealthFacts` | internal/application/application.go:101-103 | a source's health is its last and its previous successful read |
| `ListFreshness.LatestRead` | internal/application/list_freshness.go:145-157 | the latest successful read of an enabled source up to the cutoff |
| `ListFreshness.Freshness` | internal/application/list_freshness.go:138-195 | the loops count exactly the values the stamps that are not flagged call added and removed; fresh exactly when every enabled source was read well and nothing it reported ran out |
| `ListFreshness.StampsRefineHistory` | internal/application/list_freshness.go:16-21 | for every history up to the cutoff, added and removed by stamps are added and removed by history |
| `ListFreshness.FlaggedStampsRefineHistory` | internal/application/list_freshness.go:170-173 | skipping flagged stamps gives what a history without those observations gives |
| `ListFreshness.EnabledSourceState` | internal/application/list_freshness.go:106-133 | ready, failed and stale are characterised by the cycles, the revision and what the latest read reported |
| `ListFreshness.FailedLastIsLast` | internal/application/application.go:108-111 | the stored times say that the last cycle failed exactly when it did |
| `ListFreshness.CombinedState` | internal/application/list_freshness.go:201-224 | failed if any source failed, never if none was read, fresh if all are ready |
| `ListPriority.ParentIffCovers` | internal/planner/overlaps.go:161-193 | the covering values are exactly the other suffixes and networks that cover every destination of a value |
| `ListPriority.OverlapParents` | internal/planner/overlaps.go:161-193 | finds every covering value whose width is in use, and nothing else |
| `ListPriority.RankLists` | internal/planner/priority.go:23-34 | a list's place is its first in the priority |
| `ListPriority.Losers` | internal/planner/priority.go:73-86 | of several owners of a value all but the best lose it |
| `ListPriority.DropSet` | internal/planner/priority.go:64-98 | a rule goes exactly when a better-placed list has its value or one that covers it |
| `ListPriority.DropsWhatIsCovered` | internal/planner/priority.go:14-18 | a rule goes exactly when a better-placed rule wholly covers it, unless that rule is an address and this one a network |
| `ListPriority.AddressSparesItsNetwork` | internal/planner/overlaps.go:161-193 | a better-placed address covers its network of full width, which stays; the other way round the address goes |
| `ListPriority.EarlierListWins` | internal/planner/priority.go:14-18 | what a rule of an earlier named list wholly covers is dropped, and of two unnamed lists the lesser name wins |
| `ListPriority.FirstListKeepsAll` | internal/planner/priority.go:64-66 | the list that the priority names first keeps every rule |
| `ListPriority.Plan.ApplyListPriority` | internal/planner/priority.go:19-115 | kept rules stay in order, dropped ones are recorded as excluded |
| `ListPriority.NothingIsLost` | internal/planner/priority.go:100-114 | kept and dropped rules are exactly the rules there were |
| `ListPriority.BestKeepsItsRules` | internal/planner/priority.go:14-18 | the best-placed list keeps every rule it has for a destination |
| `ListPriority.RoutingIsPreserved` | internal/planner/priority.go:14-18 | a destination is routed after exactly when it was before, and the list that came first still does |
| `ListPriority.PriorityIsIdempotent` | internal/planner/priority.go:19-115 | a second application drops nothing |
| `Canonical.TupleOrderIsKeyOrder` | internal/application/preflight.go:146-148 | for fields without NUL, tuple order is the order of joined keys |
| `Canonical.CanonicalIsIncreasing` | internal/planner/canonical.go:14-24 | sorted rules with distinct candidates are strictly increasing under the joined key |
| `Canonical.CheckOrder` | internal/application/preflight.go:60-87 | accepts exactly strictly increasing, duplicate-free rules; on canonical order exactly distinct candidates |
| `Canonical.CanonicalSightings` | internal/planner/canonical.go:26-74 | one sighting for each observation, with facts that sum up all of them, ordered by key |
| `Canonical.SumIsUnique` | internal/planner/canonical.go:31-51 | those facts do not depend on the order of arrival |
| `Canonical.SightingsIgnoreOrder` | internal/planner/canonical.go:26-74 | with agreeing source classes the merged sightings and fingerprints ignore order |
| `Canonical.SlicesIgnoreOrder` | internal/planner/canonical.go:68-74 | and so does the sorted slice, for fields without NUL |
| `Canonical.DisagreementShows` | internal/planner/canonical.go:53-57 | and with disagreeing ones they do not |
| `Canonical.RulesIgnoreOrder` | internal/planner/canonical.go:14-24 | any two sorted arrangements of agreeing rules hash alike |
| `Canonical.DistinctRulesAgree` | internal/application/preflight.go:82-86 | rules that pass preflight agree |
| `Canonical.PayloadOf` | internal/planner/canonical.go:176-195 | the payload is made of sorted rules and the fingerprints of merged sightings |
| `Canonical.PayloadIgnoresOrder` | internal/planner/canonical.go:176-195 | the hash payload is unchanged by permuting rules, sightings or relations |
| `Canonical.PayloadTellsApart` | internal/planner/canonical.go:176-195 | equal payloads come from plans whose rules match one to one in everything hashed, with the same relations and the same observations, sources and trust |
| `Canonical.OnePayloadIff` | internal/planner/canonical.go:176-195 | all orders of the sightings give one payload exactly when sightings of one observation agree on their source class |

## Left out

- RouteLabels.DescribeIsValid: the bound on the number of labels is the largest length of a Go slice; beyond it the decimal suffix would not fit either.
- RouteLedger.LabelledSendsCommute: needs the two single sends to stay within that bound too, because the source refuses its own result past it.
- Reconciliation.Reconcile: past that bound the refusal of its own result is allowed but not pinned down.
- DeviceTrace.GoodAnswersSuffice: counts a first read as good only within that bound.
- DeviceTrace.WhyItFailed: a refused change is named by what `errors.Is` can tell about it; error texts and the further wrapping of errors are not modelled.
- DeviceCleanup.Retire: failing reads of the stores that list where something was delivered are not modelled; they refuse before anything is touched.
- DeliveryGate.AuthorizedSendIsMade: the saved password that such a send may also need is read in `Credentials`, not here.
- DeviceCleanup.RouteCounts: keyed by prefix where the source keys by text; on valid ledgers the two agree, and only there the single counts are stated.
- Canonical.CanonicalSightings: keyed by the tuple of fields where the source keys by their joined text, which agree for fields without NUL; validity, TTL and metadata of duplicates come from whichever arrives first and are not modelled.
- ListPriority.OverlapParents: the widths in use are neither sorted nor deduplicated, which changes only how often and in which order parents are found.
- Composition.NormalizeListDomains: the grammar of a domain name is an arbitrary partial function.
- Credentials.DeviceService.UpdateDevice: grammar checks of names, addresses and accounts are one arbitrary refusal.
- DiscoveryProxy.GuardedProxy.CountBytes: counters are unbounded; the wrap-around of 64-bit counters is not modelled.
- Wall-clock budgets and timeouts: a timeout is one more failure of a call.
- The contents of FQDN groups and their ledger validation: an output's groups are an opaque list.
- SQLite, files, HTTP, the browser driver, plugin processes and the web interface: I/O.
- The deployment attempt journal: its at-most-once promise rests on one atomic insert.
- Renderers, `BuildPlanSet`, `AnalyzeRuleOverlaps` and prefix collapsing: not needed by any property here.
- Observation cutoffs of publications (a superseded build), labels and reasons of excluded candidates, and titles.
- The renumbering of transfer references on export, and the completion of the default priority there.
- DiscoveryProxy.GuardedProxy.Evidence: the target and the cleanup error of a session are passed through and not modelled.
- `MergeEvidence`: its refused reason depends on the order of the parts.
- Resolution, policy and dialling of a proxied request: either the connection stands or the request fails with one of two reasons.
- The refresh schedule.
