# Verified model of the Pomerium ingress controller

The ingress controller turns Kubernetes objects (ingresses, gateways, secrets, certificates) into
Pomerium configuration. This project models the stateful parts of it in Dafny and proves what they
keep, over every input, every iteration order, every failure of a remote call and every
interleaving.

| file | part of the system |
|---|---|
| `Names.dfy`, `NameIndex.dfy`, `Matcher.dfy` | the index of DNS names and the certificate matcher that keeps the set of route names without a certificate |
| `CertificateController.dfy` | one pass that deletes and creates cert-manager certificates |
| `ApiStore.dfy`, `RouteSync.dfy`, `IngressSync.dfy`, `KeyPairSync.dfy` | the reconciler of the unified API: routes, policies and key pairs behind calls that may fail, ids persisted as annotations |
| `RouteOrder.dfy`, `RouteMerge.dfy`, `CertPruning.dfy`, `Databroker.dfy` | the databroker reconciler: route order, route merging, certificate pruning, runs of upserts and deletes |
| `GatewayHostnames.dfy`, `GatewayAttachment.dfy`, `ReferenceGrants.dfy` | hostname intersection, attachment of HTTP routes to listeners, reference grants |
| `SecretsMap.dfy`, `Registry.dfy` | the two bidirectional indexes and the fetch that fills the registry |
| `Restart.dfy`, `Once.dfy`, `Operation.dfy` | the three concurrent protocols, as state machines over their steps |
| `Options.dfy`, `Lexical.dfy` | the shared option type and the order of strings |

`dafny verify dfyconfig.toml` checks all of it.

## How the parts are modelled

- An object whose methods update fields is a class (`NameIndex`, `Matcher`, `DomainMap`, `Gateway`,
  `TLSSecretsMap`, `DependencyRegistry`, the two `Reconciler`s). A loop over a Go map is a loop over a
  set that takes any element next, so every result holds for every iteration order.
- A remote store or cluster is a class whose calls may fail, with or without taking effect. Ghost
  counters (`writes`, `faults`, `refusals`, `clashes`, `patches`) and traces let a contract say which calls were
  issued. The object in memory and the persisted object are kept apart.
- Goroutines and channels are a `State`, the `Step`s that are `Enabled` in it and a `Next` state; a run
  is any sequence of enabled steps.
- Each main method is proved against a definition that does not follow its code: the from-scratch
  missing set (`Matchers.MissingAfter`), the one-label wildcard rule of section 6.3 of RFC 9525
  (`Names.StarsLeftmostLabel`), the host sets that Gateway API v1 gives to HTTPRouteSpec.hostnames
  (`GatewayHostnames.BothMatch`), a scan over all grants (`ReferenceGrants.Granted`), the latest fetch of
  an ingress (`Registry.LatestAsks`), and so on.

## Where a property holds only under a condition

- Hostname intersection is exact if and only if the two hostnames are not both empty
  (`GatewayHostnames.IntersectionExact`). The hostnames of a route at a listener are exact for all
  hostnames the Gateway API admits; `GatewayHostnames.RouteHostnames` gives the exact condition for
  the empty hostname and the bare star as well.
- What an upsert leaves in memory is persisted if and only if a change was reported or the store
  reported no clash: a route adopted by name that needs no update is reported as no change
  (pomerium/sync_api.go:712-734), so its id may never be recorded
  (`IngressSync.Reconciler.UpsertOneIngress`). In a store with unique names, and unless a call fails,
  that happens if and only if nothing had to be written although the annotations did not name the
  routes, a condition on the state before the call. `IngressSync.UpsertLosesId` is the input at which
  it happens: the finalizer is on, the annotation was lost to a failed patch, and the route is live
  and as wanted.
- From distinct ids, in a store with unique names, a successful upsert leaves the ingress in memory in
  sync with the store if and only if, before it, wanted names differ and no annotation whose turn
  comes later, or that is surplus, tracks a live route that has the name wanted at an index whose own
  route cannot be updated in place (`RouteSync.Untangled`, in the contract of
  `IngressSync.Reconciler.UpsertOneIngress`). Without the condition an index adopts the route of
  another annotation (pomerium/sync_api.go:712-719). `IngressSync.UpsertDropsAdopted` is the input at
  which the adopted route is then deleted as surplus and its id persisted;
  `IngressSync.UpsertSharesRoute` the one at which two annotations end on one route. In any store the
  condition, or a run without a clash, suffices.
- A route is refused, in a store with unique names and unless a call fails, if and only if its tracked
  route can be updated in place and another route has the wanted name, or it cannot and a route that
  is not ours has the name (`RouteSync.Blocked`, in the contract of `RouteSync.UpsertOneRoute`). An
  upsert of the ingress from distinct, untangled annotations fails if and only if one of its names is
  blocked when its turn comes, which is decided by the state before the call (`RouteSync.BlockedAt`).
  So, from distinct ids, it succeeds in sync if and only if annotations are untangled and no name is
  blocked.
  Names are made from host and path (pomerium/ingress_to_route.go:252-259), so removing the first of
  two paths is such an input: index 0 is to be updated to the name that the route of index 1 still
  has, the surplus route is deleted only after the loop, and every further upsert fails
  (`IngressSync.RemoveFirstPath`, `IngressSync.RetryWedged`).
- A repeated certificate pass is idle in every listing order if and only if every certificate holds a
  missing name alone and none is lacking (`CertificateController.QuietInEveryOrder`).
- Pruning certificates twice is the same as once if and only if every kept certificate is, for some
  host, the last to expire of those kept under the name the host is served by, and of those that
  expire with it the least in bytes (`CertPruning.PruningIsIdempotent`; `CertPruning.TiesMayLose` shows two certificates
  for which it fails). Under the same condition, and only then, repeating an upsert reports no change
  (`Databroker.UpsertAgain`).
- A save fails without a failed call if and only if the configuration cannot be brought in order or is
  then not valid (`Databroker.Reconciler.SaveConfig`).
- One delete of an ingress leaves the finalizer on if and only if there was something else to delete
  (`IngressSync.Reconciler.Delete`); two deletes without failures always take it off
  (`IngressSync.DeleteTwice`).
- Syncing a secret without failed calls is refused if and only if its name belongs to a key pair that
  cannot be adopted (`KeyPairSync.SyncOneSecret`).

## Model

| member | source | states |
|---|---|---|
| Names.CutSplits | internal/certificate/nameindex.go:152-164 | cutting a name at its first dot loses nothing: prefix, dot and suffix give the name back |
| Names.CoversIsOneLabelWildcard | internal/certificate/nameindex.go:152-164 | agreeing on the index cell, or on the suffix under a star, is the same as equal names or exactly one left-most wildcard label (section 6.3 of RFC 9525) |
| NameIndexes.NameIndex.constructor | internal/certificate/nameindex.go:32-37 | a new index is well-formed and empty |
| NameIndexes.NameIndex.Remove | internal/certificate/nameindex.go:125-150 | afterwards each remaining key is stored at exactly the cells its names split to, no inner map is empty, and only the removed key is gone |
| NameIndexes.NameIndex.Add | internal/certificate/nameindex.go:47-72 | replaces the key's names, keeping the same invariant, even for lists with duplicates |
| NameIndexes.NameIndex.Lookup | internal/certificate/nameindex.go:82-113 | finds exactly the keys a scan over all names of all keys would find, in both wildcard modes and for any iteration order |
| NameIndexes.LookupFinds | internal/certificate/nameindex.go:82-113 | reading the one or two cells, or the whole row, is the same as scanning the names of a key |
| Matchers.Matcher.Check | internal/certificate/matcher.go:38-53 | rechecking a name re-evaluates exactly the names of the routes the lookup finds and drops the name itself if unrouted |
| Matchers.Matcher.CheckAll | internal/certificate/matcher.go:66-88 | rechecking a set of names gives one result for every order |
| Matchers.CoveringTouches | internal/certificate/matcher.go:38-53 | a certificate name that covers a routed name reaches it through the wildcard lookup |
| Matchers.CertificatePhase | internal/certificate/matcher.go:58-72 | after one key's certificates change, rechecking only added and removed names restores the from-scratch missing set |
| Matchers.RoutePhase | internal/certificate/matcher.go:74-88 | the same when one key's route names change |
| Matchers.Matcher.Update | internal/certificate/matcher.go:37-89 | keeps the missing set equal to its from-scratch meaning and sets both name lists of the key; an empty list forgets the key |
| Matchers.Replay | internal/certificate/matcher.go:37-89 | after any sequence of updates, in any iteration order, the kept set is the names some key's latest call routes and no key's latest call covers |
| CertificateController.Cluster.Create | controllers/certificate/controller.go:257-292 | creates one certificate for one name under a fresh object name, or fails with or without effect |
| CertificateController.Cluster.Delete | controllers/certificate/controller.go:294-309 | deletes the certificate, or fails with or without effect |
| CertificateController.DropForeign | controllers/certificate/controller.go:142-152 | deletes certificates of another issuer, passing only through prefixes of that pruning, and returns the issuer's own in list order |
| CertificateController.Claim | controllers/certificate/controller.go:168-174 | a certificate claims exactly its names that are still open, and is used if there is one |
| CertificateController.DropUnused | controllers/certificate/controller.go:167-181 | keeps exactly the certificates that are first in the list for some missing name; the rest of the names stay open |
| CertificateController.UsedIsSafe | controllers/certificate/controller.go:167-181 | the kept certificates provision every missing name that any certificate of the issuer provisioned |
| CertificateController.CreateMissing | controllers/certificate/controller.go:184-188 | adds exactly one certificate per open name and touches no other |
| CertificateController.Provision | controllers/certificate/controller.go:167-190 | no state after any call, failed or not, leaves a provisioned missing name without a certificate; no call is issued if and only if nothing is foreign, unused or lacking |
| CertificateController.ReconcileCertificates | controllers/certificate/controller.go:136-191 | the same for a whole pass; it fails exactly on a failed call or sync; without failures the result is the stated outcome, and without an issuer only that issuer's certificates are left |
| CertificateController.PassProvisionsAll | controllers/certificate/controller.go:142-190 | a pass without failures provisions every missing name, and from single-name certificates leaves exactly one certificate per missing name |
| CertificateController.QuietInEveryOrder | controllers/certificate/controller.go:142-190 | a pass does nothing in every listing order if and only if every certificate holds some missing name alone and every missing name is provisioned |
| CertificateController.OnePerNameIsSettled | controllers/certificate/controller.go:142-190 | one certificate per missing name is a state that no later pass touches |
| CertificateController.ReconcileTwice | controllers/certificate/controller.go:136-191 | from single-name certificates, a pass without failures leaves one certificate per missing name, and the next pass over any listing issues no call and cannot fail |
| RouteSync.FindTracked | pomerium/sync_api.go:668-688 | finds the tracked route if it is live in the wanted namespace, deletes one in another namespace, and fails only on a failed call |
| RouteSync.CreateOrAdopt | pomerium/sync_api.go:690-719 | creates the route under a fresh id, or after a clash adopts our own route of that name; in a store with unique names, and unless a call fails, it fails exactly if a route that is not ours has the name |
| RouteSync.Locate | pomerium/sync_api.go:668-719 | the tracked route in place, a created one, or after a clash one of ours with that name; in a store with unique names a route that needs no write is found |
| RouteSync.UpsertOneRoute | pomerium/sync_api.go:658-744 | on success the returned id names a live route equal to the wanted one, the tracked route is it or is gone, and only those two changed; an unchanged route has a new id exactly after a clash; in a store with unique names, and unless a call fails, it fails exactly if the name is blocked, then losing at most the tracked route in another namespace, and is unchanged exactly if nothing had to be written; an up-to-date route costs no write |
| RouteSync.SyncRoutes | pomerium/sync_api.go:245-273 | upserts the wanted routes in order until one fails: each turn meets the contract of one upsert at the annotation of its index, and the annotations and the reported change are what the turns give; the lemmas below say what any such turns keep |
| RouteSync.StepUntangled | pomerium/sync_api.go:712-719 | adopting a route by name keeps ids distinct, earlier routes as wanted and what lies ahead untangled, if it was untangled |
| RouteSync.StepTangled | pomerium/sync_api.go:712-719 | otherwise, in a store with unique names, the adopted route is shared with another annotation or what lies ahead is still tangled |
| RouteSync.TurnsStayTidy | pomerium/sync_api.go:245-273 | after any turns exactly the first annotations are set, what they named before is named still or gone, and what they name carries the wanted policies |
| RouteSync.TurnsKeepOrder | pomerium/sync_api.go:245-273 | from distinct ids, after any turns without a clash or from untangled annotations, ids are distinct and name the wanted routes; from tangled ones, in a store with unique names, two annotations share a live route or what lies ahead is tangled |
| RouteSync.TurnsMove | pomerium/sync_api.go:245-273 | when no change is reported, annotations differ from before exactly after a clash |
| RouteSync.TurnsStayUntouched | pomerium/sync_api.go:245-273 | when no change is reported, every route was as wanted where its annotation or its name says, and only routes outside the wanted namespace are lost |
| RouteSync.TurnsForetellBlocked | pomerium/sync_api.go:712-744 | from distinct, untangled annotations, a name can be had at its turn exactly if it can be judging from the store before the loop |
| RouteSync.LoopIsDecided | pomerium/sync_api.go:245-273 | in a store with unique names, and unless a call fails, the state before the loop decides: it fails exactly if a name is blocked, from distinct, untangled annotations; it changes nothing if nothing had to be written; it fails at once and changes nothing if the first route cannot be renamed |
| RouteSync.DeleteRoutes | pomerium/sync_api.go:770-783 | deletes only the routes of the given annotations, and drops an annotation only once its route is gone |
| IngressSync.UpsertPolicy | pomerium/sync_api.go:832-901 | on success the returned id names a live policy equal to the wanted one; an up-to-date policy costs no write |
| IngressSync.SyncIngressPolicy | pomerium/sync_api.go:795-828 | the returned policy id is what the ingress asks for, none if it asks for no policy |
| IngressSync.ApplyRoutes | pomerium/sync_api.go:243-282 | success leaves annotations 0..n-1 and no others, with every other formerly tracked route gone; from distinct ids they name n distinct live routes equal to the wanted ones if there was no clash, and in a store with unique names if and only if annotations were untangled; without a clash a change is reported exactly if something was written; without a failed call it fails only on a clash or a refused name, exactly as the state before decides |
| IngressSync.ApplyRoutesAndPolicy | pomerium/sync_api.go:243-302 | the same, followed by the deletion of the policy the routes referred to before, which is safe in every case |
| IngressSync.DropOldPolicy | pomerium/sync_api.go:284-302 | deletes the replaced or unwanted policy and only when no tracked route refers to it; the policy in use is untouched |
| IngressSync.UpdatePolicy | pomerium/sync_api.go:196-241 | the policy between the checks of annotations and key pairs: as wanted on success, untouched if it was |
| IngressSync.UpdateRoutes | pomerium/sync_api.go:243-304 | the routes and the policy before it: policy deletions safe in every case; from distinct ids, synced on success and ids distinct without a clash or when untangled, and in a store with unique names synced if and only if untangled |
| IngressSync.UpdateInMemory | pomerium/sync_api.go:194-304 | everything between reading the ingress and the patch: the same, when it fails, and what it means that no change is reported |
| IngressSync.Reconciler.UpsertOneIngress | pomerium/sync_api.go:176-305 | from distinct ids, success leaves annotations in memory that are in sync with the store if there was no clash or they were untangled, and in a store with unique names if and only if they were untangled; memory is persisted if and only if a change was reported or there was no clash, which in a store with unique names is decided by the state before the call; an unchanged ingress issues no create, update, delete or patch; a patch is issued exactly if a change is reported; without a failed call a sound ingress fails only on a clash or a refused name, and in a store with unique names, from distinct and untangled annotations and without a clash of policies, if and only if a wanted name is blocked |
| IngressSync.UpsertLosesId | pomerium/sync_api.go:712-734 | an ingress whose annotation was lost while its route is live and as wanted: the upsert succeeds, finds the route and does not persist its id |
| IngressSync.UpsertDropsAdopted | pomerium/sync_api.go:275-282 | the one annotation is surplus and names a route that is as wanted: the upsert succeeds and persists the id of a route it deleted |
| IngressSync.UpsertSharesRoute | pomerium/sync_api.go:712-719 | the paths A and B become B and A while the route of A is gone: the upsert succeeds and both annotations name one route |
| IngressSync.RetryWedged | pomerium/sync_api.go:736-744 | while the first route cannot be renamed, every upsert without a failed call fails and leaves store and ingress as they were |
| IngressSync.RemoveFirstPath | pomerium/sync_api.go:245-282 | removing the first of two paths is such a case: the route of the first index is to take the name the second still has |
| IngressSync.SharedIsNotSynced | pomerium/sync_api.go:275-282 | a route shared by two annotations is shared still or is deleted with the surplus, so the routes are not in sync |
| IngressSync.DeleteTracked | pomerium/sync_api.go:454-465 | routes go before the policy they refer to; it fails exactly on a failed call |
| IngressSync.DeleteInMemory | pomerium/sync_api.go:454-480 | all annotations are gone on success, the finalizer exactly when nothing else was to delete |
| IngressSync.Reconciler.Delete | pomerium/sync_api.go:435-481 | the same for the persisted ingress, which is patched exactly if there was anything to take off it; it fails only on a failed call |
| IngressSync.Run | pomerium/sync_api.go:176-305 | over any run of upserts and deletes with failures anywhere, no policy is deleted while a route named by the annotations refers to it, and ids stay distinct while the store reports no clash |
| IngressSync.UpsertTwice | pomerium/sync_api.go:176-305 | after an upsert that succeeded from annotations in good order and persisted what it had in memory, even after a clash, the ingress is in sync and a second upsert issues no write and no patch; in a store with unique names the conditions are on the state before |
| IngressSync.DeleteTwice | pomerium/sync_api.go:435-481 | two deletes without failures leave no annotation and no finalizer |
| KeyPairSync.Store.Create | pomerium/sync_api.go:979-987 | a name that is taken is refused, so names stay unique even when the answer to a create is lost |
| KeyPairSync.FindTracked | pomerium/sync_api.go:953-973 | as for routes, for key pairs |
| KeyPairSync.CreateOrAdopt | pomerium/sync_api.go:976-997 | without failed calls it fails if and only if a key pair that is not ours has the name |
| KeyPairSync.UpsertKeyPair | pomerium/sync_api.go:952-1026 | on success the id names a live key pair equal to the wanted one, and a change is reported exactly if a write was issued; without failed calls it fails if and only if the name is blocked |
| KeyPairSync.SyncOneSecret | pomerium/sync_api.go:326-357 | success leaves the persisted annotation on the one live key pair of that name, equal to the secret's data; in sync it issues no write and no patch |
| KeyPairSync.Retry | pomerium/sync_api.go:326-357 | over any run of attempts with failures, including creates that took effect unrecorded, the first success leaves the annotation on the one live key pair of that name |
| Lexical.CmpEqual | pomerium/route_list.go:45-92 | the string comparison is zero only on equal strings and antisymmetric |
| RouteOrder.LessTotal | pomerium/route_list.go:45-92 | the order is asymmetric, and total on routes with different ids |
| RouteOrder.LessTransitive | pomerium/route_list.go:45-92 | the order is transitive |
| RouteOrder.KindsInOrder | pomerium/route_list.go:41-92 | for one From, exact paths precede regular expressions and those precede prefixes |
| RouteOrder.FirstMatchIsBest | pomerium/route_list.go:41-92 | in a sorted list the first route that matches a request is an exact path if any matches, else a regular expression if any matches, else the longest matching prefix |
| RouteOrder.SortedUnique | pomerium/route_list.go:37-39 | with distinct ids, the same routes have one sorted list |
| RouteOrder.Sort | pomerium/deterministic.go:15-17 | the sorted list is a permutation in order |
| RouteMerge.ToMap | pomerium/route_list.go:94-107 | succeeds if and only if the list has an index (every id decodes, no two alike), and returns it |
| RouteMerge.RemoveName | pomerium/route_list.go:109-115 | removes exactly one ingress's routes |
| RouteMerge.ToList | pomerium/route_list.go:117-124 | a sorted list of exactly the map's routes, each once, for any iteration order |
| RouteMerge.MergeMaps | pomerium/route_list.go:126-130 | the union, with the source map winning |
| RouteMerge.CanonicalListUnique | pomerium/route_list.go:117-124 | the list of a map is unique |
| RouteMerge.MergeRoutes | pomerium/routes.go:13-28 | fails if and only if a list has no index; otherwise the result's index is the old one with that ingress's routes replaced |
| RouteMerge.DeleteRoutes | pomerium/routes.go:38-46 | fails if and only if the list has no index; otherwise exactly that ingress's routes are gone |
| RouteMerge.MergeReplacesOwn | pomerium/routes.go:13-28 | an upsert replaces exactly its own ingress's routes and keeps all others |
| RouteMerge.MergesCommute | pomerium/routes.go:13-28 | upserts of different ingresses commute |
| RouteMerge.MergeOverwrites | pomerium/routes.go:13-46 | the later upsert of one ingress wins, and delete undoes it |
| RouteMerge.UpsertInBothOrders | pomerium/routes.go:13-36 | two ingresses give the same list in either order: the sorted list of the merged index, a failing one changing nothing |
| CertPruning.RefsAreNewest | pomerium/cert_map.go:74-94 | after any prefix of the names was added, each entry refers to the latest-expiring certificate filed under it, the first of several |
| CertPruning.DomainMap.constructor | pomerium/cert_map.go:47-57 | the map is that of all names of all certificates |
| CertPruning.DomainMap.Add | pomerium/cert_map.go:85-94 | adds all names of the next certificate |
| CertPruning.DomainMap.MarkInUse | pomerium/cert_map.go:96-105 | marks the certificate of the exact name, else of the parent wildcard, else none |
| CertPruning.DomainMap.GetCertsInUse | pomerium/cert_map.go:59-72 | lists exactly the certificates in use, in strictly ascending order of their bytes |
| CertPruning.ByteOrderUnique | pomerium/cert_map.go:107-111 | the same certificates have one list in that order |
| CertPruning.UsedBytesDiffer | pomerium/cert_map.go:74-83 | of two certificates with the same bytes only the first is ever used |
| CertPruning.ChoiceIsUse | pomerium/cert_map.go:96-105 | the marked certificate is the newest for the name the host is served by |
| CertPruning.RemoveUnusedCerts | pomerium/certs.go:33-54 | fails if and only if a certificate does not parse; otherwise keeps exactly the certificates that some host uses, in the order of their bytes |
| CertPruning.PruningKeepsCoverage | pomerium/certs.go:33-54 | a served host that was covered still is, by the latest-expiring certificate of the name it is served by |
| CertPruning.KeptAtMostHosts | pomerium/certs.go:33-54 | at most one certificate is kept per host |
| CertPruning.WinnersStay | pomerium/cert_map.go:59-105 | pruned again, even with some of the same certificates added again, exactly those are left that win for some host |
| CertPruning.PruningIsIdempotent | pomerium/cert_map.go:59-105 | pruning again changes nothing if and only if every kept certificate wins for some host |
| CertPruning.DistinctExpiriesWin | pomerium/cert_map.go:74-83 | distinct expiries are enough for that |
| CertPruning.TiesMayLose | pomerium/cert_map.go:70-83 | two certificates that expire together and share a name are a case where it fails |
| Databroker.AllDomains | pomerium/certs.go:56-74 | fails if and only if a URL does not parse; otherwise the hosts of all routes and of the authenticate service |
| Databroker.SavesUnique | pomerium/sync_databroker.go:224-231 | what is saved is determined, whatever order the routes came in |
| Databroker.Reconciler.SaveConfig | pomerium/sync_databroker.go:224-260 | the record is unchanged, or it is the new configuration sorted and pruned; success means the latter, that it is valid, and a change is reported exactly if there was one; without a failed call it fails if and only if there is no such valid configuration |
| Databroker.Reconciler.Upsert | pomerium/sync_databroker.go:87-100 | saves the record with that ingress's routes replaced and its certificates added, or leaves it; without a failed call it fails if and only if there is no such configuration that could be saved |
| Databroker.Reconciler.Delete | pomerium/sync_databroker.go:144-158 | saves the record without that ingress's routes, or leaves it; without a failed call it fails if and only if there is no such configuration that could be saved |
| Databroker.SavingKeepsCoverage | pomerium/sync_databroker.go:224-260 | saving keeps every covered served host covered |
| Databroker.RunsKeepCoverage | pomerium/sync_databroker.go:87-158 | along any run a host that stays served stays covered |
| Databroker.Run | pomerium/sync_databroker.go:87-158 | every sequence of upserts and deletes, failing anywhere, is such a run |
| Databroker.UpsertAgain | pomerium/sync_databroker.go:87-100 | repeating an upsert reports no change if and only if every certificate the first one kept wins for some host |
| Databroker.GatherOne | pomerium/sync_databroker.go:110-123 | an ingress is taken if and only if its routes translate, are indexable, and make a valid configuration with those taken before it |
| Databroker.Gather | pomerium/sync_databroker.go:110-123 | the configuration of exactly the accepted ingresses, each judged with those accepted before it |
| Databroker.RejectedLeaveNoTrace | pomerium/sync_databroker.go:112-119 | a rejected ingress contributes nothing: without the rejected ones the same are accepted |
| Databroker.Set | pomerium/sync_databroker.go:103-126 | saves what was gathered, or leaves the record; without a failed call it fails if and only if what was gathered cannot be saved |
| Databroker.FoldedIsUnion | pomerium/sync_databroker.go:110-123 | upserting ingresses one after the other is the union of their routes |
| Databroker.SetOrderIrrelevant | pomerium/sync_databroker.go:103-126 | if none is rejected the sorted route list is the same for any order of the ingresses |
| Databroker.GatherInBothOrders | pomerium/sync_databroker.go:103-126 | each gathering has the sorted routes and the certificates of the ingresses it accepts, and two gatherings of the same ingresses that reject none give the same routes |
| GatewayHostnames.IntersectionExact | controllers/gateway/httproute.go:226-245 | the result matches exactly the hosts both inputs match, empty meaning none, if and only if the inputs are not both empty |
| GatewayHostnames.RouteHostnames | controllers/gateway/httproute.go:198-224 | for any hostnames: the result denotes exactly the hosts that listener and route both match if and only if the stated condition holds; then it is empty if and only if there are none |
| GatewayHostnames.ValidIsExact | controllers/gateway/httproute.go:198-224 | hostnames the Gateway API admits meet the condition |
| GatewayHostnames.MeetsExactly | controllers/gateway/httproute.go:217-223 | the union of intersections is exact if and only if the condition holds |
| GatewayAttachment.Gateway.ProcessForListener | controllers/gateway/httproute.go:146-167 | accepted if and only if the listener allows the namespace and some host matches both, and the count rises exactly then; the other reasons name which of the two failed |
| GatewayAttachment.Gateway.ProcessAll | controllers/gateway/httproute.go:58-69 | over the listeners in any order: hostnames denote the union, counts rise by the attachments, and the reason is Accepted if any attached, else that of one of them |
| GatewayAttachment.Gateway.ProcessRoute | controllers/gateway/httproute.go:23-76 | accepted if and only if some offered listener attached the route, the hostnames denote the union over those listeners, each count rises by its attachments; otherwise the reason is that of the case it is in |
| GatewayAttachment.ProcessListeners | controllers/gateway/gateway.go:59-73 | resets every count; of listeners with one name the last that takes HTTP routes stands for it |
| GatewayAttachment.ProcessOne | controllers/gateway/gateway.go:75-85 | a route resolves to hostnames if and only if it attaches somewhere |
| GatewayAttachment.ProcessGateway | controllers/gateway/gateway.go:42-85 | for all routes: acceptance, the hosts served, the configured routes in order, and AttachedRoutes counts are what listeners and routes say |
| ReferenceGrants.Build | controllers/gateway/referencegrant.go:19-30 | the index holds a source under a target exactly if some grant files it there |
| ReferenceGrants.Allowed | controllers/gateway/referencegrant.go:32-49 | a reference is allowed if and only if the namespaces coincide or some grant permits it |
| ReferenceGrants.Decide | controllers/gateway/referencegrant.go:19-58 | index and lookup together answer every reference as a scan over the grants does, for any list and order |
| SecretsMap.TLSSecretsMap.Reset | model/secrets_map.go:47-52 | forgets everything |
| SecretsMap.TLSSecretsMap.Add | model/secrets_map.go:139-146 | adds one reference, keeping the two maps inverse |
| SecretsMap.TLSSecretsMap.UpdateEntity | model/secrets_map.go:94-111 | sets an entity's secrets, keeps the maps inverse, and returns exactly the secrets referenced before and by no entity after |
| SecretsMap.TLSSecretsMap.RemoveEntity | model/secrets_map.go:115-123 | the same for an entity with no secrets left |
| SecretsMap.TLSSecretsMap.RemoveReverseDeps | model/secrets_map.go:125-136 | takes the entity off the given secrets and returns those left without any |
| SecretsMap.Run | model/secrets_map.go:47-146 | over any run each entity refers to exactly what the calls leave it, each update or removal reports exactly the secrets it left without a holder, and so a secret mentioned since the last reset is still referenced or was reported since |
| Registry.Put | model/registry.go:78-85 | adds one directed edge |
| Registry.Del | model/registry.go:87-93 | removes one directed edge, and an entry that becomes empty |
| Registry.DependencyRegistry.Add | model/registry.go:66-76 | adds the edge both ways unless the keys coincide; the registry stays symmetric, irreflexive and without empty entries |
| Registry.DependencyRegistry.DeleteCascade | model/registry.go:123-131 | removes exactly the edges at the key |
| Registry.DependencyRegistry.DepsOfKind | model/registry.go:109-121 | the loop collects exactly the neighbours of that kind, in any order |
| Registry.Get | controllers/deps/registry_client.go:27-38 | the dependency is recorded whether or not the read succeeds |
| Registry.FetchService | controllers/ingress/fetch.go:101-125 | asks for the service, and for its endpoints unless it is an external name |
| Registry.FetchBackends | controllers/ingress/fetch.go:69-84 | asks for the services of the paths in order up to the first failure |
| Registry.FetchServices | controllers/ingress/fetch.go:61-99 | then for that of the default backend, if there is one |
| Registry.FetchSecrets | controllers/ingress/fetch.go:127-141 | asks for the secrets in order up to the first failure |
| Registry.Fetch | controllers/ingress/fetch.go:18-58 | afterwards the ingress depends on exactly what this attempt asked for, found or not, and no other edge changed |
| Registry.AsksForReferences | controllers/ingress/fetch.go:18-141 | a fetch asks for nothing but the status service, the secrets, the services and the endpoints of those that are not external, and for all of them unless it fails |
| Registry.BlockedFetchIsWatched | controllers/ingress/fetch.go:35-141 | a fetch that failed on an object depends on an object it could not read |
| Registry.Dependants | controllers/ingress/deps.go:20-37 | the ingresses that share an edge with the object |
| Registry.Replay | controllers/ingress/deps.go:20-37 | over any run of fetches and deletes an event maps to an ingress if and only if its latest fetch asked for the object and it was not deleted since |
| Restart.RunHolds | util/restart.go:65-146 | in every state of every interleaving: earlier tasks are cancelled and returned, and started configurations followed by what is held are the changes of the input |
| Restart.AtMostOneExecutes | util/restart.go:65-123 | at most one task function executes |
| Restart.StartsAfterPrevious | util/restart.go:81-89 | a task starts only after every earlier one was cancelled and returned |
| Restart.StartsChangesInOrder | util/restart.go:125-146 | the started configurations are a prefix of the input with every value equal to the last forwarded one removed |
| Restart.NoChangeIsLost | util/restart.go:65-146 | whenever filter and loop are waiting for the next value, every change was started |
| Once.RunHolds | controllers/ingress/once.go:12-44 | the invariant of every interleaving: the runnable started at most once, its result went to one caller before the channel was closed |
| Once.ExecutesAtMostOnce | controllers/ingress/once.go:12-24 | the runnable executes at most once for any number of callers |
| Once.ErrorReachesOneCaller | controllers/ingress/once.go:26-44 | its error reaches at most one caller |
| Once.NilMeansDone | controllers/ingress/once.go:26-44 | a caller gets nil only after the runnable completed without error or its error went to another caller |
| Operation.RunHolds | controllers/certificate/operation.go:48-123 | the invariant of every interleaving of starts, stops, resets and completions |
| Operation.OthersAreCancelled | controllers/certificate/operation.go:82-98 | every started function but the current one has been cancelled |
| Operation.ReportsLatestOnly | controllers/certificate/operation.go:48-75 | Active and Error speak of the function started last since the last reset, and of no other |

## Left out

- Kubernetes, gRPC and Connect transport, managers, watches, leases, status reporting, logging and command line: calls are steps that may fail.
- Parsing of PEM, X.509, URLs, YAML, PPL and annotations, and generation of route names: parameters or fields of the model. Route ids decode by an arbitrary function; validation is an arbitrary predicate.
- Copying of settings field by field, annotation dispatch and the gateway translation to routes: only easy members.
- Lower-casing of characters outside ASCII.
- Stale reads: lists and gets answer with the current state of the store.
- IngressSync.Reconciler.UpsertOneIngress: the prefix of a route-id annotation is dropped, and what follows it is an index or anything else. Ids are numbers, with 0 for the empty string. A store either refuses exactly the names that are taken, or may refuse any create; an overlap of hosts is a case of the latter.
- IngressSync.Reconciler.UpsertOneIngress: from tangled annotations, a failure without a failed call is only shown to come from turns that lead to a blocked name; the exact condition is per route, in `RouteSync.UpsertOneRoute`. A clash of policies is not tied to their names.
- IngressSync.Reconciler.Delete: key pairs of unreferenced secrets are deleted by one call that may fail; which they are is the result of `SecretsMap.TLSSecretsMap.RemoveEntity`.
- The gateway path of the unified API (pomerium/sync_api.go:484-639) and its shared settings (pomerium/sync_api.go:360-432).
- Databroker.Reconciler.SaveConfig: pruning is switched on, as the option for it asks; settings that are absent are not told apart from empty ones. The controller gives its certificates no id, so the sort by id (pomerium/deterministic.go:19-23) is taken to leave them in the order of their bytes.
- Databroker.SetOrderIrrelevant: certificates are not claimed to be in the same order.
- GatewayAttachment.Gateway.ProcessForListener: hostnames of listeners and routes are never empty or a bare star, as Gateway API v1 validates them; `GatewayHostnames.RouteHostnames` covers those.
- GatewayAttachment.Gateway.ProcessRoute: conditions on references to backends and the text of status messages; a label selector is the set of namespaces it selects.
- GatewayAttachment.ProcessGateway: listener certificates, conditions and addresses.
- SecretsMap.TLSSecretsMap.UpdateEntity: the map stored is the caller's own in the source; later changes to it by the caller are not modelled.
- Registry.Fetch: within one fetch the same object is readable throughout or not at all; the source may read it twice with different outcomes.
- The first synchronisation of the certificate collector (controllers/certificate/databroker.go): after a failed attempt its matcher may be partly filled, so nothing is claimed.
- Operation.ReportsLatestOnly: nothing is said about when Wait returns while another Start is under way, because the wait group is published before the goroutine joins it.
