# Keleustes operator: what its reconcilers promise, proved

A Dafny model of the k1s operator's capability controllers (`K1sResourceSet`, `K1sApp`, `K1sInferenceEndpoint`),
of the k1s client's leader retry under them, and of the codecs they rely on, with proofs about single passes and
about whole runs in which any call or write can fail.

Check everything with `dafny verify dfyconfig.toml`.

## How the model is built

A reconcile pass changes two things: the persisted Kubernetes object (`Kube.Object`: spec, deletion mark, finalizers,
hash annotation, status) and the part of the k1s store that this object's requests reach (`K1s.Store.remote`, from
resource to the bytes last applied). What the outside world does is a parameter:

- `LeaderRetry.Script` answers every HTTP request of one client call, says which pauses are cancelled, and whether a
  call that returns an error took effect on k1s all the same. `K1s.CallOf` is what the call comes to.
- `Kube.Weather` says which reads fail and how each write to the API server ends; a lost write may have arrived.

The reconcilers are classes with the source's loops and early returns. Each method is proved equal to a specification
function (`ResourceSet.ReconcileSet`, `Workloads.ReconcileWorkload`), and the theorems are about those functions:
about one pass, or about a run, which is a sequence of states and of steps between them, where a step is a pass or a
user's edit (`SetRuns.IsRun`, `Workloads.IsRun`). App and endpoint share their run theorems through a `Kit`, the record
of what is particular to an object. All three reconcilers' finalizer safety comes from one protocol
(`FinalizerProtocol`).

| file | content |
|---|---|
| `Wrappers.dfy`, `Text.dfy`, `Json.dfy` | Option; the string and number functions used; JSON values and lenient accessors |
| `KindLists.dfy`, `Names.dfy`, `StatusRange.dfy` | kind lists and policy; DNS labels; status ranges |
| `Digests.dfy`, `Resources.dfy`, `Conditions.dfy` | hash framing; keys and delete targets; condition lists |
| `LeaderRetry.dfy`, `K1s.dfy`, `K1sStatus.dfy` | one client call on the wire; the client and the store; status payloads |
| `Kube.dfy`, `FinalizerProtocol.dfy` | the persisted object and its writes; the protocol all three reconcilers follow |
| `ResourceSet.dfy`, `SetSteps.dfy`, `SetRuns.dfy`, `SetConvergence.dfy`, `SetHashGate.dfy`, `SetLimits.dfy`, `SetReports.dfy` | the resource set: the pass, its parts, runs, effects on k1s, what a matching hash is worth, runs in which promises fail, what a pass accepts and reports |
| `Workloads.dfy`, `App.dfy`, `InferenceManifest.dfy`, `Endpoint.dfy` | what app and endpoint share; each of them |
| `WorkloadReports.dfy`, `AppReports.dfy`, `EndpointReports.dfy` | what their passes send, record and report |

Assumptions, all visible in the definitions:

- SHA-256 is ideal: a digest is the message it was computed from. `json.Unmarshal` of a manifest's header is an
  arbitrary function (`Decoder`); `json.Marshal` of a payload is an arbitrary function,
  one that tells different manifests apart where a lemma says so.
- k1s is taken at its word: after a 2xx an Apply or delete has happened, and after a 404 the resource is absent.
- A delete request removes everything its name addresses, so two Deployments with one delete name are both hit.
- Passes of one object do not overlap and see its latest state. A crash needs no case of its own: it leaves what the
  same pass leaves when the next call and the later writes fail without effect.
- Nobody else writes this object's resources on k1s, its status, its annotation or its capability finalizer, and the
  cluster reference and the operator's kind cap stay.

## Promises that fail, and exactly when

- docs/security-rbac.md promises that k1s-side resources are deleted before a custom resource disappears. A set keeps
  this exactly when its inventory addresses all it still has on k1s (`NothingLeftBehindExactly`); a first pass that
  fails half way and a deletion are enough to break it (`PartialApplyLeaks`), and so is turning prune off
  (`NoPruneForgets`). With well-formed names nothing else can do it (`LeaksHaveTwoCauses`); with slashes in kinds or
  namespaces two keys can have one text, and a resource of the one is then forgotten in favour of the other
  (`KeyStringsAlias`). With fixed manifests and prune on the promise holds from the first synced pass on
  (`SyncedThenDeletedLeavesNothing`).
- An app keeps that promise exactly when every Deployment it applied, and that is still there, has the delete name the
  app has at its deletion (`App.LeavesNothingExactly`). A rename breaks it (`RenameLeaks`), and so does an edit to a
  manifest of a refused kind, because the refusal redirects the delete (`RefusedKindLeaks`). An endpoint,
  whose name and namespace are fixed, keeps it exactly when `cellSet` is set or missing at its deletion as it was in each
  pass that applied what is still there (`Endpoint.LeavesNothingExactly`), so adding or removing `cellSet` breaks it
  (`EditLeaksExactly`).
- A matching hash does not always mean that k1s holds the manifests (`HashGateGoesBlind`, `LostStampHidesRevert`). For
  a set, every pass leaves a list's resources in place if and only if the object it finds spares them: prune cannot get
  to a delete that addresses one, and nothing else is to be applied under its name (`HeldExactly`, `SparesPlainly`,
  `MatchMeansHeld`). For an app or endpoint, a pass makes a truthful annotation lie if and only if an Apply of another
  manifest took effect and its hash did not get written, or a cleanup deleted the resource (`PassBlindsExactly`).
- The operator's cap may be wider than the kinds it can delete. A recorded resource of such a kind keeps the finalizer
  for good, unless the policy becomes Orphan (`CleanupCanFinishExactly`, `UnroutedEntryKeepsFinalizer`).
- Prune can delete a resource that is wanted, when its delete name is also that of a stale one (`PruneCanHitDesired`);
  it does so exactly for resources that a stale entry addresses (`SweepRemote`), and never under the naming condition
  `Resources.WellNamed`.
- A service's 404 after an unreachable advertised leader is not taken for NotFound (`ServiceNotFoundIsLost`);
  `NotFoundExactly` says which reply streams are.
- A Ready K1sApp whose manifest changes to a kind that is refused keeps `status.ready` under a False Ready condition
  (`RejectedKindKeepsReady`). Nothing else makes the two disagree (`StepAgrees`, `AgreesUntilRefused`).
- CredentialsValid=False is never taken back: once a pass without credentials has written it, every later state of a
  set, app or endpoint has it, however many passes succeed (`SetReports.MissingIsForEver`,
  `AppReports.MissingIsForEver`, `EndpointReports.MissingIsForEver`).
- PolicyAllowed does not report on policy alone: a failed prune or Apply sets it to False too
  (`CompletedPassConditions`).
- `members: []` is no default for missing members: it makes another manifest (`EmptyMembersDiffer`).
- A replica count that k1s sends as text beyond 64 bits reads as -1 or 0 (`HugeTextsRead`).
- A status range may carry signs, which the CRD pattern bars: `+5` parses (`SignsParse`).
- `dnsLabel` keeps dots (`LabelExactly`, `DotsSurvive`), and names past 59 characters can meet (`LongNamesCollide`).

## Model

| member | source | states |
|---|---|---|
| `ResourceSet.Reconciler.Reconcile` | internal/controller/capability_controller.go:314-432 | One pass over a set, for every way its reads, calls and writes can end, leaves the object and k1s as ReconcileSet says and reports failure when it says. |
| `SetReports.AddsFinalizerExactly` | internal/controller/capability_controller.go:347-352 | A pass over a live set without the finalizer appends it and does nothing else; the list changes exactly when the write was acknowledged or got through, and the pass fails exactly when it was not acknowledged. |
| `SetReports.NewSetSyncs` | internal/controller/capability_controller.go:347-431 | The run from a new set with an accepted list: a pass whose finalizer write is acknowledged, then one whose calls and writes go well, and the set is synced and Ready. |
| `SetReports.AcceptedExactly` | internal/controller/capability_controller.go:367-383 | A list is accepted exactly when each manifest parses, has a kind and a name, and its kind is one the operator's list (or, without one, the built-in list) has and the set's own list, if any, names; the plan then describes each manifest, in order. |
| `SetReports.FailsExactly` | internal/controller/capability_controller.go:402-431 | A pass over a live set returns an error exactly when the object was not read or a write it came to was not acknowledged; a failed delete or Apply shows in the status alone. |
| `SetReports.FailedCleanupIsRetried` | internal/controller/capability_controller.go:331-346 | A cleanup fails exactly when some entry has no route or its delete fails; it is then returned as an error, finalizer and inventory stay, and Applied turns False. |
| `SetReports.NoCredentialsReported` | internal/controller/capability_controller.go:323-330 | Without credentials nothing is sent and CredentialsValid turns False, and nothing else changes. |
| `SetReports.MissingIsForEver` | internal/controller/capability_controller.go:323-330 | In every run, CredentialsValid=False, once there, stays. |
| `SetReports.PassKeepsOthers` | internal/controller/capability_controller.go:353-431 | A pass with credentials leaves all conditions but Ready, Applied and PolicyAllowed as they were. |
| `SetReports.AppliedCount` | internal/controller/capability_controller.go:390-416 | status.applied is the number of Apply requests of the pass that succeeded or, on a hash match and if nothing failed, the number of manifests. |
| `ResourceSet.Reconciler.Sync` | internal/controller/capability_controller.go:367-432 | From the manifests on: plan, prune, apply, annotation and status, each only as far as the steps before it went well. |
| `ResourceSet.Reconciler.PlanManifests` | internal/controller/capability_controller.go:367-384 | The planning loop stops at the first manifest that does not parse or has a kind that is not allowed; if none does, the hash sees all of them. |
| `ResourceSet.Reconciler.ApplyManifests` | internal/controller/capability_controller.go:391-401 | Applies in order up to the first failure; on a hash match sends nothing and counts every manifest. |
| `ResourceSet.Reconciler.PruneManagedResources` | internal/controller/capability_controller.go:642-656 | Deletes, in order, the recorded entries whose key no manifest has, up to the first that fails. |
| `ResourceSet.Reconciler.DeleteManagedResources` | internal/controller/capability_controller.go:658-665 | Deletes all entries in order, up to the first that fails. |
| `ResourceSet.Reconciler.DeleteManagedResource` | internal/controller/capability_controller.go:667-683 | A 404 counts as deleted; a kind without a delete route fails without a call. |
| `SetConvergence.Convergence` | internal/controller/capability_controller.go:367-416 | Manifests fixed and prune on, whatever fails: all the set has on k1s is in inventory or manifests, and each pass without failure makes k1s, inventory and manifests name the same resources, each holding the last manifest for it. |
| `SetConvergence.FairPassSyncs` | internal/controller/capability_controller.go:353-431 | A pass whose writes go well, whose prune deletes have routes and are answered with success or 404, and whose applies succeed, over an accepted list, is such a pass and ends Ready. |
| `SetRuns.SyncsExactly` | internal/controller/capability_controller.go:353-431 | A pass is such a pass exactly when the set is live, its plan is accepted, every prune delete has a route and is answered with success or 404, every Apply it needs succeeds, and no write it needs is lost. |
| `SetConvergence.StampedListIsHeld` | internal/controller/capability_controller.go:384-406 | In every run, after a pass wrote the hash of a list, and until a pass for another list reaches prune or apply or a cleanup starts, annotation and list both stay (`HeldExactly` has the exact condition for the list). |
| `SetHashGate.HeldExactly` | internal/controller/capability_controller.go:386-401 | Where k1s holds a list, every next pass, whatever fails in it, leaves the list held if and only if the object spares it; where it does not, some pass harms the list behind an unchanged annotation. |
| `SetHashGate.SparesPlainly` | internal/controller/capability_controller.go:386-401 | With well-formed names and routed entries, sparing a list means: each resource of it that is recorded is still wanted or prune is off, and each manifest about to be applied under its name is its own. |
| `SetHashGate.SparedListIsHeld` | internal/controller/capability_controller.go:353-401 | In any run, a held list stays held as long as each object that a pass finds spares it. |
| `SetHashGate.AnnotationWasStamped` | internal/controller/capability_controller.go:402-406 | An annotation a run did not start with was stamped by an earlier pass, for the list that pass found, and by none since. |
| `SetHashGate.MatchMeansHeld` | internal/controller/capability_controller.go:384-406 | So a match comes from a pass that stamped this very list, and the list is on k1s if each object found since spared it. |
| `SetConvergence.SkippingEqualsReapplying` | internal/controller/capability_controller.go:385-401 | So a pass that skips Apply on a hash match leaves what re-applying the whole list would leave. |
| `SetSteps.ReapplyChangesNothing` | internal/controller/capability_controller.go:391-401 | Applying a list changes nothing exactly when each of its resources is on k1s with the last manifest for it. |
| `SetLimits.HashGateGoesBlind` | internal/controller/capability_controller.go:384-406 | A run in which list A succeeds, B prunes and fails and A comes back: the set is Ready while A's resource is missing. |
| `SetConvergence.PruneExactly` | internal/controller/capability_controller.go:642-656 | Prune deletes exactly the recorded resources that are not wanted, in order; when it fails, a prefix of them; when it does not, k1s has lost just these. |
| `SetSteps.StaleFilters` | internal/controller/capability_controller.go:642-656 | What prune deletes is a filter of the inventory: entry by entry, in order, as often as recorded. |
| `SetConvergence.PruneKeepsDesired` | internal/controller/capability_controller.go:642-656 | Under the naming conditions no prune, failed or not, removes or changes a wanted resource. |
| `SetLimits.PruneCanHitDesired` | internal/controller/capability_controller.go:689-694 | Without them it can: default/a--b and a/b share a delete name. |
| `SetSteps.SweepTrace` | internal/controller/capability_controller.go:658-683 | Deletes go out one per entry, in order; the sweep succeeds exactly when it got through all, and a failed one stopped at a failed call or at a kind without a route. |
| `SetSteps.SweepSucceedsExactly` | internal/controller/capability_controller.go:658-683 | A sweep succeeds exactly when every entry has a route and none of its calls fails. |
| `SetSteps.ApplySucceedsExactly` | internal/controller/capability_controller.go:391-401 | The applies succeed exactly when each call does, and then all are counted. |
| `SetSteps.SweepRemote` | internal/controller/capability_controller.go:658-683 | A sweep adds nothing and spares what no entry addresses; one that ends well leaves exactly that. |
| `SetSteps.DesiredMeaning` | internal/controller/capability_controller.go:371-383 | The plan lists every manifest's resource exactly when all parse and have allowed kinds. |
| `SetSteps.OverlayHolds` | internal/controller/capability_controller.go:391-401 | After applying a list over any store, each resource holds the last manifest for it, and only the list's keys were added. |
| `SetRuns.FinalizerSafety` | internal/controller/capability_controller.go:331-352 | Once an Apply was sent for a set, the finalizer is there until a deletion pass drops it, under Orphan or with every inventory entry's delete answered by success or 404. |
| `SetRuns.NoApplyOnceDeleting` | internal/controller/capability_controller.go:331-346 | From the mark for deletion on, and so after the drop, no pass sends an Apply. |
| `SetRuns.CleanupWasAnswered` | internal/controller/capability_controller.go:658-683 | A cleanup that counts as done had, for each inventory entry, some k1s replica answer that entry's request with success or 404. |
| `SetRuns.NothingSentUnlessAllowed` | internal/controller/capability_controller.go:353-401 | A pass that is no deletion sends nothing unless every manifest parses and has a kind that the operator permits and that the set's own list, if it has one, names. |
| `SetRuns.RecordedKindsInCap` | internal/controller/capability_controller.go:438-454 | Whatever is written into spec.allowedKinds over a run, only kinds that occur in the operator's list, or where that is empty the three built in, are recorded. |
| `SetRuns.AppliedKindsInCap` | internal/controller/capability_controller.go:391-401 | And only such kinds are applied. |
| `SetRuns.CleanupStopsOnlyOnFailedCalls` | internal/controller/capability_controller.go:667-678 | With a cap inside the built-in kinds, a cleanup that stops did so on a failed call, never on a kind it cannot delete. |
| `SetRuns.InventoryChangesOnSuccess` | internal/controller/capability_controller.go:407-416 | A pass changes the inventory only if no call in it failed, and then its status is Ready. |
| `SetRuns.InventoryChange` | internal/controller/capability_controller.go:402-416 | What it changes to is the plan for all manifests, with the annotation already matching; a pass that reports failure keeps the inventory, unless its own status write was lost. |
| `SetRuns.StatusHonesty` | internal/controller/capability_controller.go:353-431 | In every reachable state the Ready condition is True exactly when status.ready, and Ready means the applied count is the inventory's size. |
| `SetRuns.CompletedPassConditions` | internal/controller/capability_controller.go:411-431 | After a final status write, Ready, Applied and PolicyAllowed all say whether plan, deletes and applies all went well, told from the answers of the pass's calls, and give as reason whether the set's own kinds were refused. |
| `SetConvergence.CleanupProgress` | internal/controller/capability_controller.go:331-346 | A deletion pass never raises the number of entries still on k1s, lowers it with each delete that takes effect on a present one, has cleared what is before the failure, and drops the finalizer without Orphan only at zero. |
| `SetConvergence.CleanupNeverRegresses` | internal/controller/capability_controller.go:331-346 | Over any number of deletion passes the inventory stays and that number never rises. |
| `SetConvergence.CleanupCanFinishExactly` | internal/controller/capability_controller.go:667-678 | Some pass can finish a set's cleanup if and only if the policy is Orphan or every inventory entry has a delete route. |
| `SetConvergence.UnroutedEntryKeepsFinalizer` | internal/controller/capability_controller.go:331-346 | In any run, a recorded kind without a route keeps the finalizer of a deleted set while the policy stays Delete. |
| `SetConvergence.NothingLeftBehindExactly` | docs/security-rbac.md:116-118 | A cleanup that drops the finalizer leaves nothing on k1s exactly when the inventory addresses everything that was there. |
| `SetConvergence.SyncedThenDeletedLeavesNothing` | docs/security-rbac.md:116-118 | With fixed manifests and prune on, once a pass has synced, the cleanup that drops the finalizer leaves nothing, whatever failed in between. |
| `SetConvergence.LeaksHaveTwoCauses` | internal/controller/capability_controller.go:386-416 | In any run with well-formed names, whatever is edited and fails: a resource on k1s outside the inventory was in the manifests of an earlier pass that did not get through, or in the inventory of an earlier pass with prune off. |
| `SetLimits.PartialApplyLeaks` | internal/controller/capability_controller.go:407-410 | A run in which a half applied list and a deletion leave a resource on k1s for good. |
| `SetLimits.NoPruneForgets` | internal/controller/capability_controller.go:386-410 | A run in which, with prune off, a removed manifest's resource leaves the inventory and stays on k1s. |
| `FinalizerProtocol.HeldUntilReleased` | internal/controller/capability_controller.go:331-352 | The protocol behind all three reconcilers: after an Apply the finalizer is held until a finished cleanup releases it. |
| `Kube.RemoveString` | internal/controller/capability_controller.go:736-744 | The loop returns the list without the unwanted string. |
| `Kube.WithoutStringKeeps` | internal/controller/capability_controller.go:736-744 | Every copy goes, and all other finalizers stay, as often as before and in their order. |
| `Kube.Server.PatchStatus` | internal/controller/patch.go:15-30 | The status is replaced when the write is acknowledged or got through, and nothing else changes. |
| `Kube.Server.PatchFinalizers` | internal/controller/patch.go:49-53 | Likewise for the finalizers. |
| `Kube.Server.PatchLastAppliedHash` | internal/controller/patch.go:55-64 | Likewise for the hash annotation. |
| `App.Reconciler.Reconcile` | internal/controller/capability_controller.go:34-146 | One pass over an app does what ReconcileWorkload says of the app's kit. |
| `App.Reconciler.PassGate` | internal/controller/capability_controller.go:89-112 | The hash gate: read the status on a match, apply on a mismatch or on a 404. |
| `App.Reconciler.Sync` | internal/controller/capability_controller.go:89-146 | Gate, annotation, second status read and final status, in that order and only as far as they go well. |
| `App.Reconciler.ReadStatus` | internal/k1s/client.go:98-112 | The status read tries a second route after any failure when the reference has a slash; the last answer counts. |
| `AppReports.StatusIsOfTheApp` | internal/k1s/client.go:98-112 | For names without slashes the status read ends at the delete name of the app's manifest; outside the default namespace it first tries namespace and name with a slash. |
| `App.Reconciler.Conclude` | internal/controller/capability_controller.go:113-142 | The final status from the Apply result and the observation. |
| `App.CompletedPassIsHonest` | internal/controller/capability_controller.go:113-145 | A completed pass leaves Ready exactly when no Apply failed in it, the status was read, replicas are desired and as many are ready; Ready, AppReady, Applied and Accepted say the same. |
| `AppReports.CompletedPassRecords` | internal/controller/capability_controller.go:113-145 | After a completed pass that read a payload, each status field is that payload's own: app name (else the Apply result's, the manifest's delete name, the app's), phase, desired, ready and live replicas, image, revision, endpoint; without one, the observed fields stay. |
| `AppReports.CleanupFollowsPayload` | internal/controller/capability_controller.go:574-580 | After a pass that read a payload with an app name, whatever users edit, the next cleanup sends one delete, for that name, which addresses exactly the Deployments with that delete name. |
| `AppReports.RefusedExactly` | internal/controller/capability_controller.go:71-88 | A pass that gets to the spec refuses it exactly when the manifest is no Deployment. |
| `AppReports.RefusalRecords` | internal/controller/capability_controller.go:71-88 | A refusal sends nothing and changes just Accepted and, for a manifest that is there, Ready and the app name. |
| `AppReports.PolicyIsObeyed` | internal/controller/capability_controller.go:50-63 | A cleanup under Orphan sends nothing, one under Delete sends one delete for the app's delete name. |
| `AppReports.MissingIsForEver` | internal/controller/capability_controller.go:43-49 | In every run, an app's CredentialsValid=False, once there, stays. |
| `App.RejectedKindKeepsReady` | internal/controller/capability_controller.go:80-88 | Refusing a kind leaves status.ready as it was under a False condition; they agree exactly when it was false. |
| `App.StepAgrees` | internal/controller/capability_controller.go:76-145 | From a state in which status.ready and the Ready condition agree, a step ends in disagreement exactly when it is a pass that refuses the kind of a Ready app and whose status write gets through. |
| `App.AgreesUntilRefused` | internal/controller/capability_controller.go:76-145 | So over any run they agree until such a pass. |
| `App.DeletesExactly` | internal/controller/capability_controller.go:574-576 | Whatever the manifest is, an app's delete addresses exactly the Deployments whose delete name is the one in its status, or, while that is empty, its manifest's, or, where that is empty too, its own. |
| `App.LeavesNothingExactly` | docs/security-rbac.md:116-118 | For every run: the cleanup that drops the finalizer leaves nothing exactly when each Deployment an earlier pass applied, and that is still there, has the delete name the app has now. |
| `App.RenameLeaks` | internal/controller/capability_controller.go:113-115 | The run apply, rename, apply, delete: nothing fails, and the first Deployment stays exactly when the delete names differ. |
| `App.RefusedKindLeaks` | internal/controller/capability_controller.go:80-88 | The run apply, edit to a refused kind, refusal, delete: the delete goes to the refused manifest's name, and the Deployment stays exactly when that is not its own. |
| `App.DeletesItsOwnExactly` | internal/controller/capability_controller.go:574-576 | An app with an accepted manifest deletes that manifest's resource exactly when the name in its status is empty or that resource's. |
| `App.ReleaseLeavesNothing` | internal/controller/capability_controller.go:50-63 | In that case, and with one manifest name all along, nothing is left on k1s when the finalizer goes. |
| `Endpoint.Reconciler.Reconcile` | internal/controller/capability_controller.go:178-297 | One pass over an endpoint does what ReconcileWorkload says of the endpoint's kit. |
| `Endpoint.Reconciler.PassGate` | internal/controller/capability_controller.go:232-254 | The hash gate, with the endpoint's one status route. |
| `Endpoint.Reconciler.Sync` | internal/controller/capability_controller.go:232-297 | Gate, annotation, second status read and final status. |
| `Endpoint.Reconciler.Conclude` | internal/controller/capability_controller.go:255-293 | The final status from the Apply result and the observation. |
| `Endpoint.CompletedPassIsHonest` | internal/controller/capability_controller.go:264-293 | A completed pass reports Ready exactly when no Apply failed in it and the payload it read says ready: by its flag, by its phase or status, or as a set with a positive desired count and at least as many ready. The three conditions say the same, with their reasons. |
| `K1sStatus.ReadyExactly` | internal/k1s/status.go:77-97 | An inference payload reads as ready exactly when its fields say so in one of these three ways. |
| `EndpointReports.CompletedPassRecords` | internal/controller/capability_controller.go:255-293 | After a completed pass, phase, cell and cell set name, API endpoint and executor are the payload's own fields, then the Apply result's, then the endpoint's. |
| `EndpointReports.OneResource` | internal/controller/capability_controller.go:195-249 | Every request of a pass is about one resource: the manifest built from the design, the delete and the status route of its kind, namespace and name. |
| `EndpointReports.PayloadNamesKey` | internal/controller/capability_controller.go:521-534 | The manifest names that resource by kind, namespace and name. |
| `EndpointReports.RefusedExactly` | internal/controller/capability_controller.go:225-231 | A pass that gets to the spec refuses it exactly when the model id is missing, sends nothing, and changes the Accepted condition alone. |
| `EndpointReports.PolicyIsObeyed` | internal/controller/capability_controller.go:195-217 | A cleanup under Orphan sends nothing, one under Delete deletes that resource. |
| `EndpointReports.MissingIsForEver` | internal/controller/capability_controller.go:188-194 | In every run, an endpoint's CredentialsValid=False, once there, stays. |
| `Endpoint.EditReappliesExactly` | internal/controller/capability_controller.go:232-249 | With the resource present, an edited endpoint is applied again exactly when the edit changes more than defaults. |
| `Endpoint.HashChangesExactly` | internal/controller/capability_controller.go:232-233 | Two accepted designs have one hash exactly when they agree once defaults are written out. |
| `Endpoint.ReleaseLeavesNothing` | internal/controller/capability_controller.go:195-217 | While name, namespace and the presence of cellSet stay, nothing is left on k1s when the finalizer goes. |
| `Endpoint.CellSetEditLeaks` | internal/controller/capability_controller.go:199-203 | After cellSet is added to or removed from an applied endpoint, a finished cleanup leaves the resource that was applied. |
| `Endpoint.DeletesExactly` | internal/controller/capability_controller.go:198-203 | An endpoint's delete addresses what a design put on k1s exactly when name, namespace and presence of cellSet are the same. |
| `Endpoint.EditLeaksExactly` | internal/controller/capability_controller.go:195-249 | The run apply, edit, mark, clean up: nothing fails, and what was applied stays exactly when the edit changed one of these. |
| `Endpoint.LeavesNothingExactly` | docs/security-rbac.md:116-118 | For every run: the cleanup that drops the finalizer leaves nothing exactly when each resource an earlier pass applied, and that is still there, has the name, namespace and presence of cellSet that the design has now. |
| `InferenceManifest.SameManifestExactly` | internal/controller/capability_controller.go:481-541 | Two accepted designs build one manifest exactly when they agree on every field after defaults. |
| `InferenceManifest.ExplicitBuilds` | internal/controller/capability_controller.go:716-730 | Writing every default out never changes the manifest. |
| `InferenceManifest.EmptyMembersDiffer` | internal/controller/capability_controller.go:509 | An empty member list and a missing one build different manifests. |
| `InferenceManifest.PayloadHeader` | internal/controller/capability_controller.go:481-534 | A design is refused exactly when its model id is missing; else API version, kind, name, namespace and labels stand under their keys. |
| `InferenceManifest.PayloadSpec` | internal/controller/capability_controller.go:485-520 | Each field of the design stands under its own path, with its default where it is zero or empty: under spec, or for a cell set under spec.template beside replicas and nameFormat; optional executor texts only where they are not empty. |
| `InferenceManifest.MembersListed` | internal/controller/capability_controller.go:509 | One object for each member, in order, with just its nonzero fields. |
| `Workloads.FinalizerSafety` | internal/controller/capability_controller.go:50-71 | Once an Apply was sent for an app or endpoint, the finalizer is there until a deletion pass drops it, under Orphan or with its delete answered by success or 404. |
| `WorkloadReports.AddsFinalizerExactly` | internal/controller/capability_controller.go:66-71 | A pass over a live app or endpoint without the finalizer appends it and does nothing else, and fails exactly when that write was not acknowledged. |
| `WorkloadReports.NewObjectIsApplied` | internal/controller/capability_controller.go:66-112 | The run from a new object with an accepted manifest: a pass whose finalizer write is acknowledged, then one in which nothing fails, and the manifest is on k1s with its hash in the annotation. |
| `WorkloadReports.CleanupReports` | internal/controller/capability_controller.go:50-63 | A cleanup whose delete fails is returned as an error and keeps the finalizer; under Orphan nothing is sent and nothing leaves k1s. |
| `WorkloadReports.FailsExactly` | internal/controller/capability_controller.go:89-145 | A pass over a live object returns an error exactly when the object was not read or a write it came to was not acknowledged; a failed Apply or status read shows in the status alone. |
| `WorkloadReports.PassConcludes` | internal/controller/capability_controller.go:89-137 | Every request is about the object's own manifest, target or status routes, and the verdict follows from the answers: Apply, its result, and the status the last read brought; nothing follows a failed Apply or a good read. |
| `WorkloadReports.ReadTrace` | internal/k1s/client.go:98-112 | A status read asks the first route and, exactly when that fails and there is one, the second; the last answer counts. |
| `Workloads.NoApplyOnceDeleting` | internal/controller/capability_controller.go:195-217 | From the mark for deletion on no pass sends an Apply. |
| `Workloads.CleanupWasAnswered` | internal/controller/capability_controller.go:50-62 | Some k1s replica answered the delete of a finished cleanup with success or 404. |
| `Workloads.ReapplyBound` | internal/controller/capability_controller.go:89-112 | Along a run with one manifest: at most one Apply, plus one per pass whose Apply or annotation write failed, plus one per status read answered 404. |
| `Workloads.PassSends` | internal/controller/capability_controller.go:232-254 | A pass sends at most one Apply, and none on a matching hash with the resource present. |
| `Workloads.MatchIsHeld` | internal/controller/capability_controller.go:89-112 | Once annotation and k1s agree on a manifest they go on agreeing on it until another manifest is sent or a cleanup starts. |
| `Workloads.PassBlindsExactly` | internal/controller/capability_controller.go:89-112 | A pass makes an annotation that is the hash of what k1s holds lie if and only if its Apply of another manifest took effect and the new hash did not get written, or its cleanup's delete took effect. |
| `Workloads.TruthfulUntilBlinded` | internal/controller/capability_controller.go:89-112 | So along a run with one key the annotation tells the truth until such a pass. |
| `Workloads.LostStampHidesRevert` | internal/controller/capability_controller.go:108-110 | A run in which a lost annotation write and a revert leave the wrong manifest running behind a matching hash. |
| `Workloads.NothingLeftBehindExactly` | docs/security-rbac.md:116-118 | The one delete of an app or endpoint leaves nothing exactly when it addresses all the object has on k1s. |
| `Workloads.RemoteWasApplied` | internal/controller/capability_controller.go:99-112 | For every run, what an app or endpoint has on k1s was put there by an earlier pass that sent an Apply under that key. |
| `Workloads.LeavesNothingExactly` | docs/security-rbac.md:116-118 | For every run, the cleanup leaves nothing exactly when its delete addresses each resource an earlier pass applied and that is still there. |
| `LeaderRetry.RequestBound` | internal/k1s/client.go:19-22 | A call sends at most fourteen requests: one to the service, at most one to the advertised leader, at most twelve to the service. |
| `LeaderRetry.RetriesExactly` | internal/k1s/client.go:211-225 | How often the service is asked again, exactly: until a reply that is not not_leader, a cancelled pause or the twelfth retry; the call succeeds exactly when the last of them did. |
| `LeaderRetry.PersistsToSuccess` | internal/k1s/client.go:211-225 | A success among the first twelve service retries, with only not_leader replies before it and no cancelled pause, is reached and ends the call. |
| `LeaderRetry.TwelveRetries` | internal/k1s/client.go:19-22 | After twelve not_leader replies, and no sooner, the call gives up. |
| `LeaderRetry.ClassifyExactly` | internal/k1s/client.go:252-330 | Which replies count as success and which as not_leader, and what address the latter give. |
| `LeaderRetry.SuccessReturnsLastReply` | internal/k1s/client.go:264-268 | A successful call returns the fields of its last reply. |
| `LeaderRetry.SuccessIsLast` | internal/k1s/client.go:190-231 | No request follows a success, and a call returns nil exactly when its last request succeeded. |
| `LeaderRetry.RetriesFollowNotLeader` | internal/k1s/client.go:213-225 | A second request needs a not_leader reply to the first, and each later service retry one to the retry before it. |
| `LeaderRetry.NotFoundExactly` | internal/k1s/client.go:227-231 | Exactly which reply streams make a call count as NotFound, through the error it wraps. |
| `LeaderRetry.DoneWasAnswered` | internal/k1s/client.go:281-284 | A call is never taken for done or NotFound unless a replica answered one of its requests so. |
| `LeaderRetry.ServiceNotFoundIsLost` | internal/k1s/client.go:227-229 | The service's own 404 is lost when an advertised leader was asked in vain. |
| `K1s.Client.DoJSONWithLeaderRetry` | internal/k1s/client.go:190-231 | The retry loop returns what Retry says, and all its requests carry one method, route and body. |
| `K1s.Client.DoJSONRequest` | internal/k1s/client.go:233-268 | One request and the classification of its reply. |
| `K1s.Client.Apply` | internal/k1s/client.go:123-131 | An Apply that succeeds, or fails and takes effect, sets the resource to the manifest. |
| `K1s.Client.Delete` | internal/k1s/client.go:133-176 | A delete that succeeds, is answered 404 or takes effect removes what its target addresses. |
| `Digests.HashManifestSet` | internal/controller/patch.go:78-85 | The digest loop hashes each manifest after a zero byte. |
| `Digests.FrameParts` | internal/controller/patch.go:78-85 | What is hashed is, list by list and in order, one zero byte and the manifest. |
| `Digests.SameHashSameManifests` | internal/controller/patch.go:78-85 | For NUL-free manifests, equal hashes mean equal lists: manifests, order and boundaries. |
| `Digests.NulBreaksFraming` | internal/controller/patch.go:78-85 | With a NUL inside a manifest two different lists have one hash. |
| `Resources.KeyStringInjective` | internal/controller/capability_controller.go:685-687 | Without slashes in kind and namespace, key texts are equal exactly for equal keys. |
| `Resources.KeyStringsAlias` | internal/controller/capability_controller.go:685-687 | With a slash in a namespace two different keys have one text. |
| `Resources.TargetInjective` | internal/controller/capability_controller.go:689-694 | Well-named keys share a delete request only if they are equal. |
| `Resources.DeleteNamesAlias` | internal/controller/capability_controller.go:689-694 | Two pairs of Deployments that share a delete name. |
| `Conditions.SetConditionReads` | internal/controller/conditions.go:8-17 | Setting a condition is seen by its own type only, and no type comes to stand twice. |
| `Conditions.SetConditionKeepsPlaces` | internal/controller/conditions.go:8-17 | A condition keeps its place in the list, and a new one goes to the end. |
| `KindLists.AllowedKindsFor` | internal/controller/capability_controller.go:438-454 | Returns the allowed kinds, or refuses a list that asks for a kind outside the cap. |
| `KindLists.NarrowsOnly` | internal/controller/capability_controller.go:438-454 | A set's list can only narrow the cap: it is taken whole or refused, refused exactly when it leaves the cap. |
| `KindLists.AllowedExactly` | internal/controller/capability_controller.go:438-454 | In terms of what is written in the two lists: the set's list is refused exactly when it names a kind the operator does not permit; else the allowed kinds are those permitted and, if the set lists any, named by it. |
| `KindLists.OperatorListRules` | internal/controller/capability_controller.go:438-454 | An operator who lists kinds and a set that does not: exactly the trimmed entries of his list are allowed. |
| `KindLists.NormalizeKindList` | internal/controller/capability_controller.go:456-471 | The loop computes the normal form. |
| `KindLists.CollectKinds` | internal/controller/capability_controller.go:473-479 | The loop collects the kinds of the list. |
| `KindLists.NormalizeMembers` | internal/controller/capability_controller.go:456-471 | The normal form holds exactly the trimmed nonempty entries, each once. |
| `KindLists.NormalizeOrder` | internal/controller/capability_controller.go:456-471 | In order of first occurrence. |
| `KindLists.NormalizeIdempotent` | internal/controller/capability_controller.go:456-471 | Normalising again changes nothing. |
| `KindLists.CsvValues` | cmd/manager/main.go:109-124 | The flag parser normalises the parts between commas. |
| `KindLists.CommaListRoundTrip` | cmd/manager/main.go:41 | Parsing the comma-join of a list of comma-free strings gives its normal form. |
| `K1sStatus.ParseAppStatus` | internal/k1s/status.go:47-75 | Parsing reads each field from its own key, ready from the two replica counts, and placements from the pods. |
| `K1sStatus.PlacementsKeepOrder` | internal/k1s/status.go:62-73 | There is one placement for each pod that is an object, read from that pod, in the order of the pods. |
| `Json.NumbersReadAlike` | internal/k1s/status.go:134-165 | A 32-bit number reads the same as a JSON number and as text. |
| `Json.HugeTextsRead` | internal/k1s/status.go:149-165 | A text beyond 64 bits reads as -1 or 0. |
| `Text.Int32Exactly` | internal/k1s/status.go:149-165 | The conversion to int32 keeps the low 32 bits. |
| `Names.LabelExactly` | internal/controller/names.go:50-61 | A name becomes a DNS label exactly when no dot is among the first 63 characters of its trimmed form. |
| `Names.DnsLabelIdempotent` | internal/controller/names.go:50-61 | For dot-free names, a second pass changes nothing. |
| `Names.MappedInPlace` | internal/controller/names.go:50-61 | Letters become lower case and underscores dashes, place by place. |
| `Names.PaddingGoes` | internal/controller/names.go:50-61 | Dashes, dots and underscores around a label go. |
| `Names.NothingLeft` | internal/controller/names.go:50-61 | A name of dashes and underscores becomes k1s. |
| `Names.ServiceNamesInjective` | internal/controller/names.go:18-23 | Exposures whose names are different labels of at most 59 characters get different default service names. |
| `Names.EndpointSliceNamesInjective` | internal/controller/names.go:25-27 | And, up to 53 characters, different endpoint slice names. |
| `Names.ExplicitNameKept` | internal/controller/names.go:18-27 | A service that is given a name keeps it, and its slice is named after it. |
| `Names.LongNamesCollide` | internal/controller/names.go:56-58 | At 60 characters names can meet. |
| `StatusRange.RangeRoundTrip` | internal/controller/traffic_probe.go:66-86 | Parsing the decimal form of a range gives it back, and an inverted one is refused. |
| `StatusRange.DefaultRange` | internal/controller/traffic_probe.go:67-69 | No text means 200 to 399. |
| `StatusRange.ParsesExactly` | internal/controller/traffic_probe.go:66-86 | A text gives a range exactly when it is a number, or two in order around its first dash. |
| `StatusRange.ParsedRangeInOrder` | internal/controller/traffic_probe.go:82-84 | A parse that succeeds gives lower ≤ upper. |
| `StatusRange.PatternParses` | api/v1alpha1/exposure_types.go:53 | Every text the CRD pattern admits parses within 100 to 599, unless it is inverted. |

## Left out

- K1s.Client.DoJSONRequest: building the HTTP request and sending it are not modelled; the reply is given by the script, and what is proved is how it is classified and recorded.
- K1s.Client.Apply: does not model the local json.Unmarshal error, because no caller reaches it: each has already found a kind in the manifest, so the manifest is a JSON object.
- SameHashSameManifests: asks for NUL-free manifests, which JSON texts are; `NulBreaksFraming` shows what happens to others.
- HTTP, TLS, URLs, JSON texts and the bodies of successful replies beyond their fields: a reply is a status and a decoded body.
- Time stamps, generations, messages and `status.lastError`; resync intervals and the requeue result of a pass.
- Stale cache reads, conflict retries and edits that fall inside a pass: a pass works on the latest object.
- Partial decoding of a manifest that is valid JSON with fields of the wrong type: the decoder's answer stands for it.
- Numbers in status payloads beyond 64 bits: `int32(float64)` is modelled as truncation and wrap-around, which Go leaves to the platform there.
- Non-ASCII letters in `strings.ToLower` and `strings.EqualFold`.
- `K1sExposure` and `K1sCluster` reconcilers, builders, proxy discovery and the live traffic probe: one-pass plumbing.
- Node summaries, credentials, flags other than the comma list, RBAC and deployment manifests.
- A k1s that loses a resource on its own: what the operator does then shows only in the status read it answers with 404.
