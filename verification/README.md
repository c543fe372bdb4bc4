# azure-private-endpoint-operator in Dafny

The operator connects private Kubernetes clusters on Azure. For each workload cluster (WC) it keeps private
endpoints in the management cluster (MC), one per private link of the WC, waits until Azure gives each an IP,
and notes the IP in an annotation of the WC. It adds an endpoint to the WC for the MC's gateway, then sets the
condition `GSPrivateLinksReady`. A second controller keeps a control plane paused until the WC passes a list of
gate conditions. A third one creates a Crossplane ProviderConfig per cluster behind a finalizer.

The project models these controllers and proves what they promise over whole runs.

- **Values**: `Types`, `Sequences` (filters), `EndpointLists` (the endpoint list: add by name, remove the
  rightmost of a name), `ResourceIds`, `PrivateLinks`, `Conditions`, `AzureApi` (Azure's answers).
- **Specification functions**: `ServiceSpec` (one run of the endpoints service), `ControllerSpec` (one run of the
  AzureCluster controller on the stored clusters, with the outcome of each of its two patches as an input).
- **The code in its own form**: `EndpointSlices` (a Go slice: backing array and length, shifted in place),
  `ClusterObjects` (the object a run edits), `Scopes`, `Service`, `AzureClusterController`, `Util`, and the classes
  in `KubeadmControlPlane`, `ProviderConfig` and `GateFlag`. Every method is proved equal to its specification
  function; deferred closes are the calling method's last steps, so the MC patch comes before the WC patch.
  The prune loop walks a slice with an array of its own, and its loop invariant says that the removals never
  reach it.
- **Promises**: `ServicePromises` and `RunPromises` state, operation by operation, what happens to the records
  themselves: which endpoint is made for which link, field by field, what goes, what is stored and what is reported.
- **Results**: `Pruning`, `Reconciliation`, `Fixpoint`, `RoundTrip`, `Convergence`, `Isolation` (the endpoint
  list), `ManyClusters`, `Fleets` (many WCs on one list), `ReconcileFacts`, `FinalizerGuard`, `GuardWitnesses`,
  `JointRuns`, `Liveness` (both controllers as one state machine), `ProviderConfig` (all
  reconciliations interleaved, call by call), `GateFlag`.

Assumptions that the theorems share: a patch is one atomic write that is stored or refused; nobody else writes
an object between a run's read and its patch; a condition lookup finds the first condition of its type, as the
Cluster API conditions library documents it; Azure gives the same answer for the same name within one run. The
theorems about finalizers over runs also assume an MC list without duplicate names, and that nobody changes the
private links, load balancer type or identity of a WC that holds one, or the identity of the MC;
`FinalizerGuard.DeleteRunKeepsGuard` says what one run does to a list with duplicates, and
`FinalizerGuard.ReleaseLeavesNothing` what a deletion leaves behind after links were removed or the API server made
public. The ProviderConfig theorems over runs assume current reads; `ProviderConfig.StaleReadExactly` covers old ones.

Where a natural claim is false of the code, the exact condition is proved:

- Pruning removes by name, so it drops the unused endpoints if and only if no used namesake stands to the right
  of one (`Pruning.PruneIsFilter`).
- Adding compares names only, so a successful run can leave an allowed link without an endpoint and note a
  stranger's IP; it does not if and only if every endpoint that bore the name of an allowed link connected to that
  link (`Reconciliation.EveryLinkServed`, `Reconciliation.NamesakeIsTrusted`; for any list `Reconciliation.LinkServed`).
  The same holds for the gateway endpoint (`Liveness.SuccessConnectsBoth`, `Liveness.GatewayNamesakeIsTrusted`).
- Pruning removes by name, so with duplicate names it can take another cluster's endpoint; it does not if and only if
  each of these has enough namesakes to its right (`Isolation.ReconcileKeepsForeign`,
  `Isolation.ForeignNamesakeIsLost`).
- The cluster prefix has no closing slash, so resource group `a` also takes the endpoints of `a-b` for its own
  (`Isolation.PrunesNeighbour`, `Isolation.NeighbourIsLost`). Clusters with unrelated groups and distinct link names
  never get in each other's way (`ManyClusters.EndpointsPersist`, `Fleets.WaitingAmongOthers`).
- The gateway endpoint's resource ID takes the MC's name for its resource group, so a new one leads to the MC if and
  only if the two are equal (`ReconcileFacts.GatewayLeadsHome`, `Liveness.IngressConnected`,
  `Liveness.GatewayGoesAstray`).
- Each run prunes by name, so a list with duplicates can take more than two runs to settle; it takes at most one more
  than a name with an unused endpoint has bearers (`Fixpoint.Settles`, `Fixpoint.DuplicatesTakeLonger`).
- Deletion ignores connections, so it takes a namesake of another cluster (`Isolation.DeleteKeepsForeign`,
  `Isolation.NeighbourIsDeleted`) and leaves what led to a link that the cluster no longer has
  (`FinalizerGuard.ReleaseLeavesNothing`, `GuardWitnesses.ForgottenLinkLeavesEndpoint`).
- `SetCondition` appends, so a first condition that is present but not true hides every later one and the gate
  never opens, given a patch that stores the list exactly as appended (`Liveness.MarkingOverCalls`,
  `Liveness.SuccessOpensGate`).
- The WC patch runs even if the MC patch failed, and deletion removes one bearer of a name per link, so the finalizer
  guards the endpoints except after exactly three things: the first finalizer refused with endpoints stored, the
  release stored with the removals refused, or the release stored with more bearers of a name than links of it
  (`FinalizerGuard.LiveRunKeepsGuard`, `FinalizerGuard.DeleteRunKeepsGuard`, `GuardWitnesses`).
- ProviderConfigs are not namespaced, so holding the finalizer does not keep one: the operator leaves it alone if and
  only if no Cluster of its name, in whatever namespace, is being deleted (`ProviderConfig.ConfigSurvivesExactly`).
- The comment on `FindUnmetStatusConditions` names another function, and the repository's README calls the gateway
  endpoint `<wc>-to-<mc>-privatelink-privateendpoint`; the model follows the code
  (`<wc>-to-<mc>-gateway-privateendpoint`).

## Model

| member | source | states |
|---|---|---|
| EndpointLists.RemoveRightmost | pkg/privateendpoints/scope.go:182-191 | removal by name deletes the rightmost entry of the name and nothing else |
| EndpointLists.RemoveAllRightmost | pkg/privateendpoints/scope.go:182-191 | a run of removals keeps, in order, exactly the entries with enough namesakes to their right; the order of the removals does not matter |
| EndpointLists.AddAllAppends | pkg/privateendpoints/scope.go:176-180 | a run of additions appends the first spec of each new name after the untouched list |
| EndpointLists.NothingToAdd | pkg/privateendpoints/scope.go:168-180 | additions leave the list alone exactly when it carries all their names already |
| EndpointSlices.EndpointSlice.Append | pkg/privateendpoints/scope.go:176-180 | append in place or into a larger array adds one element at the end |
| EndpointSlices.EndpointSlice.RemoveAt | pkg/privateendpoints/scope.go:182-191 | shifting the tail down in the same array removes one position |
| Scopes.EndpointsScope.GetPrivateEndpointIPAddress | pkg/privateendpoints/scope.go:92-144 | the nested scan with skips and breaks returns the first present address of the flattened response, or the error that fits |
| AzureApi.FirstAddressIsFirst | pkg/privateendpoints/scope.go:115-135 | the address found is the first one present, interface by interface and configuration by configuration, and none is found exactly when there is none |
| AzureApi.EarliestAddress | pkg/privateendpoints/scope.go:92-144 | the IP of an endpoint that Azure knows is the earliest address present, made canonical; without one, the error tells no interface from no address |
| AzureApi.NoAnswer | pkg/privateendpoints/scope.go:92-105 | an unknown endpoint and a failed call have their own errors |
| Scopes.EndpointsScope.GetPrivateEndpointsToWorkloadCluster | pkg/privateendpoints/scope.go:146-166 | returns, in an array of its own, the endpoints with a connection whose ID has the cluster's prefix, in list order |
| Scopes.EndpointsScope.ContainsPrivateEndpointSpec | pkg/privateendpoints/scope.go:168-170 | true exactly when the list carries the spec's name |
| Scopes.EndpointsScope.AddPrivateEndpointSpec | pkg/privateendpoints/scope.go:176-180 | appends the spec unless its name is there |
| Scopes.EndpointsScope.RemovePrivateEndpointByName | pkg/privateendpoints/scope.go:182-191 | the backwards scan removes the rightmost entry of the name, in place |
| ClusterObjects.ChooseSubnet | pkg/privateendpoints/scope.go:49-70 | the endpoints live in the first node subnet, else in the first subnet; without subnets it is an error |
| ClusterObjects.EndpointSubnet | pkg/privateendpoints/scope.go:49-70 | the chosen subnet is the first with the node role if there is one, otherwise the first |
| ClusterObjects.ReadBack | pkg/privateendpoints/scope.go:77-81 | writing the list through the scope is what the next scope reads, and changes no other subnet, role or field |
| ClusterObjects.ClusterObject.IsConditionTrue | pkg/azurecluster/scope.go:61-63 | true exactly when the first condition of the type is true |
| ClusterObjects.ClusterObject.SetAnnotation | pkg/azurecluster/scope.go:65-72 | sets one annotation and keeps the others |
| ClusterObjects.ClusterObject.SetCondition | pkg/azurecluster/scope.go:78-85 | appends and never replaces |
| Scopes.LinksScope.LookupPrivateLink | pkg/privatelinks/scope.go:48-62 | finds the first link whose resource ID is the given one |
| PrivateLinks.LookupRoundTrip | pkg/privatelinks/scope.go:48-62 | looking up the ID built from a name succeeds exactly when a link has the name, and returns the first such link |
| PrivateLinks.LookupFinds | pkg/privatelinks/scope.go:48-62 | the lookup succeeds on exactly the IDs of existing links |
| Scopes.LinksScope.GetPrivateLinksWithAllowedSubscription | pkg/privatelinks/scope.go:64-72 | the links that allow the subscription, in order |
| ResourceIds.PrefixTestMeaning | pkg/privateendpoints/scope.go:147-159 | for slash-free parts the prefix test holds exactly when the subscriptions are equal and one group name starts with the other |
| ResourceIds.LinkIDInjective | pkg/privateendpoints/service.go:106-110 | for slash-free subscription and group the ID determines subscription, group and link name |
| ResourceIds.LinkIDInjectiveInName | pkg/privateendpoints/service.go:106-110 | within one cluster the ID determines the link name, for any characters |
| ReconcileFacts.GatewayLeadsHome | controllers/azurecluster_controller.go:214-231 | the gateway endpoint connects to the MC's own gateway link exactly when the MC's resource group bears the MC's name |
| ResourceIds.PrefixTestConfusesGroups | pkg/privateendpoints/scope.go:147-159 | group `a` matches the IDs of group `a-b` |
| ResourceIds.PrefixTestConfusesSubscriptions | pkg/privateendpoints/scope.go:147-159 | a subscription with slashes can imitate another cluster, so slash-freedom is needed |
| Util.ContainsPtr | pkg/util/util.go:8-15 | true exactly when some non-nil pointer holds the string |
| Util.ConvertToStringSlice | pkg/util/util.go:17-25 | copies position by position, nil becoming the empty string |
| Util.FindUnmetStatusConditions | pkg/util/util.go:31-57 | nil for nil, otherwise the gates, in order and with repetitions, whose first condition is missing or not true |
| Conditions.UnmetCorners | pkg/util/util.go:32-38 | both early returns agree with the loop |
| Conditions.UnmetDistributes | pkg/util/util.go:40-56 | the unmet gates of a concatenation are the concatenation of the unmet gates |
| Conditions.TrueExactly | pkg/azurecluster/scope.go:61-63 | a type counts as true exactly if some condition of it is true and none of that type stands before |
| Conditions.UnmetMember | pkg/util/util.go:31-57 | a gate is unmet exactly if it is asked for and not true in that sense |
| Reconciliation.AutoApproved | pkg/privateendpoints/service.go:91-91 | approval is not manual exactly when the MC subscription is auto-approved, a nil entry counting as the empty subscription |
| Service.EndpointsService.ReconcileMcToWcApi | pkg/privateendpoints/service.go:64-158 | list, annotations and error after the method are those of the specification function, whose meaning the lemmas below give |
| ServicePromises.AddedIsMade | pkg/privateendpoints/service.go:89-116 | whatever a run of any outcome adds is made for a link that lists the MC subscription: its name, the MC location, one connection of the right name to that link's ID, manual approval with a request message exactly without auto-approval |
| ServicePromises.FreeNamesAreTaken | pkg/privateendpoints/service.go:89-116 | after success every allowed link whose name was free has such an endpoint |
| ServicePromises.RemovedIsStale | pkg/privateendpoints/service.go:138-155 | without duplicates a successful run removes exactly the endpoints with a connection whose ID starts like the WC's and none to an existing link |
| ServicePromises.FailureKeepsAndPersists | pkg/privateendpoints/service.go:89-131 | a failing run removes nothing and leaves in the list the name of each allowed link up to the first without an IP |
| ServicePromises.OutcomeExactly | pkg/privateendpoints/service.go:70-131 | no allowed link, links not ready, or a missing IP: which failure, and success exactly without any of them |
| ServicePromises.NotesLastIP | pkg/privateendpoints/service.go:119-131 | success sets the API server annotation to the IP for the last link that lists the MC subscription and no other annotation |
| Service.EndpointsService.RemoveUnused | pkg/privateendpoints/service.go:138-155 | the prune loop over its snapshot equals removing, one by one, the names of the unused endpoints of the cluster |
| Service.EndpointsService.ReconcileWcToMcIngress | pkg/privateendpoints/service.go:160-186 | list, annotations, conditions and error after the method are those of the specification function |
| ServicePromises.IngressExactly | controllers/azurecluster_controller.go:180-233 | behind a private MC the WC list keeps all it had and gets the gateway endpoint, field by field, if its name was free; the IP, the annotation and the condition come with success only |
| ServicePromises.NoIngress | controllers/azurecluster_controller.go:180-185 | behind a public one nothing happens |
| Service.EndpointsService.DeleteMcToWcApi | pkg/privateendpoints/service.go:188-200 | the list after the method is that of the specification function |
| ServicePromises.DeletedExactly | pkg/privateendpoints/service.go:188-200 | without duplicates a deletion takes exactly the endpoints named after a link that lists the MC subscription and keeps the others in order |
| ServiceSpec.EnsureAdds | pkg/privateendpoints/service.go:89-131 | the add loop adds exactly the specs up to and including the first one without an IP, also when it fails |
| ServiceSpec.EnsureFails | pkg/privateendpoints/service.go:124-127 | it fails exactly when some wanted endpoint has no IP, with the error of the first |
| ServiceSpec.EnsureNotes | pkg/privateendpoints/service.go:129-130 | the annotation holds the IP of the last spec before the first failure |
| Pruning.PruneRemovesRightmost | pkg/privateendpoints/service.go:138-155 | of each name, pruning removes the rightmost k entries, k being the number of unused endpoints of that name, and keeps the order of the rest |
| Pruning.PruneLength | pkg/privateendpoints/service.go:138-155 | the list gets shorter by exactly the number of unused endpoints |
| Pruning.PruneIsFilter | pkg/privateendpoints/service.go:138-155 | pruning is the plain filter if and only if no used namesake stands to the right of an unused endpoint |
| Pruning.PruneUnique | pkg/privateendpoints/service.go:138-155 | without duplicates pruning drops exactly the unused endpoints |
| Pruning.PruneMember | pkg/privateendpoints/service.go:138-155 | an entry is left by pruning exactly when it has at least as many namesakes to its right as its name has unused bearers, duplicates or not |
| Pruning.PruneKeeps | pkg/privateendpoints/service.go:138-155 | pruning keeps a whole class of entries, in order, exactly when it reaches none of them |
| Pruning.PruneTakesTheNamesake | pkg/privateendpoints/service.go:151-153 | with a used namesake to the right, the used endpoint goes and the unused one stays |
| Reconciliation.InvariantOverRuns | pkg/privateendpoints/service.go:89-155 | unique names, and endpoints named after a link connecting to it, survive every sequence of adds, removes, reconciles and deletes |
| Reconciliation.SuccessCondition | pkg/privateendpoints/service.go:70-131 | a run succeeds exactly when some link allows the MC, the links are ready and every wanted endpoint has an IP, whatever is in the list |
| Reconciliation.FailureKind | pkg/privateendpoints/service.go:70-84 | without allowed or ready links nothing is touched; a failure is retriable exactly if links are not ready or the first missing IP may still come |
| Reconciliation.SuccessfulPrune | pkg/privateendpoints/service.go:89-155 | success on any list prunes what was there and appends what is new; the added endpoints neither get pruned nor change what is |
| Reconciliation.SuccessfulList | pkg/privateendpoints/service.go:89-155 | from a list without duplicates, success leaves the kept entries in order followed by the new wanted ones, still without duplicates |
| Reconciliation.SuccessfulRun | pkg/privateendpoints/service.go:89-155 | under the invariant: one endpoint of its name per allowed link, which connects to it, every endpoint to the WC leads to an existing link, nothing added is pruned and nothing wanted or foreign is gone |
| Reconciliation.SuccessfulAnnotations | pkg/privateendpoints/service.go:119-131 | after success the annotation holds the IP of the last allowed link and all other annotations stay |
| Reconciliation.LinkServed | pkg/privateendpoints/service.go:89-155 | on any list, after success an allowed link has an endpoint of its name that connects to it exactly when the name was free or borne by such an endpoint out of the reach of pruning |
| Reconciliation.EveryLinkServed | pkg/privateendpoints/service.go:89-155 | without duplicates, after success every allowed link has an endpoint of its name that connects to it if and only if every endpoint that bore such a name did |
| Reconciliation.AnnotationLeadsToLink | pkg/privateendpoints/service.go:119-131 | after success the annotation holds the IP of an endpoint to the last allowed link exactly when that link has one |
| Reconciliation.EveryNameServed | pkg/privateendpoints/service.go:89-155 | on any list, after success every wanted name is there if and only if each that was there before had more bearers than prunable ones |
| Reconciliation.NamesOutlastUnique | pkg/privateendpoints/service.go:89-155 | which without duplicates means that no endpoint with a wanted name was prunable |
| Reconciliation.NamesakeIsTrusted | pkg/privateendpoints/scope.go:168-180 | an endpoint of the wanted name that leads elsewhere stays, the link gets none, and the annotation becomes the IP of the namesake |
| Reconciliation.StaleEndpointIsLost | pkg/privateendpoints/service.go:100-155 | an endpoint with a wanted name and a dead connection makes a successful run end without an endpoint for the link |
| Reconciliation.DeleteIsFilter | pkg/privateendpoints/service.go:188-200 | without duplicates deletion drops exactly the endpoints with wanted names |
| Fixpoint.Settles | pkg/privateendpoints/service.go:89-155 | on any list, if no name with a prunable bearer has more than d bearers, the state stops changing after d + 1 successful runs |
| Fixpoint.SettlesBySize | pkg/privateendpoints/service.go:89-155 | so no list needs more runs than it has entries, and one |
| Fixpoint.DuplicatesTakeLonger | pkg/privateendpoints/service.go:138-155 | the bound is met: an unused endpoint with m used namesakes to its right needs m + 2 runs, each taking a namesake, then the endpoint, then adding what is wanted |
| Fixpoint.OneRunIsEnough | pkg/privateendpoints/service.go:89-155 | on any list, one run is enough if and only if pruning reaches every prunable endpoint and leaves each wanted name a bearer |
| Fixpoint.TwoRunsAreEnough | pkg/privateendpoints/service.go:89-155 | without duplicates two runs are enough, and one if and only if no endpoint with a wanted name was prunable |
| Fixpoint.Stable | pkg/privateendpoints/service.go:89-155 | without duplicates, the same for any number of further runs |
| RoundTrip.CreateDelete | pkg/privateendpoints/service.go:89-200 | any number of live runs with any outcomes, then a delete, restore the list exactly, order included, also with repeated link names |
| RoundTrip.CreateDeleteExactly | pkg/privateendpoints/service.go:89-200 | when some run can succeed, this holds for all runs if and only if the list had no wanted name and nothing to prune |
| RoundTrip.DeleteNeedsNewNames | pkg/privateendpoints/service.go:188-200 | deleting leaves the list alone exactly when it has no wanted name |
| Convergence.FailureShrinks | pkg/privateendpoints/service.go:124-127 | a failing run that Azure served leaves strictly fewer wanted names missing |
| Convergence.FailuresAreBounded | pkg/privateendpoints/service.go:89-131 | at most as many runs fail as wanted endpoints were missing, while others may change the rest of the list |
| Convergence.BoundIsMet | pkg/privateendpoints/service.go:89-131 | with n missing and only persisted endpoints served, exactly n undisturbed runs fail and the next one succeeds |
| Isolation.ReconcileKeepsForeign | pkg/privateendpoints/service.go:89-155 | on any list, a run neither removes, moves nor edits an endpoint without a connection to its cluster if and only if it fails or each of these has enough namesakes to its right |
| Isolation.UniqueForeignOutlast | pkg/privateendpoints/service.go:138-155 | without duplicates they always do |
| Isolation.ForeignNamesakeIsLost | pkg/privateendpoints/service.go:151-153 | of an unused own endpoint and a foreign namesake to its right, a successful run removes the foreign one |
| Isolation.DeleteKeepsForeign | pkg/privateendpoints/service.go:188-200 | on any list, deletion keeps all such endpoints exactly when its removals by name reach none of them |
| Isolation.DeleteLeavesNothing | pkg/privateendpoints/service.go:188-200 | and it leaves nothing that leads to the cluster exactly when they reach all of that |
| Isolation.OutlastsDeleteUnique | pkg/privateendpoints/service.go:188-200 | without duplicates they reach exactly the endpoints with a wanted name |
| Isolation.NeighbourIsDeleted | pkg/privateendpoints/service.go:188-200 | with equal link names, deleting the cluster in group `wc` takes the endpoint made for group `x` |
| Isolation.ForeignClusters | pkg/privateendpoints/scope.go:146-166 | an endpoint made for another cluster counts as this one's exactly for equal subscriptions and a prefix group name |
| Isolation.PrunesNeighbour | pkg/privateendpoints/service.go:89-155 | exactly when a successful run takes an endpoint made for another cluster out of the list: equal subscriptions, a prefix group name, and another group or a link that is gone |
| Isolation.NeighbourIsLost | pkg/privateendpoints/scope.go:146-166 | a successful run for resource group `a` removes the endpoint made for `a-b` |
| Isolation.NeighbourTakenForOwn | pkg/privateendpoints/scope.go:168-180 | with equal link names a run for group `wc` adopts the endpoint made for group `x`: its IP is noted and the own link gets no endpoint |
| ManyClusters.SeparateOverTurns | pkg/privateendpoints/service.go:89-200 | over every interleaving of adds, runs of any outcome and deletes of clusters with unrelated groups and distinct link names, each keeps its list invariant and shares no endpoint |
| ManyClusters.EndpointsPersist | pkg/privateendpoints/service.go:89-200 | and no endpoint named after a link is lost before its own cluster is deleted |
| Fleets.RunIsTurn | controllers/azurecluster_controller.go:82-209 | any run, with any patches refused, leaves the MC list alone or does to it what the service does for that one cluster |
| Fleets.OthersFollow | controllers/azurecluster_controller.go:82-209 | a run or deletion of one cluster takes from no other anything it waits for or relies on |
| Fleets.WaitingAmongOthers | controllers/azurecluster_controller.go:173-194 | with n allowed links a cluster has at most n + 1 waiting runs, whatever runs and deletions of other clusters come in between and whatever becomes of their patches |
| AzureClusterController.ValidateLBType | controllers/azurecluster_controller.go:235-247 | an error exactly for types other than Internal and Public |
| AzureClusterController.Reconciler.Reconcile | controllers/azurecluster_controller.go:82-209 | stored clusters and result are those of the specification step, for all early exits and both patches stored or refused |
| RunPromises.NothingToDo | controllers/azurecluster_controller.go:88-103 | a request for nothing or for the MC ends well and changes nothing |
| RunPromises.FailedCheckReported | controllers/azurecluster_controller.go:105-165 | the first failed check, in order, is the reported error and nothing changes; without one the run gets to its body |
| RunPromises.LiveRunStores | controllers/azurecluster_controller.go:126-194 | field by field what a live run stores in both clusters for any patches: the API server part of a private WC, then the gateway part unless the first failed, the own finalizer at the end of the others |
| RunPromises.LiveRunReports | controllers/azurecluster_controller.go:126-194 | the failures that time may cure ask for another run, any other is the error, otherwise the first refused patch |
| RunPromises.DeleteRunStores | controllers/azurecluster_controller.go:126-207 | what a delete run stores and reports: the links' endpoints and the own finalizer go and nothing else, and the WC with its last finalizer |
| RunPromises.OthersFinalizersStay | controllers/azurecluster_controller.go:249-259 | whatever becomes of a run, nobody else's finalizer comes, goes or moves |
| RunPromises.DoneRunNotesAddresses | controllers/azurecluster_controller.go:173-194 | a live run between private clusters that ends well has stored the IPs that Azure gave for the last link's and the gateway's endpoint, under their annotations |
| AzureClusterController.Reconciler.ReconcileLinks | controllers/azurecluster_controller.go:132-154 | from client creation to the MC close: what is stored and reported, the WC object still unpatched |
| AzureClusterController.Reconciler.ReconcileLive | controllers/azurecluster_controller.go:173-185 | finalizer, MC endpoints, then the ingress endpoint only if the first part did not fail |
| AzureClusterController.Reconciler.ReconcileDelete | controllers/azurecluster_controller.go:195-206 | MC endpoints deleted only for an internal WC, finalizer released, nothing else of the WC touched |
| ReconcileFacts.RunFrame | controllers/azurecluster_controller.go:82-209 | whatever happens in a run, other clusters stay, the MC changes only in the endpoints of one subnet, the WC only there and in the annotations, conditions and finalizers, and the MC's own request does nothing |
| ReconcileFacts.RequeuesExactly | controllers/azurecluster_controller.go:88-194 | a run past its checks is repeated exactly while the links are not ready or the first endpoint without an IP is one Azure answered for |
| ReconcileFacts.DoneExactly | controllers/azurecluster_controller.go:88-209 | it ends without repeat or error exactly if both patches are stored and it deletes, or all endpoints that the two load balancer types call for have IPs |
| ReconcileFacts.ClosesCommute | controllers/azurecluster_controller.go:126-154 | the order of the two closes never shows in what is stored, and in the reported error exactly if both are refused and no error came before |
| FinalizerGuard.LiveRunKeepsGuard | controllers/azurecluster_controller.go:125-194 | a live run leaves wanted endpoints without a finalizer in the stored clusters exactly when the MC patch is stored, the first finalizer's patch is refused and the add loop was reached |
| GuardWitnesses.RefusedFinalizerBreaksGuard | controllers/azurecluster_controller.go:125-194 | two clusters and a run, concretely, for which that happens |
| FinalizerGuard.DeleteRunKeepsGuard | controllers/azurecluster_controller.go:125-206 | on any list, a delete run does so exactly when the release is stored although a wanted name is left: the MC patch was refused, or more endpoints bore the name than the WC has links of it |
| FinalizerGuard.LeavesWantedUnique | controllers/azurecluster_controller.go:195-206 | without duplicates only the refused patch is left |
| GuardWitnesses.DuplicateBreaksGuard | pkg/privateendpoints/scope.go:182-191 | two clusters and a run, concretely: all patches stored, the endpoint in the list twice, and one copy outlives the cluster |
| GuardWitnesses.RefusedRemovalBreaksGuard | controllers/azurecluster_controller.go:125-206 | two clusters and a run, concretely, after which the WC is gone and its endpoint is not |
| FinalizerGuard.ReleaseLeavesNothing | controllers/azurecluster_controller.go:195-206 | after a delete run whose list is stored, no endpoint that leads to the cluster is left exactly when the names of the links it still had reach all of them |
| GuardWitnesses.ForgottenLinkLeavesEndpoint | controllers/azurecluster_controller.go:195-206 | with its private links removed before the deletion, the cluster is released, all patches stored, and its endpoint stays |
| FinalizerGuard.ReleaseExactly | controllers/azurecluster_controller.go:105-206 | a deleted cluster's finalizer is released exactly by a run that passes all checks, subnets and clients of both clusters included, with the WC patch stored; it then disappears exactly if no other finalizer is left |
| FinalizerGuard.GuardOverRuns | controllers/azurecluster_controller.go:173-206 | with patches stored, in every state each MC endpoint is someone else's or wanted for an internal WC that still holds the finalizer |
| FinalizerGuard.ReleasedMeansGone | controllers/azurecluster_controller.go:195-206 | once the finalizer is released the MC list has none of the cluster's names, unless others keep or want them |
| JointRuns.LiveKeepsPromise | controllers/azurecluster_controller.go:173-185 | one run sets the condition only together with the annotations |
| JointRuns.PromiseOverRuns | controllers/azurecluster_controller.go:173-194 | in every state of every run, with any patches refused, a cluster marked GSPrivateLinksReady has the ingress IP and, if internal, the API server IP |
| JointRuns.UnpausedOnlyWithAddresses | controllers/kubeadmcontrolplane_controller.go:161-179 | with that gate configured the operator never unpauses a control plane before both annotations exist |
| JointRuns.HandsOffOverRuns | controllers/kubeadmcontrolplane_controller.go:121-140 | no sequence of operator steps changes the pause annotation of a control plane that is initialised, deleted, ownerless or in a paused Cluster |
| Liveness.MarkingOverCalls | pkg/privateendpoints/service.go:160-186 | over any sequence of calls, failing ones included, with any endpoints, answers and lists: a true condition stays alone, an absent one is added by the first success, one that is not true stays first and hides a copy per success; earlier conditions stay a prefix |
| Liveness.AtMostOneOccurrence | pkg/privateendpoints/service.go:160-186 | after calls of which some succeed the condition occurs at most once exactly when it was absent, or once and true |
| Liveness.WaitingMakesProgress | controllers/azurecluster_controller.go:173-194 | a waiting run leaves fewer endpoints lacking over both clusters |
| Liveness.WaitingIsBounded | controllers/azurecluster_controller.go:173-194 | from a ready pair with n allowed links at most n + 1 consecutive runs wait, undisturbed or with changes in between that take nothing away |
| Liveness.SuccessConnectsBoth | controllers/azurecluster_controller.go:173-233 | on any lists, after a run that does not wait each allowed link has an endpoint connected to it, the WC has one connected to the MC's own gateway link, and the annotations hold their IPs, if and only if bearers of wanted names led there before, out of the reach of pruning, and a gateway endpoint that is new finds the MC's resource group named after the MC |
| Liveness.LinksInReachUnique | pkg/privateendpoints/service.go:89-155 | without duplicates, for the links: exactly when every endpoint with the name of an allowed link connects to it, and then each has just one |
| Liveness.IngressConnected | controllers/azurecluster_controller.go:213-233 | for the gateway: exactly when a bearer of the name led to the MC's own link, or the name was free and the MC's resource group is its name |
| Liveness.GatewayGoesAstray | controllers/azurecluster_controller.go:213-233 | with another resource group the new endpoint leads to no link of the MC, its IP is noted and the condition set |
| Liveness.GatewayNamesakeIsTrusted | pkg/privateendpoints/service.go:160-183 | a bearer of the gateway name without any connection is trusted: its IP is noted and the condition set |
| Liveness.SuccessOpensGate | pkg/privateendpoints/service.go:176-183 | such a run makes the condition true exactly when no earlier condition of the type says otherwise |
| Liveness.SuccessUnpauses | controllers/kubeadmcontrolplane_controller.go:161-179 | after it one stored gate run unpauses the control plane if all other gates are met |
| KubeadmControlPlane.Reconciler.Reconcile | controllers/kubeadmcontrolplane_controller.go:82-180 | control planes and result are those of the specification step; a refused patch is not reported |
| KubeadmControlPlane.Reconciler.ApplyGates | controllers/kubeadmcontrolplane_controller.go:161-179 | edits the annotation map in place: paused unless nothing is unmet |
| KubeadmControlPlane.PausedIffUnmet | controllers/kubeadmcontrolplane_controller.go:161-179 | a stored run that passes the preflights leaves the control plane paused exactly when some gate is not true |
| KubeadmControlPlane.PausedExactly | controllers/kubeadmcontrolplane_controller.go:82-180 | for every control plane, paused or not: a stored run leaves a watched one paused, with the value true, exactly when some gate is not true in its AzureCluster, and any other as it was |
| KubeadmControlPlane.GateReports | controllers/kubeadmcontrolplane_controller.go:82-180 | an error exactly for a control plane to look after whose owner is not named or missing, or whose AzureCluster is missing while the Cluster is not paused |
| KubeadmControlPlane.UnpausesExactly | controllers/kubeadmcontrolplane_controller.go:82-180 | a paused control plane gets unpaused exactly by a stored run with a private MC, a controlled, uninitialised, undeleted control plane, an unpaused Cluster with an existing AzureCluster, and every gate true |
| KubeadmControlPlane.GateIdempotent | controllers/kubeadmcontrolplane_controller.go:82-180 | repeating it without a change in between does nothing more |
| KubeadmControlPlane.GateChangesOnlyPause | controllers/kubeadmcontrolplane_controller.go:161-179 | every other annotation, field and control plane stays |
| ProviderConfig.SupportedExactly | controllers/providerconfig_controller.go:73-185 | a Cluster is supported exactly if its infrastructure refers to a usable identity, skipped exactly for the rejected kinds, and a missing object on the way is an error, never a skip |
| ProviderConfig.ResolvesToIdentity | controllers/providerconfig_controller.go:140-184 | client, tenant and subscription are the workload identity's own with the infrastructure object's subscription, or those under the secret's three keys |
| ProviderConfig.CredentialsFollowIdentity | controllers/providerconfig_controller.go:140-184 | Clusters with the same identity get the same credentials: a secret's subscription replaces the infrastructure object's, a workload identity leaves it |
| ProviderConfig.OnlySupportedTouched | controllers/providerconfig_controller.go:70-211 | run to its end, a reconciliation writes anything at all, the finalizer included, if and only if the Cluster refers to a usable identity and is not up to date with it |
| ProviderConfig.ApiStore.Reconcile | controllers/providerconfig_controller.go:48-68 | reads the Cluster and follows one of the two paths, or none if it is gone |
| ProviderConfig.ReadThenWrite | controllers/providerconfig_controller.go:48-211 | from the read on, five calls leave a supported Cluster with its finalizers and the operator's, and the ProviderConfig with the given identity |
| ProviderConfig.ReadStoresIdentity | controllers/providerconfig_controller.go:48-211 | that ProviderConfig carries the credentials of the identity referred to |
| ProviderConfig.ReadThenDelete | controllers/providerconfig_controller.go:48-232 | from the read on, three calls remove the ProviderConfig of a deleted Cluster and the operator's finalizer only; the Cluster goes with its last one |
| ProviderConfig.ReadNothing | controllers/providerconfig_controller.go:53-61 | a Cluster that is gone is left alone |
| ProviderConfig.ApiStore.ReconcileNormal | controllers/providerconfig_controller.go:70-211 | the method, cut off after any call, does what the same number of protocol steps do |
| ProviderConfig.ApiStore.ReconcileDelete | controllers/providerconfig_controller.go:213-232 | likewise for deletion |
| ProviderConfig.ConfigsNeverOutliveClusters | controllers/providerconfig_controller.go:190-232 | for every interleaving of reconciliations, crashes, lost replies and users, a ProviderConfig exists only while some Cluster of its name in some namespace holds the finalizer |
| ProviderConfig.EmptyIsProtected | controllers/providerconfig_controller.go:70-232 | any store without ProviderConfigs is a start for which this holds |
| ProviderConfig.ConfigSurvivesExactly | controllers/providerconfig_controller.go:213-232 | a ProviderConfig survives everything the operator does, crashes and lost replies included, if and only if no Cluster of its name in any namespace is being deleted |
| ProviderConfig.NamesakeTakesConfig | controllers/providerconfig_controller.go:213-232 | so a Cluster that holds the finalizer loses its ProviderConfig to the deletion of a namesake |
| ProviderConfig.StaleReadOrphans | controllers/providerconfig_controller.go:53-68 | a stale read of a Cluster already gone leaves a ProviderConfig without a Cluster |
| ProviderConfig.StaleReadExactly | controllers/providerconfig_controller.go:53-211 | a reconciliation that works on an old copy and may be cut off anywhere orphans nothing if and only if a copy with the finalizer is backed by a Cluster of the name that holds it now |
| ProviderConfig.UndisturbedNormal | controllers/providerconfig_controller.go:187-210 | undisturbed, the first or a later reconciliation of a supported Cluster ends with the finalizer and a ProviderConfig with the resolved identity |
| ProviderConfig.CreateDelete | controllers/providerconfig_controller.go:187-232 | creating, marking for deletion and deleting leaves no trace |
| GateFlag.ConditionSliceVar.String | main.go:182-188 | joins the names with commas |
| GateFlag.ConditionSliceVar.Set | main.go:190-201 | replaces the value by the non-empty pieces between the commas of the trimmed argument |
| GateFlag.SplitJoin | main.go:187-187 | comma-free names stand between single commas: splitting the text gives them back, the empty ones too |
| GateFlag.JoinLength | main.go:187-187 | the text has the names' characters and one comma less than names |
| GateFlag.PrintParse | main.go:182-201 | printing then parsing gives back the list if and only if all its names are non-empty and comma-free |
| GateFlag.ParsePrintParse | main.go:182-201 | for every argument, parsing its printed parse changes nothing |
| GateFlag.TrimIsRedundant | main.go:191-191 | trimming never changes the parsed list |
| GateFlag.OuterCommas | main.go:190-201 | a comma before or after the argument never changes it |

## Left out

- Reads from the Kubernetes API that fail for another reason than a missing object: such a run ends without a change.
- Writes by others between a run's read and its patch, and patches stored in parts: the patch library is not part of this model.
- A nil map or slice where the code treats it like an empty one, except for the gate list, whose nil is kept apart.
- A nil API server load balancer, on which the code panics before it does anything.
- Different answers of Azure for one name within one run, which only repeated link names could see.
- Parsing and printing of IP addresses: one unspecified function from the address text to the annotation text.
- A request of a crashed ProviderConfig reconciliation that reaches the API server after the restart.
- The delete call's missing-kind answer is taken as nothing to delete, which assumes no ProviderConfig exists without its kind.
- Time, requeue delays, messages, logging, metrics, leader election, watches and their predicates.
- Azure and Kubernetes client construction, credentials, constructor nil checks, Helm charts and RBAC.
