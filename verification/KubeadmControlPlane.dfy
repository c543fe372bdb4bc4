/** controllers/kubeadmcontrolplane_controller.go: pauses a control plane until its AzureCluster passes the gates. */
module KubeadmControlPlane {
  import opened Types
  import opened Conditions
  import opened ControllerSpec
  import Util

  datatype ControlPlane = ControlPlane(
    annotations: map<string, string>,
    initialized: Option<bool>,
    deleting: bool,
    hasController: bool,
    ownerCluster: Option<string>)

  /** The Cluster that owns a control plane. */
  datatype OwnerCluster = OwnerCluster(paused: Option<bool>, infrastructureRef: Option<string>)

  type ControlPlanes = map<NamespacedName, ControlPlane>
  type OwnerClusters = map<NamespacedName, OwnerCluster>

  datatype Cancelled =
    | ManagementClusterNotPrivate
    | ControlPlaneProvisioned
    | ControlPlaneDeleting
    | ControlPlaneHasNoOwner
    | ClusterPaused
    | InfraClusterMissing

  function PreflightCheckManagementCluster(c: AzureCluster): Option<Cancelled> {
    if c.lbType != Internal then Some(ManagementClusterNotPrivate) else None
  }

  function PreflightCheckControlPlane(k: ControlPlane): Option<Cancelled> {
    if k.initialized == Some(true) then Some(ControlPlaneProvisioned)
    else if k.deleting then Some(ControlPlaneDeleting)
    else if !k.hasController then Some(ControlPlaneHasNoOwner)
    else None
  }

  function PreflightCheckCluster(c: OwnerCluster): Option<Cancelled> {
    if c.paused == Some(true) then Some(ClusterPaused)
    else if c.infrastructureRef.None? then Some(InfraClusterMissing)
    else None
  }

  datatype World = World(clusters: Clusters, owners: OwnerClusters, controlPlanes: ControlPlanes)

  /** How far a run for `req` gets: it stops early, fails, or finds the AzureCluster to check. */
  datatype Reach = Stops | Fails(error: Error) | Checks(infra: NamespacedName)

  function Reaches(w: World, mcName: NamespacedName, gates: seq<string>, req: NamespacedName): Reach {
    if gates == [] then Stops
    else if mcName !in w.clusters || PreflightCheckManagementCluster(w.clusters[mcName]).Some? then Stops
    else if req !in w.controlPlanes || PreflightCheckControlPlane(w.controlPlanes[req]).Some? then Stops
    else if w.controlPlanes[req].ownerCluster.None? then Fails(NilDereference)
    else
      var ownerName := NamespacedName(req.ns, w.controlPlanes[req].ownerCluster.value);
      if ownerName !in w.owners then Fails(ObjectNotFound)
      else if PreflightCheckCluster(w.owners[ownerName]).Some? then Stops
      else
        var infra := NamespacedName(req.ns, w.owners[ownerName].infrastructureRef.value);
        if infra !in w.clusters then Fails(ObjectNotFound) else Checks(infra)
  }

  function PauseUnless(met: bool, annotations: map<string, string>): map<string, string> {
    if met then annotations - {PAUSED_ANNOTATION} else annotations[PAUSED_ANNOTATION := "true"]
  }

  /** A refused patch is only logged: the run still reports success. */
  function GateStep(w: World, mcName: NamespacedName, gates: seq<string>, req: NamespacedName, stored: bool)
    : (ControlPlanes, Outcome)
  {
    match Reaches(w, mcName, gates, req)
    case Stops => (w.controlPlanes, DONE)
    case Fails(e) => (w.controlPlanes, Outcome(false, Some(e)))
    case Checks(infra) =>
      var met := UnmetGates(w.clusters[infra].conditions, gates) == [];
      var k := w.controlPlanes[req];
      var edited := k.(annotations := PauseUnless(met, k.annotations));
      (if stored then w.controlPlanes[req := edited] else w.controlPlanes, DONE)
  }

  // ---- the controller

  class ControlPlaneServer {
    var clusters: Clusters
    var owners: OwnerClusters
    var controlPlanes: ControlPlanes
  }

  class ControlPlaneObject {
    const stored: ControlPlane
    var annotations: map<string, string>

    constructor (k: ControlPlane)
      ensures stored == k && annotations == k.annotations
    {
      stored := k;
      annotations := k.annotations;
    }
  }

  class Reconciler {
    const server: ControlPlaneServer
    const managementCluster: NamespacedName
    const azureClusterGates: seq<string>

    constructor (server: ControlPlaneServer, managementCluster: NamespacedName, azureClusterGates: seq<string>)
      ensures this.server == server && this.managementCluster == managementCluster
              && this.azureClusterGates == azureClusterGates
    {
      this.server := server;
      this.managementCluster := managementCluster;
      this.azureClusterGates := azureClusterGates;
    }

    ghost function TheWorld(): World
      reads server
    {
      World(server.clusters, server.owners, server.controlPlanes)
    }

    method Reconcile(req: NamespacedName, stored: bool) returns (outcome: Outcome)
      modifies server`controlPlanes
      ensures (server.controlPlanes, outcome)
              == GateStep(old(TheWorld()), managementCluster, azureClusterGates, req, stored)
    {
      if |azureClusterGates| == 0 {
        return DONE;
      }
      if managementCluster !in server.clusters
          || PreflightCheckManagementCluster(server.clusters[managementCluster]).Some? {
        return DONE;
      }
      if req !in server.controlPlanes {
        return DONE;
      }
      var k := server.controlPlanes[req];
      if PreflightCheckControlPlane(k).Some? {
        return DONE;
      }
      if k.ownerCluster.None? {
        return Outcome(false, Some(NilDereference));
      }
      var ownerName := NamespacedName(req.ns, k.ownerCluster.value);
      if ownerName !in server.owners {
        return Outcome(false, Some(ObjectNotFound));
      }
      var owner := server.owners[ownerName];
      if PreflightCheckCluster(owner).Some? {
        return DONE;
      }
      var infra := NamespacedName(req.ns, owner.infrastructureRef.value);
      if infra !in server.clusters {
        return Outcome(false, Some(ObjectNotFound));
      }
      var edited := new ControlPlaneObject(k);
      ApplyGates(server.clusters[infra].conditions, edited);
      if stored {
        server.controlPlanes := server.controlPlanes[req := k.(annotations := edited.annotations)];
      }
      return DONE;
    }

    method ApplyGates(conditions: seq<Condition>, k: ControlPlaneObject)
      modifies k
      ensures k.annotations == PauseUnless(UnmetGates(conditions, azureClusterGates) == [], old(k.annotations))
    {
      var unmet := Util.FindUnmetStatusConditions(conditions, Some(azureClusterGates));
      if |unmet.value| != 0 {
        k.annotations := k.annotations[PAUSED_ANNOTATION := "true"];
        return;
      }
      if PAUSED_ANNOTATION in k.annotations {
        k.annotations := k.annotations - {PAUSED_ANNOTATION};
      } else {
        assert k.annotations - {PAUSED_ANNOTATION} == k.annotations;
      }
    }
  }

  // ---- what a run does

  predicate Paused(w: World, req: NamespacedName) {
    req in w.controlPlanes && PAUSED_ANNOTATION in w.controlPlanes[req].annotations
  }

  function AfterGate(w: World, mcName: NamespacedName, gates: seq<string>, req: NamespacedName, stored: bool): World {
    w.(controlPlanes := GateStep(w, mcName, gates, req, stored).0)
  }

  /** Only the pause annotation of the one control plane can change. */
  lemma GateChangesOnlyPause(w: World, mcName: NamespacedName, gates: seq<string>, req: NamespacedName, stored: bool,
                             other: NamespacedName, key: string)
    requires other in w.controlPlanes
    ensures var w' := AfterGate(w, mcName, gates, req, stored);
            && w'.controlPlanes.Keys == w.controlPlanes.Keys
            && (other != req ==> w'.controlPlanes[other] == w.controlPlanes[other])
            && w'.controlPlanes[other].(annotations := map[]) == w.controlPlanes[other].(annotations := map[])
            && (key != PAUSED_ANNOTATION ==>
                  (key in w'.controlPlanes[other].annotations <==> key in w.controlPlanes[other].annotations)
                  && (key in w.controlPlanes[other].annotations ==>
                      w'.controlPlanes[other].annotations[key] == w.controlPlanes[other].annotations[key]))
  {
  }

  /** A stored run that passes all preflights leaves the control plane paused exactly when some gate is unmet. */
  lemma PausedIffUnmet(w: World, mcName: NamespacedName, gates: seq<string>, req: NamespacedName)
    requires Reaches(w, mcName, gates, req).Checks?
    ensures Paused(AfterGate(w, mcName, gates, req, true), req)
       <==> exists g :: g in gates && !IsTrue(w.clusters[Reaches(w, mcName, gates, req).infra].conditions, g)
  {
    NothingUnmet(w.clusters[Reaches(w, mcName, gates, req).infra].conditions, gates);
  }

  /** The names of the Cluster that owns the control plane and of that Cluster's AzureCluster. */
  function OwnerOf(w: World, req: NamespacedName): NamespacedName
    requires req in w.controlPlanes && w.controlPlanes[req].ownerCluster.Some?
  {
    NamespacedName(req.ns, w.controlPlanes[req].ownerCluster.value)
  }

  function InfraOf(w: World, req: NamespacedName): NamespacedName
    requires req in w.controlPlanes && w.controlPlanes[req].ownerCluster.Some?
    requires OwnerOf(w, req) in w.owners && w.owners[OwnerOf(w, req)].infrastructureRef.Some?
  {
    NamespacedName(req.ns, w.owners[OwnerOf(w, req)].infrastructureRef.value)
  }

  /** There are gates, the management cluster is private, and the control plane is controlled and neither
      initialised nor deleted. */
  predicate Eligible(w: World, mcName: NamespacedName, gates: seq<string>, req: NamespacedName) {
    && gates != [] && mcName in w.clusters && w.clusters[mcName].lbType.Internal?
    && req in w.controlPlanes
    && w.controlPlanes[req].initialized != Some(true)
    && !w.controlPlanes[req].deleting && w.controlPlanes[req].hasController
  }

  /** Such a control plane, in an unpaused Cluster, whose AzureCluster exists. */
  predicate Watched(w: World, mcName: NamespacedName, gates: seq<string>, req: NamespacedName) {
    && Eligible(w, mcName, gates, req)
    && w.controlPlanes[req].ownerCluster.Some? && OwnerOf(w, req) in w.owners
    && w.owners[OwnerOf(w, req)].paused != Some(true)
    && w.owners[OwnerOf(w, req)].infrastructureRef.Some? && InfraOf(w, req) in w.clusters
  }

  lemma WatchedReaches(w: World, mcName: NamespacedName, gates: seq<string>, req: NamespacedName)
    ensures Reaches(w, mcName, gates, req).Checks? <==> Watched(w, mcName, gates, req)
    ensures Watched(w, mcName, gates, req) ==> Reaches(w, mcName, gates, req) == Checks(InfraOf(w, req))
  {
  }

  /** Whether a control plane is paused after a run: a stored run leaves a watched one paused exactly when
      some gate is not true in its AzureCluster, and every other as it was. */
  lemma PausedExactly(w: World, mcName: NamespacedName, gates: seq<string>, req: NamespacedName, stored: bool)
    ensures Paused(AfterGate(w, mcName, gates, req, stored), req)
       <==> if stored && Watched(w, mcName, gates, req)
            then exists g :: g in gates && !FirstOfKindIsTrue(w.clusters[InfraOf(w, req)].conditions, g)
            else Paused(w, req)
    ensures stored && Watched(w, mcName, gates, req) && Paused(AfterGate(w, mcName, gates, req, stored), req) ==>
              AfterGate(w, mcName, gates, req, stored).controlPlanes[req].annotations["cluster.x-k8s.io/paused"]
              == "true"
  {
    WatchedReaches(w, mcName, gates, req);
    if Watched(w, mcName, gates, req) {
      var conditions := w.clusters[InfraOf(w, req)].conditions;
      NothingUnmet(conditions, gates);
      forall g ensures IsTrue(conditions, g) <==> FirstOfKindIsTrue(conditions, g) {
        TrueExactly(conditions, g);
      }
    }
  }

  /** What a run reports: an error exactly if a control plane to look after names no owner, or the owner or,
      of an unpaused one, the AzureCluster it names is missing. A refused patch is never reported. */
  lemma GateReports(w: World, mcName: NamespacedName, gates: seq<string>, req: NamespacedName, stored: bool)
    ensures var outcome := GateStep(w, mcName, gates, req, stored).1;
            && !outcome.requeue
            && (!Eligible(w, mcName, gates, req) ==> outcome.error == None)
            && (Eligible(w, mcName, gates, req) ==>
                  var k := w.controlPlanes[req];
                  outcome.error ==
                    if k.ownerCluster.None? then Some(NilDereference)
                    else if OwnerOf(w, req) !in w.owners then Some(ObjectNotFound)
                    else if w.owners[OwnerOf(w, req)].paused == Some(true) then None
                    else if w.owners[OwnerOf(w, req)].infrastructureRef.None? then None
                    else if InfraOf(w, req) !in w.clusters then Some(ObjectNotFound)
                    else None)
  {
  }

  /** All that must hold for a run to unpause: the control plane is watched and every gate is true. */
  predicate MayUnpause(w: World, mcName: NamespacedName, gates: seq<string>, req: NamespacedName) {
    && Watched(w, mcName, gates, req)
    && forall g :: g in gates ==> FirstOfKindIsTrue(w.clusters[InfraOf(w, req)].conditions, g)
  }

  lemma UnpausesExactly(w: World, mcName: NamespacedName, gates: seq<string>, req: NamespacedName, stored: bool)
    requires Paused(w, req)
    ensures !Paused(AfterGate(w, mcName, gates, req, stored), req) <==> stored && MayUnpause(w, mcName, gates, req)
  {
    PausedExactly(w, mcName, gates, req, stored);
  }

  /** Repeating a run without a change in between does nothing more. */
  lemma GateIdempotent(w: World, mcName: NamespacedName, gates: seq<string>, req: NamespacedName, stored: bool)
    ensures var once := AfterGate(w, mcName, gates, req, true);
            AfterGate(once, mcName, gates, req, stored) == once
  {
    var once := AfterGate(w, mcName, gates, req, true);
    assert Reaches(once, mcName, gates, req) == Reaches(w, mcName, gates, req);
    if Reaches(w, mcName, gates, req).Checks? {
      var met := UnmetGates(w.clusters[Reaches(w, mcName, gates, req).infra].conditions, gates) == [];
      var before := w.controlPlanes[req].annotations;
      assert PauseUnless(met, PauseUnless(met, before)) == PauseUnless(met, before);
      assert once.controlPlanes[req].(annotations := PauseUnless(met, once.controlPlanes[req].annotations))
          == once.controlPlanes[req];
    }
  }

  /** The operator leaves alone a control plane that is initialised, deleted or without controller, or
      whose Cluster is paused. */
  predicate HandsOff(w: World, req: NamespacedName) {
    req in w.controlPlanes &&
    (PreflightCheckControlPlane(w.controlPlanes[req]).Some?
     || (w.controlPlanes[req].ownerCluster.Some?
         && NamespacedName(req.ns, w.controlPlanes[req].ownerCluster.value) in w.owners
         && w.owners[NamespacedName(req.ns, w.controlPlanes[req].ownerCluster.value)].paused == Some(true)))
  }

  lemma HandsOffGate(w: World, mcName: NamespacedName, gates: seq<string>, req: NamespacedName, stored: bool,
                     k: NamespacedName)
    requires HandsOff(w, k)
    ensures var w' := AfterGate(w, mcName, gates, req, stored);
            HandsOff(w', k) && w'.controlPlanes[k] == w.controlPlanes[k]
  {
    if req == k {
      assert !Reaches(w, mcName, gates, req).Checks?;
    }
  }
}
