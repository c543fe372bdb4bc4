/** controllers/providerconfig_controller.go as a protocol: one API call per step, any of which may be the last. */
module ProviderConfig {
  import opened Types
  import opened Sequences
  import opened ClusterObjects

  const FINALIZER := "azure.giantswarm.io/providerconfig"

  datatype Cluster = Cluster(deleting: bool, finalizers: seq<string>)

  datatype IdentityInfo = IdentityInfo(clientID: string, subscriptionID: string, tenantID: string)

  /** The API server: Clusters are namespaced, ProviderConfigs are not. */
  datatype Store = Store(clusters: map<NamespacedName, Cluster>, configs: map<string, IdentityInfo>)

  // ---- which identity a cluster resolves to

  datatype InfraKind = AzureClusterKind | AzureASOManagedClusterKind | AzureManagedClusterKind | OtherInfra

  datatype IdentityKind = AzureClusterIdentityKind | SecretKind | OtherIdentity

  datatype IdentityRef = IdentityRef(kind: IdentityKind, name: string)

  datatype InfraObject = InfraObject(identityRef: Option<IdentityRef>, subscriptionID: string)

  datatype AzureIdentity = AzureIdentity(workloadIdentity: bool, clientID: string, tenantID: string)

  /** What the reads of one run return; an ASO control plane is the list of its resources' credential annotations. */
  datatype Reads = Reads(
    infra: Option<InfraObject>,
    asoResources: Option<seq<string>>,
    identities: map<string, AzureIdentity>,
    secrets: map<string, map<string, string>>)

  datatype Resolution = Supported(info: IdentityInfo) | Unsupported | Failed(error: Error) | IdentityUnset

  function Entry(secret: map<string, string>, key: string): string {
    if key in secret then secret[key] else ""
  }

  function ResolveRef(ref: IdentityRef, subscriptionID: string, seen: Reads): Resolution {
    match ref.kind
    case AzureClusterIdentityKind =>
      if ref.name !in seen.identities then Failed(ObjectNotFound)
      else if !seen.identities[ref.name].workloadIdentity then Unsupported
      else Supported(IdentityInfo(seen.identities[ref.name].clientID, subscriptionID,
                                  seen.identities[ref.name].tenantID))
    case SecretKind =>
      if ref.name !in seen.secrets then Failed(ObjectNotFound)
      else
        var s := seen.secrets[ref.name];
        Supported(IdentityInfo(Entry(s, "AZURE_CLIENT_ID"), Entry(s, "AZURE_SUBSCRIPTION_ID"),
                               Entry(s, "AZURE_TENANT_ID")))
    case OtherIdentity => Unsupported
  }

  function Resolve(kind: InfraKind, seen: Reads): Resolution {
    match kind
    case AzureASOManagedClusterKind =>
      if seen.asoResources.None? then Failed(ObjectNotFound)
      else if seen.asoResources.value == [] then Failed(NilDereference)
      else ResolveRef(IdentityRef(SecretKind, seen.asoResources.value[0]), "", seen)
    case OtherInfra => Unsupported
    case _ =>
      if seen.infra.None? then Failed(ObjectNotFound)
      else if seen.infra.value.identityRef.None? then IdentityUnset
      else ResolveRef(seen.infra.value.identityRef.value, seen.infra.value.subscriptionID, seen)
  }

  method ResolveIdentity(kind: InfraKind, seen: Reads) returns (r: Resolution)
    ensures r == Resolve(kind, seen)
    ensures r.Supported? <==> exists ref :: Refers(kind, seen, ref) && Usable(seen, ref)
    ensures r == Failed(ObjectNotFound) <==> Dangling(kind, seen)
  {
    SupportedExactly(kind, seen);
    var info := IdentityInfo("", "", "");
    var ref: Option<IdentityRef> := None;
    if kind == AzureClusterKind || kind == AzureManagedClusterKind {
      if seen.infra.None? {
        return Failed(ObjectNotFound);
      }
      ref := seen.infra.value.identityRef;
      info := info.(subscriptionID := seen.infra.value.subscriptionID);
    } else if kind == AzureASOManagedClusterKind {
      if seen.asoResources.None? {
        return Failed(ObjectNotFound);
      }
      if |seen.asoResources.value| == 0 {
        return Failed(NilDereference);
      }
      ref := Some(IdentityRef(SecretKind, seen.asoResources.value[0]));
    } else {
      return Unsupported;
    }
    if ref.None? {
      return IdentityUnset;
    }
    var name := ref.value.name;
    if ref.value.kind == AzureClusterIdentityKind {
      if name !in seen.identities {
        return Failed(ObjectNotFound);
      }
      if !seen.identities[name].workloadIdentity {
        return Unsupported;
      }
      info := info.(tenantID := seen.identities[name].tenantID, clientID := seen.identities[name].clientID);
    } else if ref.value.kind == SecretKind {
      if name !in seen.secrets {
        return Failed(ObjectNotFound);
      }
      var s := seen.secrets[name];
      info := IdentityInfo(Entry(s, "AZURE_CLIENT_ID"), Entry(s, "AZURE_SUBSCRIPTION_ID"), Entry(s, "AZURE_TENANT_ID"));
    } else {
      return Unsupported;
    }
    return Supported(info);
  }

  /** The object a Cluster's infrastructure names as its identity, and whether that can be used. */
  predicate Refers(kind: InfraKind, seen: Reads, ref: IdentityRef) {
    || ((kind.AzureClusterKind? || kind.AzureManagedClusterKind?) && seen.infra.Some?
       && seen.infra.value.identityRef == Some(ref))
    || (kind.AzureASOManagedClusterKind? && seen.asoResources.Some? && seen.asoResources.value != []
        && ref == IdentityRef(SecretKind, seen.asoResources.value[0]))
  }

  predicate Usable(seen: Reads, ref: IdentityRef) {
    || (ref.kind.AzureClusterIdentityKind? && ref.name in seen.identities && seen.identities[ref.name].workloadIdentity)
    || (ref.kind.SecretKind? && ref.name in seen.secrets)
  }

  predicate Rejected(seen: Reads, ref: IdentityRef) {
    || ref.kind.OtherIdentity?
    || (ref.kind.AzureClusterIdentityKind? && ref.name in seen.identities
       && !seen.identities[ref.name].workloadIdentity)
  }

  /** Something on the way to the identity does not exist. */
  ghost predicate Dangling(kind: InfraKind, seen: Reads) {
    || ((kind.AzureClusterKind? || kind.AzureManagedClusterKind?) && seen.infra.None?)
    || (kind.AzureASOManagedClusterKind? && seen.asoResources.None?)
    || exists ref :: Refers(kind, seen, ref) && !Usable(seen, ref) && !Rejected(seen, ref)
  }

  /** A Cluster is supported exactly if it refers to a usable identity, and an object that is missing on the
      way is an error, never an unsupported Cluster. */
  lemma SupportedExactly(kind: InfraKind, seen: Reads)
    ensures Resolve(kind, seen).Supported? <==> exists ref :: Refers(kind, seen, ref) && Usable(seen, ref)
    ensures Resolve(kind, seen).Unsupported?
       <==> kind.OtherInfra? || exists ref :: Refers(kind, seen, ref) && Rejected(seen, ref)
    ensures Resolve(kind, seen) == Failed(ObjectNotFound) <==> Dangling(kind, seen)
    ensures Resolve(kind, seen) == Failed(NilDereference)
       <==> kind.AzureASOManagedClusterKind? && seen.asoResources == Some([])
    ensures Resolve(kind, seen).IdentityUnset?
       <==> && (kind.AzureClusterKind? || kind.AzureManagedClusterKind?)
            && seen.infra.Some? && seen.infra.value.identityRef.None?
  {
    if (kind.AzureClusterKind? || kind.AzureManagedClusterKind?) && seen.infra.Some?
        && seen.infra.value.identityRef.Some? {
      assert Refers(kind, seen, seen.infra.value.identityRef.value);
    }
    if kind.AzureASOManagedClusterKind? && seen.asoResources.Some? && seen.asoResources.value != [] {
      assert Refers(kind, seen, IdentityRef(SecretKind, seen.asoResources.value[0]));
    }
  }

  predicate Has(secret: map<string, string>, key: string, value: string) {
    if key in secret then secret[key] == value else value == ""
  }

  /** The credentials are those of the identity referred to: a workload identity's own client and tenant with
      the subscription of the infrastructure object, or what the secret's three keys hold. */
  predicate Carries(info: IdentityInfo, seen: Reads, ref: IdentityRef)
    requires Usable(seen, ref)
  {
    if ref.kind.AzureClusterIdentityKind? then
      && info.clientID == seen.identities[ref.name].clientID
      && info.tenantID == seen.identities[ref.name].tenantID
      && seen.infra.Some? && info.subscriptionID == seen.infra.value.subscriptionID
    else
      && Has(seen.secrets[ref.name], "AZURE_CLIENT_ID", info.clientID)
      && Has(seen.secrets[ref.name], "AZURE_SUBSCRIPTION_ID", info.subscriptionID)
      && Has(seen.secrets[ref.name], "AZURE_TENANT_ID", info.tenantID)
  }

  lemma ResolvesToIdentity(kind: InfraKind, seen: Reads, ref: IdentityRef)
    requires Refers(kind, seen, ref) && Usable(seen, ref)
    ensures Resolve(kind, seen).Supported? && Carries(Resolve(kind, seen).info, seen, ref)
  {
  }

  /** What a supported Cluster gets depends on its identity alone, but for the subscription: a secret brings
      its own, whatever the infrastructure object says; a workload identity leaves that of the object. */
  lemma CredentialsFollowIdentity(kind: InfraKind, seen: Reads, kind': InfraKind, seen': Reads, ref: IdentityRef)
    requires Refers(kind, seen, ref) && Refers(kind', seen', ref) && Usable(seen, ref)
    requires seen'.identities == seen.identities && seen'.secrets == seen.secrets
    ensures Resolve(kind, seen).Supported? && Resolve(kind', seen').Supported?
    ensures ref.kind.SecretKind? ==> Resolve(kind, seen) == Resolve(kind', seen')
    ensures ref.kind.AzureClusterIdentityKind? ==>
              && seen.infra.Some? && Resolve(kind, seen).info.subscriptionID == seen.infra.value.subscriptionID
              && Resolve(kind', seen').info
                   == Resolve(kind, seen).info.(subscriptionID := seen'.infra.value.subscriptionID)
  {
  }

  // ---- the steps of one reconciliation

  /** Where the reconciliation of one Cluster stands, named after the API call that comes next. `copy` is
      the Cluster as it was read. */
  datatype Worker =
    | Idle
    | Resolving(copy: Cluster)
    | AddingFinalizer(copy: Cluster, info: IdentityInfo)
    | GettingConfig(info: IdentityInfo)
    | CreatingConfig(info: IdentityInfo)
    | PatchingConfig(info: IdentityInfo)
    | DeletingConfig(copy: Cluster)
    | Releasing(copy: Cluster)

  /** How a call ends: done, done although the caller sees an error, or refused. */
  datatype Reply = Success | LostReply | Refused

  function WithFinalizers(store: Store, n: NamespacedName, finalizers: seq<string>): Store {
    if n !in store.clusters then store
    else if store.clusters[n].deleting && finalizers == [] then store.(clusters := store.clusters - {n})
    else store.(clusters := store.clusters[n := store.clusters[n].(finalizers := finalizers)])
  }

  /** The store after the call a worker makes, if the server carries it out; a merge patch of the
      finalizers writes the whole list. */
  function Effect(store: Store, n: NamespacedName, worker: Worker): Store {
    match worker
    case AddingFinalizer(copy, _) => WithFinalizers(store, n, copy.finalizers + [FINALIZER])
    case CreatingConfig(info) =>
      if n.name in store.configs then store else store.(configs := store.configs[n.name := info])
    case PatchingConfig(info) =>
      if n.name in store.configs then store.(configs := store.configs[n.name := info]) else store
    case DeletingConfig(_) => store.(configs := store.configs - {n.name})
    case Releasing(copy) => WithFinalizers(store, n, WithoutFinalizer(copy.finalizers, FINALIZER))
    case _ => store
  }

  function AfterRead(copy: Cluster): Worker {
    if copy.deleting then DeletingConfig(copy) else Resolving(copy)
  }

  /** Where the worker goes when the call succeeds; a missing object makes it give up, except on delete. */
  function Continue(store: Store, n: NamespacedName, worker: Worker, resolution: Resolution): Worker {
    match worker
    case Idle => if n in store.clusters then AfterRead(store.clusters[n]) else Idle
    case Resolving(copy) =>
      if !resolution.Supported? then Idle
      else if FINALIZER in copy.finalizers then GettingConfig(resolution.info)
      else AddingFinalizer(copy, resolution.info)
    case AddingFinalizer(_, info) => if n in store.clusters then GettingConfig(info) else Idle
    case GettingConfig(info) => if n.name in store.configs then PatchingConfig(info) else CreatingConfig(info)
    case DeletingConfig(copy) => if FINALIZER in copy.finalizers then Releasing(copy) else Idle
    case _ => Idle
  }

  function WorkerStep(store: Store, n: NamespacedName, worker: Worker, reply: Reply, resolution: Resolution)
    : (Store, Worker)
  {
    (if reply.Refused? then store else Effect(store, n, worker),
     if reply.Success? then Continue(store, n, worker, resolution) else Idle)
  }

  // ---- the controller's own code, call by call

  class ApiStore {
    var clusters: map<NamespacedName, Cluster>
    var configs: map<string, IdentityInfo>

    ghost function Contents(): Store
      reads this
    {
      Store(clusters, configs)
    }

    method PatchFinalizers(n: NamespacedName, finalizers: seq<string>, reply: Reply) returns (ok: bool)
      modifies this`clusters
      ensures Contents() == if reply.Refused? then old(Contents()) else WithFinalizers(old(Contents()), n, finalizers)
      ensures ok <==> reply.Success? && n in old(clusters)
    {
      ok := reply.Success? && n in clusters;
      if !reply.Refused? && n in clusters {
        if clusters[n].deleting && finalizers == [] {
          clusters := clusters - {n};
        } else {
          clusters := clusters[n := clusters[n].(finalizers := finalizers)];
        }
      }
    }

    /** True also when there was nothing to delete. */
    method DeleteConfig(name: string, reply: Reply) returns (ok: bool)
      modifies this`configs
      ensures configs == if reply.Refused? then old(configs) else old(configs) - {name}
      ensures ok <==> reply.Success?
    {
      ok := reply.Success?;
      if !reply.Refused? {
        configs := configs - {name};
      }
    }

    method PutConfig(name: string, info: IdentityInfo, reply: Reply)
      modifies this`configs
      ensures configs == if reply.Refused? then old(configs) else old(configs)[name := info]
    {
      if !reply.Refused? {
        configs := configs[name := info];
      }
    }

    /** `replies` ends where the process dies. */
    method ReconcileNormal(n: NamespacedName, copy: Cluster, kind: InfraKind, seen: Reads, replies: seq<Reply>)
      modifies this
      ensures Contents() == Run(old(Contents()), n, Resolving(copy), replies, Resolve(kind, seen)).0
    {
      if |replies| == 0 || !replies[0].Success? {
        return;
      }
      var resolution := ResolveIdentity(kind, seen);
      RunUnfolds(Contents(), n, Resolving(copy), replies, resolution);
      if !resolution.Supported? {
        return;
      }
      var rest := replies[1..];
      if FINALIZER !in copy.finalizers {
        if |rest| == 0 {
          return;
        }
        RunUnfolds(Contents(), n, AddingFinalizer(copy, resolution.info), rest, resolution);
        var ok := PatchFinalizers(n, copy.finalizers + [FINALIZER], rest[0]);
        if !ok {
          return;
        }
        rest := rest[1..];
      }
      CreateOrPatch(n, resolution, rest);
    }

    method CreateOrPatch(n: NamespacedName, resolution: Resolution, replies: seq<Reply>)
      requires resolution.Supported?
      modifies this
      ensures Contents() == Run(old(Contents()), n, GettingConfig(resolution.info), replies, resolution).0
    {
      if |replies| == 0 || !replies[0].Success? {
        return;
      }
      RunUnfolds(Contents(), n, GettingConfig(resolution.info), replies, resolution);
      var rest := replies[1..];
      if |rest| == 0 {
        return;
      }
      RunUnfolds(Contents(), n, Continue(Contents(), n, GettingConfig(resolution.info), resolution), rest, resolution);
      PutConfig(n.name, resolution.info, rest[0]);
    }

    method ReconcileDelete(n: NamespacedName, copy: Cluster, replies: seq<Reply>)
      modifies this
      ensures Contents() == Run(old(Contents()), n, DeletingConfig(copy), replies, Unsupported).0
    {
      if |replies| == 0 {
        return;
      }
      RunUnfolds(Contents(), n, DeletingConfig(copy), replies, Unsupported);
      var ok := DeleteConfig(n.name, replies[0]);
      if !ok || FINALIZER !in copy.finalizers || |replies| == 1 {
        return;
      }
      RunUnfolds(Contents(), n, Releasing(copy), replies[1..], Unsupported);
      var kept := WithoutFinalizer(copy.finalizers, FINALIZER);
      ok := PatchFinalizers(n, kept, replies[1]);
    }

    /** Reads the Cluster and follows one of the two paths; `replies` are those after the read. */
    method Reconcile(n: NamespacedName, kind: InfraKind, seen: Reads, replies: seq<Reply>)
      modifies this
      ensures n !in old(clusters) ==> Contents() == old(Contents())
      ensures n in old(clusters) && old(clusters)[n].deleting ==>
                Contents() == Run(old(Contents()), n, DeletingConfig(old(clusters)[n]), replies, Unsupported).0
      ensures n in old(clusters) && !old(clusters)[n].deleting ==>
                Contents() == Run(old(Contents()), n, Resolving(old(clusters)[n]), replies, Resolve(kind, seen)).0
    {
      if n !in clusters {
        return;
      }
      var copy := clusters[n];
      if copy.deleting {
        ReconcileDelete(n, copy, replies);
      } else {
        ReconcileNormal(n, copy, kind, seen, replies);
      }
    }
  }

  lemma RunUnfolds(store: Store, n: NamespacedName, worker: Worker, replies: seq<Reply>, resolution: Resolution)
    requires replies != [] && !worker.Idle?
    ensures Run(store, n, worker, replies, resolution)
         == Run(WorkerStep(store, n, worker, replies[0], resolution).0, n,
                WorkerStep(store, n, worker, replies[0], resolution).1, replies[1..], resolution)
    ensures WorkerStep(store, n, worker, replies[0], resolution).1.Idle? ==>
              Run(store, n, worker, replies, resolution).0 == WorkerStep(store, n, worker, replies[0], resolution).0
  {
  }

  /** One reconciliation without interference, as far as the replies go. */
  function Run(store: Store, n: NamespacedName, worker: Worker, replies: seq<Reply>, resolution: Resolution)
    : (Store, Worker)
    decreases |replies|
  {
    if replies == [] || worker.Idle? then (store, worker)
    else
      var next := WorkerStep(store, n, worker, replies[0], resolution);
      Run(next.0, n, next.1, replies[1..], resolution)
  }

  // ---- all reconciliations at once, with users and crashes in between

  datatype System = System(store: Store, workers: map<NamespacedName, Worker>)

  function WorkerOf(s: System, n: NamespacedName): Worker {
    if n in s.workers then s.workers[n] else Idle
  }

  datatype Step =
    | Call(n: NamespacedName, reply: Reply, resolution: Resolution)
    | Crash
    | UserCreates(n: NamespacedName, cluster: Cluster)
    | UserDeletes(n: NamespacedName)
    | OthersEdit(n: NamespacedName, finalizers: seq<string>)
    | OthersDeleteConfig(name: string)

  /** Users delete at any time; others edit finalizers but leave the operator's alone, and create no ProviderConfig. */
  function Next(s: System, step: Step): System {
    match step
    case Call(n, reply, resolution) =>
      var next := WorkerStep(s.store, n, WorkerOf(s, n), reply, resolution);
      System(next.0, s.workers[n := next.1])
    case Crash => s.(workers := map[])
    case UserCreates(n, cluster) =>
      if n in s.store.clusters || cluster.deleting then s
      else s.(store := s.store.(clusters := s.store.clusters[n := cluster]))
    case UserDeletes(n) =>
      if n !in s.store.clusters then s
      else if s.store.clusters[n].finalizers == [] then s.(store := s.store.(clusters := s.store.clusters - {n}))
      else s.(store := s.store.(clusters := s.store.clusters[n := s.store.clusters[n].(deleting := true)]))
    case OthersEdit(n, finalizers) =>
      if n in s.store.clusters && (FINALIZER in s.store.clusters[n].finalizers ==> FINALIZER in finalizers)
      then s.(store := WithFinalizers(s.store, n, finalizers)) else s
    case OthersDeleteConfig(name) => s.(store := s.store.(configs := s.store.configs - {name}))
  }

  function After(s: System, steps: seq<Step>): System
    decreases |steps|
  {
    if steps == [] then s else After(Next(s, steps[0]), steps[1..])
  }

  predicate Holds(store: Store, n: NamespacedName) {
    n in store.clusters && FINALIZER in store.clusters[n].finalizers
  }

  /** A worker that is about to write a ProviderConfig, or has read the finalizer, can rely on it. */
  predicate WorkerJustified(store: Store, n: NamespacedName, worker: Worker) {
    match worker
    case GettingConfig(_) => Holds(store, n)
    case CreatingConfig(_) => Holds(store, n)
    case PatchingConfig(_) => Holds(store, n)
    case Resolving(copy) => FINALIZER in copy.finalizers ==> Holds(store, n)
    case DeletingConfig(copy) => FINALIZER in copy.finalizers ==> Holds(store, n)
    case Releasing(copy) => FINALIZER in copy.finalizers ==> Holds(store, n)
    case _ => true
  }

  /** Some Cluster of that name holds the finalizer and is not being released. */
  ghost predicate Kept(s: System, name: string) {
    exists n :: KeptBy(s, n, name)
  }

  predicate KeptBy(s: System, n: NamespacedName, name: string) {
    n.name == name && Holds(s.store, n) && !WorkerOf(s, n).Releasing?
  }

  ghost predicate Protected(s: System) {
    && (forall n :: WorkerJustified(s.store, n, WorkerOf(s, n)))
    && (forall name :: name in s.store.configs ==> Kept(s, name))
  }

  lemma FinalizersChangeOne(store: Store, n: NamespacedName, finalizers: seq<string>, other: NamespacedName)
    ensures other != n ==> (Holds(WithFinalizers(store, n, finalizers), other) <==> Holds(store, other))
    ensures FINALIZER in finalizers ==> (Holds(WithFinalizers(store, n, finalizers), n) <==> n in store.clusters)
    ensures WithFinalizers(store, n, finalizers).configs == store.configs
  {
  }

  /** A call changes who holds the finalizer only for its own Cluster, and takes it away only when releasing. */
  lemma CallHolds(store: Store, n: NamespacedName, worker: Worker, other: NamespacedName)
    ensures other != n || !worker.Releasing? ==> (Holds(store, other) ==> Holds(Effect(store, n, worker), other))
    ensures other != n ==> (Holds(Effect(store, n, worker), other) <==> Holds(store, other))
    ensures worker.AddingFinalizer? && n in store.clusters ==> Holds(Effect(store, n, worker), n)
    ensures WorkerJustified(store, n, Idle)
  {
  }

  lemma CallKeepsJustified(s: System, n: NamespacedName, reply: Reply, resolution: Resolution, other: NamespacedName)
    requires Protected(s)
    ensures var s' := Next(s, Call(n, reply, resolution)); WorkerJustified(s'.store, other, WorkerOf(s', other))
  {
    var worker := WorkerOf(s, n);
    assert WorkerJustified(s.store, n, worker);
    assert WorkerJustified(s.store, other, WorkerOf(s, other));
    CallHolds(s.store, n, worker, n);
    CallHolds(s.store, n, worker, other);
  }

  lemma CallKeepsConfigs(s: System, n: NamespacedName, reply: Reply, resolution: Resolution, name: string)
    requires Protected(s)
    requires name in Next(s, Call(n, reply, resolution)).store.configs
    ensures Kept(Next(s, Call(n, reply, resolution)), name)
  {
    var s' := Next(s, Call(n, reply, resolution));
    var worker := WorkerOf(s, n);
    assert WorkerJustified(s.store, n, worker);
    CallHolds(s.store, n, worker, n);
    if name in s.store.configs {
      var k :| KeptBy(s, k, name);
      CallHolds(s.store, n, worker, k);
      assert KeptBy(s', k, name);
    } else {
      assert worker.CreatingConfig? && name == n.name;
      assert KeptBy(s', n, name);
    }
  }

  lemma UserKeepsHolders(s: System, step: Step, other: NamespacedName)
    requires !step.Call? && Holds(s.store, other)
    ensures Holds(Next(s, step).store, other)
  {
    if step.OthersEdit? {
      FinalizersChangeOne(s.store, step.n, step.finalizers, other);
    }
  }

  lemma UserKeepsWorker(s: System, step: Step, n: NamespacedName)
    requires Protected(s) && !step.Call?
    ensures WorkerJustified(Next(s, step).store, n, WorkerOf(Next(s, step), n))
  {
    assert WorkerJustified(s.store, n, WorkerOf(s, n));
    if Holds(s.store, n) {
      UserKeepsHolders(s, step, n);
    }
  }

  lemma UserKeepsProtected(s: System, step: Step)
    requires Protected(s) && !step.Call?
    ensures Protected(Next(s, step))
  {
    var s' := Next(s, step);
    forall n ensures WorkerJustified(s'.store, n, WorkerOf(s', n)) {
      UserKeepsWorker(s, step, n);
    }
    forall name | name in s'.store.configs ensures Kept(s', name) {
      var k :| KeptBy(s, k, name);
      UserKeepsHolders(s, step, k);
      assert KeptBy(s', k, name);
    }
  }

  lemma StepKeepsProtected(s: System, step: Step)
    requires Protected(s)
    ensures Protected(Next(s, step))
  {
    if step.Call? {
      forall other ensures WorkerJustified(Next(s, step).store, other, WorkerOf(Next(s, step), other)) {
        CallKeepsJustified(s, step.n, step.reply, step.resolution, other);
      }
      forall name | name in Next(s, step).store.configs ensures Kept(Next(s, step), name) {
        CallKeepsConfigs(s, step.n, step.reply, step.resolution, name);
      }
    } else {
      UserKeepsProtected(s, step);
    }
  }

  /** Whatever the interleaving of reconciliations, crashes, lost replies and users, a ProviderConfig
      exists only while some Cluster of its name, in whatever namespace, holds the finalizer. */
  lemma {:induction false} ConfigsNeverOutliveClusters(s: System, steps: seq<Step>)
    requires Protected(s)
    ensures Protected(After(s, steps))
    ensures forall name :: name in After(s, steps).store.configs ==>
            exists n: NamespacedName :: n.name == name && Holds(After(s, steps).store, n)
    decreases |steps|
  {
    if steps == [] {
      forall name | name in s.store.configs ensures exists n: NamespacedName :: n.name == name && Holds(s.store, n) {
        var n :| KeptBy(s, n, name);
      }
    } else {
      StepKeepsProtected(s, steps[0]);
      ConfigsNeverOutliveClusters(Next(s, steps[0]), steps[1..]);
    }
  }

  /** A store without ProviderConfigs and without reconciliations under way is a protected start. */
  lemma EmptyIsProtected(clusters: map<NamespacedName, Cluster>)
    ensures Protected(System(Store(clusters, map[]), map[]))
  {
  }

  // ---- current reads are needed

  /** A worker that reads a Cluster which is already gone, from a cache that still shows its finalizer,
      writes a ProviderConfig that no Cluster will ever clean up. */
  lemma StaleReadOrphans(n: NamespacedName, stale: Cluster, info: IdentityInfo)
    requires FINALIZER in stale.finalizers
    ensures var s := System(Store(map[], map[]), map[n := Resolving(stale)]);
            var call := Call(n, Success, Supported(info));
            !Protected(s) && After(s, [call, call, call]).store == Store(map[], map[n.name := info])
  {
    var s := System(Store(map[], map[]), map[n := Resolving(stale)]);
    var call := Call(n, Success, Supported(info));
    assert !WorkerJustified(s.store, n, WorkerOf(s, n));
    var s1 := Next(s, call);
    var s2 := Next(s1, call);
    var s3 := Next(s2, call);
    assert WorkerOf(s1, n) == GettingConfig(info);
    assert WorkerOf(s2, n) == CreatingConfig(info);
    assert [call, call, call][1..] == [call, call] && [call, call][1..] == [call] && [call][1..] == [];
    assert After(s, [call, call, call]) == After(s1, [call, call]) == After(s2, [call]) == After(s3, []);
  }

  ghost predicate SomeHolder(store: Store, name: string) {
    exists n: NamespacedName :: n.name == name && Holds(store, n)
  }

  /** No ProviderConfig is without a Cluster of its name that holds the finalizer. */
  ghost predicate NoOrphan(store: Store) {
    forall name :: name in store.configs ==> SomeHolder(store, name)
  }

  /** A worker on the way to writing a ProviderConfig leaves none orphaned. */
  ghost predicate SafeWorker(store: Store, n: NamespacedName, worker: Worker) {
    match worker
    case Idle => true
    case Resolving(copy) => FINALIZER in copy.finalizers ==> SomeHolder(store, n.name)
    case AddingFinalizer(_, _) => true
    case GettingConfig(_) => SomeHolder(store, n.name)
    case CreatingConfig(_) => SomeHolder(store, n.name)
    case PatchingConfig(_) => SomeHolder(store, n.name)
    case _ => false
  }

  lemma CallKeepsHolder(store: Store, n: NamespacedName, worker: Worker, name: string)
    requires SafeWorker(store, n, worker) && SomeHolder(store, name)
    ensures SomeHolder(Effect(store, n, worker), name)
  {
    var m: NamespacedName :| m.name == name && Holds(store, m);
    CallHolds(store, n, worker, m);
    assert Holds(Effect(store, n, worker), m);
  }

  lemma SafeStep(store: Store, n: NamespacedName, worker: Worker, reply: Reply, resolution: Resolution)
    requires NoOrphan(store) && SafeWorker(store, n, worker) && !worker.Idle?
    ensures NoOrphan(WorkerStep(store, n, worker, reply, resolution).0)
    ensures SafeWorker(WorkerStep(store, n, worker, reply, resolution).0, n,
                       WorkerStep(store, n, worker, reply, resolution).1)
  {
    var after := Effect(store, n, worker);
    forall name | SomeHolder(store, name) ensures SomeHolder(after, name) {
      CallKeepsHolder(store, n, worker, name);
    }
    CallHolds(store, n, worker, n);
  }

  lemma {:induction false} SafeRun(store: Store, n: NamespacedName, worker: Worker, replies: seq<Reply>,
                                   resolution: Resolution)
    requires NoOrphan(store) && SafeWorker(store, n, worker)
    ensures NoOrphan(Run(store, n, worker, replies, resolution).0)
    decreases |replies|
  {
    if replies != [] && !worker.Idle? {
      var next := WorkerStep(store, n, worker, replies[0], resolution);
      SafeStep(store, n, worker, replies[0], resolution);
      RunUnfolds(store, n, worker, replies, resolution);
      SafeRun(next.0, n, next.1, replies[1..], resolution);
    }
  }

  /** A reconciliation that works on any copy of a supported Cluster, however old, and may be cut off or lose
      replies anywhere, orphans no ProviderConfig, if and only if a copy with the finalizer is backed by some
      Cluster of that name that holds it now. */
  lemma StaleReadExactly(store: Store, n: NamespacedName, copy: Cluster, info: IdentityInfo)
    requires NoOrphan(store)
    ensures (forall replies :: NoOrphan(Run(store, n, Resolving(copy), replies, Supported(info)).0))
       <==> (FINALIZER in copy.finalizers ==> SomeHolder(store, n.name))
  {
    var r := Supported(info);
    if FINALIZER in copy.finalizers ==> SomeHolder(store, n.name) {
      forall replies ensures NoOrphan(Run(store, n, Resolving(copy), replies, r).0) {
        SafeRun(store, n, Resolving(copy), replies, r);
      }
    } else {
      RunUnfolds(store, n, Resolving(copy), FOUR, r);
      UndisturbedWrite(store, n, info, FOUR[1..]);
      var after := Run(store, n, Resolving(copy), FOUR, r).0;
      assert n.name in after.configs && after.clusters == store.clusters;
      assert SomeHolder(after, n.name) <==> SomeHolder(store, n.name);
    }
  }

  // ---- whose deletion takes a ProviderConfig away

  /** The operator is about to delete the ProviderConfig named after this Cluster, or will once it reads it again. */
  predicate DeletionPending(s: System, n: NamespacedName) {
    WorkerOf(s, n).DeletingConfig? || (n in s.store.clusters && s.store.clusters[n].deleting)
  }

  ghost predicate SomeDeletionPending(s: System, name: string) {
    exists n: NamespacedName :: n.name == name && DeletionPending(s, n)
  }

  /** Users delete neither a Cluster of that name nor the ProviderConfig itself. */
  predicate Spares(step: Step, name: string) {
    && (step.UserDeletes? ==> step.n.name != name)
    && (step.OthersDeleteConfig? ==> step.name != name)
  }

  lemma StepSpares(s: System, step: Step, name: string)
    requires Spares(step, name) && name in s.store.configs && !SomeDeletionPending(s, name)
    ensures name in Next(s, step).store.configs && !SomeDeletionPending(Next(s, step), name)
  {
    var s' := Next(s, step);
    forall n: NamespacedName | n.name == name ensures !DeletionPending(s', n) {
      assert !DeletionPending(s, n);
    }
    if step.Call? && step.n.name == name {
      assert !DeletionPending(s, step.n);
    }
  }

  lemma {:induction false} NothingPendingKeeps(s: System, steps: seq<Step>, name: string)
    requires forall step :: step in steps ==> Spares(step, name)
    requires name in s.store.configs && !SomeDeletionPending(s, name)
    ensures name in After(s, steps).store.configs
    decreases |steps|
  {
    if steps != [] {
      assert steps[0] in steps && forall step :: step in steps[1..] ==> step in steps;
      StepSpares(s, steps[0], name);
      NothingPendingKeeps(Next(s, steps[0]), steps[1..], name);
    }
  }

  /** The calls by which a worker takes the ProviderConfig away: it gives up what it is doing, reads, deletes. */
  function Undoing(s: System, n: NamespacedName): seq<Step> {
    var delete := Call(n, Success, Unsupported);
    if WorkerOf(s, n).DeletingConfig? then [delete] else [Call(n, Refused, Unsupported), delete, delete]
  }

  lemma PendingTakes(s: System, n: NamespacedName)
    requires DeletionPending(s, n)
    ensures n.name !in After(s, Undoing(s, n)).store.configs
    ensures forall step :: step in Undoing(s, n) ==> Spares(step, n.name)
  {
    var delete := Call(n, Success, Unsupported);
    assert [delete][1..] == [];
    if WorkerOf(s, n).DeletingConfig? {
      assert After(s, [delete]) == After(Next(s, delete), []);
    } else {
      var s1 := Next(s, Call(n, Refused, Unsupported));
      var s2 := Next(s1, delete);
      assert [Call(n, Refused, Unsupported), delete, delete][1..] == [delete, delete]
          && [delete, delete][1..] == [delete];
      assert WorkerOf(s2, n) == DeletingConfig(s.store.clusters[n]);
      assert After(s, Undoing(s, n)) == After(s1, [delete, delete]) == After(s2, [delete])
          == After(Next(s2, delete), []);
    }
  }

  /** A ProviderConfig survives whatever the operator does, with crashes and lost replies, if and only if no
      Cluster of its name, in any namespace, is being deleted. Who holds the finalizer does not matter. */
  lemma ConfigSurvivesExactly(s: System, name: string)
    requires name in s.store.configs
    ensures (forall steps :: (forall step :: step in steps ==> Spares(step, name)) ==>
            name in After(s, steps).store.configs)
       <==> !SomeDeletionPending(s, name)
  {
    if SomeDeletionPending(s, name) {
      var n: NamespacedName :| n.name == name && DeletionPending(s, n);
      PendingTakes(s, n);
    } else {
      forall steps | forall step :: step in steps ==> Spares(step, name)
        ensures name in After(s, steps).store.configs
      {
        NothingPendingKeeps(s, steps, name);
      }
    }
  }

  /** So a Cluster that holds the finalizer loses its ProviderConfig to the deletion of a namesake. */
  lemma NamesakeTakesConfig(a: NamespacedName, b: NamespacedName, info: IdentityInfo)
    requires a != b && a.name == b.name
    ensures var clusters := map[a := Cluster(true, [FINALIZER]), b := Cluster(false, [FINALIZER])];
            var s := System(Store(clusters, map[b.name := info]), map[]);
            && Protected(s) && (forall step :: step in Undoing(s, a) ==> Spares(step, b.name))
            && b.name !in After(s, Undoing(s, a)).store.configs
            && Holds(After(s, Undoing(s, a)).store, b)
  {
    var clusters := map[a := Cluster(true, [FINALIZER]), b := Cluster(false, [FINALIZER])];
    var s := System(Store(clusters, map[b.name := info]), map[]);
    assert [FINALIZER][0] == FINALIZER;
    assert KeptBy(s, b, b.name);
    PendingTakes(s, a);
    StepsKeepHolder(s, Undoing(s, a), a, b);
  }

  /** Calls for one Cluster leave the finalizer of another. */
  lemma {:induction false} StepsKeepHolder(s: System, steps: seq<Step>, a: NamespacedName, b: NamespacedName)
    requires a != b && Holds(s.store, b)
    requires forall step :: step in steps ==> step.Call? && step.n == a
    ensures Holds(After(s, steps).store, b)
    decreases |steps|
  {
    if steps != [] {
      assert steps[0] in steps && forall step :: step in steps[1..] ==> step in steps;
      CallHolds(s.store, a, WorkerOf(s, a), b);
      StepsKeepHolder(Next(s, steps[0]), steps[1..], a, b);
    }
  }

  // ---- undisturbed reconciliations

  const FOUR := [Success, Success, Success, Success]

  lemma UndisturbedWrite(store: Store, n: NamespacedName, info: IdentityInfo, replies: seq<Reply>)
    requires |replies| >= 2 && replies[0].Success? && !replies[1].Refused?
    ensures Run(store, n, GettingConfig(info), replies, Supported(info)).0
         == store.(configs := store.configs[n.name := info])
  {
    var r := Supported(info);
    RunUnfolds(store, n, GettingConfig(info), replies, r);
    RunUnfolds(store, n, Continue(store, n, GettingConfig(info), r), replies[1..], r);
  }

  /** An undisturbed reconciliation of a supported Cluster, the first or a later one, ends with the finalizer in
      place and the ProviderConfig carrying the resolved identity. */
  lemma UndisturbedNormal(store: Store, n: NamespacedName, info: IdentityInfo)
    requires n in store.clusters && !store.clusters[n].deleting
    ensures Run(store, n, Resolving(store.clusters[n]), FOUR, Supported(info)).0
         == Store(store.clusters[n := Cluster(false, WithFinalizer(store.clusters[n].finalizers, FINALIZER))],
                  store.configs[n.name := info])
  {
    var copy, r := store.clusters[n], Supported(info);
    RunUnfolds(store, n, Resolving(copy), FOUR, r);
    if FINALIZER in copy.finalizers {
      UndisturbedWrite(store, n, info, FOUR[1..]);
      assert store.clusters[n := copy] == store.clusters;
    } else {
      RunUnfolds(store, n, AddingFinalizer(copy, info), FOUR[1..], r);
      UndisturbedWrite(WithFinalizers(store, n, copy.finalizers + [FINALIZER]), n, info, FOUR[2..]);
    }
  }

  /** Finalizer and ProviderConfig are as a reconciliation would leave them. */
  predicate UpToDate(store: Store, n: NamespacedName, info: IdentityInfo) {
    Holds(store, n) && n.name in store.configs && store.configs[n.name] == info
  }

  /** Run to its end, a reconciliation of a Cluster that is not being deleted writes anything, the finalizer
      included, if and only if the Cluster refers to a usable identity and is not up to date with it. */
  lemma OnlySupportedTouched(store: Store, n: NamespacedName, kind: InfraKind, seen: Reads)
    requires n in store.clusters && !store.clusters[n].deleting
    ensures Run(store, n, Resolving(store.clusters[n]), FOUR, Resolve(kind, seen)).0 != store
       <==> && (exists ref :: Refers(kind, seen, ref) && Usable(seen, ref))
            && !UpToDate(store, n, Resolve(kind, seen).info)
  {
    SupportedExactly(kind, seen);
    var r := Resolve(kind, seen);
    if r.Supported? {
      var finalizers := store.clusters[n].finalizers;
      UndisturbedNormal(store, n, r.info);
      assert |finalizers + [FINALIZER]| != |finalizers|;
      assert UpToDate(store, n, r.info) ==> store.clusters[n := store.clusters[n]] == store.clusters;
      assert UpToDate(store, n, r.info) ==> store.configs[n.name := r.info] == store.configs;
    } else {
      RunUnfolds(store, n, Resolving(store.clusters[n]), FOUR, r);
    }
  }

  // ---- from the read on

  function Calls(n: NamespacedName, count: nat, resolution: Resolution): seq<Step> {
    if count == 0 then [] else [Call(n, Success, resolution)] + Calls(n, count - 1, resolution)
  }

  lemma CallsUnfold(s: System, n: NamespacedName, count: nat, resolution: Resolution)
    requires count > 0
    ensures After(s, Calls(n, count, resolution))
         == After(Next(s, Call(n, Success, resolution)), Calls(n, count - 1, resolution))
  {
    assert Calls(n, count, resolution)[1..] == Calls(n, count - 1, resolution);
  }

  /** From `worker`, five calls, the read among them, get a supported Cluster through. */
  lemma WritesAfterGet(s: System, n: NamespacedName, info: IdentityInfo, count: nat)
    requires n in s.store.clusters && WorkerOf(s, n) == GettingConfig(info) && 2 <= count <= 3
    ensures After(s, Calls(n, count, Supported(info))).store == s.store.(configs := s.store.configs[n.name := info])
  {
    var r := Supported(info);
    var s1 := Next(s, Call(n, Success, r));
    var s2 := Next(s1, Call(n, Success, r));
    CallsUnfold(s, n, count, r);
    CallsUnfold(s1, n, count - 1, r);
    if count == 3 {
      CallsUnfold(s2, n, 1, r);
    }
  }

  /** A Cluster's finalizers with the operator's, and those that are not the operator's. */
  function WithOwn(finalizers: seq<string>): seq<string> {
    if "azure.giantswarm.io/providerconfig" in finalizers then finalizers
    else finalizers + ["azure.giantswarm.io/providerconfig"]
  }

  function OthersOf(finalizers: seq<string>): seq<string> {
    Filter((f: string) => f != "azure.giantswarm.io/providerconfig", finalizers)
  }

  /** Five calls by a worker that starts with a read leave a supported Cluster with its own finalizers, the
      operator's after them if it was missing, and the ProviderConfig of its name with the given identity. */
  lemma ReadThenWrite(store: Store, n: NamespacedName, info: IdentityInfo)
    requires n in store.clusters && !store.clusters[n].deleting
    ensures After(System(store, map[]), Calls(n, 5, Supported(info))).store
         == Store(store.clusters[n := Cluster(false, WithOwn(store.clusters[n].finalizers))],
                  store.configs[n.name := info])
  {
    var r, copy := Supported(info), store.clusters[n];
    var s := System(store, map[]);
    var s1 := Next(s, Call(n, Success, r));
    var s2 := Next(s1, Call(n, Success, r));
    CallsUnfold(s, n, 5, r);
    CallsUnfold(s1, n, 4, r);
    assert WorkerOf(s1, n) == Resolving(copy) && s2.store == store;
    if FINALIZER in copy.finalizers {
      WritesAfterGet(s2, n, info, 3);
      assert store.clusters[n := copy] == store.clusters;
    } else {
      CallsUnfold(s2, n, 3, r);
      WritesAfterGet(Next(s2, Call(n, Success, r)), n, info, 2);
    }
  }

  /** So the ProviderConfig carries the credentials of the identity that the Cluster refers to. */
  lemma ReadStoresIdentity(store: Store, n: NamespacedName, kind: InfraKind, seen: Reads, ref: IdentityRef)
    requires n in store.clusters && !store.clusters[n].deleting
    requires Refers(kind, seen, ref) && Usable(seen, ref)
    ensures var after := After(System(store, map[]), Calls(n, 5, Resolve(kind, seen))).store;
            n.name in after.configs && Carries(after.configs[n.name], seen, ref)
  {
    ResolvesToIdentity(kind, seen, ref);
    ReadThenWrite(store, n, Resolve(kind, seen).info);
  }

  /** Three calls by a worker that starts with a read remove the ProviderConfig of a deleted Cluster and the
      operator's finalizer; the Cluster goes with its last one. */
  lemma ReadThenDelete(store: Store, n: NamespacedName, resolution: Resolution)
    requires n in store.clusters && store.clusters[n].deleting && store.clusters[n].finalizers != []
    ensures After(System(store, map[]), Calls(n, 3, resolution)).store
         == Store(if OthersOf(store.clusters[n].finalizers) == [] then store.clusters - {n}
                  else store.clusters[n := Cluster(true, OthersOf(store.clusters[n].finalizers))],
                  store.configs - {n.name})
  {
    var copy := store.clusters[n];
    var others := WithoutFinalizer(copy.finalizers, FINALIZER);
    FilterIsOther(copy.finalizers);
    var s := System(store, map[]);
    var s1 := Next(s, Call(n, Success, resolution));
    var s2 := Next(s1, Call(n, Success, resolution));
    CallsUnfold(s, n, 3, resolution);
    CallsUnfold(s1, n, 2, resolution);
    CallsUnfold(s2, n, 1, resolution);
    assert WorkerOf(s1, n) == DeletingConfig(copy);
    assert s2.store == store.(configs := store.configs - {n.name});
    if FINALIZER !in copy.finalizers {
      FilterAll(IsOther(FINALIZER), copy.finalizers);
      assert store.clusters[n := copy] == store.clusters;
    }
  }

  lemma {:induction false} FilterIsOther(finalizers: seq<string>)
    ensures WithoutFinalizer(finalizers, FINALIZER) == OthersOf(finalizers)
  {
    if finalizers != [] {
      FilterIsOther(finalizers[1..]);
    }
  }

  /** A Cluster that is gone is left alone. */
  lemma {:induction false} ReadNothing(store: Store, n: NamespacedName, count: nat, resolution: Resolution)
    requires n !in store.clusters
    ensures After(System(store, map[n := Idle]), Calls(n, count, resolution)) == System(store, map[n := Idle])
  {
    if count > 0 {
      CallsUnfold(System(store, map[n := Idle]), n, count, resolution);
      assert map[n := Worker.Idle][n := Idle] == map[n := Idle];
      ReadNothing(store, n, count - 1, resolution);
    }
  }

  lemma WithoutLast(others: seq<string>)
    requires FINALIZER !in others
    ensures WithoutFinalizer(others + [FINALIZER], FINALIZER) == others && FINALIZER in others + [FINALIZER]
  {
    FilterAppend(IsOther(FINALIZER), others, [FINALIZER]);
    FilterAll(IsOther(FINALIZER), others);
    assert others + [] == others;
    assert (others + [FINALIZER])[|others|] == FINALIZER;
  }

  lemma UndisturbedDelete(store: Store, n: NamespacedName, others: seq<string>)
    requires n in store.clusters && store.clusters[n] == Cluster(true, others + [FINALIZER]) && FINALIZER !in others
    ensures Run(store, n, DeletingConfig(store.clusters[n]), [Success, Success], Unsupported).0
         == Store(if others == [] then store.clusters - {n} else store.clusters[n := Cluster(true, others)],
                  store.configs - {n.name})
  {
    var copy := store.clusters[n];
    var replies := [Success, Success];
    WithoutLast(others);
    RunUnfolds(store, n, DeletingConfig(copy), replies, Unsupported);
    var store' := store.(configs := store.configs - {n.name});
    RunUnfolds(store', n, Releasing(copy), replies[1..], Unsupported);
  }

  /** Creating, marking for deletion and deleting leaves no trace: the ProviderConfigs are as before, and the
      Cluster has its own finalizers again, or is gone if it had none. */
  lemma CreateDelete(store: Store, n: NamespacedName, info: IdentityInfo)
    requires n in store.clusters && !store.clusters[n].deleting && FINALIZER !in store.clusters[n].finalizers
    requires n.name !in store.configs
    ensures var created := Run(store, n, Resolving(store.clusters[n]), FOUR, Supported(info)).0;
            var marked := Next(System(created, map[]), UserDeletes(n)).store;
            n in marked.clusters
            && Run(marked, n, DeletingConfig(marked.clusters[n]), [Success, Success], Unsupported).0
               == Store(if store.clusters[n].finalizers == [] then store.clusters - {n}
                        else store.clusters[n := store.clusters[n].(deleting := true)],
                        store.configs)
  {
    UndisturbedNormal(store, n, info);
    var others := store.clusters[n].finalizers;
    var created := Run(store, n, Resolving(store.clusters[n]), FOUR, Supported(info)).0;
    var marked := Next(System(created, map[]), UserDeletes(n)).store;
    assert created.clusters[n].finalizers[|others|] == FINALIZER;
    UndisturbedDelete(marked, n, others);
    assert marked.configs - {n.name} == store.configs;
    if others == [] {
      assert marked.clusters - {n} == store.clusters - {n};
    } else {
      assert marked.clusters[n := Cluster(true, others)] == store.clusters[n := store.clusters[n].(deleting := true)];
    }
  }
}
