/** The values that the controllers read and write. */
module Types {

  /** A Go pointer to a value that is never written through: None is nil. */
  datatype Option<+T> = None | Some(value: T)

  datatype Result<+T, +E> = Ok(value: T) | Err(error: E)

  /** The error kinds of pkg/errors, and the failures of the Azure and Kubernetes clients. */
  datatype Error =
    | SubnetsNotSet
    | SubscriptionCannotConnectToPrivateLink
    | PrivateLinksNotReady
    | PrivateEndpointNotFound
    | NetworkInterfaceNotFound
    | PrivateAddressNotFound
    | UnknownLoadBalancerType
    | ObjectNotFound
    | ClientFailure
    | PatchFailure(of: NamespacedName)
    | NilDereference

  /** Errors that make the AzureCluster controller try again in a minute. */
  predicate IsRetriable(e: Error) {
    e.PrivateLinksNotReady? || e.PrivateEndpointNotFound? || e.NetworkInterfaceNotFound? || e.PrivateAddressNotFound?
  }

  datatype NamespacedName = NamespacedName(ns: string, name: string)

  datatype PrivateLinkServiceConnection =
    PrivateLinkServiceConnection(name: string, privateLinkServiceID: string, requestMessage: string)

  datatype PrivateEndpointSpec = PrivateEndpointSpec(
    name: string,
    location: string,
    connections: seq<PrivateLinkServiceConnection>,
    manualApproval: bool)

  datatype PrivateLink = PrivateLink(
    name: string,
    allowedSubscriptions: seq<Option<string>>,
    autoApprovedSubscriptions: seq<Option<string>>)

  datatype ConditionStatus = ConditionTrue | ConditionFalse | ConditionUnknown

  datatype Condition = Condition(kind: string, status: ConditionStatus)

  datatype LBType = Internal | Public | OtherLBType(text: string)

  datatype SubnetRole = Node | ControlPlaneRole | OtherRole(text: string)

  datatype Subnet = Subnet(role: SubnetRole, endpoints: seq<PrivateEndpointSpec>)

  /** What identifies a cluster to Azure and to Kubernetes; nothing here changes it. */
  datatype ClusterInfo = ClusterInfo(
    id: NamespacedName,
    subscriptionID: string,
    location: string,
    resourceGroup: string)

  /** An AzureCluster as the API server stores it. */
  datatype AzureCluster = AzureCluster(
    info: ClusterInfo,
    lbType: LBType,
    privateLinks: seq<PrivateLink>,
    subnets: seq<Subnet>,
    annotations: map<string, string>,
    conditions: seq<Condition>,
    finalizers: seq<string>,
    deleting: bool)

  const GS_PRIVATE_LINKS_READY := "GSPrivateLinksReady"
  const PRIVATE_LINKS_READY := "PrivateLinksReady"
  const API_SERVER_ANNOTATION := "azure-private-endpoint-operator.giantswarm.io/private-link-apiserver-ip"
  const MC_INGRESS_ANNOTATION := "azure-private-endpoint-operator.giantswarm.io/private-link-mc-ingress-ip"
  const PAUSED_ANNOTATION := "cluster.x-k8s.io/paused"
  const AZURE_CLUSTER_FINALIZER := "azure-private-endpoint-operator.giantswarm.io/azurecluster"
}
