/** pkg/azurecluster/scope.go: the AzureCluster that a run holds in memory and edits. */
module ClusterObjects {
  import opened Types
  import opened Sequences
  import opened Conditions
  import opened EndpointLists
  import opened EndpointSlices

  /** NewScope's choice of the subnet that holds the private endpoints: the first node subnet, else the first one. */
  function EndpointSubnet(subnets: seq<Subnet>): (k: nat)
    requires subnets != []
    ensures k < |subnets|
    ensures (exists i :: 0 <= i < |subnets| && subnets[i].role == Node) ==>
              subnets[k].role == Node && forall i :: 0 <= i < k ==> subnets[i].role != Node
    ensures (forall i :: 0 <= i < |subnets| ==> subnets[i].role != Node) ==> k == 0
  {
    if subnets[0].role == Node then 0
    else if |subnets| > 1 && subnets[1 + EndpointSubnet(subnets[1..])].role == Node
    then 1 + EndpointSubnet(subnets[1..])
    else 0
  }

  method ChooseSubnet(subnets: seq<Subnet>) returns (chosen: Result<nat, Error>)
    ensures subnets == [] ==> chosen == Err(SubnetsNotSet)
    ensures subnets != [] ==> chosen == Ok(EndpointSubnet(subnets))
  {
    var node: Option<nat> := None;
    for i := 0 to |subnets|
      invariant node.None? && forall j :: 0 <= j < i ==> subnets[j].role != Node
    {
      if subnets[i].role == Node {
        node := Some(i);
        break;
      }
    }
    if node.Some? {
      return Ok(node.value);
    }
    if |subnets| == 0 {
      return Err(SubnetsNotSet);
    }
    return Ok(0);
  }

  function EndpointsOf(c: AzureCluster): Endpoints {
    if c.subnets == [] then [] else c.subnets[EndpointSubnet(c.subnets)].endpoints
  }

  function WithEndpoints(c: AzureCluster, list: Endpoints): AzureCluster {
    if c.subnets == [] then c
    else
      var k := EndpointSubnet(c.subnets);
      c.(subnets := c.subnets[k := c.subnets[k].(endpoints := list)])
  }

  lemma {:induction false} SubnetChoiceIgnoresEndpoints(a: seq<Subnet>, b: seq<Subnet>)
    requires |a| == |b| > 0 && forall i :: 0 <= i < |a| ==> a[i].role == b[i].role
    ensures EndpointSubnet(a) == EndpointSubnet(b)
  {
    var k, m := EndpointSubnet(a), EndpointSubnet(b);
    if exists i :: 0 <= i < |a| && a[i].role == Node {
      var i :| 0 <= i < |a| && a[i].role == Node;
      assert b[i].role == Node;
      assert a[m].role == Node && b[k].role == Node;
    }
  }

  /** Writing the endpoint list back changes what is read next, and nothing else. */
  lemma ReadBack(c: AzureCluster, list: Endpoints)
    ensures c.subnets != [] ==> EndpointsOf(WithEndpoints(c, list)) == list
    ensures WithEndpoints(c, EndpointsOf(c)) == c
    ensures |WithEndpoints(c, list).subnets| == |c.subnets|
    ensures WithEndpoints(c, list).(subnets := c.subnets) == c
    ensures forall i :: 0 <= i < |c.subnets| ==> WithEndpoints(c, list).subnets[i].role == c.subnets[i].role
    ensures forall i :: 0 <= i < |c.subnets| && i != EndpointSubnet(c.subnets) ==>
              WithEndpoints(c, list).subnets[i] == c.subnets[i]
  {
    if c.subnets != [] {
      SubnetChoiceIgnoresEndpoints(c.subnets, WithEndpoints(c, list).subnets);
    }
  }

  class ClusterObject {
    const stored: AzureCluster
    const endpoints: EndpointSlice
    var annotations: map<string, string>
    var conditions: seq<Condition>
    var finalizers: seq<string>

    ghost predicate Valid()
      reads this, endpoints
    {
      endpoints.Valid()
    }

    /** The object as a patch would store it. */
    function Value(): AzureCluster
      reads this, endpoints, endpoints.data
      requires Valid()
    {
      WithEndpoints(stored, endpoints.Contents()).(annotations := annotations, conditions := conditions,
                                                   finalizers := finalizers)
    }

    /** A fresh copy of what the API server returned. */
    constructor (c: AzureCluster)
      ensures fresh(endpoints) && fresh(endpoints.data) && Valid()
      ensures stored == c && endpoints.Contents() == EndpointsOf(c)
      ensures annotations == c.annotations && conditions == c.conditions && finalizers == c.finalizers
      ensures Value() == c
    {
      stored := c;
      endpoints := new EndpointSlice(EndpointsOf(c));
      annotations := c.annotations;
      conditions := c.conditions;
      finalizers := c.finalizers;
      new;
      ReadBack(c, endpoints.Contents());
    }

    method IsConditionTrue(kind: string) returns (r: bool)
      ensures r == IsTrue(conditions, kind)
    {
      var i := 0;
      while i < |conditions|
        invariant 0 <= i <= |conditions|
        invariant First(conditions, kind) == First(conditions[i..], kind)
      {
        assert conditions[i..][0] == conditions[i] && conditions[i..][1..] == conditions[i + 1..];
        if conditions[i].kind == kind {
          return conditions[i].status == ConditionTrue;
        }
        i := i + 1;
      }
      return false;
    }

    method SetAnnotation(annotation: string, value: string)
      modifies this`annotations
      ensures annotations == old(annotations)[annotation := value]
    {
      annotations := annotations[annotation := value];
    }

    method SetCondition(condition: Condition)
      modifies this`conditions
      ensures conditions == old(conditions) + [condition]
    {
      conditions := conditions + [condition];
    }

    method SetFinalizer(finalizer: string)
      modifies this`finalizers
      ensures finalizers == WithFinalizer(old(finalizers), finalizer)
    {
      if finalizer !in finalizers {
        finalizers := finalizers + [finalizer];
      }
    }

    method RemoveFinalizer(finalizer: string)
      modifies this`finalizers
      ensures finalizers == WithoutFinalizer(old(finalizers), finalizer)
    {
      var all, kept: seq<string> := finalizers, [];
      for i := 0 to |all|
        invariant kept == WithoutFinalizer(all[..i], finalizer)
      {
        assert all[..i + 1] == all[..i] + [all[i]];
        FilterAppend(IsOther(finalizer), all[..i], [all[i]]);
        if all[i] != finalizer {
          kept := kept + [all[i]];
        }
      }
      assert all[..|all|] == all;
      finalizers := kept;
    }
  }

  function WithFinalizer(finalizers: seq<string>, finalizer: string): seq<string> {
    if finalizer in finalizers then finalizers else finalizers + [finalizer]
  }

  function IsOther(finalizer: string): string -> bool {
    (f: string) => f != finalizer
  }

  function WithoutFinalizer(finalizers: seq<string>, finalizer: string): seq<string> {
    Filter(IsOther(finalizer), finalizers)
  }
}
