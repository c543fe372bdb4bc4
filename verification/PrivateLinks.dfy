/** The private links of a workload cluster: which ones a subscription may connect to, and lookup by resource ID. */
module PrivateLinks {
  import opened Types
  import opened Sequences
  import opened ResourceIds

  function IDOf(wc: ClusterInfo, name: string): string {
    LinkID(wc.subscriptionID, wc.resourceGroup, name)
  }

  function Allows(subscription: string): PrivateLink -> bool {
    (l: PrivateLink) => Some(subscription) in l.allowedSubscriptions
  }

  function Allowed(links: seq<PrivateLink>, subscription: string): seq<PrivateLink> {
    Filter(Allows(subscription), links)
  }

  function FirstWithID(wc: ClusterInfo, links: seq<PrivateLink>, id: string): Option<PrivateLink> {
    if links == [] then None
    else if IDOf(wc, links[0].name) == id then Some(links[0])
    else FirstWithID(wc, links[1..], id)
  }

  function FirstNamed(links: seq<PrivateLink>, name: string): Option<PrivateLink> {
    if links == [] then None
    else if links[0].name == name then Some(links[0])
    else FirstNamed(links[1..], name)
  }

  /** Looking up the ID built from a name is looking up the name. */
  lemma {:induction false} LookupRoundTrip(wc: ClusterInfo, links: seq<PrivateLink>, name: string)
    ensures FirstWithID(wc, links, IDOf(wc, name)) == FirstNamed(links, name)
    ensures FirstNamed(links, name).Some? <==> exists l :: l in links && l.name == name
    ensures FirstNamed(links, name).Some? ==>
            FirstNamed(links, name).value in links && FirstNamed(links, name).value.name == name
  {
    if links != [] {
      LinkIDInjectiveInName(wc.subscriptionID, wc.resourceGroup, links[0].name, name);
      LookupRoundTrip(wc, links[1..], name);
      assert links[0] in links;
      assert forall l :: l in links <==> l == links[0] || l in links[1..];
    }
  }

  /** The lookup finds exactly the IDs of existing links. */
  lemma {:induction false} LookupFinds(wc: ClusterInfo, links: seq<PrivateLink>, id: string)
    ensures FirstWithID(wc, links, id).Some? <==> exists l :: l in links && IDOf(wc, l.name) == id
  {
    if links != [] {
      LookupFinds(wc, links[1..], id);
      assert links[0] in links;
      assert forall l :: l in links <==> l == links[0] || l in links[1..];
    }
  }
}
