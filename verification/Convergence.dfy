/** How many runs a workload cluster needs until every wanted endpoint has its IP. */
module Convergence {
  import opened Types
  import opened EndpointLists
  import opened ServiceSpec

  /** The wanted names that the list does not carry yet. */
  function Missing(specs: Endpoints, list: Endpoints): set<string> {
    set i | 0 <= i < |specs| && !HasName(list, specs[i].name) :: specs[i].name
  }

  /** Azure has an IP for every wanted endpoint that was in the list before the run. */
  predicate Serves(specs: Endpoints, ip: IpOracle, list: Endpoints) {
    forall i :: 0 <= i < |specs| && HasName(list, specs[i].name) ==> ip(specs[i].name).Ok?
  }

  /** And for no other one. */
  predicate ServesOnly(specs: Endpoints, ip: IpOracle, list: Endpoints) {
    forall i :: 0 <= i < |specs| ==> (HasName(list, specs[i].name) <==> ip(specs[i].name).Ok?)
  }

  lemma SmallerSet(a: set<string>, b: set<string>)
    requires a < b
    ensures |a| < |b|
  {
    var x :| x in b && x !in a;
    assert b == (b - a) + a && x in b - a;
    assert |b| == |b - a| + |a|;
  }

  /** A failing run adds the endpoint whose IP was missing, and keeps it. */
  lemma FailureShrinks(specs: Endpoints, key: string, ip: IpOracle, list: Endpoints, annotations: map<string, string>)
    requires Serves(specs, ip, list)
    requires EnsureEndpoints(specs, key, ip, list, annotations).failure.Some?
    ensures Missing(specs, EnsureEndpoints(specs, key, ip, list, annotations).list) < Missing(specs, list)
  {
    var k := FirstFailure(specs, ip);
    var after := EnsureEndpoints(specs, key, ip, list, annotations).list;
    EnsureFails(specs, key, ip, list, annotations);
    EnsureAdds(specs, key, ip, list, annotations);
    AddAllCovers(list, Tried(specs, ip));
    assert Tried(specs, ip)[k] == specs[k] && specs[k] in Tried(specs, ip);
    assert specs[k].name in Missing(specs, list);
    assert specs[k].name !in Missing(specs, after);
  }

  lemma AddNew(list: Endpoints, e: PrivateEndpointSpec)
    requires !HasName(list, e.name)
    ensures AddAll(list, [e]) == list + [e]
  {
    var one := [e];
    assert one[1..] == [];
    assert AddAll(list, one) == AddAll(AddSpec(list, one[0]), one[1..]);
  }

  lemma AddKnown(specs: Endpoints, list: Endpoints, k: nat)
    requires k <= |specs| && forall i :: 0 <= i < k ==> HasName(list, specs[i].name)
    ensures AddAll(list, specs[..k]) == list
  {
    NothingToAdd(list, specs[..k]);
  }

  lemma OnlyTheFailingOne(specs: Endpoints, ip: IpOracle, list: Endpoints, k: nat)
    requires ServesOnly(specs, ip, list)
    requires k == FirstFailure(specs, ip) < |specs|
    ensures AddAll(list, Tried(specs, ip)) == list + [specs[k]]
    ensures !HasName(list, specs[k].name)
  {
    assert Tried(specs, ip) == specs[..k] + [specs[k]];
    AddAllAppend(list, specs[..k], [specs[k]]);
    AddKnown(specs, list, k);
    AddNew(list, specs[k]);
  }

  lemma OneLessMissing(specs: Endpoints, list: Endpoints, k: nat)
    requires k < |specs| && !HasName(list, specs[k].name)
    ensures |Missing(specs, list + [specs[k]])| == |Missing(specs, list)| - 1
  {
    var last := [specs[k]];
    forall i | 0 <= i < |specs|
      ensures HasName(list + last, specs[i].name) <==> HasName(list, specs[i].name) || specs[i].name == specs[k].name
    {
      HasNameSplit(list, last, specs[i].name);
      assert last[0] == specs[k];
    }
    assert specs[k].name in Missing(specs, list);
    assert Missing(specs, list + last) == Missing(specs, list) - {specs[k].name};
  }

  /** If nothing else has an IP, it adds that one endpoint and no other. */
  lemma FailureAddsOne(specs: Endpoints, key: string, ip: IpOracle, list: Endpoints, annotations: map<string, string>)
    requires ServesOnly(specs, ip, list)
    requires EnsureEndpoints(specs, key, ip, list, annotations).failure.Some?
    ensures |Missing(specs, EnsureEndpoints(specs, key, ip, list, annotations).list)| == |Missing(specs, list)| - 1
  {
    var k := FirstFailure(specs, ip);
    EnsureFails(specs, key, ip, list, annotations);
    EnsureAdds(specs, key, ip, list, annotations);
    OnlyTheFailingOne(specs, ip, list, k);
    OneLessMissing(specs, list, k);
  }

  lemma NothingMissing(specs: Endpoints, ip: IpOracle, list: Endpoints)
    requires ServesOnly(specs, ip, list)
    ensures FirstFailure(specs, ip) == |specs| <==> Missing(specs, list) == {}
  {
    var k := FirstFailure(specs, ip);
    if k < |specs| {
      assert specs[k].name in Missing(specs, list);
    }
  }

  // ---- runs of ReconcileMcToWcApi

  function RunWith(site: Site, ip: IpOracle, list: Endpoints): Ensured {
    ReconcileMcToWcApi(site, true, ip, list, map[])
  }

  /** One run: the list it finds and what Azure answers. */
  datatype Round = Round(list: Endpoints, ip: IpOracle)

  /** Between two runs others may change the list, but take away no wanted name. */
  predicate Persists(specs: Endpoints, before: Endpoints, after: Endpoints) {
    forall i :: 0 <= i < |specs| && HasName(before, specs[i].name) ==> HasName(after, specs[i].name)
  }

  /** Each run in turn meets Azure serving what was persisted before it, and still fails. */
  predicate KeepsFailing(site: Site, rounds: seq<Round>)
    decreases |rounds|
  {
    rounds == [] ||
    (Serves(WantedSpecs(site), rounds[0].ip, rounds[0].list)
     && RunWith(site, rounds[0].ip, rounds[0].list).failure.Some?
     && (|rounds| > 1 ==> Persists(WantedSpecs(site), RunWith(site, rounds[0].ip, rounds[0].list).list, rounds[1].list))
     && KeepsFailing(site, rounds[1..]))
  }

  /** Once the links are ready, at most as many runs fail as wanted endpoints were missing. */
  lemma {:induction false} FailuresAreBounded(site: Site, rounds: seq<Round>)
    requires AllowedLinks(site) != []
    requires rounds != [] && KeepsFailing(site, rounds)
    ensures |rounds| <= |Missing(WantedSpecs(site), rounds[0].list)| <= |AllowedLinks(site)|
    decreases |rounds|
  {
    var specs := WantedSpecs(site);
    var first, after := rounds[0], RunWith(site, rounds[0].ip, rounds[0].list).list;
    MissingAtMost(specs, first.list);
    FailureShrinks(specs, API_SERVER_ANNOTATION, first.ip, first.list, map[]);
    if |rounds| > 1 {
      assert Missing(specs, rounds[1].list) <= Missing(specs, after);
      SmallerSet(Missing(specs, rounds[1].list), Missing(specs, first.list));
      FailuresAreBounded(site, rounds[1..]);
    } else {
      SmallerSet(Missing(specs, after), Missing(specs, first.list));
    }
  }

  lemma {:induction false} MissingAtMost(specs: Endpoints, list: Endpoints)
    ensures |Missing(specs, list)| <= |specs|
  {
    if specs != [] {
      MissingAtMost(specs[1..], list);
      var rest := Missing(specs[1..], list);
      assert forall i :: 0 < i < |specs| ==> specs[i] == specs[1..][i - 1];
      assert Missing(specs, list) <= rest + {specs[0].name};
      var all := rest + {specs[0].name};
      assert |all| <= |rest| + 1;
      if Missing(specs, list) < all {
        SmallerSet(Missing(specs, list), all);
      } else {
        assert Missing(specs, list) == all;
      }
    }
  }

  /** Undisturbed runs, while Azure serves exactly what was persisted before each. */
  predicate Exactly(site: Site, ips: seq<IpOracle>, list: Endpoints)
    decreases |ips|
  {
    ips == [] ||
    (ServesOnly(WantedSpecs(site), ips[0], list) && Exactly(site, ips[1..], RunWith(site, ips[0], list).list))
  }

  predicate AllFail(site: Site, ips: seq<IpOracle>, list: Endpoints)
    decreases |ips|
  {
    ips == [] ||
    (RunWith(site, ips[0], list).failure.Some? && AllFail(site, ips[1..], RunWith(site, ips[0], list).list))
  }

  function After(site: Site, ips: seq<IpOracle>, list: Endpoints): Endpoints
    decreases |ips|
  {
    if ips == [] then list else After(site, ips[1..], RunWith(site, ips[0], list).list)
  }

  /** The bound is met: with n endpoints missing and only persisted ones served, exactly the first n runs
      fail and run n + 1 succeeds. */
  lemma {:induction false} BoundIsMet(site: Site, ips: seq<IpOracle>, ip: IpOracle, list: Endpoints)
    requires AllowedLinks(site) != []
    requires Exactly(site, ips, list) && |ips| == |Missing(WantedSpecs(site), list)|
    requires ServesOnly(WantedSpecs(site), ip, After(site, ips, list))
    ensures AllFail(site, ips, list)
    ensures RunWith(site, ip, After(site, ips, list)).failure.None?
    decreases |ips|
  {
    var specs := WantedSpecs(site);
    if ips == [] {
      NothingMissing(specs, ip, list);
      EnsureFails(specs, API_SERVER_ANNOTATION, ip, list, map[]);
    } else {
      NothingMissing(specs, ips[0], list);
      EnsureFails(specs, API_SERVER_ANNOTATION, ips[0], list, map[]);
      FailureAddsOne(specs, API_SERVER_ANNOTATION, ips[0], list, map[]);
      BoundIsMet(site, ips[1..], ip, RunWith(site, ips[0], list).list);
    }
  }
}
