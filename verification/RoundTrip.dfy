/** Creating and then deleting: what any number of live runs added, one delete takes away. */
module RoundTrip {
  import opened Types
  import opened EndpointLists
  import opened ServiceSpec
  import opened Pruning
  import opened Reconciliation

  /** What one live run meets: whether the links are ready, and what Azure answers. */
  datatype Meeting = Meeting(ready: bool, ip: IpOracle)

  function LiveRuns(site: Site, runs: seq<Meeting>, list: Endpoints): Endpoints
    decreases |runs|
  {
    if runs == [] then list
    else LiveRuns(site, runs[1..], ReconcileMcToWcApi(site, runs[0].ready, runs[0].ip, list, map[]).list)
  }

  predicate Untouched(site: Site, list: Endpoints) {
    && (forall e :: e in WantedSpecs(site) ==> !HasName(list, e.name))
    && (forall e :: e in list ==> !Prunable(site, e))
  }

  /** `list` is `base` followed by wanted endpoints without duplicates. */
  ghost predicate Grown(wanted: Endpoints, base: Endpoints, list: Endpoints) {
    exists added: Endpoints :: Grows(wanted, added) && list == base + added
  }

  predicate Grows(wanted: Endpoints, added: Endpoints) {
    UniqueNames(added) && forall e :: e in added ==> e in wanted
  }

  lemma GrowsMore(wanted: Endpoints, base: Endpoints, added: Endpoints, specs: Endpoints)
    requires Grows(wanted, added)
    requires forall e :: e in specs ==> e in wanted
    ensures Grows(wanted, added + Added(base + added, specs))
  {
    var more := Added(base + added, specs);
    AddedMembers(base + added, specs);
    AddedUnique(base + added, specs);
    forall e | e in more ensures !HasName(added, e.name) {
      HasNameSplit(base, added, e.name);
    }
    UniqueConcat(added, more);
  }

  lemma AddingGrows(wanted: Endpoints, base: Endpoints, list: Endpoints, specs: Endpoints)
    requires Grown(wanted, base, list)
    requires forall e :: e in specs ==> e in wanted
    ensures Grown(wanted, base, AddAll(list, specs))
  {
    var added: Endpoints :| Grows(wanted, added) && list == base + added;
    var more := Added(list, specs);
    GrowsMore(wanted, base, added, specs);
    AddAllAppends(list, specs);
    var grown := added + more;
    assert Grows(wanted, grown);
    assert list + more == base + grown;
  }

  lemma EnsureGrows(site: Site, ip: IpOracle, base: Endpoints, list: Endpoints)
    requires Grown(WantedSpecs(site), base, list)
    ensures Grown(WantedSpecs(site), base,
                  EnsureEndpoints(WantedSpecs(site), API_SERVER_ANNOTATION, ip, list, map[]).list)
  {
    EnsureAdds(WantedSpecs(site), API_SERVER_ANNOTATION, ip, list, map[]);
    AddingGrows(WantedSpecs(site), base, list, Tried(WantedSpecs(site), ip));
  }

  lemma GrownHasNothingToPrune(site: Site, base: Endpoints, list: Endpoints)
    requires Untouched(site, base) && Grown(WantedSpecs(site), base, list)
    ensures Prune(site, list) == list
  {
    WantedNotPrunable(site);
    PruneNothing(site, list);
  }

  lemma {:induction false} LiveRunsGrow(site: Site, runs: seq<Meeting>, base: Endpoints, list: Endpoints)
    requires Untouched(site, base) && Grown(WantedSpecs(site), base, list)
    ensures Grown(WantedSpecs(site), base, LiveRuns(site, runs, list))
    decreases |runs|
  {
    if runs != [] {
      EnsureGrows(site, runs[0].ip, base, list);
      var ensured := EnsureEndpoints(WantedSpecs(site), API_SERVER_ANNOTATION, runs[0].ip, list, map[]).list;
      GrownHasNothingToPrune(site, base, ensured);
      LiveRunsGrow(site, runs[1..], base, ReconcileMcToWcApi(site, runs[0].ready, runs[0].ip, list, map[]).list);
    }
  }

  lemma DeleteUndoesGrowth(site: Site, base: Endpoints, added: Endpoints)
    requires forall e :: e in WantedSpecs(site) ==> !HasName(base, e.name)
    requires Grows(WantedSpecs(site), added)
    ensures DeleteMcToWcApi(site, base + added) == base
  {
    var names := Names(WantedSpecs(site));
    forall n | n in names ensures !HasName(base, n) {
      var i :| 0 <= i < |names| && names[i] == n;
      assert WantedSpecs(site)[i] in WantedSpecs(site);
    }
    RemoveAllLeavesPrefix(base, added, names);
    RemoveAllRightmost(added, names);
    forall e | e in added ensures CountName(added, e.name) <= multiset(names)[e.name] {
      UniqueCount(added, e.name);
      var i :| 0 <= i < |WantedSpecs(site)| && WantedSpecs(site)[i] == e;
      assert names[i] in multiset(names);
    }
    SurvivorsNamed(added, multiset(names));
    assert base + [] == base;
  }

  /** From a list with none of the wanted names and nothing to prune, live runs of any number and outcome
      followed by a delete give back the list itself, order included. */
  lemma CreateDelete(site: Site, runs: seq<Meeting>, list: Endpoints)
    requires Untouched(site, list)
    ensures DeleteMcToWcApi(site, LiveRuns(site, runs, list)) == list
  {
    assert Grows(WantedSpecs(site), []) && list == list + [];
    LiveRunsGrow(site, runs, list, list);
    var added: Endpoints :| Grows(WantedSpecs(site), added) && LiveRuns(site, runs, list) == list + added;
    DeleteUndoesGrowth(site, list, added);
  }

  // ---- the condition is exact

  lemma {:induction false} DeleteShortens(list: Endpoints, names: seq<string>)
    ensures |RemoveAll(list, names)| <= |list|
    ensures (exists n :: n in names && HasName(list, n)) ==> |RemoveAll(list, names)| < |list|
    decreases |names|
  {
    if names != [] {
      RemoveAbsent(list, names[0]);
      DeleteShortens(RemoveByName(list, names[0]), names[1..]);
      if HasName(list, names[0]) {
      } else if n :| n in names && HasName(list, n) {
        assert n in names[1..];
      }
    }
  }

  /** Deleting alone restores the list only if it has none of the wanted names. */
  lemma DeleteNeedsNewNames(site: Site, list: Endpoints)
    ensures DeleteMcToWcApi(site, list) == list <==> forall e :: e in WantedSpecs(site) ==> !HasName(list, e.name)
  {
    var specs := WantedSpecs(site);
    if forall e :: e in specs ==> !HasName(list, e.name) {
      assert Grows(WantedSpecs(site), []) && list == list + [];
      DeleteUndoesGrowth(site, list, []);
    } else {
      var e :| e in specs && HasName(list, e.name);
      var i :| 0 <= i < |specs| && specs[i] == e;
      assert Names(specs)[i] in Names(specs);
      DeleteShortens(list, Names(specs));
    }
  }

  lemma SuccessfulRunShortens(site: Site, ip: IpOracle, list: Endpoints)
    requires ReconcileMcToWcApi(site, true, ip, list, map[]).failure.None?
    requires forall e :: e in WantedSpecs(site) ==> !HasName(list, e.name)
    requires exists e :: e in list && Prunable(site, e)
    ensures DeleteMcToWcApi(site, ReconcileMcToWcApi(site, true, ip, list, map[]).list) != list
  {
    var specs := WantedSpecs(site);
    SuccessfulPrune(site, true, ip, list, map[]);
    AddedMembers(list, specs);
    AddedUnique(list, specs);
    PrunedHasNoNewNames(site, list);
    DeleteUndoesGrowth(site, Prune(site, list), Added(list, specs));
    PruneNothing(site, list);
  }

  lemma PrunedHasNoNewNames(site: Site, list: Endpoints)
    requires forall e :: e in WantedSpecs(site) ==> !HasName(list, e.name)
    ensures forall e :: e in WantedSpecs(site) ==> !HasName(Prune(site, list), e.name)
  {
    forall e | e in WantedSpecs(site) ensures !HasName(Prune(site, list), e.name) {
      PruneRemovesRightmost(site, list);
      CountPositive(list, e.name);
      CountPositive(Prune(site, list), e.name);
    }
  }

  lemma TouchedFails(site: Site, list: Endpoints, ip: IpOracle) returns (runs: seq<Meeting>)
    requires ReconcileMcToWcApi(site, true, ip, list, map[]).failure.None?
    requires !Untouched(site, list)
    ensures DeleteMcToWcApi(site, LiveRuns(site, runs, list)) != list
  {
    if exists e :: e in WantedSpecs(site) && HasName(list, e.name) {
      runs := [];
      DeleteNeedsNewNames(site, list);
    } else {
      var last := ReconcileMcToWcApi(site, true, ip, list, map[]).list;
      runs := [Meeting(true, ip)];
      assert runs[1..] == [];
      assert LiveRuns(site, [], last) == last;
      SuccessfulRunShortens(site, ip, list);
    }
  }

  /** When some run can succeed, the round trip holds for all runs if and only if the list is untouched. */
  lemma CreateDeleteExactly(site: Site, list: Endpoints, ip: IpOracle)
    requires ReconcileMcToWcApi(site, true, ip, list, map[]).failure.None?
    ensures Untouched(site, list) <==> forall runs :: DeleteMcToWcApi(site, LiveRuns(site, runs, list)) == list
  {
    if Untouched(site, list) {
      forall runs ensures DeleteMcToWcApi(site, LiveRuns(site, runs, list)) == list {
        CreateDelete(site, runs, list);
      }
    } else {
      var runs := TouchedFails(site, list, ip);
    }
  }
}
