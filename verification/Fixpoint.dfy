/** Repeated successful runs with unchanged links and IPs. */
module Fixpoint {
  import opened Types
  import opened PrivateLinks
  import opened Sequences
  import opened EndpointLists
  import opened ServiceSpec
  import opened Pruning
  import opened Reconciliation

  function Again(site: Site, ip: IpOracle, state: Ensured): Ensured {
    ReconcileMcToWcApi(site, true, ip, state.list, state.annotations)
  }

  function Iterate<T>(f: T -> T, n: nat, x: T): T {
    if n == 0 then x else f(Iterate(f, n - 1, x))
  }

  lemma {:induction false} IterateStays<T>(f: T -> T, x: T, m: nat, n: nat)
    requires m <= n && f(Iterate(f, m, x)) == Iterate(f, m, x)
    ensures Iterate(f, n, x) == Iterate(f, m, x)
  {
    if m < n {
      IterateStays(f, x, m, n - 1);
    }
  }

  lemma {:induction false} IterateKeeps<T>(f: T -> T, inv: (nat, T) -> bool, n: nat, x: T)
    requires inv(0, x)
    requires forall k: nat, y: T :: k < n && inv(k, y) ==> inv(k + 1, f(y))
    ensures inv(n, Iterate(f, n, x))
  {
    if n > 0 {
      IterateKeeps(f, inv, n - 1, x);
      assert inv(n - 1 + 1, f(Iterate(f, n - 1, x)));
    }
  }

  function OneRun(site: Site, ip: IpOracle): Ensured -> Ensured {
    (state: Ensured) => Again(site, ip, state)
  }

  function Repeat(site: Site, ip: IpOracle, n: nat, state: Ensured): Ensured {
    Iterate(OneRun(site, ip), n, state)
  }

  lemma StillSucceeds(site: Site, ip: IpOracle, state: Ensured, other: Ensured)
    requires Again(site, ip, state).failure.None?
    ensures Again(site, ip, other).failure.None?
  {
    SuccessCondition(site, true, ip, state.list, state.annotations);
    SuccessCondition(site, true, ip, other.list, other.annotations);
  }

  lemma SameNote(site: Site, ip: IpOracle, state: Ensured)
    requires Again(site, ip, state).failure.None?
    ensures Again(site, ip, Again(site, ip, state)).annotations == Again(site, ip, state).annotations
  {
    var next := Again(site, ip, state);
    SuccessfulAnnotations(site, true, ip, state.list, state.annotations);
    StillSucceeds(site, ip, state, next);
    SuccessfulAnnotations(site, true, ip, next.list, next.annotations);
  }

  // ---- how many runs any list needs

  /** No name with a prunable bearer has more than d bearers. */
  predicate AtMost(d: nat, site: Site, list: Endpoints) {
    forall e :: e in list && Prunable(site, e) ==> CountName(list, e.name) <= d
  }

  lemma StillPrunable(site: Site, ip: IpOracle, state: Ensured, e: PrivateEndpointSpec)
    requires Again(site, ip, state).failure.None?
    requires e in Again(site, ip, state).list && Prunable(site, e)
    ensures e in state.list && CountName(Again(site, ip, state).list, e.name) < CountName(state.list, e.name)
  {
    var list, specs := state.list, WantedSpecs(site);
    SuccessfulPrune(site, true, ip, list, state.annotations);
    AddedMembers(list, specs);
    WantedNotPrunable(site);
    PruneMember(site, list, e);
    var i :| 0 <= i < |list| && list[i] == e;
    AddedNamesAreNew(list, specs, e.name);
    CountAppend(Prune(site, list), Added(list, specs), e.name);
    CountPositive(Added(list, specs), e.name);
    PruneRemovesRightmost(site, list);
    SomePrunable(site, list, e);
  }

  lemma SomePrunable(site: Site, list: Endpoints, e: PrivateEndpointSpec)
    requires e in list && Prunable(site, e)
    ensures CountPrunable(site, list, e.name) > 0
  {
    var prunable := Filter(IsPrunable(site), list);
    FilterMember(IsPrunable(site), list, e);
    var i :| 0 <= i < |prunable| && prunable[i] == e;
    CountPositive(prunable, e.name);
  }

  /** With nothing to prune a successful run only adds, and the next one does nothing. */
  lemma CleanRunSettles(site: Site, ip: IpOracle, state: Ensured)
    requires Again(site, ip, state).failure.None? && AtMost(0, site, state.list)
    ensures Again(site, ip, Again(site, ip, state)) == Again(site, ip, state)
  {
    var once := Again(site, ip, state);
    StillSucceeds(site, ip, state, once);
    SameNote(site, ip, state);
    forall e | e in state.list ensures !Prunable(site, e) {
      ListedCounts(state.list, e);
    }
    PruneNothing(site, state.list);
    SuccessfulPrune(site, true, ip, state.list, state.annotations);
    AddAllAppends(state.list, WantedSpecs(site));
    AddAllCovers(state.list, WantedSpecs(site));
    forall e | e in once.list ensures !Prunable(site, e) {
      AddedMembers(state.list, WantedSpecs(site));
      WantedNotPrunable(site);
    }
    UnchangedExactly(site, ip, once);
  }

  lemma ListedCounts(list: Endpoints, e: PrivateEndpointSpec)
    requires e in list
    ensures CountName(list, e.name) > 0
  {
    var i :| 0 <= i < |list| && list[i] == e;
    CountPositive(list, e.name);
  }

  /** A successful run leaves a list alone exactly if it finds nothing to prune and every wanted name. */
  lemma UnchangedExactly(site: Site, ip: IpOracle, state: Ensured)
    requires Again(site, ip, state).failure.None?
    ensures Again(site, ip, state).list == state.list
       <==> && (forall e :: e in state.list ==> !Prunable(site, e))
            && (forall e :: e in WantedSpecs(site) ==> HasName(state.list, e.name))
  {
    var list, specs := state.list, WantedSpecs(site);
    SuccessfulPrune(site, true, ip, list, state.annotations);
    PruneNothing(site, list);
    NothingToAdd(list, specs);
    AddAllAppends(list, specs);
    AddedMembers(list, specs);
    var added := Added(list, specs);
    if added != [] {
      var after := Again(site, ip, state).list;
      assert added[0] in added && after[|Prune(site, list)|] == added[0];
      assert HasName(after, added[0].name);
    }
  }

  lemma BoundDrops(site: Site, ip: IpOracle, state: Ensured, d: nat)
    requires Again(site, ip, state).failure.None? && d > 0 && AtMost(d, site, state.list)
    ensures AtMost(d - 1, site, Again(site, ip, state).list)
  {
    var after := Again(site, ip, state).list;
    forall e | e in after && Prunable(site, e) ensures CountName(after, e.name) <= d - 1 {
      StillPrunable(site, ip, state, e);
    }
  }

  /** After i runs that succeed and will again, the bound has come down by i. */
  predicate Within(site: Site, ip: IpOracle, d: nat, i: nat, state: Ensured) {
    i <= d && Again(site, ip, state).failure.None? && AtMost(d - i, site, state.list)
  }

  lemma WithinStep(site: Site, ip: IpOracle, d: nat, i: nat, state: Ensured)
    requires Within(site, ip, d, i, state) && i < d
    ensures Within(site, ip, d, i + 1, Again(site, ip, state))
  {
    StillSucceeds(site, ip, state, Again(site, ip, state));
    BoundDrops(site, ip, state, d - i);
  }

  lemma BoundAfter(site: Site, ip: IpOracle, state: Ensured, d: nat, k: nat)
    requires Within(site, ip, d, 0, state) && k <= d
    ensures Within(site, ip, d, k, Repeat(site, ip, k, state))
  {
    var inv := (i: nat, y: Ensured) => Within(site, ip, d, i, y);
    forall i: nat, y: Ensured | i < k && inv(i, y) ensures inv(i + 1, OneRun(site, ip)(y)) {
      WithinStep(site, ip, d, i, y);
    }
    IterateKeeps(OneRun(site, ip), inv, k, state);
  }

  /** On any list, if no name with a prunable bearer has more than d bearers, d + 1 successful runs reach a
      state that no further run changes. */
  lemma Settles(site: Site, ip: IpOracle, state: Ensured, d: nat, n: nat)
    requires Again(site, ip, state).failure.None? && AtMost(d, site, state.list) && n > d
    ensures Repeat(site, ip, n, state) == Repeat(site, ip, d + 1, state)
  {
    BoundAfter(site, ip, state, d, d);
    CleanRunSettles(site, ip, Repeat(site, ip, d, state));
    IterateStays(OneRun(site, ip), state, d + 1, n);
  }

  lemma {:induction false} CountAtMost(list: Endpoints, name: string)
    ensures CountName(list, name) <= |list|
  {
    if list != [] {
      CountAtMost(list[1..], name);
    }
  }

  /** So no list needs more runs than it has entries, and one. */
  lemma SettlesBySize(site: Site, ip: IpOracle, state: Ensured, n: nat)
    requires Again(site, ip, state).failure.None? && n > |state.list|
    ensures Repeat(site, ip, n, state) == Repeat(site, ip, |state.list| + 1, state)
  {
    forall e | e in state.list ensures CountName(state.list, e.name) <= |state.list| {
      CountAtMost(state.list, e.name);
    }
    Settles(site, ip, state, |state.list|, n);
  }

  /** One run is enough exactly when pruning reaches every prunable endpoint and leaves each wanted name a bearer. */
  lemma OneRunIsEnough(site: Site, ip: IpOracle, state: Ensured)
    requires Again(site, ip, state).failure.None?
    ensures Again(site, ip, Again(site, ip, state)) == Again(site, ip, state)
       <==> && (forall i: nat :: i < |state.list| && Prunable(site, state.list[i]) ==> !Outlasts(site, state.list, i))
            && NamesOutlast(site, state.list)
  {
    var list := state.list;
    var once := Again(site, ip, state);
    StillSucceeds(site, ip, state, once);
    SameNote(site, ip, state);
    UnchangedExactly(site, ip, once);
    EveryNameServed(site, true, ip, list, state.annotations);
    SuccessfulPrune(site, true, ip, list, state.annotations);
    AddedMembers(list, WantedSpecs(site));
    WantedNotPrunable(site);
    if e :| e in once.list && Prunable(site, e) {
      PruneMember(site, list, e);
    }
    if i: nat :| i < |list| && Prunable(site, list[i]) && Outlasts(site, list, i) {
      PruneMember(site, list, list[i]);
      assert list[i] in once.list;
    }
  }

  /** Without duplicates two successful runs are enough, and one is exactly when no endpoint that already
      carried a wanted name was prunable. */
  lemma TwoRunsAreEnough(site: Site, ip: IpOracle, state: Ensured, n: nat)
    requires UniqueNames(state.list) && Again(site, ip, state).failure.None?
    ensures n >= 2 ==> Repeat(site, ip, n, state) == Repeat(site, ip, 2, state)
    ensures Again(site, ip, Again(site, ip, state)) == Again(site, ip, state) <==> NoWantedPrunable(site, state.list)
  {
    forall e | e in state.list ensures CountName(state.list, e.name) <= 1 {
      UniqueCount(state.list, e.name);
    }
    if n >= 2 {
      Settles(site, ip, state, 1, n);
    }
    OneRunIsEnough(site, ip, state);
    NamesOutlastUnique(site, state.list);
    forall i: nat | i < |state.list| && Prunable(site, state.list[i]) ensures !Outlasts(site, state.list, i) {
      OutlastsUnique(site, state.list, i);
    }
  }

  /** After that one run nothing changes any more, however many follow. */
  lemma OneRunStays(site: Site, ip: IpOracle, state: Ensured, n: nat)
    requires Again(site, ip, state).failure.None? && n >= 1
    requires Again(site, ip, Again(site, ip, state)) == Again(site, ip, state)
    ensures Repeat(site, ip, n, state) == Repeat(site, ip, 1, state)
  {
    assert Repeat(site, ip, 1, state) == OneRun(site, ip)(Repeat(site, ip, 0, state));
    IterateStays(OneRun(site, ip), state, 1, n);
  }

  /** The same without duplicates. */
  lemma Stable(site: Site, ip: IpOracle, state: Ensured, n: nat)
    requires UniqueNames(state.list) && Again(site, ip, state).failure.None?
    ensures n >= 2 ==> Repeat(site, ip, n, state) == Repeat(site, ip, 2, state)
    ensures n >= 1 && NoWantedPrunable(site, state.list) ==> Repeat(site, ip, n, state) == Repeat(site, ip, 1, state)
  {
    TwoRunsAreEnough(site, ip, state, n);
    if n >= 1 && NoWantedPrunable(site, state.list) {
      OneRunStays(site, ip, state, n);
    }
  }

  // ---- the bound is met

  function Copies(a: PrivateEndpointSpec, m: nat): (r: Endpoints)
    ensures |r| == m && forall i :: 0 <= i < m ==> r[i] == a
  {
    if m == 0 then [] else Copies(a, m - 1) + [a]
  }

  lemma PruneTakesACopy(site: Site, u: PrivateEndpointSpec, a: PrivateEndpointSpec, m: nat)
    requires u.name == a.name && Prunable(site, u) && !Prunable(site, a)
    ensures Prune(site, [u] + Copies(a, m)) == if m == 0 then [] else [u] + Copies(a, m - 1)
  {
    var list := [u] + Copies(a, m);
    FilterAppend(IsPrunable(site), [u], Copies(a, m));
    FilterNone(IsPrunable(site), Copies(a, m));
    assert Filter(IsPrunable(site), [u]) == [u];
    assert PrunedNames(site, list) == [u.name];
    RemoveRightmost(list, m);
    assert list[m].name == u.name && list[..m] + list[m + 1..] == if m == 0 then [] else [u] + Copies(a, m - 1);
    assert [u.name][1..] == [];
    assert RemoveAll(list, [u.name]) == RemoveByName(list, u.name);
  }

  /** One link, whose name an unused endpoint u and a used one a both bear. */
  predicate Contested(site: Site, link: PrivateLink, ip: IpOracle, u: PrivateEndpointSpec, a: PrivateEndpointSpec) {
    && site.links == [link] && Allows(site.mc.subscriptionID)(link) && ip(EndpointName(link.name)).Ok?
    && u.name == a.name == EndpointName(link.name) && Prunable(site, u) && !Prunable(site, a)
  }

  /** The list after k runs that started with u and m copies of a to its right. */
  function Dwindling(site: Site, link: PrivateLink, u: PrivateEndpointSpec, a: PrivateEndpointSpec, m: nat,
                     k: nat): Endpoints {
    if k <= m then [u] + Copies(a, m - k) else if k == m + 1 then [] else [WantedSpec(site, link)]
  }

  lemma ContestedRun(site: Site, link: PrivateLink, ip: IpOracle, u: PrivateEndpointSpec, a: PrivateEndpointSpec,
                     m: nat, state: Ensured)
    requires Contested(site, link, ip, u, a) && state.list == [u] + Copies(a, m)
    ensures Again(site, ip, state).list == if m == 0 then [] else [u] + Copies(a, m - 1)
  {
    OneLink(site, link);
    SuccessCondition(site, true, ip, state.list, state.annotations);
    SuccessfulPrune(site, true, ip, state.list, state.annotations);
    PruneTakesACopy(site, u, a, m);
    assert state.list[0].name == EndpointName(link.name);
    NothingNew(state.list, WantedSpec(site, link));
  }

  lemma EmptyListRun(site: Site, link: PrivateLink, ip: IpOracle, u: PrivateEndpointSpec, a: PrivateEndpointSpec,
                     state: Ensured)
    requires Contested(site, link, ip, u, a) && state.list == []
    ensures Again(site, ip, state).list == [WantedSpec(site, link)]
  {
    OneLink(site, link);
    SuccessCondition(site, true, ip, [], state.annotations);
    SuccessfulPrune(site, true, ip, [], state.annotations);
    PruneNothing(site, []);
    assert [WantedSpec(site, link)][1..] == [];
  }

  lemma DwindlingStep(site: Site, link: PrivateLink, ip: IpOracle, u: PrivateEndpointSpec, a: PrivateEndpointSpec,
                      m: nat, k: nat, state: Ensured)
    requires Contested(site, link, ip, u, a) && k <= m + 1 && state.list == Dwindling(site, link, u, a, m, k)
    ensures Again(site, ip, state).list == Dwindling(site, link, u, a, m, k + 1)
  {
    if k <= m {
      ContestedRun(site, link, ip, u, a, m - k, state);
    } else {
      EmptyListRun(site, link, ip, u, a, state);
    }
  }

  /** An unused endpoint with m used namesakes to its right needs m + 2 runs: each takes a namesake, the
      next the endpoint itself, and the last one puts back what is wanted. */
  lemma DuplicatesTakeLonger(site: Site, link: PrivateLink, ip: IpOracle, u: PrivateEndpointSpec,
                             a: PrivateEndpointSpec, m: nat, k: nat, state: Ensured)
    requires Contested(site, link, ip, u, a) && k <= m + 2 && state.list == [u] + Copies(a, m)
    ensures Repeat(site, ip, k, state).list == Dwindling(site, link, u, a, m, k)
  {
    var inv := (i: nat, y: Ensured) => y.list == Dwindling(site, link, u, a, m, i);
    forall i: nat, y: Ensured | i < k && inv(i, y) ensures inv(i + 1, OneRun(site, ip)(y)) {
      DwindlingStep(site, link, ip, u, a, m, i, y);
    }
    IterateKeeps(OneRun(site, ip), inv, k, state);
  }
}
