/** The prune loop: it removes by name, from the right, once per prunable endpoint of a snapshot. */
module Pruning {
  import opened Types
  import opened Sequences
  import opened EndpointLists
  import opened ServiceSpec

  function CountPrunable(site: Site, list: Endpoints, name: string): nat {
    CountName(Filter(IsPrunable(site), list), name)
  }

  lemma {:induction false} NamesCount(list: Endpoints, name: string)
    ensures multiset(Names(list))[name] == CountName(list, name)
  {
    if list != [] {
      NamesCount(list[1..], name);
      assert Names(list) == [list[0].name] + Names(list[1..]);
    }
  }

  lemma {:induction false} FilterCount(p: PrivateEndpointSpec -> bool, list: Endpoints, name: string)
    ensures CountName(Filter(p, list), name) <= CountName(list, name)
    ensures (forall e :: e in list && e.name == name ==> p(e)) ==>
            CountName(Filter(p, list), name) == CountName(list, name)
    ensures (forall e :: e in list && e.name == name ==> !p(e)) ==> CountName(Filter(p, list), name) == 0
  {
    if list != [] {
      assert list[0] in list;
      assert forall e :: e in list[1..] ==> e in list;
      FilterCount(p, list[1..], name);
      CountAppend(if p(list[0]) then [list[0]] else [], Filter(p, list[1..]), name);
    }
  }

  /** Of each name n, pruning removes the rightmost k entries, where k counts the prunable endpoints named n. */
  lemma PruneRemovesRightmost(site: Site, list: Endpoints)
    ensures Prune(site, list) == Survivors(list, multiset(PrunedNames(site, list)))
    ensures forall name :: multiset(PrunedNames(site, list))[name] == CountPrunable(site, list, name)
    ensures forall name :: CountName(Prune(site, list), name) == CountName(list, name) - CountPrunable(site, list, name)
  {
    var pruned := PrunedNames(site, list);
    RemoveAllRightmost(list, pruned);
    forall name
      ensures multiset(pruned)[name] == CountPrunable(site, list, name)
      ensures CountName(Prune(site, list), name) == CountName(list, name) - CountPrunable(site, list, name)
    {
      NamesCount(Filter(IsPrunable(site), list), name);
      SurvivorsCount(list, multiset(pruned), name);
      FilterCount(IsPrunable(site), list, name);
    }
  }

  lemma {:induction false} RemoveCount(list: Endpoints, name: string, other: string)
    ensures CountName(RemoveByName(list, name), other)
         == CountName(list, other) - (if other == name && HasName(list, name) then 1 else 0)
  {
    CountPositive(list, name);
    if list != [] {
      HasNameHead(list, name);
      RemoveCount(list[1..], name, other);
      if HasName(list[1..], name) {
        assert ([list[0]] + RemoveByName(list[1..], name))[1..] == RemoveByName(list[1..], name);
      }
    }
  }

  lemma {:induction false} RemoveAllLength(list: Endpoints, names: seq<string>)
    requires forall n :: multiset(names)[n] <= CountName(list, n)
    ensures |RemoveAll(list, names)| == |list| - |names|
    decreases |names|
  {
    if names != [] {
      assert names == [names[0]] + names[1..];
      CountPositive(list, names[0]);
      RemoveAbsent(list, names[0]);
      forall n ensures multiset(names[1..])[n] <= CountName(RemoveByName(list, names[0]), n) {
        RemoveCount(list, names[0], n);
      }
      RemoveAllLength(RemoveByName(list, names[0]), names[1..]);
    }
  }

  lemma PruneLength(site: Site, list: Endpoints)
    ensures |Prune(site, list)| == |list| - |Filter(IsPrunable(site), list)|
  {
    forall n ensures multiset(PrunedNames(site, list))[n] <= CountName(list, n) {
      PruneRemovesRightmost(site, list);
      FilterCount(IsPrunable(site), list, n);
    }
    RemoveAllLength(list, PrunedNames(site, list));
  }

  // ---- when pruning is the plain filter

  /** Among namesakes, the prunable ones come last. */
  predicate PrunableLast(site: Site, list: Endpoints) {
    forall i, j :: 0 <= i < j < |list| && list[i].name == list[j].name && Prunable(site, list[i]) ==>
        Prunable(site, list[j])
  }

  lemma PrunableLastTail(site: Site, list: Endpoints)
    requires list != [] && PrunableLast(site, list)
    ensures PrunableLast(site, list[1..])
    ensures Prunable(site, list[0]) ==> forall e :: e in list[1..] && e.name == list[0].name ==> Prunable(site, e)
  {
    var rest := list[1..];
    assert forall i :: 0 <= i < |rest| ==> rest[i] == list[i + 1];
    forall e | Prunable(site, list[0]) && e in rest && e.name == list[0].name ensures Prunable(site, e) {
      var i :| 0 <= i < |rest| && rest[i] == e;
      assert list[i + 1].name == list[0].name;
    }
  }

  lemma CountPrunableHead(site: Site, list: Endpoints, name: string)
    requires list != []
    ensures CountPrunable(site, list, name)
         == (if Prunable(site, list[0]) && list[0].name == name then 1 else 0) + CountPrunable(site, list[1..], name)
  {
    var rest := Filter(IsPrunable(site), list[1..]);
    if Prunable(site, list[0]) {
      assert ([list[0]] + rest)[1..] == rest;
    } else {
      assert [] + rest == rest;
    }
  }

  lemma {:induction false} SurvivorsAreKept(site: Site, list: Endpoints, seen: multiset<string>,
                                            counts: multiset<string>)
    requires PrunableLast(site, list)
    requires forall e :: e in list && seen[e.name] > 0 ==> Prunable(site, e)
    requires forall n :: counts[n] == seen[n] + CountPrunable(site, list, n)
    ensures Survivors(list, counts) == Filter(IsKept(site), list)
  {
    if list != [] {
      var x, rest := list[0], list[1..];
      assert x in list;
      PrunableLastTail(site, list);
      FilterCount(IsPrunable(site), rest, x.name);
      var seen' := if Prunable(site, x) then seen + multiset{x.name} else seen;
      forall n ensures counts[n] == seen'[n] + CountPrunable(site, rest, n) {
        CountPrunableHead(site, list, n);
      }
      SurvivorsAreKept(site, rest, seen', counts);
    }
  }

  /** Entry i has so many namesakes to its right that the removals do not reach it. */
  predicate Survives(list: Endpoints, counts: multiset<string>, i: nat)
    requires i < |list|
  {
    CountName(list[i + 1..], list[i].name) >= counts[list[i].name]
  }

  lemma SurvivesInTail(list: Endpoints, counts: multiset<string>, i: nat)
    requires 0 < i < |list|
    ensures list[1..][i - 1] == list[i]
    ensures Survives(list, counts, i) <==> Survives(list[1..], counts, i - 1)
  {
    assert list[1..][i - 1 + 1..] == list[i + 1..];
  }

  lemma {:induction false} SurvivorsMember(list: Endpoints, counts: multiset<string>, e: PrivateEndpointSpec)
    ensures e in Survivors(list, counts) <==> exists i: nat :: i < |list| && list[i] == e && Survives(list, counts, i)
  {
    if list != [] {
      var rest := list[1..];
      SurvivorsMember(rest, counts, e);
      forall i: nat | 0 < i < |list|
        ensures rest[i - 1] == list[i] && (Survives(list, counts, i) <==> Survives(rest, counts, i - 1))
      {
        SurvivesInTail(list, counts, i);
      }
      if i: nat :| i < |rest| && rest[i] == e && Survives(rest, counts, i) {
        assert list[i + 1] == e && Survives(list, counts, i + 1);
      }
      if list[0] == e && CountName(rest, e.name) >= counts[e.name] {
        assert Survives(list, counts, 0);
      }
    }
  }

  /** The removals reach no entry with p. */
  predicate AllSurvive(p: PrivateEndpointSpec -> bool, list: Endpoints, counts: multiset<string>) {
    forall i: nat :: i < |list| && p(list[i]) ==> Survives(list, counts, i)
  }

  lemma AllSurviveTail(p: PrivateEndpointSpec -> bool, list: Endpoints, counts: multiset<string>)
    requires list != []
    ensures AllSurvive(p, list, counts)
       <==> (p(list[0]) ==> Survives(list, counts, 0)) && AllSurvive(p, list[1..], counts)
  {
    var rest := list[1..];
    forall i: nat | 0 < i < |list|
      ensures rest[i - 1] == list[i] && (Survives(list, counts, i) <==> Survives(rest, counts, i - 1))
    {
      SurvivesInTail(list, counts, i);
    }
    if i: nat :| i < |rest| && p(rest[i]) && !Survives(rest, counts, i) {
      assert p(list[i + 1]) && !Survives(list, counts, i + 1);
    }
  }

  lemma FilterHead<T>(p: T -> bool, x: T, a: seq<T>, b: seq<T>)
    ensures |Filter(p, [x] + a)| == |Filter(p, a)| + (if p(x) then 1 else 0)
    ensures Filter(p, [x] + a) == Filter(p, [x] + b) <==> Filter(p, a) == Filter(p, b)
  {
    var first := if p(x) then [x] else [];
    assert ([x] + a)[1..] == a && ([x] + b)[1..] == b;
    assert (first + Filter(p, a))[|first|..] == Filter(p, a) && (first + Filter(p, b))[|first|..] == Filter(p, b);
  }

  /** The removals spare all entries with p, and their order, exactly when they reach none of them. */
  lemma {:induction false} SurvivorsFilter(p: PrivateEndpointSpec -> bool, list: Endpoints, counts: multiset<string>)
    ensures |Filter(p, Survivors(list, counts))| <= |Filter(p, list)|
    ensures Filter(p, Survivors(list, counts)) == Filter(p, list) <==> AllSurvive(p, list, counts)
  {
    if list != [] {
      var x, rest := list[0], list[1..];
      SurvivorsFilter(p, rest, counts);
      AllSurviveTail(p, list, counts);
      FilterHead(p, x, Survivors(rest, counts), rest);
      FilterHead(p, x, rest, rest);
      assert list == [x] + rest;
      if Survives(list, counts, 0) {
        assert Survivors(list, counts) == [x] + Survivors(rest, counts);
      } else {
        assert Survivors(list, counts) == Survivors(rest, counts);
      }
    }
  }

  lemma LaterCountsLess(list: Endpoints, i: nat, j: nat, name: string)
    requires i < j < |list|
    ensures CountName(list[j + 1..], name) <= CountName(list[i + 1..], name)
  {
    assert list[i + 1..] == list[i + 1..j + 1] + list[j + 1..];
    CountAppend(list[i + 1..j + 1], list[j + 1..], name);
  }

  lemma SurvivorsKeepWrongOne(p: PrivateEndpointSpec -> bool, list: Endpoints, counts: multiset<string>, i: nat, j: nat)
    requires i < j < |list| && list[i].name == list[j].name && !p(list[i]) && p(list[j])
    ensures Survivors(list, counts) != Filter(p, list)
  {
    if Survives(list, counts, i) {
      SurvivorsMember(list, counts, list[i]);
      FilterMember(p, list, list[i]);
    } else {
      LaterCountsLess(list, i, j, list[i].name);
      assert !Survives(list, counts, j);
      assert !AllSurvive(p, list, counts);
      SurvivorsFilter(p, list, counts);
      FilterWeaker(p, p, list);
    }
  }

  /** Entry i has at least as many namesakes to its right as prunable namesakes anywhere. */
  predicate Outlasts(site: Site, list: Endpoints, i: nat)
    requires i < |list|
  {
    CountName(list[i + 1..], list[i].name) >= CountPrunable(site, list, list[i].name)
  }

  lemma PruneCounts(site: Site, list: Endpoints) returns (counts: multiset<string>)
    ensures Prune(site, list) == Survivors(list, counts)
    ensures forall i: nat :: i < |list| ==> (Survives(list, counts, i) <==> Outlasts(site, list, i))
  {
    counts := multiset(PrunedNames(site, list));
    PruneRemovesRightmost(site, list);
    forall i: nat | i < |list| ensures Survives(list, counts, i) <==> Outlasts(site, list, i) {
      assert counts[list[i].name] == CountPrunable(site, list, list[i].name);
    }
  }

  /** Which entries pruning leaves, duplicates or not. */
  lemma PruneMember(site: Site, list: Endpoints, e: PrivateEndpointSpec)
    ensures e in Prune(site, list) <==> exists i: nat :: i < |list| && list[i] == e && Outlasts(site, list, i)
  {
    var counts := PruneCounts(site, list);
    SurvivorsMember(list, counts, e);
  }

  /** Pruning keeps all entries with p, in order, exactly when it reaches none of them. */
  lemma PruneKeeps(site: Site, p: PrivateEndpointSpec -> bool, list: Endpoints)
    ensures Filter(p, Prune(site, list)) == Filter(p, list)
       <==> forall i: nat :: i < |list| && p(list[i]) ==> Outlasts(site, list, i)
  {
    var counts := PruneCounts(site, list);
    SurvivorsFilter(p, list, counts);
  }

  lemma FilterCountUnique(p: PrivateEndpointSpec -> bool, list: Endpoints, i: nat)
    requires UniqueNames(list) && i < |list|
    ensures CountName(list, list[i].name) == 1
    ensures CountName(Filter(p, list), list[i].name) == if p(list[i]) then 1 else 0
  {
    var x := list[i];
    assert HasName(list, x.name);
    CountPositive(list, x.name);
    UniqueCount(list, x.name);
    forall e | e in list && e.name == x.name ensures p(e) == p(x) {
      SameNameSameEntry(list, i, e);
    }
    FilterCount(p, list, x.name);
  }

  lemma CountPrunableUnique(site: Site, list: Endpoints, i: nat)
    requires UniqueNames(list) && i < |list|
    ensures CountName(list, list[i].name) == 1
    ensures CountPrunable(site, list, list[i].name) == if Prunable(site, list[i]) then 1 else 0
  {
    FilterCountUnique(IsPrunable(site), list, i);
  }

  /** Without duplicates an entry outlasts pruning exactly if it is not prunable itself. */
  lemma OutlastsUnique(site: Site, list: Endpoints, i: nat)
    requires UniqueNames(list) && i < |list|
    ensures Outlasts(site, list, i) <==> !Prunable(site, list[i])
  {
    var name := list[i].name;
    CountPrunableUnique(site, list, i);
    assert list == list[..i] + [list[i]] + list[i + 1..];
    CountAppend(list[..i] + [list[i]], list[i + 1..], name);
    CountAppend(list[..i], [list[i]], name);
    assert CountName([list[i]], name) == 1;
  }

  /** Pruning drops exactly the prunable endpoints if and only if no other namesake of one stands to its right. */
  lemma PruneIsFilter(site: Site, list: Endpoints)
    ensures Prune(site, list) == Filter(IsKept(site), list) <==> PrunableLast(site, list)
  {
    if PrunableLast(site, list) {
      PruneRemovesRightmost(site, list);
      SurvivorsAreKept(site, list, multiset{}, multiset(PrunedNames(site, list)));
    } else {
      var i, j :| 0 <= i < j < |list| && list[i].name == list[j].name && Prunable(site, list[i])
          && !Prunable(site, list[j]);
      PruneRemovesRightmost(site, list);
      SurvivorsKeepWrongOne(IsKept(site), list, multiset(PrunedNames(site, list)), i, j);
    }
  }

  lemma PruneUnique(site: Site, list: Endpoints)
    requires UniqueNames(list)
    ensures Prune(site, list) == Filter(IsKept(site), list)
    ensures UniqueNames(Prune(site, list))
    ensures forall e :: e in Prune(site, list) <==> e in list && !Prunable(site, e)
  {
    PruneIsFilter(site, list);
    PruneRemovesRightmost(site, list);
    SurvivorsMembers(list, multiset(PrunedNames(site, list)));
    forall e ensures e in Prune(site, list) <==> e in list && !Prunable(site, e) {
      FilterMember(IsKept(site), list, e);
    }
  }

  lemma PruneNothing(site: Site, list: Endpoints)
    ensures Prune(site, list) == list <==> forall e :: e in list ==> !Prunable(site, e)
  {
    PruneLength(site, list);
    FilterNone(IsPrunable(site), list);
  }

  /** With a namesake to the right, the used endpoint goes and the unused one stays. */
  lemma PruneTakesTheNamesake(site: Site, unused: PrivateEndpointSpec, used: PrivateEndpointSpec)
    requires unused.name == used.name && Prunable(site, unused) && !Prunable(site, used)
    ensures Prune(site, [unused, used]) == [unused]
  {
    var list := [unused, used];
    assert list[1..] == [used];
    assert Filter(IsPrunable(site), [used]) == [];
    assert Filter(IsPrunable(site), list) == [unused];
    assert PrunedNames(site, list) == [unused.name];
    assert list[1..][0].name == unused.name;
    RemoveRightmost(list, 1);
    assert list[..1] + list[2..] == [unused];
    assert RemoveAll(list, [unused.name]) == RemoveByName(list, unused.name);
  }
}
