/** The private endpoint list as a value: add by name, remove the rightmost entry of a name. */
module EndpointLists {
  import opened Types
  import opened Sequences

  type Endpoints = seq<PrivateEndpointSpec>

  predicate HasName(list: Endpoints, name: string) {
    exists i :: 0 <= i < |list| && list[i].name == name
  }

  predicate UniqueNames(list: Endpoints) {
    forall i, j :: 0 <= i < j < |list| ==> list[i].name != list[j].name
  }

  function CountName(list: Endpoints, name: string): nat {
    if list == [] then 0 else (if list[0].name == name then 1 else 0) + CountName(list[1..], name)
  }

  function AddSpec(list: Endpoints, spec: PrivateEndpointSpec): Endpoints {
    if HasName(list, spec.name) then list else list + [spec]
  }

  /** Removes one entry named `name`, the rightmost. */
  function RemoveByName(list: Endpoints, name: string): Endpoints {
    if list == [] then []
    else if HasName(list[1..], name) then [list[0]] + RemoveByName(list[1..], name)
    else if list[0].name == name then list[1..]
    else list
  }

  /** One removal per occurrence in `names`, in that order. */
  function RemoveAll(list: Endpoints, names: seq<string>): Endpoints
    decreases |names|
  {
    if names == [] then list else RemoveAll(RemoveByName(list, names[0]), names[1..])
  }

  /** The entries that have at least counts[name] namesakes to their right: all but the rightmost counts[n] of
      each name n. */
  function Survivors(list: Endpoints, counts: multiset<string>): Endpoints {
    if list == [] then []
    else (if CountName(list[1..], list[0].name) >= counts[list[0].name] then [list[0]] else [])
         + Survivors(list[1..], counts)
  }

  // ---- names and counts

  lemma HasNameSplit(a: Endpoints, b: Endpoints, name: string)
    ensures HasName(a + b, name) <==> HasName(a, name) || HasName(b, name)
  {
    if HasName(a, name) {
      var i :| 0 <= i < |a| && a[i].name == name;
      assert (a + b)[i].name == name;
    }
    if HasName(b, name) {
      var i :| 0 <= i < |b| && b[i].name == name;
      assert (a + b)[|a| + i].name == name;
    }
  }

  lemma HasNameHead(list: Endpoints, name: string)
    requires list != []
    ensures HasName(list, name) <==> list[0].name == name || HasName(list[1..], name)
  {
    assert list == [list[0]] + list[1..];
    HasNameSplit([list[0]], list[1..], name);
    assert HasName([list[0]], name) <==> [list[0]][0].name == name;
  }

  lemma {:induction false} CountPositive(list: Endpoints, name: string)
    ensures CountName(list, name) > 0 <==> HasName(list, name)
  {
    if list != [] {
      HasNameHead(list, name);
      CountPositive(list[1..], name);
    }
  }

  lemma {:induction false} CountAppend(a: Endpoints, b: Endpoints, name: string)
    ensures CountName(a + b, name) == CountName(a, name) + CountName(b, name)
  {
    if a == [] {
      assert a + b == b;
    } else {
      assert (a + b)[1..] == a[1..] + b;
      CountAppend(a[1..], b, name);
    }
  }

  lemma UniqueTail(list: Endpoints)
    requires list != []
    ensures UniqueNames(list) <==> UniqueNames(list[1..]) && !HasName(list[1..], list[0].name)
  {
    assert forall i :: 0 <= i < |list[1..]| ==> list[1..][i] == list[i + 1];
    if UniqueNames(list[1..]) && !HasName(list[1..], list[0].name) {
      forall i, j | 0 <= i < j < |list| ensures list[i].name != list[j].name {
        assert list[1..][j - 1] == list[j];
        if i > 0 {
          assert list[1..][i - 1] == list[i];
        }
      }
    }
  }

  lemma {:induction false} UniqueCount(list: Endpoints, name: string)
    requires UniqueNames(list)
    ensures CountName(list, name) <= 1
  {
    if list != [] {
      UniqueTail(list);
      UniqueCount(list[1..], name);
      CountPositive(list[1..], name);
    }
  }

  lemma SameNameSameEntry(list: Endpoints, i: nat, e: PrivateEndpointSpec)
    requires UniqueNames(list) && i < |list| && e in list && e.name == list[i].name
    ensures e == list[i]
  {
    var j :| 0 <= j < |list| && list[j] == e;
  }

  lemma {:induction false} AtMostOneIsUnique(list: Endpoints)
    requires forall name :: CountName(list, name) <= 1
    ensures UniqueNames(list)
  {
    if list != [] {
      forall name ensures CountName(list[1..], name) <= 1 {
        assert CountName(list, name) <= 1;
      }
      AtMostOneIsUnique(list[1..]);
      assert CountName(list, list[0].name) <= 1;
      CountPositive(list[1..], list[0].name);
      UniqueTail(list);
    }
  }

  lemma UniqueConcat(a: Endpoints, b: Endpoints)
    requires UniqueNames(a) && UniqueNames(b)
    requires forall e :: e in b ==> !HasName(a, e.name)
    ensures UniqueNames(a + b)
  {
    forall i, j | 0 <= i < j < |a + b| ensures (a + b)[i].name != (a + b)[j].name {
      if i < |a| <= j {
        assert b[j - |a|] in b;
        assert (a + b)[i] == a[i];
      }
    }
  }

  // ---- removal

  lemma {:induction false} RemoveAbsent(list: Endpoints, name: string)
    ensures RemoveByName(list, name) == list <==> !HasName(list, name)
    ensures |RemoveByName(list, name)| == |list| - (if HasName(list, name) then 1 else 0)
  {
    if list != [] {
      HasNameHead(list, name);
      RemoveAbsent(list[1..], name);
    }
  }

  lemma CutOne(x: PrivateEndpointSpec, rest: Endpoints, i: nat)
    requires i < |rest|
    ensures [x] + (rest[..i] + rest[i + 1..]) == ([x] + rest)[..i + 1] + ([x] + rest)[i + 2..]
  {
  }

  /** What the backwards scan finds is what the definition removes. */
  lemma {:induction false} RemoveRightmost(list: Endpoints, i: nat)
    requires i < |list|
    requires !HasName(list[i + 1..], list[i].name)
    ensures RemoveByName(list, list[i].name) == list[..i] + list[i + 1..]
  {
    if i == 0 {
      assert list[..0] + list[1..] == list[1..];
    } else {
      var head, rest := list[0], list[1..];
      assert list == [head] + rest;
      assert rest[i - 1] == list[i] && rest[i - 1 + 1..] == list[i + 1..];
      RemoveRightmost(rest, i - 1);
      assert HasName(rest, list[i].name);
      CutOne(head, rest, i - 1);
    }
  }

  lemma {:induction false} RemoveLeavesPrefix(a: Endpoints, b: Endpoints, name: string)
    requires !HasName(a, name)
    ensures RemoveByName(a + b, name) == a + RemoveByName(b, name)
  {
    if a == [] {
      assert a + b == b && a + RemoveByName(b, name) == RemoveByName(b, name);
    } else {
      var head, rest := a[0], a[1..];
      HasNameHead(a, name);
      RemoveLeavesPrefix(rest, b, name);
      HasNameSplit(rest, b, name);
      RemoveAbsent(b, name);
      assert a == [head] + rest;
      assert (a + b)[0] == head && (a + b)[1..] == rest + b;
      assert a + RemoveByName(b, name) == [head] + (rest + RemoveByName(b, name));
      assert !HasName(b, name) ==> RemoveByName(a + b, name) == a + b;
    }
  }

  lemma {:induction false} RemoveAllLeavesPrefix(a: Endpoints, b: Endpoints, names: seq<string>)
    requires forall n :: n in names ==> !HasName(a, n)
    ensures RemoveAll(a + b, names) == a + RemoveAll(b, names)
    decreases |names|
  {
    if names != [] {
      assert names[0] in names;
      RemoveLeavesPrefix(a, b, names[0]);
      assert forall n :: n in names[1..] ==> n in names;
      RemoveAllLeavesPrefix(a, RemoveByName(b, names[0]), names[1..]);
    }
  }

  lemma {:induction false} RemoveLeavesSuffix(a: Endpoints, b: Endpoints, name: string)
    requires !HasName(b, name)
    ensures RemoveByName(a + b, name) == RemoveByName(a, name) + b
  {
    if a == [] {
      assert a + b == b;
      RemoveAbsent(b, name);
    } else {
      assert (a + b)[0] == a[0] && (a + b)[1..] == a[1..] + b;
      HasNameSplit(a[1..], b, name);
      RemoveLeavesSuffix(a[1..], b, name);
      assert a + b == [a[0]] + (a[1..] + b);
    }
  }

  lemma {:induction false} RemoveAllLeavesSuffix(a: Endpoints, b: Endpoints, names: seq<string>)
    requires forall n :: n in names ==> !HasName(b, n)
    ensures RemoveAll(a + b, names) == RemoveAll(a, names) + b
    decreases |names|
  {
    if names != [] {
      assert names[0] in names;
      RemoveLeavesSuffix(a, b, names[0]);
      assert forall n :: n in names[1..] ==> n in names;
      RemoveAllLeavesSuffix(RemoveByName(a, names[0]), b, names[1..]);
    }
  }

  // ---- the closed form of a sequence of removals

  lemma {:induction false} SurvivorsCount(list: Endpoints, counts: multiset<string>, name: string)
    ensures CountName(Survivors(list, counts), name)
         == if CountName(list, name) >= counts[name] then CountName(list, name) - counts[name] else 0
  {
    if list != [] {
      SurvivorsCount(list[1..], counts, name);
      CountAppend(if CountName(list[1..], list[0].name) >= counts[list[0].name] then [list[0]] else [],
                  Survivors(list[1..], counts), name);
    }
  }

  lemma {:induction false} SurvivorsAll(list: Endpoints)
    ensures Survivors(list, multiset{}) == list
  {
    if list != [] {
      SurvivorsAll(list[1..]);
    }
  }

  lemma {:induction false} SurvivorsStep(list: Endpoints, counts: multiset<string>, name: string)
    ensures RemoveByName(Survivors(list, counts), name) == Survivors(list, counts + multiset{name})
  {
    if list != [] {
      var rest := Survivors(list[1..], counts);
      SurvivorsStep(list[1..], counts, name);
      SurvivorsCount(list[1..], counts, name);
      CountPositive(rest, name);
      RemoveAbsent(rest, name);
      if CountName(list[1..], list[0].name) >= counts[list[0].name] {
        assert ([list[0]] + rest)[1..] == rest;
      } else {
        assert [] + rest == rest;
      }
    }
  }

  /** A run of removals keeps the order of the rest and depends only on how often each name is removed. */
  lemma {:induction false} RemoveAllIsSurvivors(list: Endpoints, counts: multiset<string>, names: seq<string>)
    ensures RemoveAll(Survivors(list, counts), names) == Survivors(list, counts + multiset(names))
    decreases |names|
  {
    if names == [] {
      assert counts + multiset(names) == counts;
    } else {
      SurvivorsStep(list, counts, names[0]);
      RemoveAllIsSurvivors(list, counts + multiset{names[0]}, names[1..]);
      assert names == [names[0]] + names[1..];
      assert counts + multiset(names) == counts + multiset{names[0]} + multiset(names[1..]);
    }
  }

  lemma RemoveAllRightmost(list: Endpoints, names: seq<string>)
    ensures RemoveAll(list, names) == Survivors(list, multiset(names))
  {
    SurvivorsAll(list);
    RemoveAllIsSurvivors(list, multiset{}, names);
    assert multiset{} + multiset(names) == multiset(names);
  }

  lemma {:induction false} SurvivorsNamed(list: Endpoints, counts: multiset<string>)
    requires forall e :: e in list ==> CountName(list, e.name) <= counts[e.name]
    ensures Survivors(list, counts) == []
  {
    if list != [] {
      assert list[0] in list;
      assert forall e :: e in list[1..] ==> e in list;
      SurvivorsNamed(list[1..], counts);
    }
  }

  lemma {:induction false} SurvivorsMembers(list: Endpoints, counts: multiset<string>)
    ensures forall e :: e in Survivors(list, counts) ==> e in list
    ensures UniqueNames(list) ==> UniqueNames(Survivors(list, counts))
  {
    if list != [] {
      SurvivorsMembers(list[1..], counts);
    }
    if UniqueNames(list) {
      forall name ensures CountName(Survivors(list, counts), name) <= 1 {
        UniqueCount(list, name);
        SurvivorsCount(list, counts, name);
      }
      AtMostOneIsUnique(Survivors(list, counts));
    }
  }

  /** Without duplicates a run of removals is a plain filter. */
  lemma {:induction false} SurvivorsUnique(list: Endpoints, counts: multiset<string>, p: PrivateEndpointSpec -> bool)
    requires UniqueNames(list)
    requires forall e :: e in list ==> (p(e) <==> counts[e.name] == 0)
    ensures Survivors(list, counts) == Filter(p, list)
  {
    if list != [] {
      assert list[0] in list;
      assert forall e :: e in list[1..] ==> e in list;
      assert forall i :: 0 <= i < |list[1..]| ==> list[1..][i] == list[i + 1];
      CountPositive(list[1..], list[0].name);
      SurvivorsUnique(list[1..], counts, p);
    }
  }

  // ---- additions

  function AddAll(list: Endpoints, specs: Endpoints): Endpoints
    decreases |specs|
  {
    if specs == [] then list else AddAll(AddSpec(list, specs[0]), specs[1..])
  }

  /** What AddAll appends: the first spec of each name that `list` does not carry. */
  function Added(list: Endpoints, specs: Endpoints): Endpoints
    decreases |specs|
  {
    if specs == [] then []
    else if HasName(list, specs[0].name) then Added(list, specs[1..])
    else [specs[0]] + Added(list + [specs[0]], specs[1..])
  }

  lemma {:induction false} AddAllAppends(list: Endpoints, specs: Endpoints)
    ensures AddAll(list, specs) == list + Added(list, specs)
    decreases |specs|
  {
    if specs == [] {
      assert list + [] == list;
    } else if HasName(list, specs[0].name) {
      AddAllAppends(list, specs[1..]);
    } else {
      AddAllAppends(list + [specs[0]], specs[1..]);
      var rest := Added(list + [specs[0]], specs[1..]);
      assert (list + [specs[0]]) + rest == list + ([specs[0]] + rest);
    }
  }

  lemma {:induction false} AddedMembers(list: Endpoints, specs: Endpoints)
    ensures forall e :: e in Added(list, specs) ==> e in specs && !HasName(list, e.name)
    decreases |specs|
  {
    if specs != [] {
      AddedMembers(list, specs[1..]);
      AddedMembers(list + [specs[0]], specs[1..]);
      forall e | e in Added(list + [specs[0]], specs[1..]) ensures !HasName(list, e.name) {
        HasNameSplit(list, [specs[0]], e.name);
      }
    }
  }

  lemma AddedNamesAreNew(list: Endpoints, specs: Endpoints, name: string)
    requires HasName(list, name)
    ensures !HasName(Added(list, specs), name)
  {
    var added := Added(list, specs);
    AddedMembers(list, specs);
    forall k | 0 <= k < |added| ensures added[k].name != name {
      assert added[k] in added;
    }
  }

  lemma {:induction false} AddedUnique(list: Endpoints, specs: Endpoints)
    ensures UniqueNames(Added(list, specs))
    decreases |specs|
  {
    if specs != [] {
      AddedUnique(list, specs[1..]);
      AddedUnique(list + [specs[0]], specs[1..]);
      AddedMembers(list + [specs[0]], specs[1..]);
      var rest := Added(list + [specs[0]], specs[1..]);
      if !HasName(list, specs[0].name) {
        assert (list + [specs[0]])[|list|].name == specs[0].name;
        assert forall i :: 0 <= i < |rest| ==> rest[i] in rest;
        assert ([specs[0]] + rest)[1..] == rest;
        UniqueTail([specs[0]] + rest);
      }
    }
  }

  lemma {:induction false} AddAllCovers(list: Endpoints, specs: Endpoints)
    ensures forall e :: e in specs ==> HasName(AddAll(list, specs), e.name)
    ensures forall n :: HasName(list, n) ==> HasName(AddAll(list, specs), n)
    decreases |specs|
  {
    AddAllAppends(list, specs);
    forall n | HasName(list, n) ensures HasName(AddAll(list, specs), n) {
      HasNameSplit(list, Added(list, specs), n);
    }
    if specs != [] {
      var next := AddSpec(list, specs[0]);
      AddAllCovers(next, specs[1..]);
      assert !HasName(list, specs[0].name) ==> next[|list|].name == specs[0].name;
      assert HasName(next, specs[0].name);
    }
  }

  lemma AddUnique(list: Endpoints, spec: PrivateEndpointSpec)
    requires UniqueNames(list)
    ensures UniqueNames(AddSpec(list, spec))
  {
    if !HasName(list, spec.name) {
      UniqueConcat(list, [spec]);
    }
  }

  lemma {:induction false} AddAllUnique(list: Endpoints, specs: Endpoints)
    requires UniqueNames(list)
    ensures UniqueNames(AddAll(list, specs))
    decreases |specs|
  {
    if specs != [] {
      AddUnique(list, specs[0]);
      AddAllUnique(AddSpec(list, specs[0]), specs[1..]);
    }
  }

  lemma {:induction false} NothingToAdd(list: Endpoints, specs: Endpoints)
    ensures AddAll(list, specs) == list <==> forall e :: e in specs ==> HasName(list, e.name)
    decreases |specs|
  {
    AddAllAppends(list, specs);
    if forall e :: e in specs ==> HasName(list, e.name) {
      AddedMembers(list, specs);
      var added := Added(list, specs);
      assert |added| > 0 ==> added[0] in added;
    } else {
      AddAllCovers(list, specs);
    }
  }

  lemma {:induction false} AddAllAppend(list: Endpoints, a: Endpoints, b: Endpoints)
    ensures AddAll(list, a + b) == AddAll(AddAll(list, a), b)
    decreases |a|
  {
    if a == [] {
      assert a + b == b;
    } else {
      assert (a + b)[1..] == a[1..] + b;
      AddAllAppend(AddSpec(list, a[0]), a[1..], b);
    }
  }
}
