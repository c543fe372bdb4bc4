/** Status conditions and the gates that wait for them. */
module Conditions {
  import opened Types
  import opened Sequences

  /** The condition a lookup by type finds: the first one. */
  function First(conditions: seq<Condition>, kind: string): Option<Condition> {
    if conditions == [] then None
    else if conditions[0].kind == kind then Some(conditions[0])
    else First(conditions[1..], kind)
  }

  predicate IsTrue(conditions: seq<Condition>, kind: string) {
    First(conditions, kind).Some? && First(conditions, kind).value.status == ConditionTrue
  }

  predicate Unmet(conditions: seq<Condition>, gate: string) {
    !IsTrue(conditions, gate)
  }

  function IsUnmet(conditions: seq<Condition>): string -> bool {
    (gate: string) => Unmet(conditions, gate)
  }

  function UnmetGates(conditions: seq<Condition>, gates: seq<string>): seq<string> {
    Filter(IsUnmet(conditions), gates)
  }

  function OfKind(kind: string): Condition -> bool {
    (c: Condition) => c.kind == kind
  }

  lemma {:induction false} FirstIsFirst(conditions: seq<Condition>, kind: string)
    ensures First(conditions, kind).None? <==> Filter(OfKind(kind), conditions) == []
    ensures First(conditions, kind).Some? ==> [First(conditions, kind).value] <= Filter(OfKind(kind), conditions)
    ensures First(conditions, kind).Some? ==>
            First(conditions, kind).value in conditions && First(conditions, kind).value.kind == kind
  {
    if conditions != [] {
      FirstIsFirst(conditions[1..], kind);
    }
  }

  lemma {:induction false} FirstAppend(a: seq<Condition>, b: seq<Condition>, kind: string)
    ensures First(a + b, kind) == if First(a, kind).Some? then First(a, kind) else First(b, kind)
  {
    if a == [] {
      assert a + b == b;
    } else {
      assert (a + b)[0] == a[0] && (a + b)[1..] == a[1..] + b;
      FirstAppend(a[1..], b, kind);
    }
  }

  /** Both early returns agree with the loop: no gates, nothing unmet; no conditions, everything unmet. */
  lemma UnmetCorners(conditions: seq<Condition>, gates: seq<string>)
    ensures UnmetGates(conditions, []) == []
    ensures UnmetGates([], gates) == gates
  {
    FilterAll(IsUnmet([]), gates);
  }

  lemma UnmetDistributes(conditions: seq<Condition>, a: seq<string>, b: seq<string>)
    ensures UnmetGates(conditions, a + b) == UnmetGates(conditions, a) + UnmetGates(conditions, b)
  {
    FilterAppend(IsUnmet(conditions), a, b);
  }

  lemma NothingUnmet(conditions: seq<Condition>, gates: seq<string>)
    ensures UnmetGates(conditions, gates) == [] <==> forall g :: g in gates ==> IsTrue(conditions, g)
  {
    FilterNone(IsUnmet(conditions), gates);
  }

  /** Later conditions of a type never change what a gate sees of it. */
  lemma AppendingKeepsMetGates(conditions: seq<Condition>, more: seq<Condition>, gate: string)
    ensures First(conditions, gate).Some? ==> IsTrue(conditions + more, gate) == IsTrue(conditions, gate)
    ensures First(conditions, gate).None? ==> IsTrue(conditions + more, gate) == IsTrue(more, gate)
  {
    FirstAppend(conditions, more, gate);
  }

  /** Some condition of the type is true, and none before it has that type. */
  predicate FirstOfKindIsTrue(conditions: seq<Condition>, kind: string) {
    exists i :: 0 <= i < |conditions| && conditions[i] == Condition(kind, ConditionTrue)
      && forall j :: 0 <= j < i ==> conditions[j].kind != kind
  }

  lemma {:induction false} TrueExactly(conditions: seq<Condition>, kind: string)
    ensures IsTrue(conditions, kind) <==> FirstOfKindIsTrue(conditions, kind)
  {
    if conditions != [] {
      var rest := conditions[1..];
      TrueExactly(rest, kind);
      if FirstOfKindIsTrue(rest, kind) && conditions[0].kind != kind {
        var i :| 0 <= i < |rest| && rest[i] == Condition(kind, ConditionTrue)
                 && forall j :: 0 <= j < i ==> rest[j].kind != kind;
        assert conditions[i + 1] == rest[i];
        assert forall j :: 0 < j < i + 1 ==> conditions[j] == rest[j - 1];
        assert FirstOfKindIsTrue(conditions, kind);
      }
      if FirstOfKindIsTrue(conditions, kind) && conditions[0].kind != kind {
        var i :| 0 <= i < |conditions| && conditions[i] == Condition(kind, ConditionTrue)
                 && forall j :: 0 <= j < i ==> conditions[j].kind != kind;
        assert rest[i - 1] == conditions[i];
        assert forall j :: 0 <= j < i - 1 ==> rest[j] == conditions[j + 1];
        assert FirstOfKindIsTrue(rest, kind);
      }
    }
  }

  /** A gate is unmet exactly if it is one of the gates and the first condition of its type is missing or not true. */
  lemma UnmetMember(conditions: seq<Condition>, gates: seq<string>, gate: string)
    ensures gate in UnmetGates(conditions, gates) <==> gate in gates && !FirstOfKindIsTrue(conditions, gate)
  {
    FilterMember(IsUnmet(conditions), gates, gate);
    TrueExactly(conditions, gate);
  }
}
