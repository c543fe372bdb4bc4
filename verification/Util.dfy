/** pkg/util/util.go */
module Util {
  import opened Types
  import opened Conditions

  method ContainsPtr(slice: seq<Option<string>>, str: string) returns (found: bool)
    ensures found <==> Some(str) in slice
  {
    for i := 0 to |slice|
      invariant Some(str) !in slice[..i]
    {
      if slice[i].Some? && slice[i].value == str {
        return true;
      }
    }
    return false;
  }

  /** A nil pointer becomes the empty string. */
  function Deref(p: Option<string>): string {
    if p.Some? then p.value else ""
  }

  method ConvertToStringSlice(pointers: seq<Option<string>>) returns (result: array<string>)
    ensures fresh(result) && result.Length == |pointers|
    ensures forall i :: 0 <= i < |pointers| ==> result[i] == Deref(pointers[i])
  {
    result := new string[|pointers|](_ => "");
    for i := 0 to |pointers|
      invariant forall j :: 0 <= j < i ==> result[j] == Deref(pointers[j])
      invariant forall j :: i <= j < |pointers| ==> result[j] == ""
    {
      if pointers[i].Some? {
        result[i] := pointers[i].value;
      }
    }
  }

  /** None is Go's nil slice. */
  method FindUnmetStatusConditions(conditions: seq<Condition>, gates: Option<seq<string>>)
    returns (unmet: Option<seq<string>>)
    ensures unmet.None? <==> gates.None?
    ensures gates.Some? ==> unmet.value == UnmetGates(conditions, gates.value)
  {
    if gates.None? {
      return None;
    }
    var types := gates.value;
    if |conditions| == 0 {
      UnmetCorners(conditions, types);
      return Some(types);
    }
    var result: seq<string> := [];
    for i := 0 to |types|
      invariant result == UnmetGates(conditions, types[..i])
    {
      var t := types[i];
      var found := false;
      var j := 0;
      ghost var before := result;
      while j < |conditions|
        invariant 0 <= j <= |conditions|
        invariant !found && result == before
        invariant First(conditions, t) == First(conditions[j..], t)
      {
        var c := conditions[j];
        assert conditions[j..][0] == c && conditions[j..][1..] == conditions[j + 1..];
        if c.kind == t {
          found := true;
          if c.status != ConditionTrue {
            result := result + [t];
          }
          break;
        }
        j := j + 1;
      }
      if !found {
        result := result + [t];
      }
      assert types[..i + 1] == types[..i] + [t];
      UnmetDistributes(conditions, types[..i], [t]);
      assert result == before + UnmetGates(conditions, [t]);
    }
    assert types[..|types|] == types;
    return Some(result);
  }
}
