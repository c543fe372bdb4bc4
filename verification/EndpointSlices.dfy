/** A Go slice of private endpoints: a backing array, of which the first `length` elements are in use. */
module EndpointSlices {
  import opened Types
  import opened EndpointLists

  class EndpointSlice {
    var data: array<PrivateEndpointSpec>
    var length: nat

    ghost predicate Valid()
      reads this
    {
      length <= data.Length
    }

    function Contents(): Endpoints
      reads this, data
      requires Valid()
    {
      data[..length]
    }

    constructor (list: Endpoints)
      ensures Valid() && fresh(data) && Contents() == list
    {
      data := new PrivateEndpointSpec[|list|](i requires 0 <= i < |list| => list[i]);
      length := |list|;
    }

    /** Go's append: in place when there is room, into a larger array otherwise. */
    method Append(spec: PrivateEndpointSpec)
      requires Valid()
      modifies this, data
      ensures Valid() && (data == old(data) || fresh(data))
      ensures Contents() == old(Contents()) + [spec]
    {
      if length == data.Length {
        var used := data[..length];
        var grown := new PrivateEndpointSpec[2 * length + 1](i => if 0 <= i < |used| then used[i] else spec);
        assert grown[..length] == data[..length];
        data := grown;
      }
      data[length] := spec;
      length := length + 1;
    }

    /** append(s[:i], s[i+1:]...): shifts the tail one place down in the same array. */
    method RemoveAt(i: nat)
      requires Valid() && i < length
      modifies this`length, data
      ensures Valid() && Contents() == old(Contents()[..i] + Contents()[i + 1..])
    {
      ghost var before := Contents();
      ghost var after := before[..i] + before[i + 1..];
      assert forall k :: 0 <= k < i ==> after[k] == before[k];
      assert forall k :: i <= k < length - 1 ==> after[k] == before[k + 1];
      for j := i to length - 1
        invariant length == |before| && Valid()
        invariant forall k :: 0 <= k < j ==> data[k] == after[k]
        invariant forall k :: j <= k < length ==> data[k] == before[k]
      {
        data[j] := data[j + 1];
      }
      length := length - 1;
      assert data[..length] == after;
    }
  }
}
