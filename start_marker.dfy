/**
 * 2022 day 6, second part: the first position in a datastream that ends a
 * run of `length` pairwise different bytes.
 */
module StartMarker {
  import opened Common

  newtype byte = x: int | 0 <= x < 0x100

  predicate Distinct(w: seq<byte>)
  {
    forall j, k :: 0 <= j < k < |w| ==> w[j] != w[k]
  }

  /** The `length` bytes before position `i` are pairwise different. */
  predicate DistinctBefore(length: nat, data: seq<byte>, i: nat)
    requires length <= i <= |data|
  {
    Distinct(data[i - length..i])
  }

  /**
   * Reference definition: the smallest `i` in `from..|data|` whose preceding
   * `length` bytes are pairwise different. The window ending at `|data|`
   * is not among the candidates.
   */
  function FirstDistinctWindow(length: nat, data: seq<byte>, from: nat): (r: Option<nat>)
    requires length <= from <= |data|
    ensures r.Some? ==> from <= r.value < |data| && DistinctBefore(length, data, r.value)
    ensures r.Some? ==> forall i :: from <= i < r.value ==> !DistinctBefore(length, data, i)
    ensures r.None? ==> forall i :: from <= i < |data| ==> !DistinctBefore(length, data, i)
    decreases |data| - from
  {
    if from == |data| then None
    else if DistinctBefore(length, data, from) then Some(from)
    else FirstDistinctWindow(length, data, from + 1)
  }

  /**
   * `find_head_of_unique_string_of_length`: every window is checked pair by
   * pair, and the first duplicate abandons it. A zero length panics unless
   * there is no data.
   */
  method FindHead(length: nat, data: seq<byte>) returns (r: Option<nat>)
    requires length >= 1 || |data| == 0
    ensures length > |data| ==> r == None
    ensures length <= |data| ==> r == FirstDistinctWindow(length, data, length)
  {
    if length > |data| {
      return None;
    }
    for i := length to |data|
      invariant forall i' :: length <= i' < i ==> !DistinctBefore(length, data, i')
    {
      label chars: {
        var chars := data[i - length..i];
        for j := 0 to |chars| - 1
          invariant forall j', k :: 0 <= j' < j && j' < k < |chars| ==> chars[j'] != chars[k]
        {
          for k := j + 1 to |chars|
            invariant forall k' :: j + 1 <= k' < k ==> chars[j] != chars[k']
          {
            if chars[j] == chars[k] {
              break chars;
            }
          }
        }
        FirstIsSmallest(length, data, length, i);
        return Some(i);
      }
    }
    NoneFound(length, data, length);
    r := None;
  }

  lemma {:induction false} FirstIsSmallest(length: nat, data: seq<byte>, from: nat, i: nat)
    requires length <= from <= i < |data|
    requires DistinctBefore(length, data, i)
    requires forall i' :: from <= i' < i ==> !DistinctBefore(length, data, i')
    ensures FirstDistinctWindow(length, data, from) == Some(i)
    decreases i - from
  {
    if from < i {
      FirstIsSmallest(length, data, from + 1, i);
    }
  }

  lemma {:induction false} NoneFound(length: nat, data: seq<byte>, from: nat)
    requires length <= from <= |data|
    requires forall i :: from <= i < |data| ==> !DistinctBefore(length, data, i)
    ensures FirstDistinctWindow(length, data, from) == None
    decreases |data| - from
  {
    if from < |data| {
      NoneFound(length, data, from + 1);
    }
  }

  /** A single byte is always distinct from the rest of an empty window: length 1 answers 1. */
  lemma LengthOne(data: seq<byte>)
    requires |data| >= 2
    ensures FirstDistinctWindow(1, data, 1) == Some(1)
  {
  }

  /** A run that only completes at the very end of the data is not reported. */
  lemma EndWindowIgnored(length: nat, data: seq<byte>)
    requires 1 <= length == |data| && Distinct(data)
    ensures DistinctBefore(length, data, |data|)
    ensures FirstDistinctWindow(length, data, length) == None
  {
    assert data[0..|data|] == data;
  }
}
