/**
 * 2022 day 6, first part: the first position that ends four pairwise
 * different characters, checked by six explicit comparisons.
 */
module PacketMarker {
  import opened Common
  import opened StartMarker

  /** The six comparisons of the loop body. */
  predicate SixDifferent(w: seq<byte>)
    requires |w| == 4
  {
    w[0] != w[1] && w[0] != w[2] && w[0] != w[3] && w[1] != w[2] && w[1] != w[3] && w[2] != w[3]
  }

  /** Six comparisons cover every pair of four bytes. */
  lemma SixDifferentIsDistinct(w: seq<byte>)
    requires |w| == 4
    ensures SixDifferent(w) <==> Distinct(w)
  {
    if SixDifferent(w) {
      forall j, k | 0 <= j < k < 4
        ensures w[j] != w[k]
      {
        assert j == 0 || j == 1 || j == 2;
      }
    }
  }

  /**
   * Positions 4, 5, ... of the input, stopping at the first one whose four
   * predecessors differ; nothing is reported when none does. The last
   * position examined is `|data| - 1`.
   */
  method FirstPacketMarker(data: seq<byte>) returns (r: Option<nat>)
    ensures |data| < 4 ==> r == None
    ensures |data| >= 4 ==> r == FirstDistinctWindow(4, data, 4)
  {
    for i := 4 to if |data| < 4 then 4 else |data|
      invariant forall i' :: 4 <= i' < i ==> !DistinctBefore(4, data, i')
    {
      var fourChars := data[i - 4..i];
      SixDifferentIsDistinct(fourChars);
      if SixDifferent(fourChars) {
        FirstIsSmallest(4, data, 4, i);
        return Some(i);
      }
    }
    if |data| >= 4 {
      NoneFound(4, data, 4);
    }
    r := None;
  }
}
