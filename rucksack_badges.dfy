/**
 * 2022 day 3, second part: the lines are taken three at a time, and each
 * group's badge is the item type all three of its rucksacks carry.
 */
module RucksackBadges {
  import opened Common
  import opened Rucksack

  /** The `i`-th complete group of three. */
  function Triple<T>(data: seq<T>, i: nat): (T, T, T)
    requires i < |data| / 3
  {
    (data[3 * i], data[3 * i + 1], data[3 * i + 2])
  }

  /** Consecutive triples of `data`; an incomplete final group is dropped. */
  method ChunkAsThrees<T>(data: seq<T>) returns (chunks: seq<(T, T, T)>)
    ensures |chunks| == |data| / 3
    ensures forall i :: 0 <= i < |chunks| ==> chunks[i] == Triple(data, i)
  {
    chunks := [];
    for i := 0 to |data| / 3
      invariant |chunks| == i
      invariant forall k :: 0 <= k < i ==> chunks[k] == Triple(data, k)
    {
      var sliceStart := i * 3;
      chunks := chunks + [(data[sliceStart], data[sliceStart + 1], data[sliceStart + 2])];
    }
  }

  /** `xs.into_iter().find(|c| ys.contains(c) && zs.contains(c))`. */
  function FindCommon3(xs: seq<char>, ys: seq<char>, zs: seq<char>): (r: Option<char>)
    ensures r.None? <==> forall i :: 0 <= i < |xs| ==> xs[i] !in ys || xs[i] !in zs
    ensures r.Some? ==> r.value in ys && r.value in zs && exists i :: 0 <= i < |xs| && xs[i] == r.value && forall j :: 0 <= j < i ==> xs[j] !in ys || xs[j] !in zs
  {
    if xs == [] then None
    else if xs[0] in ys && xs[0] in zs then Some(xs[0])
    else
      var r := FindCommon3(xs[1..], ys, zs);
      assert forall i :: 1 <= i < |xs| ==> xs[i] == xs[1..][i - 1];
      r
  }

  /** One group: the priority of its badge, or an error when the three share nothing. */
  function GroupBadge(group: (string, string, string)): Result<nat>
  {
    var first := SortAndDedup(group.0);
    match FindCommon3(first, SortAndDedup(group.1), SortAndDedup(group.2))
    case None => Err("Found a group without a common type")
    case Some(c) => ItemPriority(c)
  }

  /** Three rucksacks sharing nothing are an error; a badge is the priority of a shared item. */
  lemma GroupBadgeMeaning(group: (string, string, string))
    ensures (forall c :: c in group.0 ==> c !in group.1 || c !in group.2) ==> GroupBadge(group) == Err("Found a group without a common type")
    ensures GroupBadge(group).Ok? ==> exists c :: c in group.0 && c in group.1 && c in group.2 && GroupBadge(group) == ItemPriority(c)
  {
  }

  /** The badge is the smallest item type that all three rucksacks carry. */
  lemma GroupBadgeOfSmallestShared(group: (string, string, string), c: char)
    requires c in group.0 && c in group.1 && c in group.2
    requires forall d :: d in group.0 && d in group.1 && d in group.2 ==> c <= d
    ensures GroupBadge(group) == ItemPriority(c)
  {
    var xs, ys, zs := SortAndDedup(group.0), SortAndDedup(group.1), SortAndDedup(group.2);
    assert c in xs;
    var v := FindCommon3(xs, ys, zs).value;
    var i :| 0 <= i < |xs| && xs[i] == v && forall j :: 0 <= j < i ==> xs[j] !in ys || xs[j] !in zs;
    var k :| 0 <= k < |xs| && xs[k] == c;
    assert !(k < i);
    assert v <= c;
  }

  /** The complete groups of three, in order. */
  function Triples<T>(data: seq<T>): (ts: seq<(T, T, T)>)
    ensures |ts| == |data| / 3 && forall i :: 0 <= i < |ts| ==> ts[i] == Triple(data, i)
  {
    seq(|data| / 3, i requires 0 <= i < |data| / 3 => Triple(data, i))
  }

  /** Appending a complete group, and fewer than three further lines, adds exactly that group. */
  lemma TriplesAppend<T>(data: seq<T>, group: (T, T, T), rest: seq<T>)
    requires |data| % 3 == 0 && |rest| < 3
    ensures Triples(data + [group.0, group.1, group.2] + rest) == Triples(data) + [group]
  {
    var all := data + [group.0, group.1, group.2] + rest;
    var n := |data| / 3;
    assert |all| / 3 == n + 1;
    forall i | 0 <= i < n
      ensures Triple(all, i) == Triple(data, i)
    {
      assert all[3 * i] == data[3 * i] && all[3 * i + 1] == data[3 * i + 1] && all[3 * i + 2] == data[3 * i + 2];
    }
    assert all[3 * n] == group.0 && all[3 * n + 1] == group.1 && all[3 * n + 2] == group.2;
  }

  /** Each group's badge, in order. */
  function Badges(groups: seq<(string, string, string)>): (rs: seq<Result<nat>>)
    ensures |rs| == |groups| && forall i :: 0 <= i < |groups| ==> rs[i] == GroupBadge(groups[i])
  {
    seq(|groups|, i requires 0 <= i < |groups| => GroupBadge(groups[i]))
  }

  /** One more group, one more badge at the end. */
  lemma BadgesSnoc(groups: seq<(string, string, string)>, group: (string, string, string))
    ensures Badges(groups + [group]) == Badges(groups) + [GroupBadge(group)]
  {
    var lhs, rhs := Badges(groups + [group]), Badges(groups) + [GroupBadge(group)];
    forall i | 0 <= i < |lhs|
      ensures lhs[i] == rhs[i]
    {
      if i < |groups| {
        assert (groups + [group])[i] == groups[i];
      }
    }
  }

  /** The specification of the answer: the badges of the complete groups of lines, summed. */
  function BadgeSum(lines: seq<string>): (r: Result<nat>)
    ensures r.Ok? <==> forall i :: 0 <= i < |lines| / 3 ==> GroupBadge(Triple(lines, i)).Ok?
  {
    var rs := Badges(Triples(lines));
    assert forall i :: 0 <= i < |lines| / 3 ==> rs[i] == GroupBadge(Triple(lines, i));
    SumResults(rs)
  }

  /** Appending a complete group adds its badge; leftover lines are ignored. */
  lemma BadgeSumAppendGroup(lines: seq<string>, group: (string, string, string), rest: seq<string>)
    requires |lines| % 3 == 0 && |rest| < 3
    requires BadgeSum(lines).Ok? && GroupBadge(group).Ok?
    ensures BadgeSum(lines + [group.0, group.1, group.2] + rest) == Ok(BadgeSum(lines).value + GroupBadge(group).value)
  {
    TriplesAppend(lines, group, rest);
    BadgesSnoc(Triples(lines), group);
    SumResultsSnoc(Badges(Triples(lines)), GroupBadge(group));
  }

  /** The program: split the input into lines, chunk them, and sum the badges. */
  method BadgePrioritySum(data: string) returns (r: Result<nat>)
    ensures r == BadgeSum(Split(data, '\n'))
  {
    var lines := Split(data, '\n');
    var chunks := ChunkAsThrees(lines);
    assert chunks == Triples(lines);
    r := SumResults(Badges(chunks));
  }

  /** Six elements make two groups; of five, the incomplete second group is dropped. */
  method ChunkSamples() returns (six: seq<(int, int, int)>, five: seq<(int, int, int)>)
    ensures six == [(1, 2, 3), (4, 5, 6)]
    ensures five == [(1, 2, 3)]
  {
    six := ChunkAsThrees([1, 2, 3, 4, 5, 6]);
    five := ChunkAsThrees([1, 2, 3, 4, 5]);
  }
}
