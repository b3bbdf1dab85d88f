/**
 * 2022 day 3, first part: each line is a rucksack whose two halves are its
 * compartments; the item type found in both compartments is scored by its
 * priority and the priorities are summed.
 */
module Rucksack {
  import opened Common

  /** `a`..`z` score 1..26, `A`..`Z` score 27..52; any other item is an error. */
  function ItemPriority(item: char): (r: Result<nat>)
    ensures r.Ok? <==> 'a' <= item <= 'z' || 'A' <= item <= 'Z'
    ensures r.Ok? ==> 1 <= r.value <= 52
    ensures r.Ok? ==> ('a' <= item <= 'z' <==> r.value <= 26)
  {
    if 'a' <= item <= 'z' then Ok((item as int - 96) as nat)
    else if 'A' <= item <= 'Z' then Ok((item as int - 38) as nat)
    else Err("Couldn't prioritize item. Invalid character: " + [item])
  }

  /** Different item types never share a priority. */
  lemma ItemPriorityInjective(a: char, b: char)
    requires ItemPriority(a).Ok? && ItemPriority(b).Ok?
    requires ItemPriority(a) == ItemPriority(b)
    ensures a == b
  {
  }

  lemma ItemPrioritySamples()
    ensures ItemPriority('p') == Ok(16) && ItemPriority('L') == Ok(38) && ItemPriority('P') == Ok(42)
    ensures ItemPriority('v') == Ok(22) && ItemPriority('t') == Ok(20) && ItemPriority('s') == Ok(19)
  {
  }

  predicate StrictlyAscending(s: seq<char>)
  {
    forall i, j :: 0 <= i < j < |s| ==> s[i] < s[j]
  }

  /** Adds `c` to a strictly ascending sequence, keeping it strictly ascending. */
  function InsertSorted(c: char, s: seq<char>): (r: seq<char>)
    requires StrictlyAscending(s)
    ensures StrictlyAscending(r)
    ensures forall x :: x in r <==> x == c || x in s
  {
    if s == [] then [c]
    else if c < s[0] then [c] + s
    else if c == s[0] then s
    else
      var rest := InsertSorted(c, s[1..]);
      assert forall x :: x in s[1..] ==> s[0] < x;
      [s[0]] + rest
  }

  /** `sort` then `dedup`: the distinct chars of `s` in ascending order. */
  function SortAndDedup(s: string): (r: seq<char>)
    ensures StrictlyAscending(r)
    ensures forall x :: x in r <==> x in s
  {
    if s == [] then []
    else
      var r := InsertSorted(s[|s| - 1], SortAndDedup(s[..|s| - 1]));
      assert forall x :: x in s <==> x in s[..|s| - 1] || x == s[|s| - 1] by {
        assert s == s[..|s| - 1] + [s[|s| - 1]];
      }
      r
  }

  /** A strictly ascending sequence is determined by its elements. */
  lemma {:induction false} AscendingUnique(a: seq<char>, b: seq<char>)
    requires StrictlyAscending(a) && StrictlyAscending(b)
    requires forall x :: x in a <==> x in b
    ensures a == b
    decreases |a|
  {
    SameElementsBothEmpty(a, b);
    if a != [] {
      assert a[0] == b[0] by {
        assert b[0] in a && a[0] in b;
      }
      assert forall x :: x in a[1..] <==> x in b[1..] by {
        forall x
          ensures x in a[1..] <==> x in b[1..]
        {
          assert x in a[1..] <==> x in a && x != a[0];
          assert x in b[1..] <==> x in b && x != b[0];
        }
      }
      AscendingUnique(a[1..], b[1..]);
      assert a == [a[0]] + a[1..] && b == [b[0]] + b[1..];
    }
  }

  lemma SameElementsBothEmpty(a: seq<char>, b: seq<char>)
    requires forall x :: x in a <==> x in b
    ensures a == [] <==> b == []
  {
    if a != [] {
      assert a[0] in b;
    }
    if b != [] {
      assert b[0] in a;
    }
  }

  /** So any sorted, duplicate-free listing of the chars of `s` is the result. */
  lemma SortAndDedupIsTheSortedSet(s: string, listing: seq<char>)
    requires StrictlyAscending(listing)
    requires forall x :: x in listing <==> x in s
    ensures SortAndDedup(s) == listing
  {
    AscendingUnique(SortAndDedup(s), listing);
  }

  /** `xs.into_iter().find(|c| ys.contains(c))`. */
  function FindCommon(xs: seq<char>, ys: seq<char>): (r: Option<char>)
    ensures r.None? <==> forall i :: 0 <= i < |xs| ==> xs[i] !in ys
    ensures r.Some? ==> r.value in ys && exists i :: 0 <= i < |xs| && xs[i] == r.value && forall j :: 0 <= j < i ==> xs[j] !in ys
  {
    if xs == [] then None
    else if xs[0] in ys then Some(xs[0])
    else
      var r := FindCommon(xs[1..], ys);
      assert forall i :: 1 <= i < |xs| ==> xs[i] == xs[1..][i - 1];
      r
  }

  /** In an ascending list the first common item is the smallest common item. */
  lemma FindCommonSmallest(xs: seq<char>, ys: seq<char>)
    requires StrictlyAscending(xs)
    requires FindCommon(xs, ys).Some?
    ensures forall c :: c in xs && c in ys ==> FindCommon(xs, ys).value <= c
  {
    var v := FindCommon(xs, ys).value;
    var i :| 0 <= i < |xs| && xs[i] == v && forall j :: 0 <= j < i ==> xs[j] !in ys;
    forall c | c in xs && c in ys
      ensures v <= c
    {
      var k :| 0 <= k < |xs| && xs[k] == c;
      assert !(k < i);
    }
  }

  /** The two compartments: the first holds the rounded-up half. */
  function Compartments(rucksack: string): (halves: (string, string))
    ensures halves.0 + halves.1 == rucksack
    ensures |halves.0| - |halves.1| in {0, 1}
  {
    var mid := (|rucksack| + 1) / 2;
    (rucksack[..mid], rucksack[mid..])
  }

  /** The priority of the smallest item type present in both compartments. */
  function RucksackPriority(rucksack: string): (r: Result<nat>)
    ensures (forall c :: c in Compartments(rucksack).0 ==> c !in Compartments(rucksack).1) ==>
      r == Err("Found a rucksack without a duplicate")
    ensures r.Ok? ==> exists c :: c in Compartments(rucksack).0 && c in Compartments(rucksack).1 && r == ItemPriority(c)
  {
    var (fore, aft) := Compartments(rucksack);
    match FindCommon(SortAndDedup(fore), SortAndDedup(aft))
    case None => Err("Found a rucksack without a duplicate")
    case Some(c) => ItemPriority(c)
  }

  /** When there is a shared item, the answer is the priority of the smallest one. */
  lemma RucksackPriorityOfSmallestShared(rucksack: string, c: char)
    requires c in Compartments(rucksack).0 && c in Compartments(rucksack).1
    requires forall d :: d in Compartments(rucksack).0 && d in Compartments(rucksack).1 ==> c <= d
    ensures RucksackPriority(rucksack) == ItemPriority(c)
  {
    var (fore, aft) := Compartments(rucksack);
    var xs, ys := SortAndDedup(fore), SortAndDedup(aft);
    assert c in xs && c in ys;
    FindCommonSmallest(xs, ys);
    var v := FindCommon(xs, ys).value;
    assert v in fore && v in aft by {
      var i :| 0 <= i < |xs| && xs[i] == v && forall j :: 0 <= j < i ==> xs[j] !in ys;
    }
  }

  /** The priority of every rucksack, 0 standing in for one that fails. */
  function Priorities(lines: seq<string>): (ps: seq<int>)
    ensures |ps| == |lines|
    ensures forall i :: 0 <= i < |lines| ==> RucksackPriority(lines[i]).Ok? ==> ps[i] == RucksackPriority(lines[i]).value
  {
    seq(|lines|, i requires 0 <= i < |lines| => match RucksackPriority(lines[i]) case Ok(v) => v case Err(_) => 0)
  }

  /**
   * The answer: every line of the input is a rucksack; one bad one aborts,
   * and otherwise the rucksacks' priorities are added up.
   */
  function PrioritySum(data: string): (r: Result<nat>)
    ensures r.Ok? <==> forall i :: 0 <= i < |Split(data, '\n')| ==> RucksackPriority(Split(data, '\n')[i]).Ok?
    ensures r.Ok? ==> r.value == Sum(Priorities(Split(data, '\n')))
    ensures r.Err? ==> exists i :: 0 <= i < |Split(data, '\n')| && RucksackPriority(Split(data, '\n')[i]) == Err(r.msg)
  {
    var lines := Split(data, '\n');
    var rs := seq(|lines|, i requires 0 <= i < |lines| => RucksackPriority(lines[i]));
    assert forall i :: 0 <= i < |lines| ==> rs[i] == RucksackPriority(lines[i]);
    assert OkValues(rs) == Priorities(lines);
    SumResults(rs)
  }

  /** The empty line after a final newline has no shared item, so such an input always fails. */
  lemma TrailingNewlineFails(data: string)
    requires |data| > 0 && data[|data| - 1] == '\n'
    ensures PrioritySum(data).Err?
  {
    var body := data[..|data| - 1];
    assert data == body + ['\n'];
    SplitEndsEmpty(body, '\n');
    var lines := Split(data, '\n');
    assert RucksackPriority(lines[|lines| - 1]).Err?;
  }
}
