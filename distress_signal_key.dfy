/**
 * 2022 day 13, the program around the packet type: read every line of
 * every section as a packet, add the two divider packets, put everything in
 * order, and multiply the dividers' one-based positions.
 */
module DistressSignalKey {
  import opened Common
  import opened DistressSignal

  /** The divider packets `[[2]]` and `[[6]]`. */
  const DIVIDER_TWO: Oor := RecursiveList([RecursiveList([One(2)])])
  const DIVIDER_SIX: Oor := RecursiveList([RecursiveList([One(6)])])

  // ------------------------------------------------------------------
  // Reading the packets
  // ------------------------------------------------------------------

  /** Every line of one section read as a list, stopping at the first bad line. */
  function ParseSection(section: string): Result<seq<seq<Oor>>>
  {
    var lines := Split(section, '\n');
    Collect(seq(|lines|, i requires 0 <= i < |lines| => FromStr(lines[i])))
  }

  /** The packets of all sections, in input order; a blank line is the empty packet. */
  function Packets(input: string): (r: Result<seq<Oor>>)
    ensures r.Ok? ==> forall k :: 0 <= k < |r.value| ==> r.value[k].RecursiveList?
  {
    var sections := SplitOn(input, "\n\n");
    match Collect(seq(|sections|, i requires 0 <= i < |sections| => ParseSection(sections[i])))
    case Err(e) => Err(e)
    case Ok(parsed) =>
      var lists := Concat(parsed);
      Ok(seq(|lists|, k requires 0 <= k < |lists| => RecursiveList(lists[k])))
  }

  // ------------------------------------------------------------------
  // Ordering the packets
  // ------------------------------------------------------------------

  /** Each packet comes no later in the order than the one after it. */
  predicate Sorted(s: seq<Oor>)
  {
    forall i :: 0 < i < |s| ==> Compare(s[i - 1], s[i]) != Greater
  }

  /** Places `x` before the first element it precedes, after all that it does not. */
  function Insert(x: Oor, s: seq<Oor>): (r: seq<Oor>)
    ensures |r| == |s| + 1
    ensures r[0] == x || (s != [] && r[0] == s[0])
  {
    if s == [] then [x]
    else if Compare(x, s[0]) == Less then [x] + s
    else [s[0]] + Insert(x, s[1..])
  }

  /**
   * A stable sort by `Compare`: each element goes after every earlier one it
   * does not precede, so elements that compare equal keep their input order.
   */
  function Sort(xs: seq<Oor>): (sorted: seq<Oor>)
    ensures Sorted(sorted) && multiset(sorted) == multiset(xs)
    decreases |xs|
  {
    if xs == [] then []
    else
      var init := xs[..|xs| - 1];
      var rest := Sort(init);
      InsertSorted(xs[|xs| - 1], rest);
      assert xs == init + [xs[|xs| - 1]];
      Insert(xs[|xs| - 1], rest)
  }

  lemma SortedTail(s: seq<Oor>)
    requires Sorted(s) && s != []
    ensures Sorted(s[1..])
  {
    var t := s[1..];
    forall i | 0 < i < |t|
      ensures Compare(t[i - 1], t[i]) != Greater
    {
      assert t[i - 1] == s[i] && t[i] == s[i + 1];
    }
  }

  lemma SortedCons(h: Oor, r: seq<Oor>)
    requires Sorted(r) && (r != [] ==> Compare(h, r[0]) != Greater)
    ensures Sorted([h] + r)
  {
    var t := [h] + r;
    forall i | 0 < i < |t|
      ensures Compare(t[i - 1], t[i]) != Greater
    {
      if i > 1 {
        assert t[i - 1] == r[i - 2] && t[i] == r[i - 1];
      }
    }
  }

  lemma {:induction false} InsertSorted(x: Oor, s: seq<Oor>)
    requires Sorted(s)
    ensures Sorted(Insert(x, s))
    ensures multiset(Insert(x, s)) == multiset(s) + multiset{x}
    decreases |s|
  {
    if s == [] {
    } else if Compare(x, s[0]) == Less {
      SortedCons(x, s);
    } else {
      var rest := s[1..];
      SortedTail(s);
      InsertSorted(x, rest);
      var r := Insert(x, rest);
      CompareFlip(x, s[0]);
      if r[0] != x {
        assert r[0] == s[1];
      }
      SortedCons(s[0], r);
      assert s == [s[0]] + rest;
    }
  }

  /** In a sorted sequence every element comes no later than every later one. */
  lemma {:induction false} SortedPairs(s: seq<Oor>, i: nat, j: nat)
    requires Sorted(s) && i < j < |s|
    ensures Compare(s[i], s[j]) != Greater
    decreases j - i
  {
    if i + 1 < j {
      SortedPairs(s, i + 1, j);
      CompareTransitive(s[i], s[i + 1], s[j]);
    }
  }

  // ------------------------------------------------------------------
  // The answer
  // ------------------------------------------------------------------

  /** The first index holding a packet structurally equal to `d`. */
  function Position(s: seq<Oor>, d: Oor): (i: nat)
    requires d in s
    ensures i < |s| && s[i] == d
    ensures forall k :: 0 <= k < i ==> s[k] != d
  {
    if s[0] == d then 0 else Position(s[1..], d) + 1
  }

  /** The packets with both dividers added, in order. */
  function Ordered(packets: seq<Oor>): (sorted: seq<Oor>)
    ensures Sorted(sorted) && multiset(sorted) == multiset(packets + [DIVIDER_TWO, DIVIDER_SIX])
    ensures DIVIDER_TWO in sorted && DIVIDER_SIX in sorted
  {
    var all := packets + [DIVIDER_TWO, DIVIDER_SIX];
    assert DIVIDER_TWO in multiset(all) && DIVIDER_SIX in multiset(all);
    Sort(all)
  }

  /** The product of the dividers' one-based positions among the ordered packets. */
  function KeyOf(packets: seq<Oor>): (key: nat)
    ensures Position(Ordered(packets), DIVIDER_TWO) < Position(Ordered(packets), DIVIDER_SIX)
    ensures key == Times(Position(Ordered(packets), DIVIDER_TWO) + 1, Position(Ordered(packets), DIVIDER_SIX) + 1)
  {
    DividersInOrder(packets);
    Times(Position(Ordered(packets), DIVIDER_TWO) + 1, Position(Ordered(packets), DIVIDER_SIX) + 1)
  }

  /**
   * The key of the input's packets, or the first parse error: the product
   * of the one-based positions at which `[[2]]` and `[[6]]` first occur
   * once the packets and the dividers are put in order, `[[2]]` coming
   * first.
   */
  function DecoderKey(input: string): (r: Result<nat>)
    ensures r.Ok? <==> Packets(input).Ok?
    ensures r.Err? ==> r == Err(Packets(input).msg)
    ensures r.Ok? ==>
      var sorted := Ordered(Packets(input).value);
      var two, six := Position(sorted, DIVIDER_TWO), Position(sorted, DIVIDER_SIX);
      two < six && r.value == Times(two + 1, six + 1)
  {
    match Packets(input)
    case Err(e) => Err(e)
    case Ok(packets) =>
      DividersInOrder(packets);
      Ok(KeyOf(packets))
  }

  lemma DividerCompare()
    ensures Compare(DIVIDER_SIX, DIVIDER_TWO) == Greater
  {
  }

  /** `[[2]]` comes before `[[6]]`: in the order, and so in every sorted sequence. */
  lemma DividersInOrder(packets: seq<Oor>)
    ensures Position(Ordered(packets), DIVIDER_TWO) < Position(Ordered(packets), DIVIDER_SIX)
  {
    var all := packets + [DIVIDER_TWO, DIVIDER_SIX];
    var sorted := Ordered(packets);
    assert sorted == Sort(all);
    var two := Position(sorted, DIVIDER_TWO);
    var six := Position(sorted, DIVIDER_SIX);
    DividerCompare();
    if six < two {
      SortedPairs(sorted, six, two);
    }
  }

  /** The divider texts `[[2]]` and `[[6]]` read as the divider packets, so reading them cannot fail. */
  lemma DividersParse()
    ensures OorFromStr("[[2]]") == Ok(DIVIDER_TWO)
    ensures OorFromStr("[[6]]") == Ok(DIVIDER_SIX)
  {
    assert Decimal(2) == ['0' + ((2 % 10) as char)];
    RenderList([One(2)], ["2"]);
    RenderList([RecursiveList([One(2)])], ["[2]"]);
    assert Render(DIVIDER_TWO) == "[[2]]";
    RoundTrip(DIVIDER_TWO);
    assert Decimal(6) == ['0' + ((6 % 10) as char)];
    RenderList([One(6)], ["6"]);
    RenderList([RecursiveList([One(6)])], ["[6]"]);
    assert Render(DIVIDER_SIX) == "[[6]]";
    RoundTrip(DIVIDER_SIX);
  }
}
