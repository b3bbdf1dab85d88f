/**
 * The examples of 2022 day 13's packet module: the scan, reading, and
 * comparisons, on the lists the examples use.
 */
module DistressSignalExamples {
  import opened Common
  import opened DistressSignal

  /** The numbers of the nested list. */
  lemma InnerNumbers()
    ensures Render(One(0)) == "0" && Render(One(2)) == "2" && Render(One(3)) == "3"
    ensures Render(One(4)) == "4" && Render(One(5)) == "5" && Render(One(6)) == "6"
  {
    assert Decimal(0) == ['0' + ((0 % 10) as char)];
    assert Decimal(2) == ['0' + ((2 % 10) as char)];
    assert Decimal(3) == ['0' + ((3 % 10) as char)];
    assert Decimal(4) == ['0' + ((4 % 10) as char)];
    assert Decimal(5) == ['0' + ((5 % 10) as char)];
    assert Decimal(6) == ['0' + ((6 % 10) as char)];
  }

  /** The numbers around the nested list. */
  lemma OuterNumbers()
    ensures Render(One(1)) == "1" && Render(One(8)) == "8" && Render(One(9)) == "9"
  {
    assert Decimal(1) == ['0' + ((1 % 10) as char)];
    assert Decimal(8) == ['0' + ((8 % 10) as char)];
    assert Decimal(9) == ['0' + ((9 % 10) as char)];
  }

  lemma RenderInnermost(x5: Oor)
    requires x5 == RecursiveList([One(5), One(6), One(0)])
    ensures Render(x5) == "[5,6,0]"
  {
    InnerNumbers();
    RenderList([One(5), One(6), One(0)], ["5", "6", "0"]);
    assert Join(["5", "6", "0"], ",") == "5,6,0";
  }

  /** A two-element list rendered from its parts. */
  lemma RenderPair(a: Oor, b: Oor, ta: string, tb: string)
    requires Render(a) == ta && Render(b) == tb
    ensures Render(RecursiveList([a, b])) == "[" + ta + "," + tb + "]"
  {
    RenderList([a, b], [ta, tb]);
    assert Join([ta, tb], ",") == ta + "," + tb;
  }

  /** The nested list `[2,[3,[4,[5,6,0]]]]` of the examples, built from the inside out. */
  lemma RenderNested(x5: Oor, x4: Oor, x3: Oor, x2: Oor)
    requires x5 == RecursiveList([One(5), One(6), One(0)])
    requires x4 == RecursiveList([One(4), x5]) && x3 == RecursiveList([One(3), x4]) && x2 == RecursiveList([One(2), x3])
    ensures Render(x3) == "[3,[4,[5,6,0]]]"
    ensures Render(x2) == "[2,[3,[4,[5,6,0]]]]"
  {
    InnerNumbers();
    RenderInnermost(x5);
    RenderPair(One(4), x5, "4", "[5,6,0]");
    RenderPair(One(3), x4, "3", "[4,[5,6,0]]");
    RenderPair(One(2), x3, "2", "[3,[4,[5,6,0]]]");
  }

  /** `1,t,8,9` splits into its four elements, and `[1,t,8,9]` reads back as its list. */
  lemma FourPieces(x2: Oor, t: string)
    requires Render(x2) == t
    ensures SplitOutside("1," + t + ",8,9") == Ok(["1", t, "8", "9"])
    ensures U8Valued(x2) ==> FromStr("[1," + t + ",8,9]") == Ok([One(1), x2, One(8), One(9)])
  {
    OuterNumbers();
    var xs := [One(1), x2, One(8), One(9)];
    var ps := ["1", t, "8", "9"];
    RenderList(xs, ps);
    assert ps[1..][1..][1..] == ["9"];
    assert Join(ps[1..][1..], ",") == "8" + "," + "9";
    assert Join(ps[1..], ",") == t + "," + ("8" + "," + "9");
    assert Join(ps, ",") == "1" + "," + (t + "," + ("8" + "," + "9"));
    assert "1" + "," + (t + "," + ("8" + "," + "9")) == "1," + t + ",8,9";
    SplitRendered(xs);
    assert "[" + ("1," + t + ",8,9") + "]" == "[1," + t + ",8,9]";
    if U8Valued(x2) {
      FromStrRoundTrip(xs);
    }
  }

  /** `2,t` splits into its two elements. */
  lemma TwoPieces(x3: Oor, t: string)
    requires Render(x3) == t
    ensures SplitOutside("2," + t) == Ok(["2", t])
  {
    InnerNumbers();
    RenderList([One(2), x3], ["2", t]);
    assert Join(["2", t], ",") == "2," + t;
    SplitRendered([One(2), x3]);
  }

  /** The scan and reading examples on the nested list. */
  lemma NestedExamples()
    ensures SplitOutside("1," + "[2,[3,[4,[5,6,0]]]]" + ",8,9") == Ok(["1", "[2,[3,[4,[5,6,0]]]]", "8", "9"])
    ensures SplitOutside("2," + "[3,[4,[5,6,0]]]") == Ok(["2", "[3,[4,[5,6,0]]]"])
    ensures FromStr("[1," + "[2,[3,[4,[5,6,0]]]]" + ",8,9]") ==
      Ok([One(1), RecursiveList([One(2), RecursiveList([One(3), RecursiveList([One(4), RecursiveList([One(5), One(6), One(0)])])])]), One(8), One(9)])
  {
    var x5 := RecursiveList([One(5), One(6), One(0)]);
    var x4 := RecursiveList([One(4), x5]);
    var x3 := RecursiveList([One(3), x4]);
    var x2 := RecursiveList([One(2), x3]);
    RenderNested(x5, x4, x3, x2);
    assert U8Valued(x5);
    assert U8Valued(x4);
    assert U8Valued(x3);
    assert U8Valued(x2);
    FourPieces(x2, "[2,[3,[4,[5,6,0]]]]");
    TwoPieces(x3, "[3,[4,[5,6,0]]]");
  }


  /** The last example of the scan: the text `[]` stays one piece. */
  lemma EmptyListSplit()
    ensures SplitOutside("[]") == Ok(["[]"])
  {
    var e := RecursiveList([]);
    RenderList([e], ["[]"]);
    SplitRendered([e]);
  }

  /** The comparison examples, decided at the first differing number or by length. */
  lemma CompareNumberExamples()
    ensures CompareLists([One(1), One(1), One(3), One(1), One(1)], [One(1), One(1), One(5), One(1), One(1)]) == Less
    ensures CompareLists([RecursiveList([One(4), One(4)]), One(4), One(4)],
                         [RecursiveList([One(4), One(4)]), One(4), One(4), One(4)]) == Less
    ensures CompareLists([One(7), One(7), One(7), One(7)], [One(7), One(7), One(7)]) == Greater
  {
  }

  /** The comparison examples where a number meets a list, or lists nest. */
  lemma CompareMixedExamples()
    ensures CompareLists([RecursiveList([One(1)]), RecursiveList([One(2), One(3), One(4)])],
                         [RecursiveList([One(1)]), One(4)]) == Less
    ensures CompareLists([One(9)], [RecursiveList([One(8), One(7), One(6)])]) == Greater
    ensures CompareLists([RecursiveList([RecursiveList([])])], [RecursiveList([])]) == Greater
  {
  }
}
