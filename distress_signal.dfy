/**
 * 2022 day 13: packets are nested lists of numbers. They are compared
 * element by element, a lone number standing for the one-element list that
 * holds it; the packets and two divider packets are then put in order, and
 * the answer multiplies the dividers' positions.
 */
module DistressSignal {
  import opened Common

  /** One number, or a list of such values: the packet shape. */
  datatype Oor = One(value: nat) | RecursiveList(items: seq<Oor>)

  datatype Ordering = Less | Equal | Greater

  /** The comparison seen from the other side. */
  function Flip(o: Ordering): Ordering
  {
    match o
    case Less => Greater
    case Equal => Equal
    case Greater => Less
  }

  function CompareNat(a: nat, b: nat): (o: Ordering)
    ensures o == Less <==> a < b
    ensures o == Equal <==> a == b
  {
    if a < b then Less else if a == b then Equal else Greater
  }

  // ------------------------------------------------------------------
  // Size, the termination measure of every recursion below
  // ------------------------------------------------------------------

  function Size(a: Oor): (n: nat)
    ensures n >= 1
  {
    match a
    case One(_) => 1
    case RecursiveList(xs) => 1 + SizeAll(xs)
  }

  function SizeAll(xs: seq<Oor>): nat
  {
    if xs == [] then 0 else Size(xs[0]) + SizeAll(xs[1..])
  }

  lemma SizeSingleton(a: Oor)
    ensures SizeAll([a]) == Size(a)
  {
    assert [a][1..] == [];
  }

  // ------------------------------------------------------------------
  // The comparison
  // ------------------------------------------------------------------

  /**
   * Two numbers compare as numbers; a number against a list is first
   * wrapped as a one-element list, on either side; two lists compare
   * element by element.
   */
  function Compare(a: Oor, b: Oor): (o: Ordering)
    ensures a == b ==> o == Equal
    decreases Size(a) + Size(b), 0
  {
    match (a, b)
    case (One(x), One(y)) => CompareNat(x, y)
    case (One(x), RecursiveList(ys)) => SizeSingleton(a); CompareLists([One(x)], ys)
    case (RecursiveList(xs), One(y)) => SizeSingleton(b); CompareLists(xs, [One(y)])
    case (RecursiveList(xs), RecursiveList(ys)) => CompareLists(xs, ys)
  }

  /**
   * The first pair of zipped elements that is not equal decides; when all
   * zipped pairs are equal, the shorter list comes first.
   */
  function CompareLists(xs: seq<Oor>, ys: seq<Oor>): (o: Ordering)
    ensures xs == ys ==> o == Equal
    decreases SizeAll(xs) + SizeAll(ys), 1
  {
    if xs == [] || ys == [] then CompareNat(|xs|, |ys|)
    else
      var o := Compare(xs[0], ys[0]);
      if o == Equal then CompareLists(xs[1..], ys[1..]) else o
  }

  /** The elements a value contributes to a list comparison: itself when it is a number. */
  function Items(a: Oor): seq<Oor>
  {
    match a
    case One(_) => [a]
    case RecursiveList(xs) => xs
  }

  /** Every comparison is a comparison of lists, a number standing for the list that holds it. */
  lemma CompareAsLists(a: Oor, b: Oor)
    ensures Compare(a, b) == CompareLists(Items(a), Items(b))
  {
    if a.One? && b.One? {
      assert Items(a)[1..] == [] && Items(b)[1..] == [];
    }
  }

  /** Comparing the other way round flips the answer. */
  lemma {:induction false} CompareFlip(a: Oor, b: Oor)
    ensures Compare(b, a) == Flip(Compare(a, b))
    decreases Size(a) + Size(b), 0
  {
    match (a, b)
    case (One(x), One(y)) =>
    case (One(x), RecursiveList(ys)) => SizeSingleton(a); CompareListsFlip([One(x)], ys);
    case (RecursiveList(xs), One(y)) => SizeSingleton(b); CompareListsFlip(xs, [One(y)]);
    case (RecursiveList(xs), RecursiveList(ys)) => CompareListsFlip(xs, ys);
  }

  lemma {:induction false} CompareListsFlip(xs: seq<Oor>, ys: seq<Oor>)
    ensures CompareLists(ys, xs) == Flip(CompareLists(xs, ys))
    decreases SizeAll(xs) + SizeAll(ys), 1
  {
    if xs != [] && ys != [] {
      CompareFlip(xs[0], ys[0]);
      if Compare(xs[0], ys[0]) == Equal {
        CompareListsFlip(xs[1..], ys[1..]);
      }
    }
  }

  /** Chaining two comparisons that are not `Greater`: `Equal` only when both are. */
  function Chain(o1: Ordering, o2: Ordering): Ordering
  {
    if o1 == Equal && o2 == Equal then Equal else Less
  }

  /** The comparison is transitive, for the strict and the non-strict order alike. */
  lemma {:induction false} CompareTransitive(a: Oor, b: Oor, c: Oor)
    requires Compare(a, b) != Greater && Compare(b, c) != Greater
    ensures Compare(a, c) == Chain(Compare(a, b), Compare(b, c))
    decreases Size(a) + Size(b) + Size(c), 0
  {
    if a.One? && b.One? && c.One? {
    } else {
      CompareAsLists(a, b);
      CompareAsLists(b, c);
      CompareAsLists(a, c);
      ItemsSize(a);
      ItemsSize(b);
      ItemsSize(c);
      CompareListsTransitive(Items(a), Items(b), Items(c));
    }
  }

  /** A number's items weigh what it weighs, a list's items one less. */
  lemma ItemsSize(a: Oor)
    ensures SizeAll(Items(a)) == if a.One? then Size(a) else Size(a) - 1
  {
    if a.One? {
      assert Items(a)[1..] == [];
    }
  }

  lemma {:induction false} CompareListsTransitive(xs: seq<Oor>, ys: seq<Oor>, zs: seq<Oor>)
    requires CompareLists(xs, ys) != Greater && CompareLists(ys, zs) != Greater
    ensures CompareLists(xs, zs) == Chain(CompareLists(xs, ys), CompareLists(ys, zs))
    decreases SizeAll(xs) + SizeAll(ys) + SizeAll(zs), 1
  {
    if xs != [] && ys != [] && zs != [] {
      CompareTransitive(xs[0], ys[0], zs[0]);
      if Compare(xs[0], ys[0]) == Equal && Compare(ys[0], zs[0]) == Equal {
        CompareListsTransitive(xs[1..], ys[1..], zs[1..]);
      }
    }
  }

  // ------------------------------------------------------------------
  // Cutting a list's text at the commas outside brackets
  // ------------------------------------------------------------------

  /** How a character moves the bracket counter. */
  function Delta(c: char): int
  {
    if c == '[' then 1 else if c == ']' then -1 else 0
  }

  /** Opening brackets minus closing brackets. */
  function Depth(p: string): int
    decreases |p|
  {
    if p == [] then 0 else Depth(p[..|p| - 1]) + Delta(p[|p| - 1])
  }

  /**
   * The pieces the scan has produced after reading `p`: a comma read while
   * the counter is below one closes the last piece and opens an empty one;
   * every other character, brackets included, joins the last piece.
   */
  function SplitPrefix(p: string): (pieces: seq<string>)
    ensures |pieces| >= 1
    decreases |p|
  {
    if p == [] then [""]
    else
      var q := p[..|p| - 1];
      var c := p[|p| - 1];
      var ps := SplitPrefix(q);
      if c == ',' && Depth(q) < 1 then ps + [""]
      else AppendToLast(ps, c)
  }

  /** `c` added to the end of the last piece. */
  function AppendToLast(ps: seq<string>, c: char): (r: seq<string>)
    requires |ps| >= 1
    ensures |r| == |ps|
  {
    ps[..|ps| - 1] + [ps[|ps| - 1] + [c]]
  }

  /** One more character read: the depth moves by that character. */
  lemma DepthStep(q: string, c: char)
    ensures Depth(q + [c]) == Depth(q) + Delta(c)
  {
    assert (q + [c])[..|q|] == q;
  }

  /** A comma read below depth one opens a new, empty piece. */
  lemma ScanCut(q: string, c: char)
    requires c == ',' && Depth(q) < 1
    ensures SplitPrefix(q + [c]) == SplitPrefix(q) + [""]
  {
    assert (q + [c])[..|q|] == q;
  }

  /** Any other character read joins the last piece. */
  lemma ScanKeep(q: string, c: char)
    requires !(c == ',' && Depth(q) < 1)
    ensures SplitPrefix(q + [c]) == AppendToLast(SplitPrefix(q), c)
  {
    assert (q + [c])[..|q|] == q;
  }

  /** The text of an `i32` as Rust displays it. */
  function SignedDecimal(n: int): string
  {
    if n < 0 then "-" + Decimal(-n) else Decimal(n)
  }

  /** The result the scan promises: the pieces, or an error when the brackets do not balance. */
  function SplitOutside(csv: string): (r: Result<seq<string>>)
    ensures r.Ok? <==> Depth(csv) == 0
    ensures r.Err? ==> r.msg == "Unbalanced brackets: " + SignedDecimal(Depth(csv))
    ensures r.Ok? ==> |r.value| >= 1 && Join(r.value, ",") == csv
  {
    JoinSplitPrefix(csv);
    if Depth(csv) != 0 then Err("Unbalanced brackets: " + SignedDecimal(Depth(csv)))
    else Ok(SplitPrefix(csv))
  }

  method SplitCsvOutsideBrackets(csv: string) returns (r: Result<seq<string>>)
    ensures r == SplitOutside(csv)
  {
    var result: seq<string> := [];
    var start := 0;
    var brackets := 0;
    var i := 0;
    while i < |csv|
      invariant 0 <= start <= i <= |csv|
      invariant brackets == Depth(csv[..i])
      invariant result + [csv[start..i]] == SplitPrefix(csv[..i])
    {
      var c := csv[i];
      DepthAfterOne(csv, i);
      if c == ',' && brackets < 1 {
        CutKeepsScan(csv, i, start, result);
        result := result + [csv[start..i]];
        start := i + 1;
      } else {
        KeepKeepsScan(csv, i, start, result);
        if c == '[' {
          brackets := brackets + 1;
        } else if c == ']' {
          brackets := brackets - 1;
        }
      }
      i := i + 1;
    }
    assert csv[..i] == csv;
    if brackets != 0 {
      return Err("Unbalanced brackets: " + SignedDecimal(brackets));
    }
    result := result + [csv[start..]];
    return Ok(result);
  }

  lemma DepthAfterOne(csv: string, i: nat)
    requires i < |csv|
    ensures Depth(csv[..i + 1]) == Depth(csv[..i]) + Delta(csv[i])
  {
    assert csv[..i + 1] == csv[..i] + [csv[i]];
    DepthStep(csv[..i], csv[i]);
  }

  /** The scan's state after a comma below depth one: the piece is closed, an empty one opened. */
  lemma CutKeepsScan(csv: string, i: nat, start: nat, result: seq<string>)
    requires start <= i < |csv| && csv[i] == ',' && Depth(csv[..i]) < 1
    requires result + [csv[start..i]] == SplitPrefix(csv[..i])
    ensures (result + [csv[start..i]]) + [csv[i + 1..i + 1]] == SplitPrefix(csv[..i + 1])
  {
    assert csv[..i + 1] == csv[..i] + [csv[i]];
    ScanCut(csv[..i], csv[i]);
    assert csv[i + 1..i + 1] == "";
  }

  /** The scan's state after any other character: the open piece grows by it. */
  lemma KeepKeepsScan(csv: string, i: nat, start: nat, result: seq<string>)
    requires start <= i < |csv| && !(csv[i] == ',' && Depth(csv[..i]) < 1)
    requires result + [csv[start..i]] == SplitPrefix(csv[..i])
    ensures result + [csv[start..i + 1]] == SplitPrefix(csv[..i + 1])
  {
    var ps := SplitPrefix(csv[..i]);
    assert csv[..i + 1] == csv[..i] + [csv[i]];
    ScanKeep(csv[..i], csv[i]);
    assert csv[start..i + 1] == csv[start..i] + [csv[i]];
    assert ps[..|ps| - 1] == result;
  }

  /** The scan loses nothing: the pieces joined with commas give back its input. */
  lemma {:induction false} JoinSplitPrefix(p: string)
    ensures Join(SplitPrefix(p), ",") == p
    decreases |p|
  {
    if p != [] {
      var q := p[..|p| - 1];
      var c := p[|p| - 1];
      var ps := SplitPrefix(q);
      JoinSplitPrefix(q);
      if c == ',' && Depth(q) < 1 {
        JoinSnoc(ps, "", ",");
      } else {
        JoinExtendLast(ps, [c], ",");
      }
      assert p == q + [c];
    }
  }

  // ------------------------------------------------------------------
  // Parsing
  // ------------------------------------------------------------------

  /** Whether the filter keeps position `i`: it drops a leading `[` and a trailing `]`. */
  predicate Kept(s: string, i: nat)
    requires i < |s|
  {
    !((i == 0 && s[i] == '[') || (i == |s| - 1 && s[i] == ']'))
  }

  /** The characters from position `i` on that the filter keeps. */
  function KeptFrom(s: string, i: nat): string
    requires i <= |s|
    decreases |s| - i
  {
    if i == |s| then "" else (if Kept(s, i) then [s[i]] else "") + KeptFrom(s, i + 1)
  }

  /** The text between a list's brackets. */
  function StripBrackets(s: string): string
  {
    KeptFrom(s, 0)
  }

  /** Only the two ends can go: the inner text is one slice of the input. */
  lemma StripBracketsSlice(s: string)
    ensures var front := if s != [] && s[0] == '[' then 1 else 0;
      var back := if s != [] && s[|s| - 1] == ']' then 1 else 0;
      front + back <= |s| && StripBrackets(s) == s[front..|s| - back]
  {
    if s != [] {
      var front := if s[0] == '[' then 1 else 0;
      var back := if s[|s| - 1] == ']' then 1 else 0;
      KeptMiddle(s, 1, back);
      if |s| == 1 {
        assert KeptFrom(s, 1) == "";
      }
    }
  }

  /** Past the first position, the filter keeps all but a trailing `]`. */
  lemma {:induction false} KeptMiddle(s: string, i: nat, back: nat)
    requires 1 <= i <= |s|
    requires back == if s[|s| - 1] == ']' then 1 else 0
    ensures i <= |s| - back ==> KeptFrom(s, i) == s[i..|s| - back]
    ensures i > |s| - back ==> KeptFrom(s, i) == ""
    decreases |s| - i
  {
    if i < |s| {
      KeptMiddle(s, i + 1, back);
      if i + 1 <= |s| - back {
        assert s[i..|s| - back] == [s[i]] + s[i + 1..|s| - back];
      }
    }
  }

  /** Joined pieces are at least as long as each piece, and longer when there are several. */
  lemma {:induction false} PieceBounds(pieces: seq<string>)
    requires |pieces| >= 1
    ensures forall k :: 0 <= k < |pieces| ==> |pieces[k]| <= |Join(pieces, ",")|
    ensures |pieces| > 1 ==> forall k :: 0 <= k < |pieces| ==> |pieces[k]| < |Join(pieces, ",")|
    ensures |pieces| == 1 ==> Join(pieces, ",") == pieces[0]
    decreases |pieces|
  {
    if |pieces| > 1 {
      PieceBounds(pieces[1..]);
      assert forall k :: 1 <= k < |pieces| ==> pieces[k] == pieces[1..][k - 1];
    }
  }

  /** Termination weight of a piece: one that opens a list goes through `FromStr`. */
  function OpensList(p: string): nat
  {
    if p != [] && p[0] == '[' then 2 else 0
  }

  /** A list's text: the elements between its brackets. */
  function FromStr(s: string): (r: Result<seq<Oor>>)
    ensures StripBrackets(s) == [] ==> r == Ok([])
    ensures StripBrackets(s) != [] && Depth(StripBrackets(s)) != 0 ==>
      r == Err("Unbalanced brackets: " + SignedDecimal(Depth(StripBrackets(s))))
    ensures StripBrackets(s) != [] && r.Ok? ==> |r.value| == |SplitPrefix(StripBrackets(s))|
    decreases |s|, 1
  {
    var inner := StripBrackets(s);
    if inner == [] then Ok([])
    else
      match SplitOutside(inner)
      case Err(e) => Err(e)
      case Ok(pieces) =>
        StripBracketsSlice(s);
        JoinSplitPrefix(inner);
        PieceBounds(pieces);
        Collect(seq(|pieces|, k requires 0 <= k < |pieces| => OorFromStr(pieces[k])))
  }

  /** One element's text: a list when it opens with `[`, otherwise an unsigned byte. */
  function OorFromStr(p: string): Result<Oor>
    decreases |p|, OpensList(p)
  {
    if p == [] then Err("Tried to parse an empty string as a recursive number list")
    else if p[0] == '[' then
      match FromStr(p)
      case Err(e) => Err(e)
      case Ok(xs) => Ok(RecursiveList(xs))
    else
      match ParseU8(p)
      case Some(n) => Ok(One(n))
      case None => Err("Couldn't parse string '" + p + "' as a u8: " + UnsignedParseError(p, U8_LIMIT))
  }

  // ------------------------------------------------------------------
  // Writing a packet back as text, and reading it again
  // ------------------------------------------------------------------

  /** The text of a value: decimal numbers, lists in brackets, commas between elements. */
  function Render(a: Oor): string
  {
    match a
    case One(n) => Decimal(n)
    case RecursiveList(xs) => "[" + RenderItems(xs) + "]"
  }

  /** The elements' texts joined with commas; empty for the empty list. */
  function RenderItems(xs: seq<Oor>): string
    decreases xs
  {
    if xs == [] then "" else Join(seq(|xs|, i requires 0 <= i < |xs| => Render(xs[i])), ",")
  }

  /** Every number fits the `u8` the source parses into. */
  predicate U8Valued(a: Oor)
  {
    match a
    case One(n) => n < U8_LIMIT
    case RecursiveList(xs) => forall i :: 0 <= i < |xs| ==> U8Valued(xs[i])
  }

  /** Brackets close what they open, and no prefix closes more than it opened. */
  predicate Balanced(r: string)
  {
    Depth(r) == 0 && forall j :: 0 <= j <= |r| ==> Depth(r[..j]) >= 0
  }

  /** Every comma sits inside a bracket, so the scan keeps `r` in one piece. */
  predicate NoTopComma(r: string)
  {
    forall j :: 0 <= j < |r| && r[j] == ',' ==> Depth(r[..j]) >= 1
  }

  lemma {:induction false} DepthAppend(p: string, q: string)
    ensures Depth(p + q) == Depth(p) + Depth(q)
    decreases |q|
  {
    if q != [] {
      var q' := q[..|q| - 1];
      DepthAppend(p, q');
      assert (p + q)[..|p + q| - 1] == p + q';
      assert (p + q)[|p + q| - 1] == q[|q| - 1];
    } else {
      assert p + q == p;
    }
  }

  lemma BalancedAppend(p: string, q: string)
    requires Balanced(p) && Balanced(q)
    ensures Balanced(p + q)
  {
    DepthAppend(p, q);
    forall j | 0 <= j <= |p + q|
      ensures Depth((p + q)[..j]) >= 0
    {
      if j <= |p| {
        assert (p + q)[..j] == p[..j];
      } else {
        assert (p + q)[..j] == p + q[..j - |p|];
        DepthAppend(p, q[..j - |p|]);
      }
    }
  }

  /** A text without brackets has depth zero. */
  lemma {:induction false} NoBracketsDepth(s: string)
    requires forall i :: 0 <= i < |s| ==> s[i] != '[' && s[i] != ']'
    ensures Depth(s) == 0
    decreases |s|
  {
    if s != [] {
      NoBracketsDepth(s[..|s| - 1]);
      assert Delta(s[|s| - 1]) == 0;
    }
  }

  lemma DecimalGood(n: nat)
    ensures Balanced(Decimal(n)) && NoTopComma(Decimal(n))
  {
    var d := Decimal(n);
    NoBracketsDepth(d);
    forall j | 0 <= j <= |d|
      ensures Depth(d[..j]) == 0
    {
      NoBracketsDepth(d[..j]);
    }
  }

  /** Brackets around a balanced text: balanced, and every comma now inside. */
  lemma WrapGood(inner: string)
    requires Balanced(inner)
    ensures Balanced("[" + inner + "]") && NoTopComma("[" + inner + "]")
  {
    var w := "[" + inner + "]";
    assert Depth("[") == 1;
    assert Depth("]") == -1;
    DepthAppend("[", inner);
    DepthAppend("[" + inner, "]");
    forall j | 1 <= j <= |inner| + 1
      ensures Depth(w[..j]) >= 1
    {
      assert w[..j] == "[" + inner[..j - 1];
      DepthAppend("[", inner[..j - 1]);
    }
    assert w[..|w|] == w;
  }

  /** Behind a balanced text and a comma, the depth is that of what follows. */
  lemma DepthAfterComma(p: string, q: string)
    requires Depth(p) == 0
    ensures Depth(p + [','] + q) == Depth(q)
  {
    assert Depth([',']) == 0 by {
      assert [','][..0] == [];
    }
    DepthAppend(p, [',']);
    DepthAppend(p + [','], q);
  }

  /** Growing the last piece of `a + b`, `b` not empty, grows the last piece of `b`. */
  lemma AppendToLastOfAppend(a: seq<string>, b: seq<string>, c: char)
    requires |b| >= 1
    ensures AppendToLast(a + b, c) == a + AppendToLast(b, c)
  {
    var ab := a + b;
    assert ab[..|ab| - 1] == a + b[..|b| - 1];
  }

  /** After a balanced text, a comma starts the scan afresh. */
  lemma {:induction false} SplitAfterBalanced(p: string, q: string)
    requires Depth(p) == 0
    ensures SplitPrefix(p + [','] + q) == SplitPrefix(p) + SplitPrefix(q)
    decreases |q|
  {
    if q == [] {
      ScanCut(p, ',');
      assert p + [','] + q == p + [','];
    } else {
      var q' := q[..|q| - 1];
      SplitAfterBalanced(p, q');
      assert q == q' + [q[|q| - 1]];
      SplitAfterBalancedStep(p, q', q[|q| - 1]);
    }
  }

  /** The step of the lemma above: one more character after the comma. */
  lemma SplitAfterBalancedStep(p: string, q: string, c: char)
    requires Depth(p) == 0
    requires SplitPrefix(p + [','] + q) == SplitPrefix(p) + SplitPrefix(q)
    ensures SplitPrefix(p + [','] + (q + [c])) == SplitPrefix(p) + SplitPrefix(q + [c])
  {
    var front := p + [','] + q;
    assert p + [','] + (q + [c]) == front + [c];
    DepthAfterComma(p, q);
    if c == ',' && Depth(q) < 1 {
      ScanCut(front, c);
      ScanCut(q, c);
      assert SplitPrefix(p) + SplitPrefix(q) + [""] == SplitPrefix(p) + (SplitPrefix(q) + [""]);
    } else {
      ScanKeep(front, c);
      ScanKeep(q, c);
      AppendToLastOfAppend(SplitPrefix(p), SplitPrefix(q), c);
    }
  }

  /** A text whose commas are all inside brackets is one piece. */
  lemma {:induction false} SplitSingle(r: string)
    requires NoTopComma(r)
    ensures SplitPrefix(r) == [r]
    decreases |r|
  {
    if r != [] {
      var q := r[..|r| - 1];
      var c := r[|r| - 1];
      assert r == q + [c];
      forall j | 0 <= j < |q| && q[j] == ','
        ensures Depth(q[..j]) >= 1
      {
        assert q[..j] == r[..j];
      }
      SplitSingle(q);
      if c == ',' {
        assert r[..|q|] == q;
      }
      ScanKeep(q, c);
      assert AppendToLast([q], c) == [r];
    }
  }

  /** Pieces of depth zero without top-level commas, joined with commas, split back into themselves. */
  lemma {:induction false} SplitJoinGood(rs: seq<string>)
    requires |rs| >= 1
    requires forall i :: 0 <= i < |rs| ==> Depth(rs[i]) == 0 && NoTopComma(rs[i])
    ensures SplitPrefix(Join(rs, ",")) == rs
    decreases |rs|
  {
    if |rs| == 1 {
      SplitSingle(rs[0]);
    } else {
      var rest := rs[1..];
      forall i | 0 <= i < |rest|
        ensures Depth(rest[i]) == 0 && NoTopComma(rest[i])
      {
        assert rest[i] == rs[i + 1];
      }
      SplitJoinGood(rest);
      assert Join(rs, ",") == rs[0] + [','] + Join(rest, ",");
      SplitAfterBalanced(rs[0], Join(rest, ","));
      SplitSingle(rs[0]);
      assert rs == [rs[0]] + rest;
    }
  }

  /** Balanced pieces joined with commas are balanced. */
  lemma {:induction false} JoinBalanced(rs: seq<string>)
    requires |rs| >= 1
    requires forall i :: 0 <= i < |rs| ==> Balanced(rs[i])
    ensures Balanced(Join(rs, ","))
    decreases |rs|
  {
    if |rs| > 1 {
      var rest := rs[1..];
      assert forall i :: 0 <= i < |rest| ==> rest[i] == rs[i + 1];
      JoinBalanced(rest);
      BalancedComma(rs[0], Join(rest, ","));
    }
  }

  lemma BalancedComma(p: string, q: string)
    requires Balanced(p) && Balanced(q)
    ensures Balanced(p + "," + q)
  {
    assert Balanced(",") by {
      assert Depth(",") == 0;
      assert ","[..1] == ",";
    }
    BalancedAppend(p, ",");
    BalancedAppend(p + ",", q);
  }

  /** Every rendered value is balanced, keeps its commas inside brackets, and is not empty. */
  lemma RenderGood(a: Oor)
    ensures Balanced(Render(a)) && NoTopComma(Render(a)) && Render(a) != ""
  {
    match a
    case One(n) => DecimalGood(n);
    case RecursiveList(xs) =>
      if xs != [] {
        var rs := seq(|xs|, i requires 0 <= i < |xs| => Render(xs[i]));
        forall i | 0 <= i < |xs|
          ensures Balanced(rs[i]) && NoTopComma(rs[i])
        {
          RenderGood(xs[i]);
        }
        JoinBalanced(rs);
      } else {
        assert ""[..0] == "";
      }
      WrapGood(RenderItems(xs));
  }

  /** The texts of a list's elements, in order. */
  function RenderEach(xs: seq<Oor>): (rs: seq<string>)
    ensures |rs| == |xs| && forall i :: 0 <= i < |xs| ==> rs[i] == Render(xs[i])
  {
    seq(|xs|, i requires 0 <= i < |xs| => Render(xs[i]))
  }

  /** The scan cuts a rendered list's inner text exactly between its elements. */
  lemma SplitRendered(xs: seq<Oor>)
    requires xs != []
    ensures SplitOutside(RenderItems(xs)) == Ok(RenderEach(xs))
    ensures Balanced(RenderItems(xs)) && RenderItems(xs) != ""
  {
    var rs := RenderEach(xs);
    forall i | 0 <= i < |xs|
      ensures Balanced(rs[i]) && Depth(rs[i]) == 0 && NoTopComma(rs[i])
    {
      RenderGood(xs[i]);
    }
    JoinBalanced(rs);
    SplitJoinGood(rs);
    PieceBounds(rs);
    RenderGood(xs[0]);
  }

  /** Reading a rendered value gives the value back, when its numbers fit a `u8`. */
  lemma RoundTrip(a: Oor)
    requires U8Valued(a)
    ensures OorFromStr(Render(a)) == Ok(a)
  {
    match a
    case One(n) =>
      ParseDecimal(n, U8_LIMIT);
      assert IsDigit(Decimal(n)[0]);
    case RecursiveList(xs) =>
      var s := Render(a);
      assert s[0] == '[' && s[|s| - 1] == ']';
      StripBracketsSlice(s);
      assert StripBrackets(s) == RenderItems(xs);
      if xs != [] {
        var rs := RenderEach(xs);
        SplitRendered(xs);
        forall i | 0 <= i < |xs|
          ensures OorFromStr(rs[i]) == Ok(xs[i])
        {
          RoundTrip(xs[i]);
        }
        CollectAllOk(seq(|rs|, k requires 0 <= k < |rs| => OorFromStr(rs[k])), xs);
      }
  }

  /** Reading a rendered list gives its elements back. */
  lemma FromStrRoundTrip(xs: seq<Oor>)
    requires forall i :: 0 <= i < |xs| ==> U8Valued(xs[i])
    ensures FromStr(Render(RecursiveList(xs))) == Ok(xs)
  {
    RoundTrip(RecursiveList(xs));
  }

  /** Rendering a list from its elements' texts. */
  lemma RenderList(xs: seq<Oor>, texts: seq<string>)
    requires 1 <= |xs| == |texts|
    requires forall i :: 0 <= i < |xs| ==> Render(xs[i]) == texts[i]
    ensures RenderEach(xs) == texts
    ensures Render(RecursiveList(xs)) == "[" + Join(texts, ",") + "]"
  {
    assert RenderEach(xs) == texts;
  }
}
