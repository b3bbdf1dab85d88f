/**
 * 2022 day 4, first part: each line assigns two elves a range of section
 * ids; the answer counts the pairs in which one range contains the other.
 */
module CampCleanup {
  import opened Common

  /** A range of section ids, both ends inclusive. */
  datatype Range = Range(start: int, end: int)

  predicate InRange(r: Range, x: int)
  {
    r.start <= x <= r.end
  }

  /** A range whose end comes before its start is refused. */
  function TryNew(start: int, end: int): (r: Result<Range>)
    ensures r.Ok? <==> start <= end
    ensures r.Ok? ==> r.value == Range(start, end)
  {
    if end < start then Err("end (" + IntText(end) + ") is before start (" + IntText(start) + ")")
    else Ok(Range(start, end))
  }

  function IntText(n: int): string
  {
    if n < 0 then "-" + Decimal(-n) else Decimal(n)
  }

  /** Exactly two parts around the separator, or an error. */
  function ParseStringPair(s: string, separator: char): (r: Result<(string, string)>)
    ensures r.Ok? <==> |Split(s, separator)| == 2
    ensures r.Ok? ==> Split(s, separator) == [r.value.0, r.value.1]
    ensures r.Ok? ==> r.value.0 + [separator] + r.value.1 == s
  {
    var strings := Split(s, separator);
    if |strings| == 2 then
      JoinSplitOn(s, [separator]);
      assert strings[1..] == [strings[1]];
      Ok((strings[0], strings[1]))
    else Err(PairError(s, separator))
  }

  function PairError(s: string, separator: char): string
  {
    "Could not use separator (" + [separator] + ") to split this string into two values: " + DebugString(s)
  }

  /**
   * `START-END`, both `u32`: the text splits at `-` into two numbers, the
   * first no larger than the second; a number that does not parse is
   * reported with the text of its `ParseIntError`.
   */
  function TryParse(s: string): (r: Result<Range>)
    ensures r.Ok? <==> (ParseStringPair(s, '-').Ok? &&
      var (a, b) := ParseStringPair(s, '-').value;
      ParseU32(a).Some? && ParseU32(b).Some? && ParseU32(a).value <= ParseU32(b).value)
    ensures r.Ok? ==>
      var (a, b) := ParseStringPair(s, '-').value;
      r.value == Range(ParseU32(a).value, ParseU32(b).value)
    ensures r.Ok? ==> 0 <= r.value.start <= r.value.end < U32_LIMIT
    ensures ParseStringPair(s, '-').Ok? && ParseU32(ParseStringPair(s, '-').value.0).None? ==>
      r == Err(UnsignedParseError(ParseStringPair(s, '-').value.0, U32_LIMIT))
  {
    match ParseStringPair(s, '-')
    case Err(e) => Err(e)
    case Ok((a, b)) =>
      match (ParseU32(a), ParseU32(b))
      case (None, _) => Err(UnsignedParseError(a, U32_LIMIT))
      case (_, None) => Err(UnsignedParseError(b, U32_LIMIT))
      case (Some(start), Some(end)) => TryNew(start, end)
  }

  /** Parsing undoes printing for every valid range. */
  lemma TryParseDecimal(start: nat, end: nat)
    requires start <= end < U32_LIMIT
    ensures TryParse(Decimal(start) + "-" + Decimal(end)) == Ok(Range(start, end))
  {
    var s := Decimal(start) + "-" + Decimal(end);
    assert '-' !in Decimal(start) && '-' !in Decimal(end) by {
      assert forall i :: 0 <= i < |Decimal(start)| ==> IsDigit(Decimal(start)[i]);
      assert forall i :: 0 <= i < |Decimal(end)| ==> IsDigit(Decimal(end)[i]);
    }
    SplitAtFirstSeparator(Decimal(start), '-', Decimal(end));
    SplitNoSeparator(Decimal(end), '-');
    ParseDecimal(start, U32_LIMIT);
    ParseDecimal(end, U32_LIMIT);
  }

  /** `self.0 <= other.0 && other.1 <= self.1`. */
  function Contains(a: Range, b: Range): (r: bool)
  {
    a.start <= b.start && b.end <= a.end
  }

  /** For valid ranges this is containment of the section sets. */
  lemma ContainsIsInclusion(a: Range, b: Range)
    requires b.start <= b.end
    ensures Contains(a, b) <==> forall x :: InRange(b, x) ==> InRange(a, x)
  {
    if !Contains(a, b) {
      if b.start < a.start {
        assert InRange(b, b.start) && !InRange(a, b.start);
      } else {
        assert InRange(b, b.end) && !InRange(a, b.end);
      }
    }
  }

  /** Containment is a partial order on ranges. */
  lemma ContainsPartialOrder(a: Range, b: Range, c: Range)
    ensures Contains(a, a)
    ensures Contains(a, b) && Contains(b, c) ==> Contains(a, c)
    ensures Contains(a, b) && Contains(b, a) ==> a == b
  {
  }

  lemma ContainsSamples()
    ensures !Contains(Range(2, 4), Range(6, 8))
    ensures !Contains(Range(2, 3), Range(4, 5))
    ensures !Contains(Range(5, 7), Range(7, 9))
    ensures Contains(Range(2, 8), Range(3, 7))
    ensures Contains(Range(4, 6), Range(6, 6))
    ensures !Contains(Range(2, 6), Range(4, 8))
  {
  }

  /** `A-B,C-D`: two ranges around a comma. */
  function ParseAssignmentPair(s: string): (r: Result<(Range, Range)>)
    ensures r.Ok? <==> (ParseStringPair(s, ',').Ok? &&
      TryParse(ParseStringPair(s, ',').value.0).Ok? && TryParse(ParseStringPair(s, ',').value.1).Ok?)
    ensures r.Ok? ==>
      r.value == (TryParse(ParseStringPair(s, ',').value.0).value, TryParse(ParseStringPair(s, ',').value.1).value)
    ensures r.Ok? ==> |Split(s, ',')| == 2
    ensures r.Ok? ==> r.value.0.start <= r.value.0.end && r.value.1.start <= r.value.1.end
  {
    match ParseStringPair(s, ',')
    case Err(e) => Err(e)
    case Ok((a, b)) =>
      match (TryParse(a), TryParse(b))
      case (Err(e), _) => Err(e)
      case (_, Err(e)) => Err(e)
      case (Ok(first), Ok(second)) => Ok((first, second))
  }

  /** The text of a range, `START-END`. */
  function RangeText(r: Range): string
    requires 0 <= r.start && 0 <= r.end
  {
    Decimal(r.start) + "-" + Decimal(r.end)
  }

  /** Writing a pair of valid ranges as `A-B,C-D` and reading it back gives the pair. */
  lemma ParseAssignmentPairRoundTrip(p: (Range, Range))
    requires 0 <= p.0.start <= p.0.end < U32_LIMIT && 0 <= p.1.start <= p.1.end < U32_LIMIT
    ensures ParseAssignmentPair(RangeText(p.0) + "," + RangeText(p.1)) == Ok(p)
  {
    var a, b := RangeText(p.0), RangeText(p.1);
    NoCommaInRange(p.0);
    NoCommaInRange(p.1);
    SplitAtFirstSeparator(a, ',', b);
    SplitNoSeparator(b, ',');
    assert a + "," + b == a + [','] + b;
    TryParseDecimal(p.0.start, p.0.end);
    TryParseDecimal(p.1.start, p.1.end);
  }

  lemma NoCommaInRange(r: Range)
    requires 0 <= r.start && 0 <= r.end
    ensures ',' !in RangeText(r)
  {
    var a, b := Decimal(r.start), Decimal(r.end);
    assert forall i :: 0 <= i < |a| ==> IsDigit(a[i]);
    assert forall i :: 0 <= i < |b| ==> IsDigit(b[i]);
    assert RangeText(r) == a + "-" + b;
  }

  /** Every line parsed, in order; the first bad line aborts. */
  function ParseAll(lines: seq<string>): (r: Result<seq<(Range, Range)>>)
    ensures r.Ok? <==> forall i :: 0 <= i < |lines| ==> ParseAssignmentPair(lines[i]).Ok?
    ensures r.Ok? ==> |r.value| == |lines| && forall i :: 0 <= i < |lines| ==> r.value[i] == ParseAssignmentPair(lines[i]).value
  {
    var parsed := seq(|lines|, i requires 0 <= i < |lines| => ParseAssignmentPair(lines[i]));
    assert forall i :: 0 <= i < |lines| ==> parsed[i] == ParseAssignmentPair(lines[i]);
    Collect(parsed)
  }

  predicate Reconsiderable(p: (Range, Range))
  {
    Contains(p.0, p.1) || Contains(p.1, p.0)
  }

  /** The filter-count: how many pairs have one range inside the other. */
  function CountReconsiderable(pairs: seq<(Range, Range)>): (n: nat)
    ensures n <= |pairs|
    ensures n == 0 <==> forall i :: 0 <= i < |pairs| ==> !Reconsiderable(pairs[i])
    ensures n == |pairs| <==> forall i :: 0 <= i < |pairs| ==> Reconsiderable(pairs[i])
  {
    if pairs == [] then 0
    else
      var rest := CountReconsiderable(pairs[1..]);
      assert forall i :: 1 <= i < |pairs| ==> pairs[i] == pairs[1..][i - 1];
      (if Reconsiderable(pairs[0]) then 1 else 0) + rest
  }

  lemma {:induction false} CountReconsiderableAppend(xs: seq<(Range, Range)>, ys: seq<(Range, Range)>)
    ensures CountReconsiderable(xs + ys) == CountReconsiderable(xs) + CountReconsiderable(ys)
    decreases |xs|
  {
    if xs == [] {
      assert xs + ys == ys;
    } else {
      assert (xs + ys)[1..] == xs[1..] + ys;
      CountReconsiderableAppend(xs[1..], ys);
    }
  }

  /**
   * The answer: the number of parsed pairs in which one range contains the
   * other; a line that is not an assignment pair aborts the count.
   */
  function ReconsiderableAssignments(data: string): (r: Result<nat>)
    ensures r.Ok? <==> forall i :: 0 <= i < |Split(data, '\n')| ==> ParseAssignmentPair(Split(data, '\n')[i]).Ok?
    ensures r.Ok? ==> r.value == CountReconsiderable(ParseAll(Split(data, '\n')).value)
    ensures r.Err? ==> r == Err(ParseAll(Split(data, '\n')).msg)
    ensures r.Ok? ==> r.value <= |Split(data, '\n')|
  {
    match ParseAll(Split(data, '\n'))
    case Err(e) => Err(e)
    case Ok(pairs) => Ok(CountReconsiderable(pairs))
  }

  /** The empty line after a final newline is not a pair, so such an input always fails. */
  lemma TrailingNewlineFails(data: string)
    requires |data| > 0 && data[|data| - 1] == '\n'
    ensures ReconsiderableAssignments(data).Err?
  {
    assert data == data[..|data| - 1] + ['\n'];
    SplitEndsEmpty(data[..|data| - 1], '\n');
    var lines := Split(data, '\n');
    assert Split(lines[|lines| - 1], ',') == [""];
  }
}
