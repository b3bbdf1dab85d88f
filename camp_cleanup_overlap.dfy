/**
 * 2022 day 4, second part: the same assignment pairs, now counting the pairs
 * whose ranges overlap at all. The bounds here are `i32`.
 */
module CampCleanupOverlap {
  import opened Common
  import opened CampCleanup

  /**
   * `START-END`, both `i32`: the text splits at `-` into two numbers, the
   * first no larger than the second; a number that does not parse is
   * reported with the text of its `ParseIntError`.
   */
  function TryParseSigned(s: string): (r: Result<Range>)
    ensures r.Ok? <==> (ParseStringPair(s, '-').Ok? &&
      var (a, b) := ParseStringPair(s, '-').value;
      ParseI32(a).Some? && ParseI32(b).Some? && ParseI32(a).value <= ParseI32(b).value)
    ensures r.Ok? ==>
      var (a, b) := ParseStringPair(s, '-').value;
      r.value == Range(ParseI32(a).value, ParseI32(b).value)
    ensures r.Ok? ==> I32_MIN <= r.value.start <= r.value.end <= I32_MAX
    ensures ParseStringPair(s, '-').Ok? && ParseI32(ParseStringPair(s, '-').value.0).None? ==>
      r == Err(SignedParseError(ParseStringPair(s, '-').value.0, I32_MIN, I32_MAX))
  {
    match ParseStringPair(s, '-')
    case Err(e) => Err(e)
    case Ok((a, b)) =>
      match (ParseI32(a), ParseI32(b))
      case (None, _) => Err(SignedParseError(a, I32_MIN, I32_MAX))
      case (_, None) => Err(SignedParseError(b, I32_MIN, I32_MAX))
      case (Some(start), Some(end)) => TryNew(start, end)
  }

  /** Reading back a written range with a non-negative start gives the range. */
  lemma TryParseSignedDecimal(start: nat, end: nat)
    requires start <= end <= I32_MAX
    ensures TryParseSigned(Decimal(start) + "-" + Decimal(end)) == Ok(Range(start, end))
  {
    var a, b := Decimal(start), Decimal(end);
    assert '-' !in a && '-' !in b by {
      assert forall i :: 0 <= i < |a| ==> IsDigit(a[i]);
      assert forall i :: 0 <= i < |b| ==> IsDigit(b[i]);
    }
    SplitAtFirstSeparator(a, '-', b);
    SplitNoSeparator(b, '-');
    assert a + "-" + b == a + ['-'] + b;
    DecimalValue(start);
    DecimalValue(end);
    assert ParseI32(a) == Some(start as int) by { assert IsDigit(a[0]); }
    assert ParseI32(b) == Some(end as int) by { assert IsDigit(b[0]); }
  }

  /** A negative start cannot be written: its sign is taken for the separator. */
  lemma NegativeStartRejected(digits: string, end: string)
    requires '-' !in digits && '-' !in end
    ensures TryParseSigned("-" + digits + "-" + end).Err?
  {
    var s := "-" + digits + "-" + end;
    assert s == [] + ['-'] + (digits + "-" + end);
    SplitAtFirstSeparator([], '-', digits + "-" + end);
    SplitAtFirstSeparator(digits, '-', end);
  }

  /** The later start is no later than the earlier end. */
  function Overlaps(a: Range, b: Range): (r: bool)
  {
    var start := if a.start >= b.start then a.start else b.start;
    var end := if a.end <= b.end then a.end else b.end;
    start <= end
  }

  /** Two ranges overlap exactly when some section belongs to both. */
  lemma OverlapsIffShared(a: Range, b: Range)
    ensures Overlaps(a, b) <==> exists x :: InRange(a, x) && InRange(b, x)
  {
    var start := if a.start >= b.start then a.start else b.start;
    if Overlaps(a, b) {
      assert InRange(a, start) && InRange(b, start);
    }
  }

  lemma OverlapsSymmetric(a: Range, b: Range)
    ensures Overlaps(a, b) == Overlaps(b, a)
  {
  }

  /** Valid ranges that share an endpoint overlap, and containment implies overlap. */
  lemma OverlapsTouchingAndContained(a: Range, b: Range)
    requires a.start <= a.end && b.start <= b.end
    ensures a.end == b.start ==> Overlaps(a, b)
    ensures Contains(a, b) ==> Overlaps(a, b)
  {
  }

  lemma OverlapsSamples()
    ensures !Overlaps(Range(2, 4), Range(6, 8))
    ensures !Overlaps(Range(2, 3), Range(4, 5))
    ensures Overlaps(Range(5, 7), Range(7, 9))
    ensures Overlaps(Range(2, 8), Range(3, 7))
    ensures Overlaps(Range(4, 6), Range(6, 6))
    ensures Overlaps(Range(2, 6), Range(4, 8))
    ensures !Overlaps(Range(68, 79), Range(42, 67))
  {
  }

  /** `A-B,C-D` with `i32` bounds: two ranges around a comma. */
  function ParseSignedPair(s: string): (r: Result<(Range, Range)>)
    ensures r.Ok? <==> (ParseStringPair(s, ',').Ok? &&
      TryParseSigned(ParseStringPair(s, ',').value.0).Ok? && TryParseSigned(ParseStringPair(s, ',').value.1).Ok?)
    ensures r.Ok? ==>
      r.value == (TryParseSigned(ParseStringPair(s, ',').value.0).value, TryParseSigned(ParseStringPair(s, ',').value.1).value)
    ensures r.Ok? ==> |Split(s, ',')| == 2
    ensures r.Ok? ==> r.value.0.start <= r.value.0.end && r.value.1.start <= r.value.1.end
  {
    match ParseStringPair(s, ',')
    case Err(e) => Err(e)
    case Ok((a, b)) =>
      match (TryParseSigned(a), TryParseSigned(b))
      case (Err(e), _) => Err(e)
      case (_, Err(e)) => Err(e)
      case (Ok(first), Ok(second)) => Ok((first, second))
  }

  /** Writing a pair of ranges with non-negative starts and reading it back gives the pair. */
  lemma ParseSignedPairRoundTrip(p: (Range, Range))
    requires 0 <= p.0.start <= p.0.end <= I32_MAX && 0 <= p.1.start <= p.1.end <= I32_MAX
    ensures ParseSignedPair(RangeText(p.0) + "," + RangeText(p.1)) == Ok(p)
  {
    var a, b := RangeText(p.0), RangeText(p.1);
    NoCommaInRange(p.0);
    NoCommaInRange(p.1);
    SplitAtFirstSeparator(a, ',', b);
    SplitNoSeparator(b, ',');
    assert a + "," + b == a + [','] + b;
    TryParseSignedDecimal(p.0.start, p.0.end);
    TryParseSignedDecimal(p.1.start, p.1.end);
  }

  function ParseAllSigned(lines: seq<string>): (r: Result<seq<(Range, Range)>>)
    ensures r.Ok? <==> forall i :: 0 <= i < |lines| ==> ParseSignedPair(lines[i]).Ok?
    ensures r.Ok? ==> |r.value| == |lines| && forall i :: 0 <= i < |lines| ==> r.value[i] == ParseSignedPair(lines[i]).value
  {
    var parsed := seq(|lines|, i requires 0 <= i < |lines| => ParseSignedPair(lines[i]));
    assert forall i :: 0 <= i < |lines| ==> parsed[i] == ParseSignedPair(lines[i]);
    Collect(parsed)
  }

  /** The filter-count: how many pairs have ranges that overlap. */
  function CountOverlapping(pairs: seq<(Range, Range)>): (n: nat)
    ensures n <= |pairs|
    ensures n == 0 <==> forall i :: 0 <= i < |pairs| ==> !Overlaps(pairs[i].0, pairs[i].1)
    ensures n == |pairs| <==> forall i :: 0 <= i < |pairs| ==> Overlaps(pairs[i].0, pairs[i].1)
  {
    if pairs == [] then 0
    else
      var rest := CountOverlapping(pairs[1..]);
      assert forall i :: 1 <= i < |pairs| ==> pairs[i] == pairs[1..][i - 1];
      (if Overlaps(pairs[0].0, pairs[0].1) then 1 else 0) + rest
  }

  /** The count over joined lists is the sum of the counts. */
  lemma {:induction false} CountOverlappingAppend(xs: seq<(Range, Range)>, ys: seq<(Range, Range)>)
    ensures CountOverlapping(xs + ys) == CountOverlapping(xs) + CountOverlapping(ys)
    decreases |xs|
  {
    if xs == [] {
      assert xs + ys == ys;
    } else {
      assert (xs + ys)[1..] == xs[1..] + ys;
      CountOverlappingAppend(xs[1..], ys);
    }
  }

  /** One pair counts exactly when its ranges overlap. */
  lemma CountOverlappingOne(p: (Range, Range))
    ensures CountOverlapping([p]) == if Overlaps(p.0, p.1) then 1 else 0
  {
    assert [p][1..] == [];
  }

  /** Every pair counted in the first part is counted here too. */
  lemma {:induction false} ContainingPairsAreOverlapping(pairs: seq<(Range, Range)>)
    requires forall i :: 0 <= i < |pairs| ==> pairs[i].0.start <= pairs[i].0.end && pairs[i].1.start <= pairs[i].1.end
    ensures CountReconsiderable(pairs) <= CountOverlapping(pairs)
    decreases |pairs|
  {
    if pairs != [] {
      ContainingPairsAreOverlapping(pairs[1..]);
      OverlapsTouchingAndContained(pairs[0].0, pairs[0].1);
      OverlapsTouchingAndContained(pairs[0].1, pairs[0].0);
      OverlapsSymmetric(pairs[0].0, pairs[0].1);
    }
  }

  /**
   * The answer: the number of parsed pairs whose ranges overlap; a line
   * that is not an assignment pair aborts the count.
   */
  function OverlappingAssignments(data: string): (r: Result<nat>)
    ensures r.Ok? <==> forall i :: 0 <= i < |Split(data, '\n')| ==> ParseSignedPair(Split(data, '\n')[i]).Ok?
    ensures r.Ok? ==> r.value == CountOverlapping(ParseAllSigned(Split(data, '\n')).value)
    ensures r.Err? ==> r == Err(ParseAllSigned(Split(data, '\n')).msg)
    ensures r.Ok? ==> r.value <= |Split(data, '\n')|
  {
    match ParseAllSigned(Split(data, '\n'))
    case Err(e) => Err(e)
    case Ok(pairs) => Ok(CountOverlapping(pairs))
  }
}
