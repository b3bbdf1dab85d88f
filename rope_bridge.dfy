/**
 * 2022 day 9: a rope of two knots on an integer grid. The head follows a
 * list of moves one unit at a time, every other knot is pulled back next
 * to the head, and the answer is the number of distinct positions the last
 * knot visits.
 */
module RopeBridge {
  import opened Common

  datatype Point = Point(x: int, y: int)

  function Add(a: Point, b: Point): (r: Point)
    ensures r.x - a.x == b.x && r.y - a.y == b.y
  {
    Point(a.x + b.x, a.y + b.y)
  }

  function Sub(a: Point, b: Point): (r: Point)
    ensures Add(r, b) == a
  {
    Point(a.x - b.x, a.y - b.y)
  }

  function Abs(x: int): nat
  {
    if x < 0 then -x else x
  }

  /** The sign of `x`. */
  function NormalizeInt(x: int): (r: int)
    ensures r == -1 || r == 0 || r == 1
    ensures r == 1 <==> x > 0
    ensures r == -1 <==> x < 0
    ensures r * x == Abs(x)
  {
    if x > 0 then 1 else if x < 0 then -1 else 0
  }

  predicate Unit(r: Point)
  {
    -1 <= r.x <= 1 && -1 <= r.y <= 1
  }

  /**
   * The step that brings a knot towards a distance `p` from the head: the
   * signs of both coordinates on a diagonal, the unit vector along the
   * larger coordinate elsewhere, and (0, 0) when none of the four axis
   * cases applies.
   */
  function GridNormalize(p: Point): (r: Point)
    ensures Unit(r)
    ensures Abs(p.x) == Abs(p.y) ==> r == Point(NormalizeInt(p.x), NormalizeInt(p.y))
    ensures Abs(p.x) > Abs(p.y) ==> r == Point(NormalizeInt(p.x), 0)
    ensures Abs(p.y) > Abs(p.x) ==> r == Point(0, NormalizeInt(p.y))
  {
    if Abs(p.x) == Abs(p.y) then Point(NormalizeInt(p.x), NormalizeInt(p.y))
    else if p.y > 0 && p.y > p.x && p.y > -p.x then Point(0, 1)
    else if p.x > 0 && p.x > p.y && p.y > -p.x then Point(1, 0)
    else if p.y < 0 && p.y < p.x && p.y < -p.x then Point(0, -1)
    else if p.x < 0 && p.x < p.y && p.y < -p.x then Point(-1, 0)
    else Point(0, 0)
  }

  /** The fall-back (0, 0) is reached only at the origin. */
  lemma GridNormalizeZero(p: Point)
    ensures GridNormalize(p) == Point(0, 0) <==> p == Point(0, 0)
  {
  }

  lemma GridNormalizeSamples()
    ensures GridNormalize(Point(0, 0)) == Point(0, 0)
    ensures GridNormalize(Point(1, 1)) == Point(1, 1)
    ensures GridNormalize(Point(2, 2)) == Point(1, 1)
    ensures GridNormalize(Point(-2, -2)) == Point(-1, -1)
    ensures GridNormalize(Point(2, 1)) == Point(1, 0)
    ensures GridNormalize(Point(1, 2)) == Point(0, 1)
    ensures GridNormalize(Point(-2, 1)) == Point(-1, 0)
    ensures GridNormalize(Point(1, -2)) == Point(0, -1)
  {
  }

  /** The larger of the coordinate differences. */
  function Chebyshev(a: Point, b: Point): nat
  {
    var dx, dy := Abs(a.x - b.x), Abs(a.y - b.y);
    if dx < dy then dy else dx
  }

  // ------------------------------------------------------------------
  // Moves
  // ------------------------------------------------------------------

  datatype Heading = Up | Down | Left | Right

  /** A move: a heading and a number of unit steps, which is a `u32`. */
  datatype Direction = Direction(heading: Heading, steps: nat)

  function ParseHeading(value: string): (r: Result<Heading>)
    ensures r.Ok? <==> value in ["U", "D", "L", "R"]
    ensures r == Ok(Up) <==> value == "U"
    ensures r == Ok(Down) <==> value == "D"
    ensures r == Ok(Left) <==> value == "L"
    ensures r == Ok(Right) <==> value == "R"
  {
    if value == "U" then Ok(Up)
    else if value == "D" then Ok(Down)
    else if value == "L" then Ok(Left)
    else if value == "R" then Ok(Right)
    else Err("Invalid &str for a Heading: \"" + value + "\"")
  }

  /** `HEADING STEPS`: exactly two tokens around single spaces. */
  function ParseDirection(value: string): (r: Result<Direction>)
    ensures r.Ok? <==> |Split(value, ' ')| == 2 && ParseHeading(Split(value, ' ')[0]).Ok? && ParseU32(Split(value, ' ')[1]).Some?
    ensures r.Ok? ==> Ok(r.value.heading) == ParseHeading(Split(value, ' ')[0]) && r.value.steps < U32_LIMIT
    ensures r.Ok? ==> Some(r.value.steps) == ParseU32(Split(value, ' ')[1])
    ensures |Split(value, ' ')| != 2 ==> r == Err("Tried to get a Direction from an invalid string: " + value)
  {
    var tokens := Split(value, ' ');
    if |tokens| != 2 then Err("Tried to get a Direction from an invalid string: " + value)
    else
      match ParseHeading(tokens[0])
      case Err(e) => Err(e)
      case Ok(heading) =>
        match ParseU32(tokens[1])
        case None => Err("Failed to parse Direction.steps string: " + UnsignedParseError(tokens[1], U32_LIMIT))
        case Some(steps) => Ok(Direction(heading, steps))
  }

  /** Writing a move out and reading it back gives the move. */
  lemma ParseDirectionRoundTrip(d: Direction)
    requires d.steps < U32_LIMIT
    ensures ParseDirection(HeadingText(d.heading) + " " + Decimal(d.steps)) == Ok(d)
  {
    var h, s := HeadingText(d.heading), Decimal(d.steps);
    DecimalValue(d.steps);
    assert ' ' !in s by {
      assert forall k :: 0 <= k < |s| ==> IsDigit(s[k]);
    }
    SplitNoSeparator(s, ' ');
    SplitAtFirstSeparator(h, ' ', s);
    ParseDecimal(d.steps, U32_LIMIT);
  }

  function HeadingText(h: Heading): string
  {
    match h
    case Up => "U"
    case Down => "D"
    case Left => "L"
    case Right => "R"
  }

  /** The unit step of a heading; up increases y. */
  function Move(p: Point, h: Heading): (q: Point)
    ensures Chebyshev(p, q) == 1 && Abs(q.x - p.x) + Abs(q.y - p.y) == 1
  {
    match h
    case Up => p.(y := p.y + 1)
    case Down => p.(y := p.y - 1)
    case Left => p.(x := p.x - 1)
    case Right => p.(x := p.x + 1)
  }

  // ------------------------------------------------------------------
  // The rope
  // ------------------------------------------------------------------

  /** Where a knot at `segment` goes when the head is at `head`. */
  function Follow(head: Point, segment: Point): Point
  {
    Sub(head, GridNormalize(Sub(head, segment)))
  }

  /** A pulled knot ends at most one unit from the head. */
  lemma FollowTouches(head: Point, segment: Point)
    ensures Chebyshev(Follow(head, segment), head) <= 1
  {
  }

  /** A knot already next to the head stays where it is. */
  lemma FollowTouchingStays(head: Point, segment: Point)
    requires Chebyshev(head, segment) <= 1
    ensures Follow(head, segment) == segment
  {
  }

  /** A knot two units or less from the head moves by at most one unit in each coordinate. */
  lemma FollowMovesOneStep(head: Point, segment: Point)
    requires Chebyshev(head, segment) <= 2
    ensures Chebyshev(Follow(head, segment), segment) <= 1
  {
  }

  /**
   * One step of the rope: the head moves one unit, and every other knot
   * is pulled towards the new head (not towards the knot before it).
   */
  function StepRope(rope: seq<Point>, h: Heading): (r: seq<Point>)
    requires |rope| >= 1
    ensures |r| == |rope|
  {
    var cursor := Move(rope[0], h);
    [cursor] + seq(|rope| - 1, i requires 0 <= i < |rope| - 1 => Follow(cursor, rope[i + 1]))
  }

  /** After a step the head is one unit further and every knot touches it. */
  lemma StepRopeMeaning(rope: seq<Point>, h: Heading)
    requires |rope| >= 1
    ensures var r := StepRope(rope, h);
      r[0] == Move(rope[0], h) && forall i :: 1 <= i < |rope| ==> Chebyshev(r[i], r[0]) <= 1
  {
    var r := StepRope(rope, h);
    forall i | 1 <= i < |rope|
      ensures Chebyshev(r[i], r[0]) <= 1
    {
      FollowTouches(r[0], rope[i]);
    }
  }

  /** The step as the program builds it, one knot at a time. */
  method StepKnots(rope: seq<Point>, h: Heading) returns (newRope: seq<Point>)
    requires |rope| >= 1
    ensures newRope == StepRope(rope, h)
  {
    var cursor := Move(rope[0], h);
    newRope := [cursor];
    for i := 1 to |rope|
      invariant |newRope| == i && newRope[0] == cursor
      invariant forall k :: 1 <= k < i ==> newRope[k] == Follow(cursor, rope[k])
    {
      var diff := GridNormalize(Sub(cursor, rope[i]));
      newRope := newRope + [Sub(cursor, diff)];
    }
    var r := StepRope(rope, h);
    forall k | 0 <= k < |rope|
      ensures newRope[k] == r[k]
    {
      if k > 0 {
        assert r[k] == Follow(cursor, rope[k]);
      }
    }
  }

  /** The rope and the positions of its last knot recorded so far. */
  datatype State = State(rope: seq<Point>, visited: seq<Point>)

  const START := State([Point(0, 0), Point(0, 0)], [])

  function Last(s: seq<Point>): Point
    requires |s| >= 1
  {
    s[|s| - 1]
  }

  /** `steps` unit steps along `h`, recording the last knot after each. */
  function Walk(s: State, h: Heading, steps: nat): (t: State)
    requires |s.rope| >= 1
    ensures |t.rope| == |s.rope| && |t.visited| == |s.visited| + steps
    ensures t.visited[..|s.visited|] == s.visited
  {
    if steps == 0 then s
    else
      var before := Walk(s, h, steps - 1);
      var rope := StepRope(before.rope, h);
      assert (before.visited + [Last(rope)])[..|s.visited|] == before.visited[..|s.visited|];
      State(rope, before.visited + [Last(rope)])
  }

  /**
   * The moves of `lines` in order from `s`, stopping at the first line that
   * does not parse: the program's loop over the lines with its early return.
   */
  function RunFrom(s: State, lines: seq<string>): (r: Result<State>)
    requires |s.rope| >= 1
    ensures r.Ok? ==> |r.value.rope| == |s.rope| && |r.value.visited| >= |s.visited|
    decreases |lines|
  {
    if lines == [] then Ok(s)
    else
      match ParseDirection(lines[0])
      case Err(e) => Err(e)
      case Ok(d) => RunFrom(Walk(s, d.heading, d.steps), lines[1..])
  }

  /** The moves of `lines` from the start. */
  function Run(lines: seq<string>): (r: Result<State>)
    ensures r.Ok? ==> |r.value.rope| == 2
  {
    RunFrom(START, lines)
  }

  /** Running two blocks of lines one after the other is running them together. */
  lemma {:induction false} RunFromAppend(s: State, a: seq<string>, b: seq<string>)
    requires |s.rope| >= 1
    ensures RunFrom(s, a).Err? ==> RunFrom(s, a + b) == RunFrom(s, a)
    ensures RunFrom(s, a).Ok? ==> RunFrom(s, a + b) == RunFrom(RunFrom(s, a).value, b)
    decreases |a|
  {
    if a == [] {
      assert a + b == b;
    } else {
      assert (a + b)[0] == a[0];
      assert (a + b)[1..] == a[1..] + b;
      match ParseDirection(a[0])
      case Err(_) =>
      case Ok(d) => RunFromAppend(Walk(s, d.heading, d.steps), a[1..], b);
    }
  }

  /** The number of steps the lines ask for, when they all parse. */
  function TotalSteps(lines: seq<string>): nat
    decreases |lines|
  {
    if lines == [] then 0
    else
      var steps := match ParseDirection(lines[0]) case Ok(d) => d.steps case Err(_) => 0;
      steps + TotalSteps(lines[1..])
  }

  lemma {:induction false} RunFromRecordsEveryStep(s: State, lines: seq<string>)
    requires |s.rope| >= 1 && RunFrom(s, lines).Ok?
    ensures |RunFrom(s, lines).value.visited| == |s.visited| + TotalSteps(lines)
    decreases |lines|
  {
    if lines != [] {
      var d := ParseDirection(lines[0]).value;
      RunFromRecordsEveryStep(Walk(s, d.heading, d.steps), lines[1..]);
    }
  }

  /** One position is recorded per unit step. */
  lemma RunRecordsEveryStep(lines: seq<string>)
    requires Run(lines).Ok?
    ensures |Run(lines).value.visited| == TotalSteps(lines)
  {
    RunFromRecordsEveryStep(START, lines);
  }

  lemma {:induction false} RunFromKeepsRopeTogether(s: State, lines: seq<string>)
    requires |s.rope| == 2 && Chebyshev(s.rope[1], s.rope[0]) <= 1 && RunFrom(s, lines).Ok?
    ensures Chebyshev(RunFrom(s, lines).value.rope[1], RunFrom(s, lines).value.rope[0]) <= 1
    decreases |lines|
  {
    if lines != [] {
      var d := ParseDirection(lines[0]).value;
      WalkKeepsRopeTogether(s, d.heading, d.steps);
      RunFromKeepsRopeTogether(Walk(s, d.heading, d.steps), lines[1..]);
    }
  }

  /** The last knot always touches the head. */
  lemma RunKeepsRopeTogether(lines: seq<string>)
    requires Run(lines).Ok?
    ensures Chebyshev(Run(lines).value.rope[1], Run(lines).value.rope[0]) <= 1
  {
    RunFromKeepsRopeTogether(START, lines);
  }

  lemma {:induction false} WalkKeepsRopeTogether(s: State, h: Heading, steps: nat)
    requires |s.rope| == 2 && Chebyshev(s.rope[1], s.rope[0]) <= 1
    ensures Chebyshev(Walk(s, h, steps).rope[1], Walk(s, h, steps).rope[0]) <= 1
  {
    if steps > 0 {
      WalkKeepsRopeTogether(s, h, steps - 1);
      StepRopeMeaning(Walk(s, h, steps - 1).rope, h);
    }
  }

  /** An input that ends in a newline ends in an empty line, which is not a move. */
  lemma TrailingNewlineFails(data: string)
    requires |data| > 0 && data[|data| - 1] == '\n'
    ensures Run(Split(data, '\n')).Err?
  {
    assert data == data[..|data| - 1] + ['\n'];
    SplitEndsEmpty(data[..|data| - 1], '\n');
    var lines := Split(data, '\n');
    assert Split("", ' ') == [""];
    var k := |lines| - 1;
    if Run(lines[..k]).Ok? {
      RunErrorMessage(lines, k);
    } else {
      RunKeepsError(lines, k);
    }
  }

  /** The number of distinct points in `s`; sorting and removing duplicates leaves exactly these. */
  function DistinctCount(s: seq<Point>): nat
  {
    |set i | 0 <= i < |s| :: s[i]|
  }

  /**
   * The whole program: every line is a move, each unit step of the head
   * records the last knot, and the answer is how many distinct positions
   * were recorded.
   */
  method TailPositions(data: string) returns (r: Result<nat>)
    ensures Run(Split(data, '\n')).Err? ==> r == Err(Run(Split(data, '\n')).msg)
    ensures Run(Split(data, '\n')).Ok? ==> r == Ok(DistinctCount(Run(Split(data, '\n')).value.visited))
  {
    var lines := Split(data, '\n');
    var rope := START.rope;
    var tailVisited: seq<Point> := [];
    assert lines[0..] == lines;
    for k := 0 to |lines|
      invariant |rope| == 2
      invariant Run(lines) == RunFrom(State(rope, tailVisited), lines[k..])
    {
      var direction := ParseDirection(lines[k]);
      assert lines[k..][0] == lines[k] && lines[k..][1..] == lines[k + 1..];
      if direction.Err? {
        r := Err(direction.msg);
        return;
      }
      ghost var s := State(rope, tailVisited);
      for step := 0 to direction.value.steps
        invariant |rope| == 2
        invariant Walk(s, direction.value.heading, step) == State(rope, tailVisited)
      {
        rope := StepKnots(rope, direction.value.heading);
        tailVisited := tailVisited + [rope[|rope| - 1]];
      }
    }
    assert lines[|lines|..] == [];
    r := Ok(DistinctCount(tailVisited));
  }

  /** The error of the first bad line is the error of the run. */
  lemma RunErrorMessage(lines: seq<string>, k: nat)
    requires k < |lines| && Run(lines[..k]).Ok? && ParseDirection(lines[k]).Err?
    ensures Run(lines) == Err(ParseDirection(lines[k]).msg)
  {
    assert lines == lines[..k] + lines[k..];
    RunFromAppend(START, lines[..k], lines[k..]);
    assert lines[k..][0] == lines[k];
  }

  /** Once a prefix of the lines fails, the rest does not change the outcome. */
  lemma RunKeepsError(lines: seq<string>, k: nat)
    requires k <= |lines| && Run(lines[..k]).Err?
    ensures Run(lines) == Run(lines[..k])
  {
    assert lines == lines[..k] + lines[k..];
    RunFromAppend(START, lines[..k], lines[k..]);
  }
}
