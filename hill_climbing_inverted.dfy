/**
 * 2022 day 12, the second program: the height map is inverted, every
 * elevation `e` becoming `27 - e` and Start and End trading places, and
 * the breadth-first search then runs from the old End to the first square
 * that is End or has elevation 26, which on the original map is the
 * nearest lowest square when each step may descend at most one.
 */
module HillClimbingInverted {
  import opened Common
  import opened HillGrid
  import opened HillSearch

  /** The grid of squares and the coordinate of the last `S`. */
  datatype Map = Map(grid: Matrix<Square>, start: Coord)

  // ------------------------------------------------------------------
  // Parsing
  // ------------------------------------------------------------------

  /**
   * `S`, `E`, or a character whose low byte is at least 96: the elevation
   * is the character cast to a byte, less 96, and that subtraction must
   * not underflow.
   */
  predicate MapChar(c: char)
  {
    c == 'S' || c == 'E' || (c as int) % 256 >= 96
  }

  predicate MapChars(lines: seq<string>)
  {
    forall y, x :: 0 <= y < |lines| && 0 <= x < |lines[y]| ==> MapChar(lines[y][x])
  }

  /** `S` is the start, `E` the end, and any other character its byte value counted from the one before `a`. */
  function SquareOf(c: char): (sq: Square)
    requires MapChar(c)
    ensures sq == Start <==> c == 'S'
    ensures sq == End <==> c == 'E'
    ensures sq.Elevation? ==> sq.e + 96 == (c as int) % 256
  {
    if c == 'S' then Start else if c == 'E' then End else Elevation((c as int) % 256 - 96)
  }

  function Squares(lines: seq<string>): (grid: seq<seq<Square>>)
    requires MapChars(lines)
    ensures |grid| == |lines| && forall y :: 0 <= y < |lines| ==> |grid[y]| == |lines[y]|
    ensures forall y, x :: 0 <= y < |lines| && 0 <= x < |lines[y]| ==> grid[y][x] == SquareOf(lines[y][x])
  {
    seq(|lines|, y requires 0 <= y < |lines| => seq(|lines[y]|, x requires 0 <= x < |lines[y]| => SquareOf(lines[y][x])))
  }

  /** A rectangular map whose start holds a Start square and which holds an End square. */
  predicate ValidMap(hill: Map)
  {
    Rectangular(hill.grid) && InBounds(hill.grid, hill.start) && At(hill.grid, hill.start) == Start &&
    FindLast(hill.grid.grid, End).Some?
  }

  /**
   * One row per line: a missing end is reported first, then an invalid
   * grid, then a missing start; the last `S` in reading order is the
   * start.
   */
  function ParseMap(s: string): (r: Result<Map>)
    requires MapChars(Split(s, '\n'))
    ensures var lines := Split(s, '\n');
      r.Ok? <==> FindLast(lines, 'E').Some? && TryFrom(Squares(lines)).Ok? && FindLast(lines, 'S').Some?
    ensures var lines := Split(s, '\n');
      r.Ok? ==> r.value == Map(TryFrom(Squares(lines)).value, FindLast(lines, 'S').value)
    ensures r.Ok? ==> ValidMap(r.value)
    ensures var lines := Split(s, '\n');
      FindLast(lines, 'E').None? ==> r == Err("Map did not contain an end point")
    ensures var lines := Split(s, '\n');
      FindLast(lines, 'E').Some? && TryFrom(Squares(lines)).Err? ==> r == Err(TryFrom(Squares(lines)).msg)
    ensures var lines := Split(s, '\n');
      FindLast(lines, 'E').Some? && TryFrom(Squares(lines)).Ok? && FindLast(lines, 'S').None? ==>
        r == Err("Map did not contain a start point")
  {
    var lines := Split(s, '\n');
    var end := FindLast(lines, 'E');
    if end.None? then Err("Map did not contain an end point")
    else
      var grid := TryFrom(Squares(lines));
      if grid.Err? then Err(grid.msg)
      else
        var start := FindLast(lines, 'S');
        if start.None? then Err("Map did not contain a start point")
        else
          assert Squares(lines)[end.value.1][end.value.0] == End;
          Ok(Map(grid.value, start.value))
  }

  /**
   * A final newline leaves an empty last row. Either it is shorter than
   * the first row, or every row is empty and there is no start.
   */
  lemma TrailingNewlineFails(s: string)
    requires |s| > 0 && s[|s| - 1] == '\n' && MapChars(Split(s, '\n'))
    ensures ParseMap(s).Err?
  {
    var body := s[..|s| - 1];
    assert s == body + ['\n'];
    SplitEndsEmpty(body, '\n');
    var lines := Split(s, '\n');
    var grid := Squares(lines);
    if TryFrom(grid).Ok? {
      assert |grid[|lines| - 1]| == 0;
      assert forall y :: 0 <= y < |lines| ==> |lines[y]| == 0;
      assert FindLast(lines, 'S').None?;
    }
  }

  // ------------------------------------------------------------------
  // Inversion
  // ------------------------------------------------------------------

  /** No elevation above 26, so that the byte subtraction `26 - e` of the inversion does not underflow. */
  predicate Invertible(grid: Matrix<Square>)
  {
    forall y, x :: 0 <= y < |grid.grid| && 0 <= x < |grid.grid[y]| && grid.grid[y][x].Elevation? ==> grid.grid[y][x].e <= 26
  }

  /** Elevation `e` becomes `26 - e + 1`; Start and End swap. */
  function InvertSquare(sq: Square): Square
    requires sq.Elevation? ==> sq.e <= 26
  {
    match sq
    case Elevation(e) => Elevation(26 - e + 1)
    case Start => End
    case End => Start
  }

  /** Inversion mirrors the fixed heights of the second program about 13.5. */
  lemma InvertSquareHeight(sq: Square)
    requires sq.Elevation? ==> sq.e <= 26
    ensures Height(InvertSquare(sq)) == 27 - Height(sq)
  {
  }

  /** On the elevations of `a` to `z`, inverting twice gives the square back. */
  lemma InvertSquareInvolution(sq: Square)
    requires sq.Elevation? ==> 1 <= sq.e <= 26
    ensures InvertSquare(sq).Elevation? ==> 1 <= InvertSquare(sq).e <= 26
    ensures InvertSquare(InvertSquare(sq)) == sq
  {
  }

  /**
   * The climbing rule on the inverted map is the descending rule on the
   * original: a step from `from` onto `target` is admitted exactly when
   * it descends at most one.
   */
  lemma InvertedAdmits(from: Square, target: Square)
    requires from.Elevation? ==> from.e <= 26
    requires target.Elevation? ==> target.e <= 26
    ensures Admits(Descend, Expansion(Descend, InvertSquare(from)), InvertSquare(target)) <==>
      Height(from) <= Height(target) + 1
  {
    InvertSquareHeight(from);
    InvertSquareHeight(target);
  }

  /** The goal on the inverted map is, on the original, Start or elevation 1 (`a`). */
  lemma InvertedGoal(sq: Square)
    requires sq.Elevation? ==> sq.e <= 26
    ensures Goal(Descend, InvertSquare(sq)) <==> sq == Start || sq == Elevation(1)
  {
  }

  function InvertedRows(rows: seq<seq<Square>>): (r: seq<seq<Square>>)
    requires forall y, x :: 0 <= y < |rows| && 0 <= x < |rows[y]| && rows[y][x].Elevation? ==> rows[y][x].e <= 26
    ensures |r| == |rows| && forall y :: 0 <= y < |rows| ==> |r[y]| == |rows[y]|
    ensures forall y, x :: 0 <= y < |rows| && 0 <= x < |rows[y]| ==> r[y][x] == InvertSquare(rows[y][x])
  {
    seq(|rows|, y requires 0 <= y < |rows| => seq(|rows[y]|, x requires 0 <= x < |rows[y]| => InvertSquare(rows[y][x])))
  }

  /**
   * Every square inverted, the grid rebuilt with the same dimensions, and
   * the start moved to the last End in reading order (which is now a
   * Start); without an End the start stays where it was.
   */
  function Invert(hill: Map): (r: Map)
    requires Rectangular(hill.grid) && |hill.grid.grid| >= 1 && Invertible(hill.grid)
    ensures Rectangular(r.grid) && r.grid.width == hill.grid.width && r.grid.height == hill.grid.height
    ensures forall c :: InBounds(hill.grid, c) ==> InBounds(r.grid, c) && At(r.grid, c) == InvertSquare(At(hill.grid, c))
    ensures FindLast(hill.grid.grid, End).Some? ==> r.start == FindLast(hill.grid.grid, End).value
    ensures FindLast(hill.grid.grid, End).None? ==> r.start == hill.start
  {
    var rows := InvertedRows(hill.grid.grid);
    var start := FindLast(hill.grid.grid, End);
    Map(TryFrom(rows).value, if start.Some? then start.value else hill.start)
  }

  /** After inversion every square is at most 27 high, so the survey's `elevation + 1` fits in a byte. */
  predicate HeightsFit(grid: Matrix<Square>)
  {
    forall y, x :: 0 <= y < |grid.grid| && 0 <= x < |grid.grid[y]| ==> Height(grid.grid[y][x]) <= 27
  }

  /** A parsed map without elevations above 26 inverts into a map the search can run on. */
  lemma InvertValid(hill: Map)
    requires ValidMap(hill) && Invertible(hill.grid)
    ensures ValidHill(Terrain(Invert(hill))) && HeightsFit(Invert(hill).grid)
  {
    var inv := Invert(hill);
    var e := FindLast(hill.grid.grid, End).value;
    assert At(inv.grid, e) == Start;
    forall y, x | 0 <= y < |inv.grid.grid| && 0 <= x < |inv.grid.grid[y]|
      ensures Height(inv.grid.grid[y][x]) <= 27
    {
      assert InBounds(hill.grid, (x, y));
      InvertSquareHeight(At(hill.grid, (x, y)));
    }
  }

  /** The map as the shared search sees it: searched from its start, descending. */
  function Terrain(hill: Map): (t: Hill)
    ensures t.rule == Descend && t.grid == hill.grid && t.start == hill.start
  {
    Hill(hill.grid, hill.start, Descend)
  }

  // ------------------------------------------------------------------
  // The searcher
  // ------------------------------------------------------------------

  class MapSearcher {
    var queue: seq<Coord>
    var searched: Matrix<Option<Direction>>
    const hill: Map
    /** The number of steps by which the search reached each cell. */
    ghost var depth: map<Coord, nat>

    ghost function State(): Search
      reads this
    {
      Search(searched, depth, queue)
    }

    ghost predicate Core()
      reads this
    {
      Consistent(Terrain(hill), searched, depth, queue) && HeightsFit(hill.grid)
    }

    /** The start queued, an empty table of the map's size. */
    constructor Init(hill: Map)
      requires ValidHill(Terrain(hill)) && HeightsFit(hill.grid)
      ensures this.hill == hill && queue == [hill.start] && searched == FromElem(None, hill.grid.width, hill.grid.height)
      ensures depth == map[hill.start := 0]
      ensures Core() && Searching(Terrain(hill), State(), {}, 0)
    {
      this.hill := hill;
      queue := [hill.start];
      searched := FromElem(None, hill.grid.width, hill.grid.height);
      depth := map[hill.start := 0];
    }

    /**
     * Look one step from `position`: a neighbour inside the map, not yet
     * marked, and at most one higher than `elevation` is queued and marked
     * with the direction back. The byte sum `elevation + 1` must not
     * overflow. No error arises on a table of the map's size.
     */
    method Survey(position: Coord, elevation: nat, direction: Direction) returns (r: Result<()>)
      modifies this
      requires Fits(Terrain(hill), searched) && position in depth && elevation + 1 < 256
      ensures r == Ok(())
      ensures State() == Surveyed(Terrain(hill), old(State()), position, Some(elevation), direction)
    {
      var target := StepFrom(direction, position);
      if target.None? {
        return Ok(());
      }
      var t := target.value;
      var square := Get(hill.grid, t);
      if square.Err? {
        return Ok(());
      }
      var entry := Get(searched, t);
      if entry.value.Some? {
        return Ok(());
      }
      if Height(square.value) > elevation + 1 {
        return Ok(());
      }
      queue := queue + [t];
      searched := Store(searched, t, Some(Neg(direction))).value;
      depth := Deepen(Terrain(hill), depth, position, t);
      return Ok(());
    }

    /** The `for` loop over directions in both surveying arms of the search. */
    method SurveyDirections(position: Coord, elevation: nat, directions: seq<Direction>)
      modifies this
      requires Fits(Terrain(hill), searched) && position in depth && elevation + 1 < 256
      ensures State() == SurveyedAll(Terrain(hill), old(State()), position, Some(elevation), directions)
    {
      for i := 0 to |directions|
        invariant position in depth && Fits(Terrain(hill), searched)
        invariant State() == SurveyedAll(Terrain(hill), old(State()), position, Some(elevation), directions[..i])
      {
        var ok := Survey(position, elevation, directions[i]);
        assert directions[..i + 1][..i] == directions[..i];
      }
      assert directions[..|directions|] == directions;
    }

    /**
     * Dequeue cells until one is End or has elevation 26: Start is surveyed
     * in every direction with elevation 1, an elevation in the three
     * directions other than the one it was reached from. The cell found is
     * one no other goal is nearer than; an exhausted queue means no goal is
     * reachable at all.
     */
    method SearchForEnd() returns (r: Result<Coord>)
      modifies this
      requires Core() && Searching(Terrain(hill), State(), {}, 0)
      ensures Core()
      ensures r.Ok? ==> r.value in depth && IsGoal(Terrain(hill), r.value)
      ensures r.Ok? ==> forall n: nat, x :: n < depth[r.value] && Reachable(Terrain(hill), x, n) ==> !IsGoal(Terrain(hill), x)
      ensures r.Err? ==> r.msg == "End not found" && forall n: nat, x :: Reachable(Terrain(hill), x, n) ==> !IsGoal(Terrain(hill), x)
    {
      ghost var done: set<Coord> := {};
      ghost var level: nat := 0;
      while queue != []
        invariant Searching(Terrain(hill), State(), done, level)
        decreases Remaining(State())
      {
        var coord := queue[0];
        ghost var s0 := State();
        if coord !in done && depth[coord] == level + 1 {
          LevelUp(Terrain(hill), depth, queue, done, level);
          level := level + 1;
        }
        queue := queue[1..];
        var square := At(hill.grid, coord);
        if square == Elevation(26) || square == End {
          NoNearerGoal(Terrain(hill), s0.depth, s0.queue, done, level);
          PopKeepsConsistent(Terrain(hill), s0.searched, s0.depth, s0.queue);
          return Ok(coord);
        }
        SurveyNeighbours(coord, s0, done, level);
        done := if coord in done then done else done + {coord};
      }
      forall n: nat, x | Reachable(Terrain(hill), x, n)
        ensures !IsGoal(Terrain(hill), x)
      {
        ExhaustedReachable(Terrain(hill), depth, done, level, n, x);
      }
      return Err("End not found");
    }

    /**
     * The two arms of the search that survey from a dequeued cell: Start
     * in every direction with elevation 1, an elevation in the three
     * directions other than the one it was reached from. `s0` is the
     * state before the dequeue.
     */
    method SurveyNeighbours(coord: Coord, ghost s0: Search, ghost done: set<Coord>, ghost level: nat)
      modifies this
      requires HeightsFit(hill.grid)
      requires Searching(Terrain(hill), s0, done, level) && s0.queue != [] && s0.queue[0] == coord
      requires State() == Search(s0.searched, s0.depth, s0.queue[1..])
      requires coord !in done ==> s0.depth[coord] == level
      requires At(hill.grid, coord) != End && At(hill.grid, coord) != Elevation(26)
      ensures Searching(Terrain(hill), State(), if coord in done then done else done + {coord}, level)
      ensures Remaining(State()) + 1 == Remaining(s0)
    {
      var square := At(hill.grid, coord);
      var directions: seq<Direction>;
      if square == Start {
        directions := ALL;
      } else {
        assert Linked(Terrain(hill), searched, depth, coord);
        var entry := Get(searched, coord);
        directions := Others(entry.value.value);
      }
      SurveyDirections(coord, Height(square), directions);
      ExpandStep(Terrain(hill), s0, done, level, directions);
    }

    /** The directions read back from `from` to the start. */
    method GetShortestPath(from: Coord) returns (r: Result<seq<Direction>>)
      requires Core() && from in depth
      ensures r.Ok? && |r.value| == depth[from] && LegalBack(Terrain(hill), from, r.value)
      ensures Walk(from, r.value) == Some(hill.start)
    {
      PathBackLegal(Terrain(hill), searched, depth, queue, from);
      r := ShortestPathFrom(searched, hill.start, from, depth);
      PathBackWalks(searched, hill.start, from, depth);
    }
  }

  /** The characters the program handles without a byte underflow: `S`, `E`, or a low byte from 96 to 122 (`z`). */
  predicate InvertibleChars(lines: seq<string>)
  {
    forall y, x :: 0 <= y < |lines| && 0 <= x < |lines[y]| ==>
      lines[y][x] == 'S' || lines[y][x] == 'E' || 96 <= (lines[y][x] as int) % 256 <= 122
  }

  /**
   * The program without its printing: parse the map, invert it, search
   * the inverted map from its start, and read back the path from the goal
   * found. The path is legal, leads from a goal to the start, and no goal
   * is nearer; an error is the parser's, or "End not found" when no goal
   * can be reached.
   */
  method ShortestPath(input: string) returns (r: Result<seq<Direction>>)
    requires InvertibleChars(Split(input, '\n'))
    ensures ParseMap(input).Err? ==> r == Err(ParseMap(input).msg)
    ensures r.Ok? ==> ParseMap(input).Ok? && Invertible(ParseMap(input).value.grid)
    ensures r.Ok? ==> (var hill := Terrain(Invert(ParseMap(input).value));
      exists goal :: IsGoal(hill, goal) && Reachable(hill, goal, |r.value|) && LegalBack(hill, goal, r.value) && Walk(goal, r.value) == Some(hill.start))
    ensures r.Ok? ==> (var hill := Terrain(Invert(ParseMap(input).value));
      forall n: nat, x :: n < |r.value| && Reachable(hill, x, n) ==> !IsGoal(hill, x))
    ensures ParseMap(input).Ok? && r.Err? ==> (Invertible(ParseMap(input).value.grid) && r.msg == "End not found" &&
      var hill := Terrain(Invert(ParseMap(input).value)); forall n: nat, x :: Reachable(hill, x, n) ==> !IsGoal(hill, x))
  {
    var parsed := ParseMap(input);
    if parsed.Err? {
      return Err(parsed.msg);
    }
    var lines := Split(input, '\n');
    assert Invertible(parsed.value.grid) by {
      assert parsed.value.grid.grid == Squares(lines);
    }
    InvertValid(parsed.value);
    var inverted := Invert(parsed.value);
    var searcher := new MapSearcher.Init(inverted);
    var end := searcher.SearchForEnd();
    if end.Err? {
      return Err(end.msg);
    }
    r := searcher.GetShortestPath(end.value);
    ReachedIsReachable(Terrain(searcher.hill), searcher.searched, searcher.depth, searcher.queue, end.value);
  }
}
