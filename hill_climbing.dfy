/**
 * 2022 day 12: a breadth-first search over a height map from the start
 * square `S` to an end square `E`. A first-in first-out queue holds the
 * cells still to expand; a table records, for every cell the search has
 * reached, the direction back to the cell it was reached from; the path is
 * read back from that table.
 */
module HillClimbing {
  import opened Common
  import opened HillGrid
  import opened HillSearch

  /** The grid of squares and the coordinates of the last `S` and the last `E`. */
  datatype Map = Map(grid: Matrix<Square>, start: Coord, end: Coord)

  /** `S`, `E`, or a character from `a` on: the elevation `c - 97` must not underflow. */
  predicate MapChar(c: char)
  {
    c == 'S' || c == 'E' || c as int >= 97
  }

  predicate MapChars(lines: seq<string>)
  {
    forall y, x :: 0 <= y < |lines| && 0 <= x < |lines[y]| ==> MapChar(lines[y][x])
  }

  /** `S` is the start, `E` the end, and any other character its elevation counted from `a`. */
  function SquareOf(c: char): (sq: Square)
    requires MapChar(c)
    ensures sq == Start <==> c == 'S'
    ensures sq == End <==> c == 'E'
    ensures sq.Elevation? ==> sq.e + 97 == c as int
  {
    if c == 'S' then Start else if c == 'E' then End else Elevation(c as int - 97)
  }

  function Squares(lines: seq<string>): (grid: seq<seq<Square>>)
    requires MapChars(lines)
    ensures |grid| == |lines| && forall y :: 0 <= y < |lines| ==> |grid[y]| == |lines[y]|
    ensures forall y, x :: 0 <= y < |lines| && 0 <= x < |lines[y]| ==> grid[y][x] == SquareOf(lines[y][x])
  {
    seq(|lines|, y requires 0 <= y < |lines| => seq(|lines[y]|, x requires 0 <= x < |lines[y]| => SquareOf(lines[y][x])))
  }

  /** A rectangular map whose start holds a Start square and whose end an End square. */
  predicate ValidMap(hill: Map)
  {
    Rectangular(hill.grid) && InBounds(hill.grid, hill.start) && At(hill.grid, hill.start) == Start &&
    InBounds(hill.grid, hill.end) && At(hill.grid, hill.end) == End
  }

  /**
   * One row per line: the grid is checked first, then a start and then an
   * end must be present; the last `S` and the last `E` in reading order
   * give the two coordinates.
   */
  function ParseMap(s: string): (r: Result<Map>)
    requires MapChars(Split(s, '\n'))
    ensures var lines := Split(s, '\n');
      r.Ok? <==> TryFrom(Squares(lines)).Ok? && FindLast(lines, 'S').Some? && FindLast(lines, 'E').Some?
    ensures var lines := Split(s, '\n');
      r.Ok? ==> r.value == Map(TryFrom(Squares(lines)).value, FindLast(lines, 'S').value, FindLast(lines, 'E').value)
    ensures r.Ok? ==> ValidMap(r.value)
    ensures var lines := Split(s, '\n');
      TryFrom(Squares(lines)).Ok? && FindLast(lines, 'S').None? ==> r == Err("Map did not contain a start point")
    ensures var lines := Split(s, '\n');
      TryFrom(Squares(lines)).Ok? && FindLast(lines, 'S').Some? && FindLast(lines, 'E').None? ==> r == Err("Map did not contain an end point")
  {
    var lines := Split(s, '\n');
    var grid := TryFrom(Squares(lines));
    if grid.Err? then Err(grid.msg)
    else
      var start := FindLast(lines, 'S');
      var end := FindLast(lines, 'E');
      if start.None? then Err("Map did not contain a start point")
      else if end.None? then Err("Map did not contain an end point")
      else Ok(Map(grid.value, start.value, end.value))
  }

  /**
   * A final newline leaves an empty last row. Either it is shorter than
   * the first row, or every row is empty and there is no start.
   */
  lemma TrailingNewlineFails(s: string)
    requires |s| > 0 && s[|s| - 1] == '\n' && MapChars(Split(s, '\n'))
    ensures ParseMap(s).Err?
  {
    var body := s[..|s| - 1];
    assert s == body + ['\n'];
    SplitEndsEmpty(body, '\n');
    var lines := Split(s, '\n');
    var grid := Squares(lines);
    if TryFrom(grid).Ok? {
      assert |grid[|lines| - 1]| == 0;
      assert forall y :: 0 <= y < |lines| ==> |lines[y]| == 0;
      assert FindLast(lines, 'S').None?;
    }
  }

  /** The map as the shared search sees it: searched from `S`, climbing. */
  function Terrain(hill: Map): (t: Hill)
    ensures ValidMap(hill) ==> ValidHill(t)
    ensures t.rule == Ascend && t.grid == hill.grid && t.start == hill.start
  {
    Hill(hill.grid, hill.start, Ascend)
  }

  // ------------------------------------------------------------------
  // The searcher
  // ------------------------------------------------------------------

  class MapSearcher {
    var queue: seq<Coord>
    var searched: Matrix<Option<Direction>>
    const hill: Map
    /** The number of steps by which the search reached each cell. */
    ghost var depth: map<Coord, nat>

    ghost function State(): Search
      reads this
    {
      Search(searched, depth, queue)
    }

    ghost predicate Core()
      reads this
    {
      Consistent(Terrain(hill), searched, depth, queue)
    }

    /** The start queued, an empty table of the map's size. */
    constructor Init(hill: Map)
      requires ValidMap(hill)
      ensures this.hill == hill && queue == [hill.start] && searched == FromElem(None, hill.grid.width, hill.grid.height)
      ensures depth == map[hill.start := 0]
      ensures Core() && Frontier(Terrain(hill), depth, queue, {}, 0) && Complete(Terrain(hill), depth, 0)
    {
      this.hill := hill;
      queue := [hill.start];
      searched := FromElem(None, hill.grid.width, hill.grid.height);
      depth := map[hill.start := 0];
    }

    /**
     * Look one step from `position`: a neighbour inside the map, not yet
     * marked, and within the climbing rule is queued and marked with the
     * direction back. No error arises on a consistent table.
     */
    method Survey(position: Coord, elevation: Option<nat>, direction: Direction) returns (r: Result<()>)
      modifies this
      requires Fits(Terrain(hill), searched) && position in depth
      ensures r == Ok(())
      ensures State() == Surveyed(Terrain(hill), old(State()), position, elevation, direction)
    {
      var target := StepFrom(direction, position);
      if target.None? {
        return Ok(());
      }
      var t := target.value;
      var square := Get(hill.grid, t);
      if square.Err? {
        return Ok(());
      }
      var entry := Get(searched, t);
      if entry.value.Some? {
        return Ok(());
      }
      if square.value.Elevation? && elevation.Some? && square.value.e > elevation.value + 1 {
        return Ok(());
      }
      queue := queue + [t];
      searched := Store(searched, t, Some(Neg(direction))).value;
      depth := Deepen(Terrain(hill), depth, position, t);
      return Ok(());
    }

    /**
     * The `for` loop over directions in both arms of the search: a survey
     * from `position` in each of `directions`, in order.
     */
    method SurveyDirections(position: Coord, elevation: Option<nat>, directions: seq<Direction>)
      modifies this
      requires Fits(Terrain(hill), searched) && position in depth
      ensures State() == SurveyedAll(Terrain(hill), old(State()), position, elevation, directions)
    {
      for i := 0 to |directions|
        invariant position in depth && Fits(Terrain(hill), searched)
        invariant State() == SurveyedAll(Terrain(hill), old(State()), position, elevation, directions[..i])
      {
        var ok := Survey(position, elevation, directions[i]);
        assert directions[..i + 1][..i] == directions[..i];
      }
      assert directions[..|directions|] == directions;
    }

    /**
     * Dequeue cells until one is an End square: the start is surveyed in
     * every direction without a climbing limit, an elevation in the three
     * directions other than the one it was reached from. The End found is
     * one no other End is nearer than; an exhausted queue means no End is
     * reachable at all.
     */
    method SearchForEnd() returns (r: Result<Coord>)
      modifies this
      requires Core() && Frontier(Terrain(hill), depth, queue, {}, 0) && Complete(Terrain(hill), depth, 0)
      ensures Core()
      ensures r.Ok? ==> r.value in depth && IsGoal(Terrain(hill), r.value)
      ensures r.Ok? ==> forall n: nat, x :: n < depth[r.value] && Reachable(Terrain(hill), x, n) ==> !IsGoal(Terrain(hill), x)
      ensures r.Err? ==> r.msg == "End not found" && forall n: nat, x :: Reachable(Terrain(hill), x, n) ==> !IsGoal(Terrain(hill), x)
    {
      ghost var done: set<Coord> := {};
      ghost var level: nat := 0;
      while queue != []
        invariant Searching(Terrain(hill), State(), done, level)
        decreases Remaining(State())
      {
        var coord := queue[0];
        ghost var s0 := State();
        if coord !in done && depth[coord] == level + 1 {
          LevelUp(Terrain(hill), depth, queue, done, level);
          level := level + 1;
        }
        queue := queue[1..];
        var square := At(hill.grid, coord);
        if square == End {
          NoNearerGoal(Terrain(hill), s0.depth, s0.queue, done, level);
          PopKeepsConsistent(Terrain(hill), s0.searched, s0.depth, s0.queue);
          return Ok(coord);
        }
        SurveyNeighbours(coord, s0, done, level);
        done := if coord in done then done else done + {coord};
      }
      forall n: nat, x | Reachable(Terrain(hill), x, n)
        ensures !IsGoal(Terrain(hill), x)
      {
        ExhaustedReachable(Terrain(hill), depth, done, level, n, x);
      }
      return Err("End not found");
    }

    /**
     * The two arms of the search that survey from a dequeued cell: Start
     * in every direction, an elevation in the three directions other than
     * the one it was reached from. `s0` is the state before the dequeue.
     */
    method SurveyNeighbours(coord: Coord, ghost s0: Search, ghost done: set<Coord>, ghost level: nat)
      modifies this
      requires Searching(Terrain(hill), s0, done, level) && s0.queue != [] && s0.queue[0] == coord
      requires State() == Search(s0.searched, s0.depth, s0.queue[1..])
      requires coord !in done ==> s0.depth[coord] == level
      requires At(hill.grid, coord) != End
      ensures Searching(Terrain(hill), State(), if coord in done then done else done + {coord}, level)
      ensures Remaining(State()) + 1 == Remaining(s0)
    {
      var square := At(hill.grid, coord);
      var directions: seq<Direction>;
      if square == Start {
        directions := ALL;
      } else {
        assert Linked(Terrain(hill), searched, depth, coord);
        var entry := Get(searched, coord);
        directions := Others(entry.value.value);
      }
      SurveyDirections(coord, Expansion(Ascend, square), directions);
      ExpandStep(Terrain(hill), s0, done, level, directions);
    }

    /** The directions read back from `from` to the start. */
    method GetShortestPath(from: Coord) returns (r: Result<seq<Direction>>)
      requires Core() && from in depth
      ensures r.Ok? && |r.value| == depth[from] && LegalBack(Terrain(hill), from, r.value)
      ensures Walk(from, r.value) == Some(hill.start)
    {
      PathBackLegal(Terrain(hill), searched, depth, queue, from);
      r := ShortestPathFrom(searched, hill.start, from, depth);
      PathBackWalks(searched, hill.start, from, depth);
    }
  }

  /**
   * The program without its printing: parse the map, search it, and read
   * back the path from the End found. The path is legal, leads from an
   * End square to the start, and no End is nearer; an error is the
   * parser's, or "End not found" when no End can be reached.
   */
  method ShortestPath(input: string) returns (r: Result<seq<Direction>>)
    requires MapChars(Split(input, '\n'))
    ensures ParseMap(input).Err? ==> r == Err(ParseMap(input).msg)
    ensures r.Ok? ==> ParseMap(input).Ok?
    ensures r.Ok? ==> (var hill := ParseMap(input).value;
      exists end :: IsGoal(Terrain(hill), end) && Reachable(Terrain(hill), end, |r.value|) && LegalBack(Terrain(hill), end, r.value) && Walk(end, r.value) == Some(hill.start))
    ensures r.Ok? ==> (var hill := ParseMap(input).value;
      forall n: nat, x :: n < |r.value| && Reachable(Terrain(hill), x, n) ==> !IsGoal(Terrain(hill), x))
    ensures ParseMap(input).Ok? && r.Err? ==>
      r.msg == "End not found" && forall n: nat, x :: Reachable(Terrain(ParseMap(input).value), x, n) ==> !IsGoal(Terrain(ParseMap(input).value), x)
  {
    var parsed := ParseMap(input);
    if parsed.Err? {
      return Err(parsed.msg);
    }
    var searcher := new MapSearcher.Init(parsed.value);
    var end := searcher.SearchForEnd();
    if end.Err? {
      return Err(end.msg);
    }
    r := searcher.GetShortestPath(end.value);
    ReachedIsReachable(Terrain(searcher.hill), searcher.searched, searcher.depth, searcher.queue, end.value);
  }
}
