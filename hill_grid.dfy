/**
 * 2022 day 12, the parts both hill-climbing programs share: a grid of
 * rows with bounds-checked access, the four directions with edge-checked
 * steps, the walk back along recorded directions and the coordinates a
 * list of directions passes through.
 */
module HillGrid {
  import opened Common

  /** (x, y): column, then row. */
  type Coord = (nat, nat)

  datatype Matrix<T> = Matrix(grid: seq<seq<T>>, width: nat, height: nat)

  /** Every row as wide as the stored width, as many rows as the stored height. */
  predicate Rectangular<T>(m: Matrix<T>)
  {
    |m.grid| == m.height && forall y :: 0 <= y < |m.grid| ==> |m.grid[y]| == m.width
  }

  /**
   * A grid needs a first row, and every further row must be as long as it;
   * the width is the first row's length and the height the number of rows.
   */
  function TryFrom<T>(grid: seq<seq<T>>): (r: Result<Matrix<T>>)
    ensures grid == [] ==> r == Err("Matrix doesn't have any rows")
    ensures r.Ok? <==> grid != [] && forall y :: 1 <= y < |grid| ==> |grid[y]| == |grid[0]|
    ensures r.Ok? ==> r.value.grid == grid && r.value.width == |grid[0]| && r.value.height == |grid| && Rectangular(r.value)
  {
    if grid == [] then Err("Matrix doesn't have any rows")
    else if exists y :: 1 <= y < |grid| && |grid[y]| != |grid[0]| then Err("Matrix rows are not of the same length")
    else Ok(Matrix(grid, |grid[0]|, |grid|))
  }

  /** A rectangular grid is accepted again as it is. */
  lemma TryFromRectangular<T>(m: Matrix<T>)
    requires Rectangular(m) && m.height >= 1
    ensures TryFrom(m.grid) == Ok(m)
  {
  }

  /** Row `y` exists and has a cell `x`. */
  predicate InBounds<T>(m: Matrix<T>, c: Coord)
  {
    c.1 < |m.grid| && c.0 < |m.grid[c.1]|
  }

  function At<T>(m: Matrix<T>, c: Coord): T
    requires InBounds(m, c)
  {
    m.grid[c.1][c.0]
  }

  /** The cell at (x, y): first the row is looked up, then the cell in it. */
  function Get<T>(m: Matrix<T>, c: Coord): (r: Result<T>)
    ensures r.Ok? <==> InBounds(m, c)
    ensures r.Ok? ==> r.value == At(m, c)
    ensures c.1 >= |m.grid| ==> r == Err("Tried to get a Square outside the Y-Axis of the map")
    ensures c.1 < |m.grid| && c.0 >= |m.grid[c.1]| ==> r == Err("Tried to get a Square outside the X-Axis of the map")
  {
    if c.1 >= |m.grid| then Err("Tried to get a Square outside the Y-Axis of the map")
    else if c.0 >= |m.grid[c.1]| then Err("Tried to get a Square outside the X-Axis of the map")
    else Ok(m.grid[c.1][c.0])
  }

  /** Writing through `get_mut`: the same checks, then one cell replaced and nothing else. */
  function Store<T>(m: Matrix<T>, c: Coord, v: T): (r: Result<Matrix<T>>)
    ensures r.Ok? <==> InBounds(m, c)
    ensures r.Ok? ==> r.value.width == m.width && r.value.height == m.height && |r.value.grid| == |m.grid|
    ensures r.Ok? ==> forall y :: 0 <= y < |m.grid| ==> |r.value.grid[y]| == |m.grid[y]|
    ensures r.Ok? ==> forall y, x :: 0 <= y < |m.grid| && 0 <= x < |m.grid[y]| ==>
      r.value.grid[y][x] == if (x, y) == c then v else m.grid[y][x]
    ensures c.1 >= |m.grid| ==> r == Err("Tried to get_mut a Square outside the Y-Axis of the map")
    ensures c.1 < |m.grid| && c.0 >= |m.grid[c.1]| ==> r == Err("Tried to get_mut a Square outside the X-Axis of the map")
  {
    if c.1 >= |m.grid| then Err("Tried to get_mut a Square outside the Y-Axis of the map")
    else if c.0 >= |m.grid[c.1]| then Err("Tried to get_mut a Square outside the X-Axis of the map")
    else Ok(m.(grid := m.grid[c.1 := m.grid[c.1][c.0 := v]]))
  }

  /** A value stored is read back, and a rectangular grid stays rectangular. */
  lemma StoreGet<T>(m: Matrix<T>, c: Coord, v: T, c': Coord)
    requires InBounds(m, c)
    ensures Rectangular(m) ==> Rectangular(Store(m, c, v).value)
    ensures Get(Store(m, c, v).value, c') == if c' == c then Ok(v) else Get(m, c')
  {
  }

  /** `height` rows of `width` copies of `elem`. */
  function FromElem<T>(elem: T, width: nat, height: nat): (m: Matrix<T>)
    ensures Rectangular(m) && m.width == width && m.height == height
    ensures forall c :: InBounds(m, c) ==> At(m, c) == elem
  {
    Matrix(seq(height, _ => seq(width, _ => elem)), width, height)
  }

  // ------------------------------------------------------------------
  // Directions
  // ------------------------------------------------------------------

  datatype Direction = Up | Down | Left | Right

  function Neg(d: Direction): Direction
  {
    match d
    case Up => Down
    case Down => Up
    case Left => Right
    case Right => Left
  }

  /** Negation swaps the two directions of each axis: it is an involution without fixed points. */
  lemma NegInvolution(d: Direction)
    ensures Neg(Neg(d)) == d && Neg(d) != d
  {
  }

  /** The neighbour in a direction: none above the top row or left of the first column. */
  function StepFrom(d: Direction, c: Coord): (r: Option<Coord>)
    ensures r.None? <==> (d == Up && c.1 == 0) || (d == Left && c.0 == 0)
    ensures d == Down ==> r == Some((c.0, c.1 + 1))
    ensures d == Right ==> r == Some((c.0 + 1, c.1))
  {
    match d
    case Up => if c.1 < 1 then None else Some((c.0, c.1 - 1))
    case Down => Some((c.0, c.1 + 1))
    case Left => if c.0 < 1 then None else Some((c.0 - 1, c.1))
    case Right => Some((c.0 + 1, c.1))
  }

  /** A step is undone by a step the opposite way. */
  lemma StepBack(d: Direction, c: Coord)
    requires StepFrom(d, c).Some?
    ensures StepFrom(Neg(d), StepFrom(d, c).value) == Some(c)
  {
  }

  /** A step moves exactly one cell along one axis. */
  lemma StepAdjacent(d: Direction, c: Coord)
    requires StepFrom(d, c).Some?
    ensures var n := StepFrom(d, c).value;
      (n.0 == c.0 && (n.1 == c.1 + 1 || n.1 + 1 == c.1)) || (n.1 == c.1 && (n.0 == c.0 + 1 || n.0 + 1 == c.0))
  {
  }

  /** Every direction, in the fixed order Up, Right, Down, Left. */
  const ALL: seq<Direction> := [Up, Right, Down, Left]

  function Rank(d: Direction): nat
  {
    match d
    case Up => 0
    case Right => 1
    case Down => 2
    case Left => 3
  }

  lemma AllDirections(d: Direction)
    ensures ALL[Rank(d)] == d && d in ALL
  {
  }

  function Remove(ds: seq<Direction>, d: Direction): (r: seq<Direction>)
  {
    if ds == [] then [] else (if ds[0] == d then [] else [ds[0]]) + Remove(ds[1..], d)
  }

  /** The three other directions, keeping the fixed order. */
  function Others(d: Direction): (r: seq<Direction>)
    ensures |r| == 3 && d !in r
    ensures forall e :: e != d ==> e in r
    ensures forall i, j :: 0 <= i < j < |r| ==> Rank(r[i]) < Rank(r[j])
  {
    assert ALL[1..][1..][1..][1..] == [];
    Remove(ALL, d)
  }

  /** The test: the others of Up are Right, Down and Left. */
  lemma OthersUp()
    ensures Others(Up) == [Right, Down, Left]
  {
    assert ALL[1..][1..][1..][1..] == [];
  }

  // ------------------------------------------------------------------
  // Walking along directions
  // ------------------------------------------------------------------

  /** Where a list of directions leads, if no step leaves the grid's top or left edge. */
  function Walk(from: Coord, ds: seq<Direction>): Option<Coord>
    decreases |ds|
  {
    if ds == [] then Some(from)
    else
      match StepFrom(ds[0], from)
      case None => None
      case Some(next) => Walk(next, ds[1..])
  }

  /** The coordinate before each step, up to the first step that has no neighbour. */
  function Trail(from: Coord, ds: seq<Direction>): (coords: seq<Coord>)
    ensures |coords| <= |ds|
    ensures ds != [] ==> coords != [] && coords[0] == from
    decreases |ds|
  {
    if ds == [] then []
    else
      match StepFrom(ds[0], from)
      case None => [from]
      case Some(next) => [from] + Trail(next, ds[1..])
  }

  /** When the whole walk succeeds, there is one coordinate per direction. */
  lemma {:induction false} TrailOfWalk(from: Coord, ds: seq<Direction>)
    requires Walk(from, ds).Some?
    ensures |Trail(from, ds)| == |ds|
    decreases |ds|
  {
    if ds != [] {
      TrailOfWalk(StepFrom(ds[0], from).value, ds[1..]);
    }
  }

  /** The walk's coordinates as the loop collects them, stopping early at a missing neighbour. */
  method CoordsFromDirections(from: Coord, directions: seq<Direction>) returns (coords: seq<Coord>)
    ensures coords == Trail(from, directions)
  {
    coords := [];
    var current := from;
    for i := 0 to |directions|
      invariant coords + Trail(current, directions[i..]) == Trail(from, directions)
    {
      assert directions[i..][1..] == directions[i + 1..];
      coords := coords + [current];
      match StepFrom(directions[i], current)
      case Some(next) =>
        current := next;
      case None =>
        assert Trail(current, directions[i..]) == [current];
        return;
    }
  }

  // ------------------------------------------------------------------
  // The table of recorded directions
  // ------------------------------------------------------------------

  /**
   * Following the recorded directions from every cell of `rank` other than
   * `start` leads, when it leads anywhere, to a cell of lower rank: the
   * table has no cycle there.
   */
  ghost predicate WellFounded(searched: Matrix<Option<Direction>>, start: Coord, rank: map<Coord, nat>)
  {
    forall c :: (c in rank && c != start && InBounds(searched, c) && At(searched, c).Some? &&
      StepFrom(At(searched, c).value, c).Some?) ==>
        StepFrom(At(searched, c).value, c).value in rank && rank[StepFrom(At(searched, c).value, c).value] < rank[c]
  }

  /**
   * The directions read back from `from` until `start`: each is looked up
   * in the table and followed; a missing entry or a step off the grid is
   * an error.
   */
  ghost function PathBack(searched: Matrix<Option<Direction>>, start: Coord, from: Coord, rank: map<Coord, nat>): Result<seq<Direction>>
    requires WellFounded(searched, start, rank) && from in rank
    decreases rank[from]
  {
    if from == start then Ok([])
    else
      var entry := Get(searched, from);
      if entry.Err? then Err(entry.msg)
      else if entry.value.None? then Err("Ran out of directions!")
      else
        var d := entry.value.value;
        match StepFrom(d, from)
        case None => Err("Tried to lead shortest path outside the map")
        case Some(next) =>
          var rest := PathBack(searched, start, next, rank);
          if rest.Err? then rest else Ok([d] + rest.value)
  }

  /** The directions read back, followed from where they were read, lead to the start. */
  lemma {:induction false} PathBackWalks(searched: Matrix<Option<Direction>>, start: Coord, from: Coord, rank: map<Coord, nat>)
    requires WellFounded(searched, start, rank) && from in rank
    requires PathBack(searched, start, from, rank).Ok?
    ensures Walk(from, PathBack(searched, start, from, rank).value) == Some(start)
    ensures |Trail(from, PathBack(searched, start, from, rank).value)| == |PathBack(searched, start, from, rank).value|
    decreases rank[from]
  {
    var path := PathBack(searched, start, from, rank).value;
    if from != start {
      var next := StepFrom(At(searched, from).value, from).value;
      PathBackWalks(searched, start, next, rank);
      assert path[1..] == PathBack(searched, start, next, rank).value;
    }
    TrailOfWalk(from, path);
  }

  /** `path` placed in front of a result, errors passing through. */
  function Prepend(path: seq<Direction>, r: Result<seq<Direction>>): Result<seq<Direction>>
  {
    if r.Err? then r else Ok(path + r.value)
  }

  /**
   * The loop of `get_shortest_path`: collect the recorded direction of the
   * current cell and step along it until the start is reached. It ends
   * because the table is well founded from `from`.
   */
  method ShortestPathFrom(searched: Matrix<Option<Direction>>, start: Coord, from: Coord, ghost rank: map<Coord, nat>)
    returns (r: Result<seq<Direction>>)
    requires WellFounded(searched, start, rank) && from in rank
    ensures r == PathBack(searched, start, from, rank)
  {
    var path: seq<Direction> := [];
    var current := from;
    assert PathBack(searched, start, from, rank).Ok? ==> [] + PathBack(searched, start, from, rank).value == PathBack(searched, start, from, rank).value;
    while current != start
      invariant current in rank
      invariant Prepend(path, PathBack(searched, start, current, rank)) == PathBack(searched, start, from, rank)
      decreases rank[current]
    {
      var entry := Get(searched, current);
      if entry.Err? {
        return Err(entry.msg);
      }
      if entry.value.None? {
        return Err("Ran out of directions!");
      }
      var direction := entry.value.value;
      var next := StepFrom(direction, current);
      if next.None? {
        return Err("Tried to lead shortest path outside the map");
      }
      ghost var rest := PathBack(searched, start, next.value, rank);
      assert PathBack(searched, start, current, rank) == Prepend([direction], rest);
      assert Prepend(path, Prepend([direction], rest)) == Prepend(path + [direction], rest) by {
        if rest.Ok? {
          assert path + ([direction] + rest.value) == (path + [direction]) + rest.value;
        }
      }
      path := path + [direction];
      current := next.value;
    }
    assert path + [] == path;
    return Ok(path);
  }

  // ------------------------------------------------------------------
  // Counting unmarked cells
  // ------------------------------------------------------------------

  function RowNones(row: seq<Option<Direction>>): nat
  {
    if row == [] then 0 else RowNones(row[..|row| - 1]) + (if row[|row| - 1].None? then 1 else 0)
  }

  /** How many cells of the table have no recorded direction yet. */
  function NoneCount(rows: seq<seq<Option<Direction>>>): nat
  {
    if rows == [] then 0 else NoneCount(rows[..|rows| - 1]) + RowNones(rows[|rows| - 1])
  }

  lemma {:induction false} RowNonesMark(row: seq<Option<Direction>>, x: nat, d: Direction)
    requires x < |row| && row[x].None?
    ensures RowNones(row[x := Some(d)]) + 1 == RowNones(row)
  {
    var prefix := row[..|row| - 1];
    if x < |row| - 1 {
      assert row[x := Some(d)][..|row| - 1] == prefix[x := Some(d)];
      RowNonesMark(prefix, x, d);
    } else {
      assert row[x := Some(d)][..|row| - 1] == prefix;
    }
  }

  lemma {:induction false} NoneCountMark(rows: seq<seq<Option<Direction>>>, y: nat, row: seq<Option<Direction>>)
    requires y < |rows| && RowNones(row) + 1 == RowNones(rows[y])
    ensures NoneCount(rows[y := row]) + 1 == NoneCount(rows)
  {
    var prefix := rows[..|rows| - 1];
    if y < |rows| - 1 {
      assert rows[y := row][..|rows| - 1] == prefix[y := row];
      NoneCountMark(prefix, y, row);
    } else {
      assert rows[y := row][..|rows| - 1] == prefix;
    }
  }

  /** Recording a direction in an empty cell leaves one empty cell fewer. */
  lemma StoreMarks(m: Matrix<Option<Direction>>, c: Coord, d: Direction)
    requires InBounds(m, c) && At(m, c).None?
    ensures NoneCount(Store(m, c, Some(d)).value.grid) + 1 == NoneCount(m.grid)
  {
    RowNonesMark(m.grid[c.1], c.0, d);
    NoneCountMark(m.grid, c.1, m.grid[c.1][c.0 := Some(d)]);
  }

  // ------------------------------------------------------------------
  // Squares
  // ------------------------------------------------------------------

  /** A cell of the height map. */
  datatype Square = Elevation(e: nat) | Start | End

  /**
   * The elevation the second program gives every square: an elevation's
   * own value, 1 (that of `a`) for Start and 26 (that of `z`) for End.
   */
  function Height(sq: Square): (h: nat)
    ensures sq.Elevation? ==> h == sq.e
    ensures sq == Start ==> h == 1
    ensures sq == End ==> h == 26
  {
    match sq
    case Elevation(e) => e
    case Start => 1
    case End => 26
  }

  /** The last cell of the rows, in reading order, that holds `v`. */
  function FindLast<T(==)>(rows: seq<seq<T>>, v: T): (r: Option<Coord>)
    ensures r.None? <==> forall y, x :: 0 <= y < |rows| && 0 <= x < |rows[y]| ==> rows[y][x] != v
    ensures r.Some? ==> r.value.1 < |rows| && r.value.0 < |rows[r.value.1]| && rows[r.value.1][r.value.0] == v
    ensures r.Some? ==> forall y, x :: 0 <= y < |rows| && 0 <= x < |rows[y]| && rows[y][x] == v ==>
      y < r.value.1 || (y == r.value.1 && x <= r.value.0)
  {
    if rows == [] then None
    else
      var y := |rows| - 1;
      assert forall k :: 0 <= k < y ==> rows[..y][k] == rows[k];
      match LastIn(rows[y], v)
      case Some(x) => Some((x, y))
      case None => FindLast(rows[..y], v)
  }

  function LastIn<T(==)>(row: seq<T>, v: T): (r: Option<nat>)
    ensures r.None? <==> v !in row
    ensures r.Some? ==> r.value < |row| && row[r.value] == v && forall x :: r.value < x < |row| ==> row[x] != v
  {
    if row == [] then None
    else if row[|row| - 1] == v then Some(|row| - 1)
    else
      assert forall x :: 0 <= x < |row| - 1 ==> row[..|row| - 1][x] == row[x];
      LastIn(row[..|row| - 1], v)
  }
}
