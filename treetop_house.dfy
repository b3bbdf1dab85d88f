/**
 * 2022 day 8 (second part): the scenic score of a tree is the product of
 * its viewing distances in the four directions. The program computes the
 * distances looking right along every row, then turns the forest a quarter
 * three times, multiplying in the distances along the turned rows; the
 * answer is the largest score.
 */
module TreetopHouse {
  import opened Common
  import opened TreetopMatrix

  /**
   * How many trees a tree of height `h` sees along `line`: up to and
   * including the first one at least as tall, or all of them.
   */
  function ViewingDistance(h: nat, line: seq<nat>): (d: nat)
    ensures d <= |line|
  {
    if line == [] then 0
    else if h <= line[0] then 1
    else 1 + ViewingDistance(h, line[1..])
  }

  /** The distance counts the shorter trees and the first one at least as tall, if any. */
  lemma {:induction false} ViewingDistanceMeaning(h: nat, line: seq<nat>)
    ensures var d := ViewingDistance(h, line);
      (d == 0 <==> line == []) &&
      (forall k :: 0 <= k < d - 1 ==> line[k] < h) &&
      (d >= 1 ==> line[d - 1] >= h || d == |line|)
    decreases |line|
  {
    if line != [] && h > line[0] {
      ViewingDistanceMeaning(h, line[1..]);
      assert forall k :: 1 <= k < |line| ==> line[k] == line[1..][k - 1];
    }
  }

  /** Looking past `m` shorter trees adds `m` to the distance. */
  lemma {:induction false} ViewingDistancePast(h: nat, line: seq<nat>, m: nat)
    requires m <= |line|
    requires forall k :: 0 <= k < m ==> line[k] < h
    ensures ViewingDistance(h, line) == m + ViewingDistance(h, line[m..])
    decreases m
  {
    if m > 0 {
      ViewingDistancePast(h, line[1..], m - 1);
      assert line[1..][m - 1..] == line[m..];
    }
  }

  lemma ViewingDistanceSample()
    ensures ViewingDistance(3, [0, 3, 7, 3]) == 2
    ensures ViewingDistance(0, [3, 7, 3]) == 1
    ensures ViewingDistance(3, [7, 3]) == 1
    ensures ViewingDistance(7, [3]) == 1
    ensures ViewingDistance(3, []) == 0
  {
    assert [0, 3, 7, 3][1..] == [3, 7, 3];
  }

  /** What the tree at index `i` of a row sees to its right. */
  function RightView(trees: seq<nat>, i: nat): nat
    requires i < |trees|
  {
    ViewingDistance(trees[i], trees[i + 1..])
  }

  /** A row whose first tall enough tree to the right of `i` stands at `j`. */
  lemma RightViewBlocked(trees: seq<nat>, i: nat, j: nat)
    requires i < j < |trees| && trees[i] <= trees[j]
    requires forall k :: i + 1 <= k < j ==> trees[k] < trees[i]
    ensures RightView(trees, i) == j - i
  {
    ViewingDistancePast(trees[i], trees[i + 1..], j - (i + 1));
    assert trees[i + 1..][j - (i + 1)..][0] == trees[j];
  }

  /** A row with no tall enough tree to the right of `i`. */
  lemma RightViewUnblocked(trees: seq<nat>, i: nat)
    requires i < |trees|
    requires forall k :: i + 1 <= k < |trees| ==> trees[k] < trees[i]
    ensures RightView(trees, i) == |trees| - (i + 1)
  {
    ViewingDistancePast(trees[i], trees[i + 1..], |trees| - (i + 1));
  }

  /**
   * For each tree of a row, the number of trees it sees to its right. The
   * counters have `limit` values (the integer width of the cells).
   */
  method VisibleAcross(trees: seq<nat>, limit: nat) returns (mask: seq<nat>)
    requires |trees| <= limit
    ensures |mask| == |trees|
    ensures forall i :: 0 <= i < |trees| ==> mask[i] == RightView(trees, i) < limit
  {
    mask := seq(|trees|, _ => 0);
    for i := 0 to |trees|
      invariant |mask| == |trees|
      invariant forall k :: 0 <= k < i ==> mask[k] == RightView(trees, k)
      invariant forall k :: i <= k < |trees| ==> mask[k] == 0
    {
      ghost var before := mask;
      ghost var blocked := false;
      for j := i + 1 to |trees|
        invariant mask == before[i := j - (i + 1)]
        invariant forall k :: i + 1 <= k < j ==> trees[k] < trees[i]
      {
        assert mask[i] + 1 < limit;
        mask := mask[i := mask[i] + 1];
        if trees[i] <= trees[j] {
          RightViewBlocked(trees, i, j);
          blocked := true;
          break;
        }
      }
      if !blocked {
        RightViewUnblocked(trees, i);
      }
    }
  }

  // ------------------------------------------------------------------
  // The four directions
  // ------------------------------------------------------------------

  predicate InGrid(m: Matrix, p: (nat, nat))
  {
    p.0 < m.length && p.1 < m.length
  }

  /**
   * The trees seen from cell `p` = (row, column), nearest first, looking
   * right (0), down (1), left (2) or up (3).
   */
  function Line(m: Matrix, d: nat, p: (nat, nat)): seq<nat>
    requires Square(m) && d < 4 && InGrid(m, p)
  {
    var n, r, c := m.length, p.0, p.1;
    if d == 0 then m.rows[r][c + 1..]
    else if d == 1 then seq(n - 1 - r, k requires 0 <= k < n - 1 - r => m.rows[r + 1 + k][c])
    else if d == 2 then seq(c, k requires 0 <= k < c => m.rows[r][c - 1 - k])
    else seq(r, k requires 0 <= k < r => m.rows[r - 1 - k][c])
  }

  function View(m: Matrix, d: nat, p: (nat, nat)): nat
    requires Square(m) && d < 4 && InGrid(m, p)
  {
    ViewingDistance(m.rows[p.0][p.1], Line(m, d, p))
  }

  /** Looking right along a row is the row's own right view. */
  lemma ViewRight(m: Matrix, p: (nat, nat))
    requires Square(m) && InGrid(m, p)
    ensures View(m, 0, p) == RightView(m.rows[p.0], p.1)
  {
  }

  /** The cell of the unturned grid that `k` quarter turns bring to `p`. */
  function Origin(n: nat, k: nat, p: (nat, nat)): (q: (nat, nat))
    requires p.0 < n && p.1 < n
    ensures q.0 < n && q.1 < n
    decreases k
  {
    if k == 0 then p else Origin(n, k - 1, (p.1, n - 1 - p.0))
  }

  lemma OriginValues(n: nat, p: (nat, nat))
    requires p.0 < n && p.1 < n
    ensures Origin(n, 1, p) == (p.1, n - 1 - p.0)
    ensures Origin(n, 2, p) == (n - 1 - p.0, n - 1 - p.1)
    ensures Origin(n, 3, p) == (n - 1 - p.1, p.0)
  {
  }

  /** `k` quarter turns. */
  function Turned(m: Matrix, k: nat): (r: Matrix)
    requires Square(m)
    ensures Square(r) && r.length == m.length
    decreases k
  {
    if k == 0 then m else Rotated(Turned(m, k - 1))
  }

  /** Looking right in the turned grid is looking down in the original. */
  lemma LineRotatedRight(m: Matrix, p: (nat, nat))
    requires Square(m) && InGrid(m, p)
    ensures Line(Rotated(m), 0, p) == Line(m, 1, (p.1, m.length - 1 - p.0))
  {
    var rm, n, r, c := Rotated(m), m.length, p.0, p.1;
    var lhs, rhs := Line(rm, 0, p), Line(m, 1, (c, n - 1 - r));
    assert lhs == rm.rows[r][c + 1..];
    forall k | 0 <= k < n - 1 - c
      ensures lhs[k] == rhs[k]
    {
      assert lhs[k] == rm.rows[r][c + 1 + k];
    }
  }

  /** Looking down in the turned grid is looking left in the original. */
  lemma LineRotatedDown(m: Matrix, p: (nat, nat))
    requires Square(m) && InGrid(m, p)
    ensures Line(Rotated(m), 1, p) == Line(m, 2, (p.1, m.length - 1 - p.0))
  {
    var rm, n, r, c := Rotated(m), m.length, p.0, p.1;
    var lhs, rhs := Line(rm, 1, p), Line(m, 2, (c, n - 1 - r));
    assert |lhs| == |rhs| == n - 1 - r;
    forall k | 0 <= k < |lhs|
      ensures lhs[k] == rhs[k]
    {
      assert lhs[k] == rm.rows[r + 1 + k][c] == m.rows[c][n - 1 - r - 1 - k];
    }
  }

  /** Looking left in the turned grid is looking up in the original. */
  lemma LineRotatedLeft(m: Matrix, p: (nat, nat))
    requires Square(m) && InGrid(m, p)
    ensures Line(Rotated(m), 2, p) == Line(m, 3, (p.1, m.length - 1 - p.0))
  {
    var rm, n, r, c := Rotated(m), m.length, p.0, p.1;
    var lhs, rhs := Line(rm, 2, p), Line(m, 3, (c, n - 1 - r));
    assert |lhs| == |rhs| == c;
    forall k | 0 <= k < |lhs|
      ensures lhs[k] == rhs[k]
    {
      assert lhs[k] == rm.rows[r][c - 1 - k] == m.rows[c - 1 - k][n - 1 - r];
    }
  }

  /** Looking up in the turned grid is looking right in the original. */
  lemma LineRotatedUp(m: Matrix, p: (nat, nat))
    requires Square(m) && InGrid(m, p)
    ensures Line(Rotated(m), 3, p) == Line(m, 0, (p.1, m.length - 1 - p.0))
  {
    var rm, n, r, c := Rotated(m), m.length, p.0, p.1;
    var lhs, rhs := Line(rm, 3, p), Line(m, 0, (c, n - 1 - r));
    assert |lhs| == |rhs| == r;
    forall k | 0 <= k < |lhs|
      ensures lhs[k] == rhs[k]
    {
      assert lhs[k] == rm.rows[r - 1 - k][c] == m.rows[c][n - 1 - r + 1 + k];
    }
  }

  /** Each direction in the turned grid is the next direction in the original. */
  lemma LineRotated(m: Matrix, d: nat, p: (nat, nat))
    requires Square(m) && d < 4 && InGrid(m, p)
    ensures Rotated(m).rows[p.0][p.1] == m.rows[p.1][m.length - 1 - p.0]
    ensures Line(Rotated(m), d, p) == Line(m, (d + 1) % 4, (p.1, m.length - 1 - p.0))
  {
    if d == 0 {
      LineRotatedRight(m, p);
    } else if d == 1 {
      LineRotatedDown(m, p);
    } else if d == 2 {
      LineRotatedLeft(m, p);
    } else {
      LineRotatedUp(m, p);
    }
  }

  /** What a tree sees in the turned grid is what it sees in the next direction of the original. */
  lemma ViewRotated(m: Matrix, d: nat, p: (nat, nat))
    requires Square(m) && d < 4 && InGrid(m, p)
    ensures View(Rotated(m), d, p) == View(m, (d + 1) % 4, (p.1, m.length - 1 - p.0))
  {
    LineRotated(m, d, p);
  }

  /** After `k` turns, direction `d` at `p` is direction `e` = `d + k` at the origin of `p`. */
  lemma {:induction false} ViewTurned(m: Matrix, k: nat, d: nat, e: nat, p: (nat, nat))
    requires Square(m) && e == d + k && e < 4 && InGrid(m, p)
    ensures View(Turned(m, k), d, p) == View(m, e, Origin(m.length, k, p))
    decreases k
  {
    if k > 0 {
      var q := (p.1, m.length - 1 - p.0);
      assert (d + 1) % 4 == d + 1;
      ViewRotated(Turned(m, k - 1), d, p);
      ViewTurned(m, k - 1, d + 1, e, q);
    }
  }

  /** Looking right after `k` turns is looking in direction `k` before them. */
  lemma RightViewTurned(m: Matrix, k: nat, p: (nat, nat))
    requires Square(m) && k < 4 && InGrid(m, p)
    ensures View(Turned(m, k), 0, p) == View(m, k, Origin(m.length, k, p))
  {
    ViewTurned(m, k, 0, k, p);
  }

  // ------------------------------------------------------------------
  // Scores
  // ------------------------------------------------------------------

  /** The product of the viewing distances in directions 0 to `k`. */
  function Partial(m: Matrix, k: nat, p: (nat, nat)): nat
    requires Square(m) && k < 4 && InGrid(m, p)
  {
    if k == 0 then View(m, 0, p) else Times(Partial(m, k - 1, p), View(m, k, p))
  }

  /** The scenic score: the product of the four viewing distances. */
  function Score(m: Matrix, p: (nat, nat)): nat
    requires Square(m) && InGrid(m, p)
  {
    Partial(m, 3, p)
  }

  /** A tree on the edge sees nothing in one direction and scores 0. */
  lemma EdgeScoresZero(m: Matrix, p: (nat, nat))
    requires Square(m) && InGrid(m, p)
    requires p.0 == 0 || p.1 == 0 || p.0 == m.length - 1 || p.1 == m.length - 1
    ensures Score(m, p) == 0
  {
    var n := m.length;
    var d := if p.1 == n - 1 then 0 else if p.0 == n - 1 then 1 else if p.1 == 0 then 2 else 3;
    assert Line(m, d, p) == [];
    for k := d to 3
      invariant Partial(m, k, p) == 0
    {
      PartialStep(m, k + 1, p);
    }
  }

  function ScoreMap(m: Matrix): (s: Matrix)
    requires Square(m)
    ensures Square(s) && s.length == m.length
    ensures forall i, j :: 0 <= i < m.length && 0 <= j < m.length ==> s.rows[i][j] == Score(m, (i, j))
  {
    var n := m.length;
    Matrix(seq(n, i requires 0 <= i < n => seq(n, j requires 0 <= j < n => Score(m, (i, j)))), n)
  }

  /** No partial product reaches `limit`, so no cell of width `limit` overflows. */
  predicate ProductsFit(m: Matrix, limit: nat)
    requires Square(m)
  {
    forall k, i, j :: 0 <= k < 4 && 0 <= i < m.length && 0 <= j < m.length ==> Partial(m, k, (i, j)) < limit
  }

  /** Cell `(i, j)` of a map turned `k` times holds the partial product `k` of its origin. */
  predicate PartialMap(cells: seq<seq<nat>>, forest: Matrix, k: nat)
    requires Square(forest) && k < 4
  {
    var n := forest.length;
    |cells| == n && (forall i :: 0 <= i < n ==> |cells[i]| == n) &&
    forall i, j :: 0 <= i < n && 0 <= j < n ==> PartialAt(cells, forest, k, k, i, j)
  }

  /** Cell `(i, j)` holds the partial product `k` of its origin after `turns` turns. */
  predicate PartialAt(cells: seq<seq<nat>>, forest: Matrix, k: nat, turns: nat, i: nat, j: nat)
    requires Square(forest) && k < 4 && i < forest.length && j < forest.length
    requires |cells| == forest.length && |cells[i]| == forest.length
  {
    cells[i][j] == Partial(forest, k, Origin(forest.length, turns, (i, j)))
  }

  /** Cell `(i, j)` holds the partial product `k` of its origin after one turn more. */
  predicate ShiftedAt(cells: seq<seq<nat>>, forest: Matrix, k: nat, i: nat, j: nat)
    requires Square(forest) && k < 3 && i < forest.length && j < forest.length
    requires |cells| == forest.length && |cells[i]| == forest.length
  {
    cells[i][j] == Partial(forest, k, Origin(forest.length, k + 1, (i, j)))
  }

  /** Turning the map moves every cell to where the next turn's origins expect it. */
  lemma TurnedPartialMap(cells: seq<seq<nat>>, forest: Matrix, k: nat)
    requires Square(forest) && k < 3 && PartialMap(cells, forest, k)
    ensures var turned := Rotated(Matrix(cells, forest.length)).rows;
      forall i, j :: 0 <= i < forest.length && 0 <= j < forest.length ==> ShiftedAt(turned, forest, k, i, j)
  {
    var n := forest.length;
    var turned := Rotated(Matrix(cells, n)).rows;
    forall i, j | 0 <= i < n && 0 <= j < n
      ensures ShiftedAt(turned, forest, k, i, j)
    {
      assert PartialAt(cells, forest, k, k, j, n - 1 - i);
      assert turned[i][j] == cells[j][n - 1 - i];
      assert Origin(n, k + 1, (i, j)) == Origin(n, k, (j, n - 1 - i));
    }
  }

  /** One more turn's views multiplied in. */
  lemma PartialStep(forest: Matrix, k: nat, p: (nat, nat))
    requires Square(forest) && 1 <= k < 4 && InGrid(forest, p)
    ensures Partial(forest, k, p) == Times(Partial(forest, k - 1, p), View(forest, k, p))
  {
  }

  /** The cell products of a row with its mask, each below `limit`. */
  method MultiplyRow(row: seq<nat>, mask: seq<nat>, limit: nat) returns (out: seq<nat>)
    requires |row| == |mask|
    requires forall j :: 0 <= j < |row| ==> Times(row[j], mask[j]) < limit
    ensures |out| == |row| && forall j :: 0 <= j < |row| ==> out[j] == Times(row[j], mask[j])
  {
    out := row;
    for c := 0 to |row|
      invariant |out| == |row|
      invariant forall j :: 0 <= j < c ==> out[j] == Times(row[j], mask[j])
      invariant forall j :: c <= j < |row| ==> out[j] == row[j]
    {
      var product := out[c] * mask[c];
      assert product < limit;
      out := out[c := product];
    }
  }

  /**
   * One pass over the turned forest `g` and the turned map: each row of the
   * map is multiplied by the right views of the same row of the forest.
   */
  method MultiplyByViews(forest: Matrix, k: nat, limit: nat, g: Matrix, cells: seq<seq<nat>>) returns (out: seq<seq<nat>>)
    requires Square(forest) && forest.length <= limit && ProductsFit(forest, limit)
    requires k < 3 && g == Turned(forest, k + 1)
    requires |cells| == forest.length && forall i :: 0 <= i < |cells| ==> |cells[i]| == forest.length
    requires forall i, j :: 0 <= i < forest.length && 0 <= j < forest.length ==> ShiftedAt(cells, forest, k, i, j)
    ensures PartialMap(out, forest, k + 1)
  {
    var n, next := forest.length, k + 1;
    out := cells;
    for r := 0 to n
      invariant |out| == n && forall i :: 0 <= i < n ==> |out[i]| == n
      invariant forall i, j :: 0 <= i < r && 0 <= j < n ==> PartialAt(out, forest, next, next, i, j)
      invariant forall i :: r <= i < n ==> out[i] == cells[i]
    {
      var mask := VisibleAcross(g.rows[r], limit);
      forall j | 0 <= j < n
        ensures Times(out[r][j], mask[j]) == Partial(forest, k + 1, Origin(n, k + 1, (r, j))) < limit
      {
        assert ShiftedAt(cells, forest, k, r, j);
        ViewRight(g, (r, j));
        RightViewTurned(forest, k + 1, (r, j));
        PartialStep(forest, k + 1, Origin(n, k + 1, (r, j)));
      }
      var row := MultiplyRow(out[r], mask, limit);
      ghost var before := out;
      out := out[r := row];
      forall i, j | 0 <= i <= r && 0 <= j < n
        ensures PartialAt(out, forest, next, next, i, j)
      {
        if i < r {
          assert PartialAt(before, forest, next, next, i, j);
        }
      }
    }
  }

  /** The cell that the last turn brings to `(i, j)` holds the score of `(i, j)`. */
  lemma FinalTurnAt(cells: seq<seq<nat>>, forest: Matrix, i: nat, j: nat)
    requires Square(forest) && i < forest.length && j < forest.length
    requires |cells| == forest.length && forall r :: 0 <= r < |cells| ==> |cells[r]| == forest.length
    requires PartialAt(cells, forest, 3, 3, j, forest.length - 1 - i)
    ensures Rotated(Matrix(cells, forest.length)).rows[i][j] == Score(forest, (i, j))
  {
    var n := forest.length;
    OriginValues(n, (j, n - 1 - i));
    assert n - 1 - (n - 1 - i) == i;
  }

  /** A map turned three times holds the scores one turn short of their place. */
  lemma FinalTurn(cells: seq<seq<nat>>, forest: Matrix)
    requires Square(forest) && PartialMap(cells, forest, 3)
    ensures Rotated(Matrix(cells, forest.length)) == ScoreMap(forest)
  {
    var n := forest.length;
    var ssm := Rotated(Matrix(cells, n));
    var scores := ScoreMap(forest);
    forall i, j | 0 <= i < n && 0 <= j < n
      ensures ssm.rows[i][j] == scores.rows[i][j]
    {
      FinalTurnAt(cells, forest, i, j);
    }
    assert forall i :: 0 <= i < n ==> ssm.rows[i] == scores.rows[i];
  }

  /**
   * The score map as the program builds it: the right views of every row,
   * then three times a quarter turn of both the forest and the map followed
   * by a multiplication with the right views of the turned forest. The map
   * comes out turned three quarters; one more turn gives the scores in
   * place.
   */
  method ScenicScoreMap(forest: Matrix, limit: nat) returns (ssm: Matrix)
    requires Square(forest) && forest.length <= limit
    requires ProductsFit(forest, limit)
    ensures Square(ssm) && ssm.length == forest.length
    ensures Rotated(ssm) == ScoreMap(forest)
  {
    var n := forest.length;
    var cells: seq<seq<nat>> := forest.rows;
    for r := 0 to n
      invariant |cells| == n && forall i :: 0 <= i < n ==> |cells[i]| == n
      invariant forall i :: r <= i < n ==> cells[i] == forest.rows[i]
      invariant forall i, j :: 0 <= i < r && 0 <= j < n ==> PartialAt(cells, forest, 0, 0, i, j)
    {
      var mask := VisibleAcross(cells[r], limit);
      ghost var before := cells;
      cells := cells[r := mask];
      forall i, j | 0 <= i <= r && 0 <= j < n
        ensures PartialAt(cells, forest, 0, 0, i, j)
      {
        if i < r {
          assert PartialAt(before, forest, 0, 0, i, j);
        }
      }
    }
    var g := forest;
    for k := 0 to 3
      invariant g == Turned(forest, k)
      invariant PartialMap(cells, forest, k)
    {
      g := Rotate(g);
      TurnedPartialMap(cells, forest, k);
      var turned := Rotate(Matrix(cells, n));
      cells := MultiplyByViews(forest, k, limit, g, turned.rows);
    }
    ssm := Matrix(cells, n);
    FinalTurn(cells, forest);
  }

  // ------------------------------------------------------------------
  // The answer
  // ------------------------------------------------------------------

  /** The largest cell of a row, if the row has any. */
  function RowMax(row: seq<nat>): (r: Option<nat>)
    ensures r.Some? <==> row != []
    ensures r.Some? ==> r.value in row && forall j :: 0 <= j < |row| ==> row[j] <= r.value
  {
    if row == [] then None else Some(Max(row))
  }

  /**
   * The largest of the rows' maxima, a row without cells counting as less
   * than any number: the largest cell of all, if there is a cell.
   */
  function MaxCell(rows: seq<seq<nat>>): (r: Option<nat>)
    ensures r.Some? <==> exists i :: 0 <= i < |rows| && rows[i] != []
    ensures r.Some? ==> exists i, j :: 0 <= i < |rows| && 0 <= j < |rows[i]| && rows[i][j] == r.value
    ensures r.Some? ==> forall i, j :: 0 <= i < |rows| && 0 <= j < |rows[i]| ==> rows[i][j] <= r.value
  {
    if rows == [] then None
    else
      var first, rest := RowMax(rows[0]), MaxCell(rows[1..]);
      assert forall i :: 1 <= i < |rows| ==> rows[i] == rows[1..][i - 1];
      if first.None? then rest
      else if rest.None? || rest.value <= first.value then
        assert exists j :: 0 <= j < |rows[0]| && rows[0][j] == first.value;
        first
      else
        var i, j :| 0 <= i < |rows[1..]| && 0 <= j < |rows[1..][i]| && rows[1..][i][j] == rest.value;
        assert rows[i + 1][j] == rest.value;
        rest
  }

  /** Any cell is a lower bound of the maximum. */
  lemma MaxCellAtLeast(rows: seq<seq<nat>>, i: nat, j: nat)
    requires i < |rows| && j < |rows[i]|
    ensures MaxCell(rows).Some? && rows[i][j] <= MaxCell(rows).value
  {
  }

  /** The maximum of the turned rows is a cell of the rows. */
  lemma TurnedMaxAtMost(rows: seq<seq<nat>>, turned: seq<seq<nat>>, n: nat)
    requires n >= 1 && |rows| == n && |turned| == n
    requires forall i :: 0 <= i < n ==> |rows[i]| == n && |turned[i]| == n
    requires forall i, j :: 0 <= i < n && 0 <= j < n ==> turned[i][j] == rows[j][n - 1 - i]
    ensures MaxCell(turned).Some? && MaxCell(rows).Some?
    ensures MaxCell(turned).value <= MaxCell(rows).value
  {
    MaxCellAtLeast(turned, 0, 0);
    MaxCellAtLeast(rows, 0, 0);
    var i, j :| 0 <= i < |turned| && 0 <= j < |turned[i]| && turned[i][j] == MaxCell(turned).value;
    MaxCellAtLeast(rows, j, n - 1 - i);
  }

  /** The maximum of the rows is a cell of the turned rows. */
  lemma TurnedMaxAtLeast(rows: seq<seq<nat>>, turned: seq<seq<nat>>, n: nat)
    requires n >= 1 && |rows| == n && |turned| == n
    requires forall i :: 0 <= i < n ==> |rows[i]| == n && |turned[i]| == n
    requires forall i, j :: 0 <= i < n && 0 <= j < n ==> turned[i][j] == rows[j][n - 1 - i]
    ensures MaxCell(turned).Some? && MaxCell(rows).Some?
    ensures MaxCell(rows).value <= MaxCell(turned).value
  {
    MaxCellAtLeast(turned, 0, 0);
    MaxCellAtLeast(rows, 0, 0);
    var i, j :| 0 <= i < |rows| && 0 <= j < |rows[i]| && rows[i][j] == MaxCell(rows).value;
    var t := n - 1 - j;
    assert n - 1 - t == j;
    assert turned[t][i] == rows[i][j];
    MaxCellAtLeast(turned, t, i);
  }

  /** Turning the rows keeps their maximum. */
  lemma TurnedMax(rows: seq<seq<nat>>, turned: seq<seq<nat>>, n: nat)
    requires |rows| == n && |turned| == n
    requires forall i :: 0 <= i < n ==> |rows[i]| == n && |turned[i]| == n
    requires forall i, j :: 0 <= i < n && 0 <= j < n ==> turned[i][j] == rows[j][n - 1 - i]
    ensures MaxCell(turned) == MaxCell(rows)
  {
    if n >= 1 {
      TurnedMaxAtMost(rows, turned, n);
      TurnedMaxAtLeast(rows, turned, n);
    }
  }

  /** A quarter turn moves the cells but keeps their maximum. */
  lemma MaxCellRotated(m: Matrix)
    requires Square(m)
    ensures MaxCell(Rotated(m).rows) == MaxCell(m.rows)
  {
    TurnedMax(m.rows, Rotated(m).rows, m.length);
  }

  /** The largest cell of a map of the scores is a score, and no score is larger. */
  lemma MaxCellOfScores(forest: Matrix, rows: seq<seq<nat>>)
    requires Square(forest) && |rows| == forest.length
    requires forall i :: 0 <= i < |rows| ==> |rows[i]| == forest.length
    requires forall i, j :: 0 <= i < forest.length && 0 <= j < forest.length ==> rows[i][j] == Score(forest, (i, j))
    ensures var r := MaxCell(rows);
      (r.Some? <==> forest.length >= 1) &&
      (r.Some? ==> exists i, j :: 0 <= i < forest.length && 0 <= j < forest.length && Score(forest, (i, j)) == r.value) &&
      (r.Some? ==> forall i, j :: 0 <= i < forest.length && 0 <= j < forest.length ==> Score(forest, (i, j)) <= r.value)
  {
    var r := MaxCell(rows);
    if forest.length >= 1 {
      assert rows[0] != [];
      var i, j :| 0 <= i < |rows| && 0 <= j < |rows[i]| && rows[i][j] == r.value;
      assert Score(forest, (i, j)) == r.value;
    }
  }

  /** The largest scenic score, when the forest has a tree. */
  function BestScore(forest: Matrix): (r: Option<nat>)
    requires Square(forest)
    ensures r.Some? <==> forest.length >= 1
    ensures r.Some? ==> exists i, j :: 0 <= i < forest.length && 0 <= j < forest.length && Score(forest, (i, j)) == r.value
    ensures r.Some? ==> forall i, j :: 0 <= i < forest.length && 0 <= j < forest.length ==> Score(forest, (i, j)) <= r.value
  {
    var s := ScoreMap(forest);
    MaxCellOfScores(forest, s.rows);
    MaxCell(s.rows)
  }

  /** A forest read from any input has at least one row. */
  lemma ParsedForestNotEmpty(data: string)
    requires TryFrom(data).Ok?
    ensures TryFrom(data).value.length >= 1
  {
    SplitShape(data, '\n');
  }

  /**
   * The whole program with cells and counters of `limit` values: parse the
   * forest, build the score map, and take its largest cell.
   */
  method BestScenicScoreOf(data: string, limit: nat) returns (r: Result<nat>)
    requires TryFrom(data).Ok? ==> TryFrom(data).value.length <= limit && ProductsFit(TryFrom(data).value, limit)
    ensures TryFrom(data).Err? ==> r == Err(TryFrom(data).msg)
    ensures TryFrom(data).Ok? ==> r.Ok? && BestScore(TryFrom(data).value) == Some(r.value)
  {
    var parsed := TryFrom(data);
    if parsed.Err? {
      return Err(parsed.msg);
    }
    var forest := parsed.value;
    var ssm := ScenicScoreMap(forest, limit);
    MaxCellRotated(ssm);
    ParsedForestNotEmpty(data);
    match MaxCell(ssm.rows)
    case None =>
      r := Err("Scenic Score Map was empty");
    case Some(best) =>
      r := Ok(best);
  }

  /** The program of this file: cells and counters are bytes. */
  method BestScenicScore(data: string) returns (r: Result<nat>)
    requires TryFrom(data).Ok? ==> TryFrom(data).value.length <= U8_LIMIT && ProductsFit(TryFrom(data).value, U8_LIMIT)
    ensures TryFrom(data).Err? ==> r == Err(TryFrom(data).msg)
    ensures TryFrom(data).Ok? ==> r.Ok? && BestScore(TryFrom(data).value) == Some(r.value)
  {
    r := BestScenicScoreOf(data, U8_LIMIT);
  }

  // ------------------------------------------------------------------
  // Byte cells are too narrow
  // ------------------------------------------------------------------

  /** A 9 by 9 forest that is flat but for one tall tree in the middle. */
  function Peak(): (m: Matrix)
    ensures Square(m) && m.length == 9
  {
    Matrix(seq(9, i requires 0 <= i < 9 => seq(9, j requires 0 <= j < 9 => if i == 4 && j == 4 then 9 else 0)), 9)
  }

  /** The middle tree sees all four trees in every direction. */
  lemma PeakView(d: nat)
    requires d < 4
    ensures View(Peak(), d, (4, 4)) == 4
  {
    var line := Line(Peak(), d, (4, 4));
    assert |line| == 4 && forall k :: 0 <= k < 4 ==> line[k] == 0;
    ViewingDistancePast(9, line, 4);
  }

  /** The middle tree scores 4^4 = 256, one more than a byte cell holds. */
  lemma ByteCellsOverflow()
    ensures Score(Peak(), (4, 4)) == 256
    ensures !ProductsFit(Peak(), U8_LIMIT)
  {
    PeakView(0);
    PeakView(1);
    PeakView(2);
    PeakView(3);
    assert Partial(Peak(), 3, (4, 4)) == 256;
  }
}
