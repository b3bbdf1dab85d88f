/**
 * 2022 day 8, the matrix: a square grid of tree heights parsed from lines
 * of digits, and its quarter turn.
 */
module TreetopMatrix {
  import opened Common

  /** The rows, and the side length stored beside them. */
  datatype Matrix = Matrix(rows: seq<seq<nat>>, length: nat)

  /** As many rows as the stored length, each as long. */
  predicate Square(m: Matrix)
  {
    |m.rows| == m.length && forall i :: 0 <= i < |m.rows| ==> |m.rows[i]| == m.length
  }

  predicate SquareRows(rows: seq<seq<nat>>)
  {
    forall i :: 0 <= i < |rows| ==> |rows[i]| == |rows|
  }

  function DigitsOf(line: string): (row: seq<nat>)
    requires AllDigits(line)
    ensures |row| == |line| && forall j :: 0 <= j < |line| ==> row[j] == DigitValue(line[j]) < 10
  {
    seq(|line|, j requires 0 <= j < |line| => DigitValue(line[j]))
  }

  /**
   * One row per line of the input, one decimal digit per cell; any other
   * character, or a row whose length differs from the number of rows, is
   * an error.
   */
  function TryFrom(s: string): (r: Result<Matrix>)
    ensures var lines := Split(s, '\n');
      r.Ok? <==> (forall i :: 0 <= i < |lines| ==> AllDigits(lines[i])) && forall i :: 0 <= i < |lines| ==> |lines[i]| == |lines|
    ensures var lines := Split(s, '\n');
      r.Ok? ==> (Square(r.value) && r.value.length == |lines| &&
        forall i, j :: 0 <= i < |lines| && 0 <= j < |lines| ==> r.value.rows[i][j] == DigitValue(lines[i][j]))
    ensures var lines := Split(s, '\n');
      (exists i :: 0 <= i < |lines| && !AllDigits(lines[i])) ==> r == Err("Non-digit in input!")
  {
    var lines := Split(s, '\n');
    if exists i :: 0 <= i < |lines| && !AllDigits(lines[i]) then Err("Non-digit in input!")
    else
      var rows := seq(|lines|, i requires 0 <= i < |lines| => DigitsOf(lines[i]));
      assert forall i :: 0 <= i < |lines| ==> |rows[i]| == |lines[i]|;
      if SquareRows(rows) then Ok(Matrix(rows, |rows|))
      else Err("Matrix is not square: " + DebugNatRows(rows))
  }

  /** The digit character of a height below 10. */
  function DigitChar(d: nat): (c: char)
    requires d < 10
    ensures IsDigit(c) && DigitValue(c) == d
  {
    ('0' as int + d) as char
  }

  /** The grid written back as lines of digits, without a final newline. */
  function Render(m: Matrix): string
    requires |m.rows| >= 1
    requires forall i, j :: 0 <= i < |m.rows| && 0 <= j < |m.rows[i]| ==> m.rows[i][j] < 10
  {
    Join(RenderedRows(m.rows), "\n")
  }

  function RenderedRows(rows: seq<seq<nat>>): (lines: seq<string>)
    requires forall i, j :: 0 <= i < |rows| && 0 <= j < |rows[i]| ==> rows[i][j] < 10
    ensures |lines| == |rows|
    ensures forall i :: 0 <= i < |rows| ==> |lines[i]| == |rows[i]| && AllDigits(lines[i]) && '\n' !in lines[i]
    ensures forall i, j :: 0 <= i < |rows| && 0 <= j < |rows[i]| ==> IsDigit(lines[i][j]) && DigitValue(lines[i][j]) == rows[i][j]
  {
    seq(|rows|, i requires 0 <= i < |rows| => seq(|rows[i]|, j requires 0 <= j < |rows[i]| => DigitChar(rows[i][j])))
  }

  /** A non-empty square grid of digits survives being written out and read back. */
  lemma RenderTryFrom(m: Matrix)
    requires Square(m) && m.length >= 1
    requires forall i, j :: 0 <= i < m.length && 0 <= j < m.length ==> m.rows[i][j] < 10
    ensures TryFrom(Render(m)) == Ok(m)
  {
    var lines := RenderedRows(m.rows);
    SplitJoin(lines, '\n');
    var r := TryFrom(Render(m));
    assert r.Ok?;
    forall i | 0 <= i < m.length
      ensures r.value.rows[i] == m.rows[i]
    {
      assert forall j :: 0 <= j < m.length ==> r.value.rows[i][j] == m.rows[i][j];
    }
    assert r.value.rows == m.rows;
  }

  /** An empty input, or one that ends in a newline, is never square. */
  lemma TrailingNewlineNotSquare(s: string)
    requires s == [] || s[|s| - 1] == '\n'
    ensures TryFrom(s).Err?
  {
    if s == [] {
      assert Split(s, '\n') == [""];
      assert |Split(s, '\n')[0]| != |Split(s, '\n')|;
    } else {
      assert s == s[..|s| - 1] + ['\n'];
      SplitEndsEmpty(s[..|s| - 1], '\n');
      var lines := Split(s, '\n');
      assert |lines[|lines| - 1]| != |lines|;
    }
  }

  /** The same squareness check on rows given directly. */
  function DebugTryNew(rows: seq<seq<nat>>): (r: Result<Matrix>)
    ensures r.Ok? <==> SquareRows(rows)
    ensures r.Ok? ==> Square(r.value) && r.value.rows == rows
  {
    if SquareRows(rows) then Ok(Matrix(rows, |rows|)) else Err("vec2d is not square: " + DebugNatRows(rows))
  }

  /**
   * Where a quarter turn sends cell (x, y) of a grid whose last index is
   * `last`: the rotation by a right angle, shifted back into the grid. A
   * negative first coordinate saturates to 0 on the cast to an index.
   */
  function QuarterTurn(p: (nat, nat), last: nat): (q: (nat, nat))
    ensures p.1 <= last ==> q.0 + p.1 == last && q.1 == p.0
  {
    (if p.1 <= last then last - p.1 else 0, p.0)
  }

  /** Four quarter turns bring every cell of the grid back. */
  lemma QuarterTurnFourTimes(p: (nat, nat), last: nat)
    requires p.0 <= last && p.1 <= last
    ensures QuarterTurn(QuarterTurn(QuarterTurn(QuarterTurn(p, last), last), last), last) == p
    ensures QuarterTurn(p, last).0 <= last && QuarterTurn(p, last).1 <= last
  {
  }

  lemma QuarterTurnSamples()
    ensures QuarterTurn((4, 3), 4) == (1, 4)
    ensures QuarterTurn((0, 0), 4) == (4, 0)
    ensures QuarterTurn((4, 0), 4) == (4, 4)
    ensures QuarterTurn((4, 4), 4) == (0, 4)
    ensures QuarterTurn((0, 4), 4) == (0, 0)
  {
  }

  /** The grid turned a quarter: row `i` of the result is column `last - i`, read downwards. */
  function Rotated(m: Matrix): (r: Matrix)
    requires Square(m)
    ensures Square(r) && r.length == m.length
    ensures forall i, j :: 0 <= i < m.length && 0 <= j < m.length ==> r.rows[i][j] == m.rows[j][m.length - 1 - i]
  {
    var n := m.length;
    Matrix(seq(n, i requires 0 <= i < n => seq(n, j requires 0 <= j < n => m.rows[j][n - 1 - i])), n)
  }

  /** Four quarter turns are the identity. */
  lemma RotatedFourTimes(m: Matrix)
    requires Square(m)
    ensures Rotated(Rotated(Rotated(Rotated(m)))) == m
  {
    var r := Rotated(Rotated(Rotated(Rotated(m))));
    assert forall i, j :: 0 <= i < m.length && 0 <= j < m.length ==> r.rows[i][j] == m.rows[i][j];
    assert forall i :: 0 <= i < m.length ==> r.rows[i] == m.rows[i];
  }

  /**
   * The inner loop of the rotation: every cell of column `x` of the
   * original is stored at its quarter turn, in row `last - y` of column `x`
   * of the copy.
   */
  method TurnColumn(m: Matrix, cells: seq<seq<nat>>, x: nat) returns (out: seq<seq<nat>>)
    requires Square(m) && x < m.length
    requires |cells| == m.length && forall i :: 0 <= i < m.length ==> |cells[i]| == m.length
    ensures |out| == m.length && forall i :: 0 <= i < m.length ==> |out[i]| == m.length
    ensures forall i :: 0 <= i < m.length ==> out[i][x] == m.rows[x][m.length - 1 - i]
    ensures forall i, j :: 0 <= i < m.length && 0 <= j < m.length && j != x ==> out[i][j] == cells[i][j]
  {
    var n := m.length;
    out := cells;
    for y := 0 to n
      invariant |out| == n && forall i :: 0 <= i < n ==> |out[i]| == n
      invariant forall i, j :: 0 <= i < n && 0 <= j < n && j != x ==> out[i][j] == cells[i][j]
      invariant forall i :: n - y <= i < n ==> out[i][x] == m.rows[x][n - 1 - i]
    {
      var target := QuarterTurn((x, y), n - 1);
      out := out[target.0 := out[target.0][target.1 := m.rows[x][y]]];
    }
  }

  /**
   * The rotation as the nested loops write it: a copy of the grid in which
   * every cell (x, y) of the original is stored at its quarter turn.
   */
  method Rotate(m: Matrix) returns (r: Matrix)
    requires Square(m)
    ensures r == Rotated(m)
  {
    var n := m.length;
    var cells: seq<seq<nat>> := m.rows;
    for x := 0 to n
      invariant |cells| == n && forall i :: 0 <= i < n ==> |cells[i]| == n
      invariant forall i, j :: 0 <= i < n && 0 <= j < x ==> cells[i][j] == m.rows[j][n - 1 - i]
    {
      cells := TurnColumn(m, cells, x);
    }
    r := Matrix(cells, n);
    assert forall i :: 0 <= i < n ==> r.rows[i] == Rotated(m).rows[i];
  }
}
