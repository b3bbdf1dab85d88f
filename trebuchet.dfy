/**
 * 2023 day 1: the calibration value of a line is the two-digit number made
 * of its first and its last digit; the answer is the sum over all lines.
 */
module Trebuchet {
  import opened Common
  import opened GoCommon

  /** The zero rune a Go variable of type `rune` starts as. */
  const NUL: char := 0 as char

  /** The message of the fatal error for a line without digits. */
  const NO_DIGIT_ERROR: string := "strconv.Atoi: parsing " + "\"\\x00\\x00\"" + ": invalid syntax"

  /** The digits of a line, in line order. */
  function Digits(line: string): (d: string)
    ensures AllDigits(d) && |d| <= |line|
  {
    if line == [] then []
    else
      var last := line[|line| - 1];
      Digits(line[..|line| - 1]) + (if IsDigit(last) then [last] else [])
  }

  /** A line has no digits exactly when none of its characters is one. */
  lemma {:induction false} DigitsEmpty(line: string)
    ensures Digits(line) == [] <==> forall i :: 0 <= i < |line| ==> !IsDigit(line[i])
    decreases |line|
  {
    if line != [] {
      var init := line[..|line| - 1];
      DigitsEmpty(init);
      assert forall i :: 0 <= i < |init| ==> init[i] == line[i];
    }
  }

  /** The first digit of the line is the first element of `Digits`. */
  lemma {:induction false} DigitsFirst(line: string, i: nat)
    requires i < |line| && IsDigit(line[i])
    requires forall k :: 0 <= k < i ==> !IsDigit(line[k])
    ensures Digits(line) != [] && Digits(line)[0] == line[i]
    decreases |line|
  {
    var init := line[..|line| - 1];
    assert forall k :: 0 <= k < |init| ==> init[k] == line[k];
    if i < |line| - 1 {
      DigitsFirst(init, i);
    } else {
      DigitsEmpty(init);
    }
  }

  /** The last digit of the line is the last element of `Digits`. */
  lemma DigitsLast(line: string, i: nat)
    requires i < |line| && IsDigit(line[i])
    requires forall k :: i < k < |line| ==> !IsDigit(line[k])
    ensures Digits(line) != [] && Digits(line)[|Digits(line)| - 1] == line[i]
  {
    var front := line[..i + 1];
    var back := line[i + 1..];
    assert front[..i] + [line[i]] == front;
    DigitsAppendNone(front, back);
    assert front + back == line;
  }

  /** Characters that are not digits add nothing. */
  lemma {:induction false} DigitsAppendNone(p: string, q: string)
    requires forall k :: 0 <= k < |q| ==> !IsDigit(q[k])
    ensures Digits(p + q) == Digits(p)
    decreases |q|
  {
    if q != [] {
      var init := q[..|q| - 1];
      assert (p + q)[..|p + q| - 1] == p + init;
      assert (p + q)[|p + q| - 1] == q[|q| - 1];
      assert Digits(p + q) == Digits(p + init);
      DigitsAppendNone(p, init);
    } else {
      assert p + q == p;
    }
  }

  /**
   * `firstAndLastDigit`: the first and the last digit of a line in line
   * order, equal when the line holds one digit, both the zero rune when it
   * holds none.
   */
  method FirstAndLastDigit(line: string) returns (a: char, b: char)
    ensures Digits(line) == [] ==> a == NUL && b == NUL
    ensures Digits(line) != [] ==> a == Digits(line)[0] && b == Digits(line)[|Digits(line)| - 1]
  {
    a, b := NUL, NUL;
    var firstSet := false;
    var i := 0;
    while i < |line|
      invariant 0 <= i <= |line|
      invariant firstSet <==> Digits(line[..i]) != []
      invariant !firstSet ==> a == NUL && b == NUL
      invariant firstSet ==> a == Digits(line[..i])[0] && b == Digits(line[..i])[|Digits(line[..i])| - 1]
    {
      var c := line[i];
      assert line[..i + 1][..i] == line[..i];
      if IsDigit(c) {
        if !firstSet {
          a, b := c, c;
          firstSet := true;
        } else {
          b := c;
        }
      }
      i := i + 1;
    }
    assert line[..i] == line;
  }

  /** Go's `uint(i)`: the 64-bit pattern of `i` read as unsigned. */
  function Uint(i: int): nat
  {
    i % USIZE_LIMIT
  }

  /** `uint(strconv.Atoi(string(a) + string(b)))`, a failed conversion being fatal. */
  function ParseRunes(a: char, b: char): Result<nat>
  {
    var text := [a] + [b];
    match Atoi(text)
    case Some(v) => Ok(Uint(v))
    case None => Err(AtoiError(text))
  }

  lemma TwoDigits(a: char, b: char)
    requires IsDigit(a) && IsDigit(b)
    ensures ParseRunes(a, b) == Ok(10 * DigitValue(a) + DigitValue(b))
  {
    var text := [a] + [b];
    assert text[..1] == [a];
    assert [a][..0] == [];
    assert DigitsValue([a]) == DigitValue(a);
    assert DigitsValue(text) == 10 * DigitValue(a) + DigitValue(b);
  }

  /** Go quotes the zero rune as `\x00`. */
  lemma QuoteZeroRunes()
    ensures Quote([NUL, NUL]) == "\"\\x00\\x00\""
  {
    var text := [NUL, NUL];
    assert QuoteChar(NUL) == "\\x00";
    assert text[1..] == [NUL];
    assert QuoteBody([NUL]) == "\\x00";
  }

  /** Two zero runes are no number. */
  lemma ZeroRunes()
    ensures ParseRunes(NUL, NUL) == Err(AtoiError([NUL] + [NUL]))
    ensures AtoiError([NUL] + [NUL]) == "strconv.Atoi: parsing " + Quote([NUL, NUL]) + ": invalid syntax"
  {
    var text := [NUL] + [NUL];
    assert !IsDigit(NUL);
    assert Atoi(text) == None;
  }

  /**
   * The calibration value of a line: ten times its first digit plus its
   * last, or, for a line without digits, the error of converting two zero
   * runes.
   */
  function CalibrationValue(line: string): (r: Result<nat>)
    ensures r.Ok? <==> Digits(line) != []
    ensures r.Ok? ==> r.value < 100
  {
    var d := Digits(line);
    if d == [] then Err(NO_DIGIT_ERROR)
    else Ok(10 * DigitValue(d[0]) + DigitValue(d[|d| - 1]))
  }

  /** What `main` computes from the runes `firstAndLastDigit` returns is the line's calibration value. */
  lemma CalibrationOfEnds(line: string, a: char, b: char)
    requires Digits(line) == [] ==> a == NUL && b == NUL
    requires Digits(line) != [] ==> a == Digits(line)[0] && b == Digits(line)[|Digits(line)| - 1]
    ensures ParseRunes(a, b) == CalibrationValue(line)
  {
    if Digits(line) == [] {
      ZeroRunes();
      QuoteZeroRunes();
    } else {
      TwoDigits(a, b);
    }
  }

  /** The body of `main`'s loop: the two runes of a line converted to a number, or the fatal error. */
  method LineValue(line: string) returns (r: Result<nat>)
    ensures r == CalibrationValue(line)
  {
    var a, b := FirstAndLastDigit(line);
    CalibrationOfEnds(line, a, b);
    var text := [a] + [b];
    match Atoi(text)
    case None =>
      return Err(AtoiError(text));
    case Some(i) =>
      return Ok(Uint(i));
  }

  /** A line with a single digit is worth eleven times that digit. */
  lemma SingleDigit(p: string, c: char, q: string)
    requires IsDigit(c)
    requires forall k :: 0 <= k < |p| ==> !IsDigit(p[k])
    requires forall k :: 0 <= k < |q| ==> !IsDigit(q[k])
    ensures CalibrationValue(p + [c] + q) == Ok(11 * DigitValue(c))
  {
    var line := p + [c] + q;
    assert forall k :: 0 <= k < |p| ==> line[k] == p[k];
    assert forall k :: |p| < k < |line| ==> line[k] == q[k - |p| - 1];
    DigitsFirst(line, |p|);
    DigitsLast(line, |p|);
  }

  /** Adding one line's value to a running total; an error so far, or this line's, aborts. */
  function AddLine(total: Result<nat>, value: Result<nat>): Result<nat>
  {
    match total
    case Err(e) => Err(e)
    case Ok(n) =>
      match value
      case Err(e) => Err(e)
      case Ok(v) => Ok(n + v)
  }

  /** The values of all lines added up, in order; the first line without a digit aborts. */
  function CalibrationTotal(lines: seq<string>): Result<nat>
  {
    if lines == [] then Ok(0)
    else AddLine(CalibrationTotal(lines[..|lines| - 1]), CalibrationValue(lines[|lines| - 1]))
  }

  /** An error among the first lines is the error of the whole input. */
  lemma {:induction false} TotalKeepsError(lines: seq<string>, k: nat)
    requires k <= |lines| && CalibrationTotal(lines[..k]).Err?
    ensures CalibrationTotal(lines) == CalibrationTotal(lines[..k])
    decreases |lines| - k
  {
    if k < |lines| {
      TakeSnoc(lines, k);
      assert lines[..k + 1][..k] == lines[..k];
      TotalKeepsError(lines, k + 1);
    } else {
      assert lines[..k] == lines;
    }
  }

  /** One line more adds its value to the total of the lines before it. */
  lemma TotalStep(lines: seq<string>, k: nat, n: nat, v: nat)
    requires k < |lines| && CalibrationTotal(lines[..k]) == Ok(n) && CalibrationValue(lines[k]) == Ok(v)
    ensures CalibrationTotal(lines[..k + 1]) == Ok(n + v)
  {
    assert lines[..k + 1][..k] == lines[..k];
    assert lines[..k + 1][k] == lines[k];
  }

  /** A line without a digit ends the total with its error. */
  lemma TotalStops(lines: seq<string>, k: nat, n: nat, e: string)
    requires k < |lines| && CalibrationTotal(lines[..k]) == Ok(n) && CalibrationValue(lines[k]) == Err(e)
    ensures CalibrationTotal(lines) == Err(e)
  {
    assert lines[..k + 1][..k] == lines[..k];
    assert lines[..k + 1][k] == lines[k];
    var front := lines[..k + 1];
    assert CalibrationTotal(front) == AddLine(CalibrationTotal(front[..|front| - 1]), CalibrationValue(front[|front| - 1]));
    assert CalibrationTotal(front) == Err(e);
    TotalKeepsError(lines, k + 1);
  }

  /** `main`'s loop: every line read until end of input adds its calibration value. */
  method SumCalibrations(input: string) returns (r: Result<nat>)
    ensures r == CalibrationTotal(TerminatedLines(input))
  {
    var lines := TerminatedLines(input);
    var n: nat := 0;
    var k := 0;
    while k < |lines|
      invariant 0 <= k <= |lines|
      invariant CalibrationTotal(lines[..k]) == Ok(n)
    {
      var value := LineValue(lines[k]);
      match value
      case Err(e) =>
        TotalStops(lines, k, n, e);
        return Err(e);
      case Ok(u) =>
        TotalStep(lines, k, n, u);
        n := n + u;
      k := k + 1;
    }
    assert lines[..k] == lines;
    return Ok(n);
  }

  /** The total succeeds exactly when every line holds a digit, and is below 100 per line. */
  lemma {:induction false} TotalBounds(lines: seq<string>)
    ensures CalibrationTotal(lines).Ok? <==> forall k :: 0 <= k < |lines| ==> Digits(lines[k]) != []
    ensures CalibrationTotal(lines).Ok? ==> CalibrationTotal(lines).value <= 99 * |lines|
    decreases |lines|
  {
    if lines != [] {
      var init := lines[..|lines| - 1];
      TotalBounds(init);
      assert forall k :: 0 <= k < |init| ==> init[k] == lines[k];
    }
  }

  /** A line whose first digit is `c` and whose last digit is `d` is worth `10c + d`. */
  lemma TwoDigitLine(p: string, c: char, m: string, d: char, q: string)
    requires IsDigit(c) && IsDigit(d)
    requires forall k :: 0 <= k < |p| ==> !IsDigit(p[k])
    requires forall k :: 0 <= k < |q| ==> !IsDigit(q[k])
    ensures CalibrationValue(p + [c] + m + [d] + q) == Ok(10 * DigitValue(c) + DigitValue(d))
  {
    var line := p + [c] + m + [d] + q;
    var i, j := |p|, |p| + 1 + |m|;
    assert forall k :: 0 <= k < i ==> line[k] == p[k];
    assert forall k :: j < k < |line| ==> line[k] == q[k - j - 1];
    DigitsFirst(line, i);
    DigitsLast(line, j);
  }

  /** The example lines `1abc2`, `pqr3stu8vwx`, `a1b2c3d4e5f` and `treb7uchet`, and a line without digits. */
  lemma Examples()
    ensures CalibrationValue("1abc2") == Ok(12)
    ensures CalibrationValue("pqr3stu8vwx") == Ok(38)
    ensures CalibrationValue("a1b2c3d4e5f") == Ok(15)
    ensures CalibrationValue("treb7uchet") == Ok(77)
    ensures CalibrationValue("abc").Err?
  {
    TwoDigitLine("", '1', "abc", '2', "");
    assert "" + ['1'] + "abc" + ['2'] + "" == "1abc2";
    TwoDigitLine("pqr", '3', "stu", '8', "vwx");
    assert "pqr" + ['3'] + "stu" + ['8'] + "vwx" == "pqr3stu8vwx";
    TwoDigitLine("a", '1', "b2c3d4e", '5', "f");
    assert "a" + ['1'] + "b2c3d4e" + ['5'] + "f" == "a1b2c3d4e5f";
    SingleDigit("treb", '7', "uchet");
    assert "treb" + ['7'] + "uchet" == "treb7uchet";
    DigitsEmpty("abc");
  }
}
