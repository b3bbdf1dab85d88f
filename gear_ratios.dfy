/**
 * 2023 day 3: an engine schematic is a grid of lines holding numbers, dots
 * and symbols; a number is a part number when a symbol touches it, also
 * diagonally, and the answer adds up the part numbers. The program works
 * line by line, looking at the line above and the line below the current
 * one.
 */
module GearRatios {
  import opened Common
  import opened GoCommon

  /** The characters counted as symbols. */
  const SYMBOLS: string := "#$%&*+-/=@"

  predicate IsSymbol(c: char)
  {
    c in SYMBOLS
  }

  /** `strings.ContainsAny(s, SYMBOLS)`. */
  predicate HasSymbol(s: string)
  {
    s != [] && (IsSymbol(s[0]) || HasSymbol(s[1..]))
  }

  /** `HasSymbol` holds exactly when some character of the text is a symbol. */
  lemma {:induction false} HasSymbolMeaning(s: string)
    ensures HasSymbol(s) <==> exists i :: 0 <= i < |s| && IsSymbol(s[i])
  {
    if s != [] {
      HasSymbolMeaning(s[1..]);
      if i :| 0 <= i < |s| && IsSymbol(s[i]) {
        if i > 0 {
          assert s[1..][i - 1] == s[i];
        }
      }
      if j :| 0 <= j < |s[1..]| && IsSymbol(s[1..][j]) {
        assert s[j + 1] == s[1..][j];
      }
    }
  }

  // ------------------------------------------------------------------
  // scanForNum
  // ------------------------------------------------------------------

  /** The first digit at or after `i`, or `|s|` when there is none. */
  function NextDigit(s: string, i: nat): (p: nat)
    requires i <= |s|
    ensures i <= p <= |s|
    ensures p < |s| ==> IsDigit(s[p])
    ensures forall j :: i <= j < p ==> !IsDigit(s[j])
    decreases |s| - i
  {
    if i == |s| || IsDigit(s[i]) then i else NextDigit(s, i + 1)
  }

  /** One past the last digit of the run of digits starting at `i`. */
  function RunEnd(s: string, i: nat): (q: nat)
    requires i <= |s|
    ensures i <= q <= |s|
    ensures forall j :: i <= j < q ==> IsDigit(s[j])
    ensures q == |s| || !IsDigit(s[q])
    decreases |s| - i
  {
    if i == |s| || !IsDigit(s[i]) then i else RunEnd(s, i + 1)
  }

  /**
   * What `scanForNum(s, from)` returns: the start and the end (one past the
   * last digit) of the first run of digits at or after `from`. Without any
   * digit the start is -1 and the end is where the scan stopped: the end of
   * the text, or -1 when there was nothing to scan.
   */
  function Scan(s: string, from: nat): (r: (int, int))
    requires from <= |s|
    ensures r.0 == -1 <==> forall j :: from <= j < |s| ==> !IsDigit(s[j])
    ensures r.0 == -1 ==> r.1 == (if from == |s| then -1 else |s|)
    ensures r.0 != -1 ==> from <= r.0 < r.1 <= |s|
    ensures r.0 != -1 ==> forall j :: from <= j < r.0 ==> !IsDigit(s[j])
    ensures r.0 != -1 ==> forall j :: r.0 <= j < r.1 ==> IsDigit(s[j])
    ensures r.0 != -1 ==> r.1 == |s| || !IsDigit(s[r.1])
  {
    var p := NextDigit(s, from);
    var none: (int, int) := (-1, if from == |s| then -1 else |s|);
    if p == |s| then none else (p, RunEnd(s, p))
  }

  lemma {:induction false} NextDigitIs(s: string, i: nat, p: nat)
    requires i <= p <= |s| && (p < |s| ==> IsDigit(s[p]))
    requires forall j :: i <= j < p ==> !IsDigit(s[j])
    ensures NextDigit(s, i) == p
    decreases p - i
  {
    if i < p {
      NextDigitIs(s, i + 1, p);
    }
  }

  lemma {:induction false} RunEndIs(s: string, i: nat, q: nat)
    requires i <= q <= |s| && (q == |s| || !IsDigit(s[q]))
    requires forall j :: i <= j < q ==> IsDigit(s[j])
    ensures RunEnd(s, i) == q
    decreases q - i
  {
    if i < q {
      RunEndIs(s, i + 1, q);
    }
  }

  /**
   * `scanForNum`: walks the text from `from`, remembering the first digit
   * and stopping at the first character after it that is not a digit.
   */
  method ScanForNum(str: string, from: nat) returns (start: int, end: int)
    requires from <= |str|
    ensures (start, end) == Scan(str, from)
  {
    start := -1;
    end := -1;
    var i := 0;
    while from + i < |str|
      invariant from + i <= |str|
      invariant start == -1 ==> forall j :: from <= j < from + i ==> !IsDigit(str[j])
      invariant start == -1 ==> end == (if i == 0 then -1 else from + i)
      invariant start != -1 ==> from <= start < from + i && end == from + i
      invariant start != -1 ==> forall j :: from <= j < start ==> !IsDigit(str[j])
      invariant start != -1 ==> IsDigit(str[start]) && forall j :: start <= j < from + i ==> IsDigit(str[j])
    {
      var startFound := start != -1;
      var isDigit := IsDigit(str[from + i]);
      if !startFound && isDigit {
        start := from + i;
      } else if startFound && !isDigit {
        break;
      }
      end := from + i + 1;
      i := i + 1;
    }
    if start == -1 {
      NextDigitIs(str, from, |str|);
    } else {
      NextDigitIs(str, from, start);
      RunEndIs(str, start, end);
    }
  }

  /** The six scans of the test file. */
  lemma ScanExamples()
    ensures Scan("....123..", 0) == (4, 7)
    ensures Scan("", 0) == (-1, -1)
    ensures Scan(".....45", 0) == (5, 7)
    ensures Scan("....1....", 0) == (4, 5)
    ensures Scan(".....45.", 0) == (5, 7)
    ensures Scan("...661...485..", 6) == (9, 12)
  {
    NextDigitIs("....123..", 0, 4);
    RunEndIs("....123..", 4, 7);
    NextDigitIs(".....45", 0, 5);
    RunEndIs(".....45", 5, 7);
    NextDigitIs("....1....", 0, 4);
    RunEndIs("....1....", 4, 5);
    NextDigitIs(".....45.", 0, 5);
    RunEndIs(".....45.", 5, 7);
    NextDigitIs("...661...485..", 6, 9);
    RunEndIs("...661...485..", 9, 12);
  }

  // ------------------------------------------------------------------
  // clampedStrSlice
  // ------------------------------------------------------------------

  function Max0(n: int): nat
  {
    if n < 0 then 0 else n
  }

  /**
   * `str[start:end]` with the bounds pulled into the text: exactly the
   * characters at the columns of `start..end` that exist.
   */
  function Window(str: string, start: int, end: int): (w: string)
    requires end >= 0
    ensures |w| <= |str|
    ensures start >= end || start >= |str| ==> w == []
  {
    var hi := if end > |str| then |str| else end;
    var lo := Max0(start);
    var lo := if lo > hi then hi else lo;
    str[lo..hi]
  }

  /** `clampedStrSlice`: the bounds are clamped in place, then the text is sliced. */
  method ClampedStrSlice(str: string, start: int, end: int) returns (w: string)
    requires end >= 0
    ensures w == Window(str, start, end)
  {
    var lo := start;
    var hi := end;
    if lo < 0 {
      lo := 0;
    }
    var length := |str|;
    if hi > length {
      hi := length;
    }
    if lo > hi {
      lo := hi;
    }
    w := str[lo..hi];
  }

  /** A symbol at column `j` of a line. */
  predicate SymbolAt(line: string, j: int)
  {
    0 <= j < |line| && IsSymbol(line[j])
  }

  /** The characters of a window, column by column, and how many there are. */
  lemma WindowAt(str: string, start: int, end: int)
    requires end >= 0
    ensures var w := Window(str, start, end);
      forall k :: 0 <= k < |w| ==> Max0(start) + k < |str| && w[k] == str[Max0(start) + k]
    ensures start < end && start < |str| ==>
      |Window(str, start, end)| == (if end > |str| then |str| else end) - Max0(start)
  {
  }

  /** A window holds a symbol exactly when one of its columns does. */
  lemma WindowSymbol(str: string, start: int, end: int)
    requires end >= 0
    ensures HasSymbol(Window(str, start, end)) <==> exists j :: start <= j < end && SymbolAt(str, j)
  {
    var w := Window(str, start, end);
    WindowAt(str, start, end);
    HasSymbolMeaning(w);
    if HasSymbol(w) {
      var i :| 0 <= i < |w| && IsSymbol(w[i]);
      assert SymbolAt(str, Max0(start) + i);
    }
    if j :| start <= j < end && SymbolAt(str, j) {
      assert w[j - Max0(start)] == str[j];
    }
  }

  // ------------------------------------------------------------------
  // One number of a line
  // ------------------------------------------------------------------

  /**
   * The four places the program looks for a symbol around the number at
   * `start..end` of the current line, in its order: the window of the line
   * above, the character before, the character after, the window of the
   * line below.
   */
  predicate Adjacent(prev: string, cur: string, next: string, start: int, end: int)
    requires 0 <= start < end <= |cur|
  {
    (prev != "" && HasSymbol(Window(prev, start - 1, end + 1)))
    || (start - 1 >= 0 && HasSymbol(cur[start - 1..start]))
    || (end < |cur| && HasSymbol(cur[end..end + 1]))
    || (next != "" && HasSymbol(Window(next, start - 1, end + 1)))
  }

  /** A symbol in one of the cells around the number, diagonals included. */
  predicate Touches(prev: string, cur: string, next: string, start: int, end: int)
  {
    (exists j :: start - 1 <= j <= end && SymbolAt(prev, j))
    || SymbolAt(cur, start - 1) || SymbolAt(cur, end)
    || (exists j :: start - 1 <= j <= end && SymbolAt(next, j))
  }

  /** The four checks together find a symbol exactly when one touches the number. */
  lemma AdjacentMeaning(prev: string, cur: string, next: string, start: int, end: int)
    requires 0 <= start < end <= |cur|
    ensures Adjacent(prev, cur, next, start, end) <==> Touches(prev, cur, next, start, end)
  {
    WindowSymbol(prev, start - 1, end + 1);
    WindowSymbol(next, start - 1, end + 1);
    if start - 1 >= 0 {
      assert HasSymbol(cur[start - 1..start]) <==> SymbolAt(cur, start - 1) by {
        assert cur[start - 1..start][0] == cur[start - 1];
        assert cur[start - 1..start][1..] == [];
      }
    }
    if end < |cur| {
      assert HasSymbol(cur[end..end + 1]) <==> SymbolAt(cur, end) by {
        assert cur[end..end + 1][0] == cur[end];
        assert cur[end..end + 1][1..] == [];
      }
    }
  }

  const PARSE_ERROR_PREFIX: string := "Couldn't parse num: "

  /**
   * A run of digits read with `strconv.Atoi`: its value, or the fatal error
   * `Couldn't parse num: <err>`.
   */
  function NumberValue(run: string): Result<int>
  {
    match Atoi(run)
    case None => Err(PARSE_ERROR_PREFIX + AtoiError(run))
    case Some(v) => Ok(v)
  }

  /**
   * A run of digits fails to parse exactly when its value needs more than
   * 64 bits; otherwise it is read as that value.
   */
  lemma NumberValueMeaning(run: string)
    requires run != [] && AllDigits(run)
    ensures NumberValue(run).Ok? <==> DigitsValue(run) <= I64_MAX
    ensures NumberValue(run).Ok? ==> NumberValue(run).value == DigitsValue(run)
  {
    assert !(run[0] == '+' || run[0] == '-');
  }

  /** Any number that fits in 64 bits is read back from its decimal text. */
  lemma NumberValueDecimal(n: nat)
    requires n <= I64_MAX
    ensures NumberValue(Decimal(n)) == Ok(n)
  {
    DecimalValue(n);
    NumberValueMeaning(Decimal(n));
  }

  /** The `strconv.Atoi` call on a run of digits and its error message. */
  method ParseNum(run: string) returns (r: Result<int>)
    ensures r == NumberValue(run)
  {
    var num := Atoi(run);
    if num.None? {
      return Err(PARSE_ERROR_PREFIX + AtoiError(run));
    }
    return Ok(num.value);
  }

  // ------------------------------------------------------------------
  // The numbers of one line
  // ------------------------------------------------------------------

  /** `n` added to a running result; an error stays. */
  function Shift(r: Result<int>, n: int): Result<int>
  {
    match r
    case Err(e) => Err(e)
    case Ok(m) => Ok(n + m)
  }

  /**
   * The part numbers of the current line from column `i` on, added up: every
   * run of digits is read in turn, and counts when a symbol is adjacent;
   * the first that does not fit in 64 bits is an error.
   */
  function PartSumFrom(prev: string, cur: string, next: string, i: nat): Result<int>
    requires i <= |cur|
    decreases |cur| - i, 1
  {
    var (start, end) := Scan(cur, i);
    if start == -1 then Ok(0) else PartSumAt(prev, cur, next, start, end)
  }

  /** The number at `start..end`, a whole run of digits, and the rest of the line after it. */
  function PartSumAt(prev: string, cur: string, next: string, start: int, end: int): Result<int>
    requires 0 <= start < end <= |cur| && AllDigits(cur[start..end])
    decreases |cur| - start, 0
  {
    match NumberValue(cur[start..end])
    case Err(e) => Err(e)
    case Ok(v) => Shift(PartSumFrom(prev, cur, next, end), if Adjacent(prev, cur, next, start, end) then v else 0)
  }


  /** Without a digit from column `i` on, nothing is left to add. */
  lemma NoPartsLeft(prev: string, cur: string, next: string, i: nat)
    requires i <= |cur| && Scan(cur, i).0 == -1
    ensures PartSumFrom(prev, cur, next, i) == Ok(0)
  {
  }

  /** Nothing is left to find once a scan has stopped at the last column or beyond. */
  lemma NoPartsAtEnd(prev: string, cur: string, next: string, i: nat)
    requires i <= |cur| && i >= |cur| - 1
    requires i == |cur| || !IsDigit(cur[i])
    ensures PartSumFrom(prev, cur, next, i) == Ok(0)
  {
    assert Scan(cur, i).0 == -1;
  }

  /**
   * One step of the line sum: after a number that fits, the rest of the line
   * is summed and the number added when it is adjacent to a symbol.
   */
  lemma PartSumStep(prev: string, cur: string, next: string, i: nat, start: int, end: int, v: int)
    requires i <= |cur| && (start, end) == Scan(cur, i) && start != -1
    requires NumberValue(cur[start..end]) == Ok(v)
    ensures PartSumFrom(prev, cur, next, i) ==
      Shift(PartSumFrom(prev, cur, next, end), if Adjacent(prev, cur, next, start, end) then v else 0)
  {
  }

  /** A number that does not fit ends the line sum with its error. */
  lemma PartSumStops(prev: string, cur: string, next: string, i: nat, start: int, end: int)
    requires i <= |cur| && (start, end) == Scan(cur, i) && start != -1
    requires NumberValue(cur[start..end]).Err?
    ensures PartSumFrom(prev, cur, next, i) == NumberValue(cur[start..end])
  {
  }

  /**
   * The four checks of the loop body, in the program's order, the first
   * that finds a symbol deciding.
   */
  method IsPartNumber(prev: string, cur: string, next: string, start: int, end: int) returns (part: bool)
    requires 0 <= start < end <= |cur|
    ensures part == Adjacent(prev, cur, next, start, end)
  {
    if prev != "" {
      var prevWindow := ClampedStrSlice(prev, start - 1, end + 1);
      if HasSymbol(prevWindow) {
        return true;
      }
    }
    if start - 1 >= 0 {
      var leading := cur[start - 1..start];
      if HasSymbol(leading) {
        return true;
      }
    }
    if end < |cur| {
      var trailing := cur[end..end + 1];
      if HasSymbol(trailing) {
        return true;
      }
    }
    if next != "" {
      var nextWindow := ClampedStrSlice(next, start - 1, end + 1);
      if HasSymbol(nextWindow) {
        return true;
      }
    }
    return false;
  }

  /**
   * One pass of the loop body inside `main`, from column `i`: scan for the
   * next number, read it, and run the four checks. `more` is false when the
   * loop leaves here (no number left, a number that does not fit, or the
   * number at the end of the line that is not a part number); else `r`
   * holds what the number adds and `j` where the next scan starts.
   */
  method NumberStep(prev: string, cur: string, next: string, i: nat, ghost rests: seq<Result<int>>)
    returns (more: bool, r: Result<int>, j: nat)
    requires i <= |cur| && SuffixSums(prev, cur, next, rests)
    ensures !more ==> r == rests[i]
    ensures more ==> r.Ok? && i < j <= |cur| && rests[i] == Shift(rests[j], r.value)
  {
    j := i;
    if cur == "" {
      NoPartsLeft(prev, cur, next, i);
      return false, Ok(0), j;
    }
    var start, end := ScanForNum(cur, i);
    if start == -1 || start == end {
      NoPartsLeft(prev, cur, next, i);
      return false, Ok(0), j;
    }
    j := end;
    var num := ParseNum(cur[start..end]);
    if num.Err? {
      PartSumStops(prev, cur, next, i, start, end);
      return false, Err(num.msg), j;
    }
    var part := IsPartNumber(prev, cur, next, start, end);
    PartSumStep(prev, cur, next, i, start, end, num.value);
    if part {
      return true, Ok(num.value), j;
    }
    if end >= |cur| - 1 {
      NoPartsAtEnd(prev, cur, next, end);
      return false, Ok(0), j;
    }
    return true, Ok(0), j;
  }

  /**
   * `rests` holds the sum of the part numbers from every position of the
   * current line on.
   */
  ghost predicate SuffixSums(prev: string, cur: string, next: string, rests: seq<Result<int>>)
  {
    |rests| == |cur| + 1 &&
    forall i {:trigger PartSumFrom(prev, cur, next, i)} :: 0 <= i <= |cur| ==> rests[i] == PartSumFrom(prev, cur, next, i)
  }

  /** Two results added up in turn: the invariant of the line loop carried over one number. */
  lemma ShiftCompose(total: Result<int>, rest: Result<int>, after: Result<int>, n: int, v: int)
    requires total == Shift(rest, n) && rest == Shift(after, v)
    ensures total == Shift(after, n + v)
  {
  }

  /** The last result added: the total, or the error that stopped it. */
  lemma ShiftFinish(total: Result<int>, rest: Result<int>, n: int)
    requires total == Shift(rest, n)
    ensures rest.Err? ==> total == Err(rest.msg)
    ensures rest.Ok? ==> total == Ok(n + rest.value)
  {
  }

  /** The loop inside `main` for one current line: the part numbers added up. */
  method LineSum(prev: string, cur: string, next: string) returns (r: Result<int>)
    ensures r == PartSumFrom(prev, cur, next, 0)
  {
    ghost var rests := seq(|cur| + 1, i requires 0 <= i <= |cur| => PartSumFrom(prev, cur, next, i));
    ghost var total := rests[0];
    var n := 0;
    var i := 0;
    while true
      invariant 0 <= i <= |cur|
      invariant total == Shift(rests[i], n)
      decreases |cur| - i
    {
      var more, add, j := NumberStep(prev, cur, next, i, rests);
      if !more {
        ShiftFinish(total, add, n);
        if add.Err? {
          return Err(add.msg);
        }
        n := n + add.value;
        return Ok(n);
      }
      ShiftCompose(total, rests[i], rests[j], n, add.value);
      n := n + add.value;
      i := j;
    }
  }

  // The first line of the puzzle's sample, with the line below it: 467
  // touches the `*` below it, 114 touches nothing, so the line adds 467.

  const SAMPLE_LINE := "467..114.."
  const SAMPLE_BELOW := "...*......"

  lemma SampleScans()
    ensures Scan(SAMPLE_LINE, 0) == (0, 3)
    ensures Scan(SAMPLE_LINE, 3) == (5, 8)
    ensures Scan(SAMPLE_LINE, 8).0 == -1
  {
    NextDigitIs(SAMPLE_LINE, 0, 0);
    RunEndIs(SAMPLE_LINE, 0, 3);
    NextDigitIs(SAMPLE_LINE, 3, 5);
    RunEndIs(SAMPLE_LINE, 5, 8);
  }

  lemma SampleNumbers()
    ensures NumberValue(SAMPLE_LINE[0..3]) == Ok(467)
    ensures NumberValue(SAMPLE_LINE[5..8]) == Ok(114)
  {
    assert SAMPLE_LINE[0..3] == Decimal(467) by {
      assert Decimal(4) == "4";
      assert Decimal(46) == "46";
      assert Decimal(467) == "467";
    }
    NumberValueDecimal(467);
    assert SAMPLE_LINE[5..8] == Decimal(114) by {
      assert Decimal(1) == "1";
      assert Decimal(11) == "11";
      assert Decimal(114) == "114";
    }
    NumberValueDecimal(114);
  }

  lemma SampleTouches()
    ensures Adjacent("", SAMPLE_LINE, SAMPLE_BELOW, 0, 3)
  {
    assert Window(SAMPLE_BELOW, -1, 4) == "...*";
    HasSymbolMeaning("...*");
    assert IsSymbol("...*"[3]);
  }

  lemma SampleAlone()
    ensures !Adjacent("", SAMPLE_LINE, SAMPLE_BELOW, 5, 8)
  {
    assert SAMPLE_LINE[4..5] == "." && SAMPLE_LINE[8..9] == ".";
    HasSymbolMeaning(".");
    var w := Window(SAMPLE_BELOW, 4, 9);
    WindowAt(SAMPLE_BELOW, 4, 9);
    assert forall j :: 0 <= j < |w| ==> w[j] == '.';
    HasSymbolMeaning(w);
  }

  lemma SampleLine()
    ensures PartSumFrom("", SAMPLE_LINE, SAMPLE_BELOW, 0) == Ok(467)
  {
    SampleScans();
    SampleNumbers();
    SampleTouches();
    SampleAlone();
    PartSumStep("", SAMPLE_LINE, SAMPLE_BELOW, 0, 0, 3, 467);
    PartSumStep("", SAMPLE_LINE, SAMPLE_BELOW, 3, 5, 8, 114);
    NoPartsLeft("", SAMPLE_LINE, SAMPLE_BELOW, 8);
  }

  /** A line sum is never negative. */
  lemma {:induction false} PartSumNonNegative(prev: string, cur: string, next: string, i: nat)
    requires i <= |cur| && PartSumFrom(prev, cur, next, i).Ok?
    ensures PartSumFrom(prev, cur, next, i).value >= 0
    decreases |cur| - i
  {
    var (start, end) := Scan(cur, i);
    if start != -1 {
      PartSumNonNegative(prev, cur, next, end);
    }
  }

  /** With no symbol in any of the three lines, no number counts. */
  lemma {:induction false} NoSymbolNoParts(prev: string, cur: string, next: string, i: nat)
    requires i <= |cur| && PartSumFrom(prev, cur, next, i).Ok?
    requires !HasSymbol(prev) && !HasSymbol(cur) && !HasSymbol(next)
    ensures PartSumFrom(prev, cur, next, i) == Ok(0)
    decreases |cur| - i
  {
    var (start, end) := Scan(cur, i);
    if start != -1 {
      NoSymbolNoParts(prev, cur, next, end);
      AdjacentMeaning(prev, cur, next, start, end);
      HasSymbolMeaning(prev);
      HasSymbolMeaning(cur);
      HasSymbolMeaning(next);
    }
  }

  // ------------------------------------------------------------------
  // The lines of the schematic
  // ------------------------------------------------------------------

  /** `line[:len(line)-1]` where the line is not empty. */
  function Chop(line: string): string
  {
    if line == [] then [] else line[..|line| - 1]
  }

  /**
   * The lines `main` reads, each with its last character cut off, up to the
   * read that reports `io.EOF`; every read after those gives "".
   */
  function Reads(input: string): (lines: seq<string>)
    ensures |lines| == |Split(input, '\n')|
  {
    var pieces := Split(input, '\n');
    seq(|pieces|, k requires 0 <= k < |pieces| => if k < |pieces| - 1 then pieces[k] else Chop(pieces[k]))
  }

  /** The `k`-th read, where lines before the first and after the last give "". */
  function ReadAt(lines: seq<string>, k: int): string
  {
    if 0 <= k < |lines| then lines[k] else ""
  }

  /** The first read at or after `k` that is not empty, or `|lines|`. */
  function FirstLine(lines: seq<string>, k: nat): (f: nat)
    requires k <= |lines|
    ensures k <= f <= |lines| && (f < |lines| ==> lines[f] != "")
    ensures forall j :: k <= j < f ==> lines[j] == ""
    decreases |lines| - k
  {
    if k == |lines| || lines[k] != "" then k else FirstLine(lines, k + 1)
  }

  /** The first read at or after `k` that is empty, or `|lines|`. */
  function BlockEnd(lines: seq<string>, k: nat): (g: nat)
    requires k <= |lines|
    ensures k <= g <= |lines| && ReadAt(lines, g) == ""
    ensures forall j :: k <= j < g ==> lines[j] != ""
    decreases |lines| - k
  {
    if k == |lines| || lines[k] == "" then k else BlockEnd(lines, k + 1)
  }

  lemma {:induction false} BlockEndIs(lines: seq<string>, k: nat, g: nat)
    requires k <= g <= |lines| && ReadAt(lines, g) == ""
    requires forall j :: k <= j < g ==> lines[j] != ""
    ensures BlockEnd(lines, k) == g
    decreases g - k
  {
    if k < g {
      BlockEndIs(lines, k + 1, g);
    }
  }

  /** A line of the block with its neighbours: the read before and the read after. */
  function LineTotal(lines: seq<string>, k: nat): Result<int>
    requires k < |lines|
  {
    PartSumFrom(ReadAt(lines, k - 1), lines[k], ReadAt(lines, k + 1), 0)
  }

  /** The sum of every line read, each with its neighbours. */
  function LineSums(lines: seq<string>): (sums: seq<Result<int>>)
    ensures |sums| == |lines|
  {
    seq(|lines|, k requires 0 <= k < |lines| => LineTotal(lines, k))
  }

  /** The line sums `f..k` added up; the first error aborts. */
  function BlockTotal(sums: seq<Result<int>>, f: nat, k: nat): Result<int>
    requires f <= k <= |sums|
    decreases k - f
  {
    if k == f then Ok(0)
    else
      match BlockTotal(sums, f, k - 1)
      case Err(e) => Err(e)
      case Ok(n) => Shift(sums[k - 1], n)
  }

  /**
   * The sum over the lines read: the leading empty lines are skipped, and
   * the lines from the first non-empty one up to the next empty one are
   * summed.
   */
  function LinesTotal(lines: seq<string>): Result<int>
  {
    var f := FirstLine(lines, 0);
    BlockTotal(LineSums(lines), f, BlockEnd(lines, f))
  }

  /** The answer for the whole input. */
  function SchematicTotal(input: string): Result<int>
  {
    LinesTotal(Reads(input))
  }

  lemma BlockStep(sums: seq<Result<int>>, f: nat, k: nat, n: int)
    requires f <= k < |sums| && BlockTotal(sums, f, k) == Ok(n)
    ensures BlockTotal(sums, f, k + 1) == Shift(sums[k], n)
  {
  }

  lemma {:induction false} BlockKeepsError(sums: seq<Result<int>>, f: nat, k: nat, g: nat)
    requires f <= k <= g <= |sums| && BlockTotal(sums, f, k).Err?
    ensures BlockTotal(sums, f, g) == BlockTotal(sums, f, k)
    decreases g - k
  {
    if k < g {
      BlockKeepsError(sums, f, k, g - 1);
    }
  }

  /** A line that is not empty, so the skipping of empty lines ends. */
  predicate HasLine(lines: seq<string>)
  {
    exists k :: 0 <= k < |lines| && lines[k] != ""
  }

  /**
   * The inner loop run on the current line with its neighbours, its part
   * numbers added to the running total `n` of the lines before it.
   */
  method AddLine(prevLine: string, currentLine: string, nextLine: string,
                 ghost lines: seq<string>, ghost sums: seq<Result<int>>, ghost f: nat, ghost k: nat, n: int)
    returns (total: Result<int>)
    requires f <= k < |lines| == |sums| && BlockTotal(sums, f, k) == Ok(n) && sums[k] == LineTotal(lines, k)
    requires prevLine == ReadAt(lines, k - 1) && currentLine == lines[k] && nextLine == ReadAt(lines, k + 1)
    ensures total == BlockTotal(sums, f, k + 1)
  {
    var line := LineSum(prevLine, currentLine, nextLine);
    BlockStep(sums, f, k, n);
    ShiftFinish(BlockTotal(sums, f, k + 1), line, n);
    if line.Err? {
      return Err(line.msg);
    }
    return Ok(n + line.value);
  }

  /**
   * What `main` holds between reads, where `f` is the first non-empty read and
   * `g` the empty read that ends its block: while the current line is empty
   * nothing is summed yet; afterwards the current line is a line of the
   * block, the previous line the read before it, and `n` the sum of the
   * lines before it.
   */
  ghost predicate Reading(lines: seq<string>, sums: seq<Result<int>>, f: nat, g: nat,
                          pos: nat, n: int, prevLine: string, currentLine: string)
  {
    |sums| == |lines| && (forall k {:trigger LineTotal(lines, k)} :: 0 <= k < |lines| ==> sums[k] == LineTotal(lines, k)) &&
    f == FirstLine(lines, 0) && f < |lines| && g == BlockEnd(lines, f) &&
    (currentLine == "" ==> pos <= f && prevLine == "" && n == 0) &&
    (currentLine != "" ==>
      f < pos <= g && currentLine == lines[pos - 1] && prevLine == ReadAt(lines, pos - 2) &&
      BlockTotal(sums, f, pos - 1) == Ok(n))
  }

  /**
   * One pass of `main`'s loop: reads the next line; skips it while no line
   * has been seen, and otherwise sums the current line and moves on, until
   * the next line is empty.
   */
  method ReadStep(lines: seq<string>, ghost sums: seq<Result<int>>, ghost f: nat, ghost g: nat,
                  pos: nat, n: int, prevLine: string, currentLine: string)
    returns (done: bool, r: Result<int>, pos': nat, n': int, prevLine': string, currentLine': string)
    requires Reading(lines, sums, f, g, pos, n, prevLine, currentLine)
    ensures done ==> r == BlockTotal(sums, f, g)
    ensures !done ==> pos' == pos + 1 <= |lines| && Reading(lines, sums, f, g, pos', n', prevLine', currentLine')
  {
    var nextLine := ReadAt(lines, pos);
    pos' := pos + 1;
    if currentLine == "" {
      if nextLine != "" {
        assert pos == f;
        assert BlockTotal(sums, f, pos) == Ok(0);
      }
      return false, Ok(0), pos', 0, "", nextLine;
    }
    ghost var k := pos - 1;
    var total := AddLine(prevLine, currentLine, nextLine, lines, sums, f, k, n);
    if total.Err? {
      BlockKeepsError(sums, f, k + 1, g);
      return true, Err(total.msg), pos', n, prevLine, currentLine;
    }
    if nextLine == "" {
      assert k + 1 == g;
      return true, Ok(total.value), pos', n, prevLine, currentLine;
    }
    assert k + 1 < g;
    return false, total, pos', total.value, currentLine, nextLine;
  }

  /**
   * `main`'s loop over the lines read: keeps the previous, the current and
   * the next line, skips leading empty lines, sums the current line, and
   * stops once the current line is empty. Without any non-empty line it
   * would spin forever.
   */
  method SumLines(lines: seq<string>) returns (r: Result<int>)
    requires HasLine(lines)
    ensures r == LinesTotal(lines)
  {
    ghost var f := FirstLine(lines, 0);
    ghost var g := BlockEnd(lines, f);
    ghost var sums := LineSums(lines);
    assert f < |lines| by {
      var k :| 0 <= k < |lines| && lines[k] != "";
    }
    var pos := 0;
    var n := 0;
    var prevLine := "";
    var currentLine := "";
    while true
      invariant pos <= |lines| && Reading(lines, sums, f, g, pos, n, prevLine, currentLine)
      decreases |lines| - pos
    {
      var done;
      done, r, pos, n, prevLine, currentLine := ReadStep(lines, sums, f, g, pos, n, prevLine, currentLine);
      if done {
        return;
      }
    }
  }

  /** `main`: the lines of the input as read, then summed. */
  method SchematicSum(input: string) returns (r: Result<int>)
    requires HasLine(Reads(input))
    ensures r == SchematicTotal(input)
  {
    r := SumLines(Reads(input));
  }

  /** With a final newline every line is read whole. */
  lemma ReadsWhole(input: string)
    requires input != [] && input[|input| - 1] == '\n'
    ensures Reads(input) == Split(input, '\n')
  {
    SplitEndsEmpty(input[..|input| - 1], '\n');
    assert input[..|input| - 1] + ['\n'] == input;
  }

  /** Without a final newline the last line loses its last character. */
  lemma ReadsChopLast(input: string)
    requires input != [] && input[|input| - 1] != '\n'
    ensures var pieces := Split(input, '\n');
      pieces[|pieces| - 1] != [] && Reads(input)[|pieces| - 1] == pieces[|pieces| - 1][..|pieces[|pieces| - 1]| - 1]
  {
    var pieces := Split(input, '\n');
    JoinSplitOn(input, "\n");
    if |pieces| > 1 {
      var init := pieces[..|pieces| - 1];
      assert init + [pieces[|pieces| - 1]] == pieces;
      JoinSnoc(init, pieces[|pieces| - 1], "\n");
    }
  }
}
