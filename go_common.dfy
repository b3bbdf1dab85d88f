/**
 * What the 2023 Go programs share: `strconv.Quote` and the message of the
 * error `strconv.Atoi` returns, `%v` of a string slice, the lines a
 * `bufio.Reader` hands out with `ReadString('\n')`, and `strings.Split` for a
 * separator of more than one character.
 */
module GoCommon {
  import opened Common

  function HexDigit(n: nat): char
    requires n < 16
  {
    "0123456789abcdef"[n]
  }

  /**
   * One character inside a `strconv.Quote` string: the quote and the
   * backslash are escaped, the ASCII control characters take their named or
   * `\xNN` escape, every other character is kept.
   */
  function QuoteChar(c: char): (e: string)
    ensures |e| >= 1 && (|e| == 1 <==> e == [c])
  {
    var n := c as int;
    if c == '"' then "\\\""
    else if c == '\\' then "\\\\"
    else if n == 7 then "\\a"
    else if n == 8 then "\\b"
    else if n == 12 then "\\f"
    else if c == '\n' then "\\n"
    else if c == '\r' then "\\r"
    else if c == '\t' then "\\t"
    else if n == 11 then "\\v"
    else if n < 0x20 || n == 0x7F then "\\x" + [HexDigit(n / 16), HexDigit(n % 16)]
    else [c]
  }

  function QuoteBody(s: string): (e: string)
    ensures |e| >= |s|
  {
    if s == [] then [] else QuoteChar(s[0]) + QuoteBody(s[1..])
  }

  /** `strconv.Quote(s)`. */
  function Quote(s: string): string
  {
    "\"" + QuoteBody(s) + "\""
  }

  const U64_LIMIT: nat := 0x1_0000_0000_0000_0000

  /**
   * Why `strconv.Atoi(s)` failed. Short texts can only be syntax errors.
   * Longer ones go through `ParseUint`, which reads the digits after an
   * optional sign one at a time and stops at the first non-digit (a syntax
   * error) or at the first digit that takes the value past 2^64 - 1 (a
   * range error), whichever comes first; a number that fits 64 unsigned
   * bits but not `int` is a range error too.
   */
  function AtoiReason(s: string): (reason: string)
    requires Atoi(s).None?
    ensures reason == "value out of range" || reason == "invalid syntax"
    ensures reason == "value out of range" <==>
      DigitsValue(LeadingDigits(SignedDigits(s))) >= U64_LIMIT ||
      (SignedDigits(s) != [] && AllDigits(SignedDigits(s)))
  {
    var digits := SignedDigits(s);
    if DigitsValue(LeadingDigits(digits)) >= U64_LIMIT || (digits != [] && AllDigits(digits))
    then "value out of range" else "invalid syntax"
  }

  /** `err.Error()` for the error of a failed `strconv.Atoi(s)`. */
  function AtoiError(s: string): string
    requires Atoi(s).None?
  {
    "strconv.Atoi: parsing " + Quote(s) + ": " + AtoiReason(s)
  }

  /**
   * Twenty nines or more are out of range even when a non-digit follows
   * them: `99999999999999999999x` is a range error, not a syntax error.
   */
  lemma AtoiRangeBeforeSyntax(nines: string, rest: string)
    requires |nines| >= 20 && forall i :: 0 <= i < |nines| ==> nines[i] == '9'
    requires rest != [] && !IsDigit(rest[0])
    ensures Atoi(nines + rest).None?
    ensures AtoiReason(nines + rest) == "value out of range"
  {
    var s := nines + rest;
    assert s[0] == '9';
    assert SignedDigits(s) == s;
    assert !IsDigit(s[|nines|]);
    LeadingDigitsStop(nines, rest);
    NinesValue(nines);
    Power10Grows(20, |nines|);
    Power10Twenty();
  }

  lemma Power10Twenty()
    ensures Power10(20) == 100_000_000_000_000_000_000
  {
    assert Power10(1) == 10;
    assert Power10(2) == 100;
    assert Power10(3) == 1000;
    assert Power10(4) == 10000;
    assert Power10(5) == 100000;
    assert Power10(6) == 1000000;
    assert Power10(7) == 10000000;
    assert Power10(8) == 100000000;
    assert Power10(9) == 1000000000;
    assert Power10(10) == 10000000000;
    assert Power10(11) == 100000000000;
    assert Power10(12) == 1000000000000;
    assert Power10(13) == 10000000000000;
    assert Power10(14) == 100000000000000;
    assert Power10(15) == 1000000000000000;
    assert Power10(16) == 10000000000000000;
    assert Power10(17) == 100000000000000000;
    assert Power10(18) == 1000000000000000000;
    assert Power10(19) == 10000000000000000000;
    assert Power10(20) == 100000000000000000000;
  }

  lemma {:induction false} Power10Grows(m: nat, n: nat)
    requires m <= n
    ensures Power10(m) <= Power10(n)
    decreases n
  {
    if m < n {
      Power10Grows(m, n - 1);
    }
  }

  /** A text of nines is one less than a power of ten. */
  lemma {:induction false} NinesValue(s: string)
    requires forall i :: 0 <= i < |s| ==> s[i] == '9'
    ensures AllDigits(s) && DigitsValue(s) + 1 == Power10(|s|)
    decreases |s|
  {
    if s != [] {
      var init := s[..|s| - 1];
      NinesValue(init);
      assert init + [s[|s| - 1]] == s;
      DigitsSnoc(init, s[|s| - 1]);
    }
  }

  function Power10(n: nat): nat
  {
    if n == 0 then 1 else 10 * Power10(n - 1)
  }

  /** `fmt` with the `%v` verb on a slice of strings: `[a b c]`. */
  function FormatStrings(items: seq<string>): string
    requires |items| >= 1
  {
    "[" + Join(items, " ") + "]"
  }

  // ------------------------------------------------------------------
  // Reading lines
  // ------------------------------------------------------------------

  /**
   * The lines `ReadString('\n')` returns before it reports `io.EOF`, each
   * with its terminator; text after the last newline comes back together
   * with `io.EOF` and is not among them.
   */
  function TerminatedLines(input: string): (lines: seq<string>)
    ensures forall k :: 0 <= k < |lines| ==> |lines[k]| >= 1 && lines[k][|lines[k]| - 1] == '\n'
  {
    var pieces := Split(input, '\n');
    seq(|pieces| - 1, k requires 0 <= k < |pieces| - 1 => pieces[k] + "\n")
  }

  /** Glueing the pieces with a terminator after every piece but the last one. */
  lemma {:induction false} TerminatedJoin(pieces: seq<string>)
    requires |pieces| >= 1
    ensures Concat(seq(|pieces| - 1, k requires 0 <= k < |pieces| - 1 => pieces[k] + "\n")) + pieces[|pieces| - 1]
      == Join(pieces, "\n")
    decreases |pieces|
  {
    var lines := seq(|pieces| - 1, k requires 0 <= k < |pieces| - 1 => pieces[k] + "\n");
    if |pieces| > 1 {
      var rest := pieces[1..];
      var restLines := seq(|rest| - 1, k requires 0 <= k < |rest| - 1 => rest[k] + "\n");
      TerminatedJoin(rest);
      assert lines[1..] == restLines;
      assert Concat(lines) == lines[0] + Concat(restLines);
    }
  }

  /** The terminated lines and the unterminated rest after them make up the input. */
  lemma TerminatedLinesCover(input: string)
    ensures Concat(TerminatedLines(input)) + Split(input, '\n')[|Split(input, '\n')| - 1] == input
  {
    TerminatedJoin(Split(input, '\n'));
    JoinSplitOn(input, "\n");
  }

  // ------------------------------------------------------------------
  // Splitting on a longer separator
  // ------------------------------------------------------------------

  /** Text without the separator's first character is one piece. */
  lemma {:induction false} SplitOnNoSeparator(p: string, sep: string)
    requires sep != [] && sep[0] !in p
    ensures SplitOn(p, sep) == [p]
    decreases |p|
  {
    if |p| >= |sep| {
      assert p[..|sep|][0] == p[0];
      SplitOnNoSeparator(p[1..], sep);
      assert [p[0]] + p[1..] == p;
    }
  }

  /** The first separator ends the first piece when nothing before it starts one. */
  lemma {:induction false} SplitOnAtFirstSeparator(p: string, sep: string, r: string)
    requires sep != [] && sep[0] !in p
    ensures SplitOn(p + sep + r, sep) == [p] + SplitOn(r, sep)
    decreases |p|
  {
    var s := p + sep + r;
    if p == [] {
      assert s[..|sep|] == sep;
      assert s[|sep|..] == r;
    } else {
      assert s[..|sep|][0] == p[0];
      assert s[1..] == p[1..] + sep + r;
      SplitOnAtFirstSeparator(p[1..], sep, r);
      assert [p[0]] + p[1..] == p;
    }
  }

  /** Splitting undoes joining when no piece holds the separator's first character. */
  lemma {:induction false} SplitOnJoin(pieces: seq<string>, sep: string)
    requires |pieces| >= 1 && sep != []
    requires forall i :: 0 <= i < |pieces| ==> sep[0] !in pieces[i]
    ensures SplitOn(Join(pieces, sep), sep) == pieces
    decreases |pieces|
  {
    if |pieces| == 1 {
      SplitOnNoSeparator(pieces[0], sep);
    } else {
      SplitOnJoin(pieces[1..], sep);
      SplitOnAtFirstSeparator(pieces[0], sep, Join(pieces[1..], sep));
      assert [pieces[0]] + pieces[1..] == pieces;
    }
  }

  // ------------------------------------------------------------------
  // Go's `int` on a 64-bit platform
  // ------------------------------------------------------------------

  const TWO_64: int := 0x1_0000_0000_0000_0000

  /** The two's-complement value an `int` holds for the mathematical value `x`. */
  function WrapInt(x: int): (w: int)
    ensures I64_MIN <= w <= I64_MAX
    ensures (x - w) % TWO_64 == 0
    ensures I64_MIN <= x <= I64_MAX ==> w == x
  {
    var m := x % TWO_64;
    if m <= I64_MAX then m else m - TWO_64
  }

  /** The values added one by one to an `int` total that starts at 0, wrapping at every `+=`. */
  function WrappedSum(xs: seq<int>): (total: int)
    ensures I64_MIN <= total <= I64_MAX
  {
    if xs == [] then 0 else WrapInt(WrappedSum(xs[..|xs| - 1]) + xs[|xs| - 1])
  }

  /** Values that differ by a multiple of 2^64 wrap to the same `int`. */
  lemma WrapCongruent(x: int, y: int)
    requires (x - y) % TWO_64 == 0
    ensures WrapInt(x) == WrapInt(y)
  {
    var k := (x - y) / TWO_64;
    assert x == y + k * TWO_64;
    assert x % TWO_64 == y % TWO_64;
  }

  /**
   * Wrapping after every addition is wrapping the mathematical sum once,
   * so an `int` total is the unbounded total taken modulo 2^64.
   */
  lemma {:induction false} WrappedSumIsWrapOfSum(xs: seq<int>)
    ensures WrappedSum(xs) == WrapInt(Sum(xs))
  {
    if xs != [] {
      var init := xs[..|xs| - 1];
      WrappedSumIsWrapOfSum(init);
      var w := WrappedSum(init);
      assert (w + xs[|xs| - 1] - (Sum(init) + xs[|xs| - 1])) % TWO_64 == 0;
      WrapCongruent(w + xs[|xs| - 1], Sum(xs));
    }
  }

  /** While the unbounded total fits an `int`, the wrapping total equals it. */
  lemma WrappedSumFits(xs: seq<int>)
    requires I64_MIN <= Sum(xs) <= I64_MAX
    ensures WrappedSum(xs) == Sum(xs)
  {
    WrappedSumIsWrapOfSum(xs);
  }

  /** Two part numbers of 9 * 10^18 give -446744073709551616 in an `int`. */
  lemma WrapSample()
    ensures WrappedSum([9000000000000000000, 9000000000000000000]) == -446744073709551616
  {
    assert [9000000000000000000, 9000000000000000000][..1] == [9000000000000000000];
    assert [9000000000000000000][..0] == [];
  }
}
