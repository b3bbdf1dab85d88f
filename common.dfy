/**
 * Vocabulary shared by every day: the error path (`Result`), optional
 * values, string splitting with the semantics of Rust's `str::split` and
 * Go's `strings.Split`, and decimal number parsing with the semantics of
 * Rust's `str::parse` for the integer widths the programs use.
 */
module Common {

  datatype Option<+T> = None | Some(value: T)

  /** A computation that either succeeds or fails with a message. */
  datatype Result<+T> = Ok(value: T) | Err(msg: string)

  // ------------------------------------------------------------------
  // Splitting
  // ------------------------------------------------------------------

  /**
   * Cuts `s` at every leftmost, non-overlapping occurrence of `sep`, as
   * `str::split` does for a string pattern: empty pieces are kept, the empty
   * string gives one empty piece.
   */
  function SplitOn(s: string, sep: string): (pieces: seq<string>)
    requires sep != []
    ensures |pieces| >= 1
    decreases |s|
  {
    if |s| < |sep| then [s]
    else if s[..|sep|] == sep then [""] + SplitOn(s[|sep|..], sep)
    else
      var rest := SplitOn(s[1..], sep);
      [[s[0]] + rest[0]] + rest[1..]
  }

  /** `str::split(c)` for a single character. */
  function Split(s: string, c: char): (pieces: seq<string>)
    ensures |pieces| >= 1
  {
    SplitOn(s, [c])
  }

  /** Glues pieces back together, `sep` between each two neighbours. */
  function Join(pieces: seq<string>, sep: string): string
    requires |pieces| >= 1
  {
    if |pieces| == 1 then pieces[0] else pieces[0] + sep + Join(pieces[1..], sep)
  }

  lemma {:induction false} JoinConsHead(c: char, pieces: seq<string>, sep: string)
    requires |pieces| >= 1
    ensures Join([[c] + pieces[0]] + pieces[1..], sep) == [c] + Join(pieces, sep)
  {
    var ps := [[c] + pieces[0]] + pieces[1..];
    if |pieces| > 1 {
      assert ps[1..] == pieces[1..];
    }
  }

  /** Joining one piece more appends the separator and that piece. */
  lemma {:induction false} JoinSnoc(pieces: seq<string>, q: string, sep: string)
    requires |pieces| >= 1
    ensures Join(pieces + [q], sep) == Join(pieces, sep) + sep + q
    decreases |pieces|
  {
    if |pieces| > 1 {
      assert (pieces + [q])[1..] == pieces[1..] + [q];
      JoinSnoc(pieces[1..], q, sep);
    }
  }

  /** Growing the last piece grows the joined text at its end. */
  lemma {:induction false} JoinExtendLast(pieces: seq<string>, tail: string, sep: string)
    requires |pieces| >= 1
    ensures Join(pieces[..|pieces| - 1] + [pieces[|pieces| - 1] + tail], sep) == Join(pieces, sep) + tail
    decreases |pieces|
  {
    var grown := pieces[..|pieces| - 1] + [pieces[|pieces| - 1] + tail];
    if |pieces| > 1 {
      var rest := pieces[1..];
      assert grown[1..] == rest[..|rest| - 1] + [rest[|rest| - 1] + tail];
      JoinExtendLast(rest, tail, sep);
    }
  }

  /** Splitting loses nothing: joining the pieces with the separator restores the input. */
  lemma {:induction false} JoinSplitOn(s: string, sep: string)
    requires sep != []
    ensures Join(SplitOn(s, sep), sep) == s
    decreases |s|
  {
    if |s| < |sep| {
    } else if s[..|sep|] == sep {
      var rest := SplitOn(s[|sep|..], sep);
      JoinSplitOn(s[|sep|..], sep);
      var pieces := [""] + rest;
      assert SplitOn(s, sep) == pieces;
      assert pieces[1..] == rest;
      assert Join(pieces, sep) == "" + sep + Join(rest, sep);
      assert s == sep + s[|sep|..];
    } else {
      var rest := SplitOn(s[1..], sep);
      JoinSplitOn(s[1..], sep);
      assert SplitOn(s, sep) == [[s[0]] + rest[0]] + rest[1..];
      JoinConsHead(s[0], rest, sep);
      assert s == [s[0]] + s[1..];
    }
  }

  /** Number of occurrences of `c` in `s`. */
  function Count(s: string, c: char): nat
  {
    if s == [] then 0 else (if s[0] == c then 1 else 0) + Count(s[1..], c)
  }

  /** One piece more than there are separators, and no piece holds the separator. */
  lemma {:induction false} SplitShape(s: string, c: char)
    ensures |Split(s, c)| == Count(s, c) + 1
    ensures forall i :: 0 <= i < |Split(s, c)| ==> c !in Split(s, c)[i]
    decreases |s|
  {
    if s != [] {
      SplitShape(s[1..], c);
      assert s[..1] == [s[0]];
    }
  }

  lemma {:induction false} SplitNoSeparator(p: string, c: char)
    requires c !in p
    ensures Split(p, c) == [p]
    decreases |p|
  {
    if p != [] {
      assert p[..1] == [p[0]];
      SplitNoSeparator(p[1..], c);
      assert [p[0]] + p[1..] == p;
    }
  }

  lemma {:induction false} SplitAtFirstSeparator(p: string, c: char, r: string)
    requires c !in p
    ensures Split(p + [c] + r, c) == [p] + Split(r, c)
    decreases |p|
  {
    var s := p + [c] + r;
    if p == [] {
      assert s[..1] == [c];
      assert s[1..] == r;
    } else {
      assert s[..1] == [p[0]];
      assert s[1..] == p[1..] + [c] + r;
      SplitAtFirstSeparator(p[1..], c, r);
      assert [p[0]] + p[1..] == p;
    }
  }

  /** Splitting undoes joining when no piece holds the separator. */
  lemma {:induction false} SplitJoin(pieces: seq<string>, c: char)
    requires |pieces| >= 1
    requires forall i :: 0 <= i < |pieces| ==> c !in pieces[i]
    ensures Split(Join(pieces, [c]), c) == pieces
    decreases |pieces|
  {
    if |pieces| == 1 {
      SplitNoSeparator(pieces[0], c);
    } else {
      SplitJoin(pieces[1..], c);
      SplitAtFirstSeparator(pieces[0], c, Join(pieces[1..], [c]));
      assert [pieces[0]] + pieces[1..] == pieces;
    }
  }

  /** A string ending in the separator splits into a final empty piece. */
  lemma {:induction false} SplitEndsEmpty(p: string, c: char)
    ensures |Split(p + [c], c)| >= 2
    ensures Split(p + [c], c)[|Split(p + [c], c)| - 1] == []
    decreases |p|
  {
    var s := p + [c];
    if p == [] {
      assert s[..1] == [c];
      assert s[1..] == [];
      assert Split([], c) == [[]];
    } else {
      assert s[..1] == [p[0]];
      assert s[1..] == p[1..] + [c];
      SplitEndsEmpty(p[1..], c);
    }
  }

  /** `let [a, b] = pieces[..]`: the input splits into exactly two parts. */
  function SplitPair(s: string, c: char): (r: Option<(string, string)>)
    ensures r.Some? <==> Count(s, c) == 1
    ensures r.Some? ==> r.value.0 + [c] + r.value.1 == s && c !in r.value.0 && c !in r.value.1
  {
    SplitShape(s, c);
    JoinSplitOn(s, [c]);
    var pieces := Split(s, c);
    if |pieces| == 2 then
      assert pieces[1..] == [pieces[1]];
      Some((pieces[0], pieces[1]))
    else None
  }

  // ------------------------------------------------------------------
  // Trimming
  // ------------------------------------------------------------------

  /** `char::is_whitespace`: the characters with the Unicode White_Space property. */
  predicate IsWhitespace(c: char)
  {
    ('\U{9}' <= c <= '\U{D}') || c == ' ' || c == '\U{85}' || c == '\U{A0}' || c == '\U{1680}' ||
    ('\U{2000}' <= c <= '\U{200A}') || c == '\U{2028}' || c == '\U{2029}' || c == '\U{202F}' || c == '\U{205F}' ||
    c == '\U{3000}'
  }

  /** `str::trim_start`: the suffix left after dropping leading whitespace. */
  function TrimStart(s: string): (r: string)
    ensures |r| <= |s| && r == s[|s| - |r|..]
    ensures r == [] || !IsWhitespace(r[0])
    ensures forall k :: 0 <= k < |s| - |r| ==> IsWhitespace(s[k])
  {
    if s != [] && IsWhitespace(s[0]) then TrimStart(s[1..]) else s
  }

  /** `str::trim_end`: the prefix left after dropping trailing whitespace. */
  function TrimEnd(s: string): (r: string)
    ensures |r| <= |s| && r == s[..|r|]
    ensures r == [] || !IsWhitespace(r[|r| - 1])
    ensures forall k :: |r| <= k < |s| ==> IsWhitespace(s[k])
  {
    if s != [] && IsWhitespace(s[|s| - 1]) then TrimEnd(s[..|s| - 1]) else s
  }

  /** `str::trim`: whitespace dropped at both ends. */
  function Trim(s: string): (r: string)
    ensures r == [] || (!IsWhitespace(r[0]) && !IsWhitespace(r[|r| - 1]))
    ensures exists a, b :: 0 <= a <= b <= |s| && r == s[a..b]
  {
    var t := TrimStart(s);
    var r := TrimEnd(t);
    assert r == s[|s| - |t|..|s| - |t| + |r|];
    r
  }

  // ------------------------------------------------------------------
  // Debug formatting
  // ------------------------------------------------------------------

  /** The `{:?}` escape of one character inside a quoted string. */
  function EscapeChar(c: char): (e: string)
    ensures |e| >= 1 && (|e| == 1 <==> e == [c])
  {
    if c == '"' then "\\\""
    else if c == '\\' then "\\\\"
    else if c == '\n' then "\\n"
    else if c == '\r' then "\\r"
    else if c == '\t' then "\\t"
    else if c == '\0' then "\\0"
    else [c]
  }

  function Escaped(s: string): (e: string)
    ensures |e| >= |s|
  {
    if s == [] then [] else EscapeChar(s[0]) + Escaped(s[1..])
  }

  /** `format!("{:?}", s)` for a string: quoted, with its special characters escaped. */
  function DebugString(s: string): (d: string)
    ensures |d| >= |s| + 2 && d[0] == '"' && d[|d| - 1] == '"'
  {
    "\"" + Escaped(s) + "\""
  }

  /** A string without special characters is only quoted. */
  lemma {:induction false} DebugPlain(s: string)
    requires forall i :: 0 <= i < |s| ==> EscapeChar(s[i]) == [s[i]]
    ensures Escaped(s) == s
    ensures DebugString(s) == "\"" + s + "\""
  {
    if s != [] {
      var t := s[1..];
      assert forall i :: 0 <= i < |t| ==> t[i] == s[i + 1];
      DebugPlain(t);
      assert EscapeChar(s[0]) == [s[0]];
      assert s == [s[0]] + t;
    }
  }

  /** The product of two naturals, a natural. */
  function Times(a: nat, b: nat): nat
  {
    a * b
  }

  /** `{:?}` of a list of strings: `["a", "b"]`. */
  function DebugStrings(xs: seq<string>): (d: string)
    ensures |d| >= 2 && d[0] == '[' && d[|d| - 1] == ']'
  {
    if xs == [] then "[]"
    else "[" + Join(seq(|xs|, i requires 0 <= i < |xs| => DebugString(xs[i])), ", ") + "]"
  }

  /** `{:?}` of a list of numbers: `[1, 2, 3]`. */
  function DebugNats(xs: seq<nat>): (d: string)
    ensures |d| >= 2 && d[0] == '[' && d[|d| - 1] == ']'
  {
    if xs == [] then "[]"
    else "[" + Join(seq(|xs|, i requires 0 <= i < |xs| => Decimal(xs[i])), ", ") + "]"
  }

  /** `{:?}` of a list of lists of numbers: `[[1, 2], [3]]`. */
  function DebugNatRows(rows: seq<seq<nat>>): (d: string)
    ensures |d| >= 2 && d[0] == '[' && d[|d| - 1] == ']'
  {
    if rows == [] then "[]"
    else "[" + Join(seq(|rows|, i requires 0 <= i < |rows| => DebugNats(rows[i])), ", ") + "]"
  }

  // ------------------------------------------------------------------
  // Decimal numbers
  // ------------------------------------------------------------------

  predicate IsDigit(c: char)
  {
    '0' <= c <= '9'
  }

  predicate AllDigits(s: string)
  {
    forall i :: 0 <= i < |s| ==> IsDigit(s[i])
  }

  function DigitValue(c: char): nat
    requires IsDigit(c)
  {
    (c as int) - ('0' as int)
  }

  /** The value of a string of decimal digits, most significant digit first. */
  function DigitsValue(s: string): nat
    requires AllDigits(s)
  {
    if s == [] then 0 else 10 * DigitsValue(s[..|s| - 1]) + DigitValue(s[|s| - 1])
  }

  /** The canonical decimal rendering of `n` (no sign, no leading zeros). */
  function Decimal(n: nat): (s: string)
    ensures s != [] && AllDigits(s)
  {
    var d := ['0' + ((n % 10) as char)];
    if n < 10 then d else Decimal(n / 10) + d
  }

  lemma {:induction false} DecimalValue(n: nat)
    ensures DigitsValue(Decimal(n)) == n
  {
    if n >= 10 {
      DecimalValue(n / 10);
      var s := Decimal(n);
      assert s[..|s| - 1] == Decimal(n / 10);
    }
  }

  const U8_LIMIT: nat := 0x100
  const U32_LIMIT: nat := 0x1_0000_0000
  const USIZE_LIMIT: nat := 0x1_0000_0000_0000_0000
  const I32_MIN: int := -0x8000_0000
  const I32_MAX: int := 0x7FFF_FFFF
  const I64_MIN: int := -0x8000_0000_0000_0000
  const I64_MAX: int := 0x7FFF_FFFF_FFFF_FFFF

  /**
   * `str::parse` for an unsigned integer type whose values lie below
   * `limit`: an optional `+`, then at least one decimal digit, and the value
   * must fit.
   */
  function ParseUnsigned(s: string, limit: nat): (r: Option<nat>)
    ensures r.Some? <==> UnsignedDigits(s) != [] && AllDigits(UnsignedDigits(s)) && DigitsValue(UnsignedDigits(s)) < limit
    ensures r.Some? ==> r.value == DigitsValue(UnsignedDigits(s)) && r.value < limit
  {
    var digits := UnsignedDigits(s);
    if digits != [] && AllDigits(digits) && DigitsValue(digits) < limit then Some(DigitsValue(digits))
    else None
  }

  /**
   * `str::parse` for a signed integer type with range `lo..=hi` (and Go's
   * `strconv.Atoi` for `lo`, `hi` of 64 bits): an optional sign, then at
   * least one decimal digit, and the value must fit.
   */
  function ParseSigned(s: string, lo: int, hi: int): (r: Option<int>)
    ensures r.Some? ==> SignedDigits(s) != [] && AllDigits(SignedDigits(s))
    ensures r.Some? ==> r.value == (if |s| > 0 && s[0] == '-' then -(DigitsValue(SignedDigits(s)) as int) else DigitsValue(SignedDigits(s)))
    ensures r.Some? ==> lo <= r.value <= hi
    ensures SignedDigits(s) != [] && AllDigits(SignedDigits(s)) && lo <= -(DigitsValue(SignedDigits(s)) as int) && DigitsValue(SignedDigits(s)) <= hi ==> r.Some?
  {
    var negative := |s| > 0 && s[0] == '-';
    var digits := SignedDigits(s);
    if digits != [] && AllDigits(digits) then
      var v: int := if negative then -(DigitsValue(digits) as int) else DigitsValue(digits);
      if lo <= v <= hi then Some(v) else None
    else None
  }

  function ParseU8(s: string): Option<nat> { ParseUnsigned(s, U8_LIMIT) }
  function ParseU32(s: string): Option<nat> { ParseUnsigned(s, U32_LIMIT) }
  function ParseUsize(s: string): Option<nat> { ParseUnsigned(s, USIZE_LIMIT) }
  function ParseI32(s: string): Option<int> { ParseSigned(s, I32_MIN, I32_MAX) }
  /** Go's `strconv.Atoi` on a 64-bit platform. */
  function Atoi(s: string): Option<int> { ParseSigned(s, I64_MIN, I64_MAX) }

  /**
   * The longest run of decimal digits at the start of `s`: how far a
   * digit-by-digit reader gets before it meets another character.
   */
  function LeadingDigits(s: string): (p: string)
    ensures |p| <= |s| && s[..|p|] == p && AllDigits(p)
    ensures |p| < |s| ==> !IsDigit(s[|p|])
  {
    if s == [] || !IsDigit(s[0]) then [] else [s[0]] + LeadingDigits(s[1..])
  }

  /** A text of digits is read to its end. */
  lemma {:induction false} LeadingDigitsAll(s: string)
    ensures AllDigits(s) ==> LeadingDigits(s) == s
  {
    if s != [] && AllDigits(s) {
      assert AllDigits(s[1..]) by {
        forall i | 0 <= i < |s[1..]| ensures IsDigit(s[1..][i]) {
          assert s[1..][i] == s[i + 1];
        }
      }
      LeadingDigitsAll(s[1..]);
    }
  }

  /** The digits of a number followed by a non-digit are read up to it. */
  lemma {:induction false} LeadingDigitsStop(s: string, t: string)
    requires AllDigits(s) && t != [] && !IsDigit(t[0])
    ensures LeadingDigits(s + t) == s
  {
    if s == [] {
      assert (s + t)[0] == t[0];
    } else {
      assert (s + t)[0] == s[0];
      assert (s + t)[1..] == s[1..] + t;
      assert AllDigits(s[1..]) by {
        forall i | 0 <= i < |s[1..]| ensures IsDigit(s[1..][i]) {
          assert s[1..][i] == s[i + 1];
        }
      }
      LeadingDigitsStop(s[1..], t);
    }
  }

  /** What follows an optional `+` in the text handed to an unsigned parse. */
  function UnsignedDigits(s: string): string
  {
    if |s| > 0 && s[0] == '+' then s[1..] else s
  }

  /** What follows an optional sign in the text handed to a signed parse. */
  function SignedDigits(s: string): string
  {
    if |s| > 0 && (s[0] == '+' || s[0] == '-') then s[1..] else s
  }

  /**
   * The text of `ParseIntError` for an unsigned parse that failed. The
   * parser reads the digits after an optional `+` one at a time and stops
   * at the first character that is not a digit, or at the first digit that
   * makes the value reach `limit`, whichever comes first. So the value is
   * too large exactly when the leading run of digits already is, even when
   * other characters follow; otherwise a non-digit (a lone `+` included)
   * stopped it.
   */
  function UnsignedParseError(s: string, limit: nat): (text: string)
    requires limit > 0 && ParseUnsigned(s, limit).None?
    ensures s == [] <==> text == "cannot parse integer from empty string"
    ensures text == "number too large to fit in target type" <==>
      s != [] && DigitsValue(LeadingDigits(UnsignedDigits(s))) >= limit
    ensures text == "invalid digit found in string" <==>
      s != [] && DigitsValue(LeadingDigits(UnsignedDigits(s))) < limit
    ensures text == "invalid digit found in string" ==>
      LeadingDigits(UnsignedDigits(s)) != UnsignedDigits(s) || UnsignedDigits(s) == []
  {
    var digits := UnsignedDigits(s);
    LeadingDigitsAll(digits);
    if s == [] then "cannot parse integer from empty string"
    else if DigitsValue(LeadingDigits(digits)) >= limit then "number too large to fit in target type"
    else "invalid digit found in string"
  }

  /**
   * The text of `ParseIntError` for a signed parse over `lo..=hi` that
   * failed. The digits after an optional sign are read one at a time, and
   * the reader stops at the first non-digit or at the first digit that
   * takes the value past `hi` (or, after `-`, below `lo`), whichever comes
   * first; a lone sign is an invalid digit.
   */
  function SignedParseError(s: string, lo: int, hi: int): (text: string)
    requires lo <= 0 <= hi && ParseSigned(s, lo, hi).None?
    ensures s == [] <==> text == "cannot parse integer from empty string"
    ensures text == "number too small to fit in target type" <==>
      s != [] && s[0] == '-' && -(DigitsValue(LeadingDigits(SignedDigits(s))) as int) < lo
    ensures text == "number too large to fit in target type" <==>
      s != [] && s[0] != '-' && DigitsValue(LeadingDigits(SignedDigits(s))) > hi
    ensures text == "invalid digit found in string" ==>
      LeadingDigits(SignedDigits(s)) != SignedDigits(s) || SignedDigits(s) == []
  {
    var digits := SignedDigits(s);
    var lead := DigitsValue(LeadingDigits(digits));
    LeadingDigitsAll(digits);
    if s == [] then "cannot parse integer from empty string"
    else if s[0] == '-' && -(lead as int) < lo then "number too small to fit in target type"
    else if s[0] != '-' && lead > hi then "number too large to fit in target type"
    else "invalid digit found in string"
  }

  /** One more digit at the end multiplies the value by ten and adds the digit. */
  lemma DigitsSnoc(s: string, c: char)
    requires AllDigits(s) && IsDigit(c)
    ensures AllDigits(s + [c])
    ensures DigitsValue(s + [c]) == 10 * DigitsValue(s) + DigitValue(c)
  {
    assert (s + [c])[..|s|] == s;
  }

  /** The decimal text of 2^32, the first value too large for a `u32`. */
  lemma U32LimitDigits()
    ensures AllDigits("4294967296") && DigitsValue("4294967296") == U32_LIMIT
  {
    assert "4"[..0] == [];
    assert "42" == "4" + ['2'];
    DigitsSnoc("4", '2');
    assert "429" == "42" + ['9'];
    DigitsSnoc("42", '9');
    assert "4294" == "429" + ['4'];
    DigitsSnoc("429", '4');
    assert "42949" == "4294" + ['9'];
    DigitsSnoc("4294", '9');
    assert "429496" == "42949" + ['6'];
    DigitsSnoc("42949", '6');
    assert "4294967" == "429496" + ['7'];
    DigitsSnoc("429496", '7');
    assert "42949672" == "4294967" + ['2'];
    DigitsSnoc("4294967", '2');
    assert "429496729" == "42949672" + ['9'];
    DigitsSnoc("42949672", '9');
    assert "4294967296" == "429496729" + ['6'];
    DigitsSnoc("429496729", '6');
  }

  /** An overflow is reported even when a non-digit follows the digits. */
  lemma OverflowBeforeInvalidDigit()
    ensures UnsignedParseError("4294967296x", U32_LIMIT) == "number too large to fit in target type"
  {
    U32LimitDigits();
    var s := "4294967296x";
    assert s == "4294967296" + "x";
    assert UnsignedDigits(s) == s;
    assert !IsDigit(s[10]);
    LeadingDigitsStop("4294967296", "x");
  }

  /** Parsing undoes printing: any value that fits parses back from its decimal rendering. */
  lemma ParseDecimal(n: nat, limit: nat)
    requires n < limit
    ensures ParseUnsigned(Decimal(n), limit) == Some(n)
    ensures ParseSigned(Decimal(n), -(limit as int), limit) == Some(n)
  {
    DecimalValue(n);
  }

  /** A sign alone, or nothing, is never a number. */
  lemma ParseRejectsNoDigits(s: string, limit: nat, lo: int, hi: int)
    requires s == [] || s == "+" || s == "-"
    ensures ParseUnsigned(s, limit) == None
    ensures ParseSigned(s, lo, hi) == None
  {
  }

  // ------------------------------------------------------------------
  // Folds
  // ------------------------------------------------------------------

  function Sum(s: seq<int>): int
  {
    if s == [] then 0 else Sum(s[..|s| - 1]) + s[|s| - 1]
  }

  lemma {:induction false} SumAppend(s: seq<int>, t: seq<int>)
    ensures Sum(s + t) == Sum(s) + Sum(t)
    decreases |t|
  {
    if t != [] {
      var u := s + t;
      assert u[..|u| - 1] == s + t[..|t| - 1];
      assert u[|u| - 1] == t[|t| - 1];
      SumAppend(s, t[..|t| - 1]);
      assert Sum(u) == Sum(u[..|u| - 1]) + u[|u| - 1];
    } else {
      assert s + t == s;
    }
  }

  /** The values of the successes, 0 standing in for an error. */
  function OkValues(rs: seq<Result<nat>>): (vs: seq<int>)
    ensures |vs| == |rs|
    ensures forall i :: 0 <= i < |rs| ==> rs[i].Ok? ==> vs[i] == rs[i].value
  {
    seq(|rs|, i requires 0 <= i < |rs| => match rs[i] case Ok(v) => v case Err(_) => 0)
  }

  /**
   * Collecting an iterator of results and summing the values: the first
   * error, in order, aborts the whole sum.
   */
  function SumResults(rs: seq<Result<nat>>): (r: Result<nat>)
    ensures r.Ok? <==> forall i :: 0 <= i < |rs| ==> rs[i].Ok?
    ensures r.Ok? ==> r.value == Sum(OkValues(rs))
    ensures r.Err? ==> exists i :: 0 <= i < |rs| && rs[i] == Err(r.msg) && forall j :: 0 <= j < i ==> rs[j].Ok?
  {
    if rs == [] then Ok(0)
    else
      var rest := SumResults(rs[1..]);
      assert forall i :: 1 <= i < |rs| ==> rs[i] == rs[1..][i - 1];
      match rs[0]
      case Err(e) => Err(e)
      case Ok(v) =>
        assert OkValues(rs) == [v] + OkValues(rs[1..]);
        SumCons(v, OkValues(rs[1..]));
        if rest.Ok? then Ok(v + rest.value) else rest
  }

  /** The sum of successful values adds up over concatenation. */
  lemma {:induction false} SumResultsAppend(xs: seq<Result<nat>>, ys: seq<Result<nat>>)
    requires SumResults(xs).Ok? && SumResults(ys).Ok?
    ensures SumResults(xs + ys) == Ok(SumResults(xs).value + SumResults(ys).value)
    decreases |xs|
  {
    if xs == [] {
      assert xs + ys == ys;
    } else {
      assert (xs + ys)[1..] == xs[1..] + ys;
      SumResultsAppend(xs[1..], ys);
    }
  }

  /** One more successful value adds itself to the sum. */
  lemma SumResultsSnoc(xs: seq<Result<nat>>, x: Result<nat>)
    requires SumResults(xs).Ok? && x.Ok?
    ensures SumResults(xs + [x]) == Ok(SumResults(xs).value + x.value)
  {
    assert [x][1..] == [];
    SumResultsAppend(xs, [x]);
  }

  /** The first error met ends the sum whatever follows it. */
  lemma SumResultsFirstErr(rs: seq<Result<nat>>, k: nat)
    requires k < |rs| && SumResults(rs[..k]).Ok? && rs[k].Err?
    ensures SumResults(rs) == Err(rs[k].msg)
  {
    var r := SumResults(rs);
    assert forall j :: 0 <= j < k ==> rs[j] == rs[..k][j];
    assert r.Err?;
    var i :| 0 <= i < |rs| && rs[i] == Err(r.msg) && forall j :: 0 <= j < i ==> rs[j].Ok?;
    assert i == k;
  }

  /** A successful next element adds its value to the sum of the prefix. */
  lemma SumResultsPrefix(rs: seq<Result<nat>>, k: nat, n: nat, v: nat)
    requires k < |rs| && SumResults(rs[..k]) == Ok(n) && rs[k] == Ok(v)
    ensures SumResults(rs[..k + 1]) == Ok(n + v)
  {
    TakeSnoc(rs, k);
    SumResultsSnoc(rs[..k], rs[k]);
  }

  /**
   * Collecting an iterator of results into a vector: every value in order,
   * or the first error.
   */
  function Collect<T>(rs: seq<Result<T>>): (r: Result<seq<T>>)
    ensures r.Ok? <==> forall i :: 0 <= i < |rs| ==> rs[i].Ok?
    ensures r.Ok? ==> |r.value| == |rs| && forall i :: 0 <= i < |rs| ==> rs[i] == Ok(r.value[i])
    ensures r.Err? ==> exists i :: 0 <= i < |rs| && rs[i] == Err(r.msg) && forall j :: 0 <= j < i ==> rs[j].Ok?
  {
    if rs == [] then Ok([])
    else
      var rest := Collect(rs[1..]);
      assert forall i :: 1 <= i < |rs| ==> rs[i] == rs[1..][i - 1];
      match rs[0]
      case Err(e) => Err(e)
      case Ok(v) =>
        if rest.Ok? then Ok([v] + rest.value) else Err(rest.msg)
  }

  /** When every result succeeds, collecting gives their values in order. */
  lemma CollectAllOk<T>(rs: seq<Result<T>>, vs: seq<T>)
    requires |rs| == |vs|
    requires forall i :: 0 <= i < |rs| ==> rs[i] == Ok(vs[i])
    ensures Collect(rs) == Ok(vs)
  {
    var r := Collect(rs);
    assert r.Ok?;
    assert forall i :: 0 <= i < |vs| ==> r.value[i] == vs[i];
    assert r.value == vs;
  }

  /** One more successful result appends its value to the collection. */
  lemma CollectSnoc<T>(rs: seq<Result<T>>, x: T)
    requires Collect(rs).Ok?
    ensures Collect(rs + [Ok(x)]) == Ok(Collect(rs).value + [x])
  {
    var vs := Collect(rs).value;
    var all := rs + [Ok(x)];
    assert forall i :: 0 <= i < |all| ==> all[i] == Ok((vs + [x])[i]);
    CollectAllOk(all, vs + [x]);
  }

  /** The first error met ends the collection whatever follows it. */
  lemma CollectFirstErr<T>(rs: seq<Result<T>>, k: nat)
    requires k < |rs| && Collect(rs[..k]).Ok? && rs[k].Err?
    ensures Collect(rs) == Err(rs[k].msg)
  {
    var r := Collect(rs);
    var prefix := Collect(rs[..k]);
    assert forall j :: 0 <= j < k ==> rs[j] == rs[..k][j];
    assert r.Err?;
    var i :| 0 <= i < |rs| && rs[i] == Err(r.msg) && forall j :: 0 <= j < i ==> rs[j].Ok?;
    assert i == k;
  }

  /** The pieces one after another. */
  function Concat<T>(pieces: seq<seq<T>>): seq<T>
  {
    if pieces == [] then [] else pieces[0] + Concat(pieces[1..])
  }

  /** Replacing one piece exchanges its elements for the new ones. */
  lemma {:induction false} ConcatUpdate(pieces: seq<seq<char>>, i: nat, x: seq<char>)
    requires i < |pieces|
    ensures multiset(Concat(pieces[i := x])) + multiset(pieces[i]) == multiset(Concat(pieces)) + multiset(x)
    decreases i
  {
    var updated := pieces[i := x];
    if i > 0 {
      var tail := pieces[1..];
      ConcatUpdate(tail, i - 1, x);
      assert updated[1..] == tail[i - 1 := x];
      assert Concat(updated) == pieces[0] + Concat(tail[i - 1 := x]);
      assert Concat(pieces) == pieces[0] + Concat(tail);
      assert tail[i - 1] == pieces[i];
      assert multiset(Concat(updated)) == multiset(pieces[0]) + multiset(Concat(tail[i - 1 := x]));
      assert multiset(Concat(pieces)) == multiset(pieces[0]) + multiset(Concat(tail));
      var a, u, t := multiset(pieces[0]), multiset(Concat(tail[i - 1 := x])), multiset(Concat(tail));
      var si, mx := multiset(pieces[i]), multiset(x);
      assert u + si == t + mx;
      forall c
        ensures ((a + u) + si)[c] == ((a + t) + mx)[c]
      {
        assert (u + si)[c] == (t + mx)[c];
      }
      assert (a + u) + si == (a + t) + mx;
    } else {
      assert updated[1..] == pieces[1..];
      assert Concat(updated) == x + Concat(pieces[1..]);
    }
  }

  /** An element of the concatenation comes from one of the pieces. */
  lemma {:induction false} InConcat<T>(pieces: seq<seq<T>>, x: T)
    ensures x in Concat(pieces) <==> exists i :: 0 <= i < |pieces| && x in pieces[i]
    decreases |pieces|
  {
    if pieces != [] {
      InConcat(pieces[1..], x);
      assert forall i :: 1 <= i < |pieces| ==> pieces[i] == pieces[1..][i - 1];
      if x in Concat(pieces[1..]) {
        var i :| 0 <= i < |pieces[1..]| && x in pieces[1..][i];
        assert x in pieces[i + 1];
      }
    }
  }

  /** The concatenation is as long as the pieces together. */
  lemma {:induction false} ConcatLength<T>(pieces: seq<seq<T>>)
    ensures |Concat(pieces)| == Sum(seq(|pieces|, i requires 0 <= i < |pieces| => |pieces[i]|))
    decreases |pieces|
  {
    var lengths := seq(|pieces|, i requires 0 <= i < |pieces| => |pieces[i]|);
    if pieces != [] {
      ConcatLength(pieces[1..]);
      var rest := seq(|pieces[1..]|, i requires 0 <= i < |pieces[1..]| => |pieces[1..][i]|);
      assert lengths == [|pieces[0]|] + rest;
      SumCons(|pieces[0]|, rest);
    }
  }

  /** In a sum of non-negative terms no term exceeds the sum. */
  lemma {:induction false} TermAtMostSum(s: seq<int>, i: nat)
    requires i < |s|
    requires forall j :: 0 <= j < |s| ==> s[j] >= 0
    ensures 0 <= s[i] <= Sum(s)
    decreases |s|
  {
    var init := s[..|s| - 1];
    assert forall j :: 0 <= j < |init| ==> init[j] == s[j];
    if i < |s| - 1 {
      TermAtMostSum(init, i);
    } else {
      SumNonNegative(init);
    }
  }

  lemma {:induction false} SumNonNegative(s: seq<int>)
    requires forall j :: 0 <= j < |s| ==> s[j] >= 0
    ensures Sum(s) >= 0
    decreases |s|
  {
    if s != [] {
      var init := s[..|s| - 1];
      assert forall j :: 0 <= j < |init| ==> init[j] == s[j];
      SumNonNegative(init);
    }
  }

  lemma SumCons(x: int, s: seq<int>)
    ensures Sum([x] + s) == x + Sum(s)
  {
    SumAppend([x], s);
    assert [x][..0] == [];
  }

  /** A prefix one longer is the prefix and the next element. */
  lemma TakeSnoc<T>(s: seq<T>, k: nat)
    requires k < |s|
    ensures s[..k + 1] == s[..k] + [s[k]]
  {
  }

  /** Dropping the first element of a concatenation drops it from the left part. */
  lemma TailOfAppend<T>(xs: seq<T>, ys: seq<T>)
    requires xs != []
    ensures (xs + ys)[1..] == xs[1..] + ys
  {
  }

  /** The largest element of a non-empty sequence. */
  function Max(s: seq<int>): (m: int)
    requires s != []
    ensures m in s
    ensures forall i :: 0 <= i < |s| ==> s[i] <= m
  {
    if |s| == 1 then s[0]
    else
      var m' := Max(s[..|s| - 1]);
      assert forall i :: 0 <= i < |s| - 1 ==> s[..|s| - 1][i] == s[i];
      if s[|s| - 1] > m' then s[|s| - 1] else m'
  }
}
