/**
 * 2023 day 2: a game line `Game <id>: <draw>; <draw>; ...` lists what was
 * drawn from a bag of red, green and blue cubes; a game is possible when no
 * draw exceeds the three limits, and the answer adds the ids of the
 * possible games. Every parse failure is fatal in the program and an
 * error here.
 */
module CubeConundrum {
  import opened Common
  import opened GoCommon

  /** The cubes of each colour shown in one draw. */
  datatype Reveal = Reveal(red: int, green: int, blue: int)

  const NONE_SHOWN: Reveal := Reveal(0, 0, 0)

  // ------------------------------------------------------------------
  // parseCube and parseReveal
  // ------------------------------------------------------------------

  /** `parseCube`: an amount and a colour separated by exactly one space. */
  function ParseCube(str: string): (r: Result<(int, string)>)
    ensures r.Ok? ==> Count(str, ' ') == 1 && ' ' !in r.value.1
  {
    var items := Split(str, ' ');
    SplitShape(str, ' ');
    if |items| != 2 then Err("cube items not 2:  " + FormatStrings(items))
    else
      match Atoi(items[0])
      case None => Err("Amount is not int: " + AtoiError(items[0]))
      case Some(amount) => Ok((amount, items[1]))
  }

  /** A written amount and colour read back as they were written. */
  lemma ParseCubeRoundTrip(amount: nat, color: string)
    requires amount <= I64_MAX && ' ' !in color
    ensures ParseCube(Decimal(amount) + " " + color) == Ok((amount, color))
  {
    var text := Decimal(amount);
    assert ' ' !in text by {
      assert AllDigits(text);
    }
    SplitAtFirstSeparator(text, ' ', color);
    SplitNoSeparator(color, ' ');
    DecimalValue(amount);
    assert text + " " + color == text + [' '] + color;
  }

  /** The colours a draw may name. */
  predicate KnownColor(color: string)
  {
    color == "red" || color == "green" || color == "blue"
  }

  /** One `<amount> <colour>` item applied to the draw parsed so far. */
  function ApplyCube(rev: Reveal, cube: string): Result<Reveal>
  {
    match ParseCube(cube)
    case Err(e) => Err(e)
    case Ok((amount, color)) =>
      if color == "red" then Ok(rev.(red := amount))
      else if color == "green" then Ok(rev.(green := amount))
      else if color == "blue" then Ok(rev.(blue := amount))
      else Err("Invalid color: " + color)
  }

  /** The items of a draw applied in order, starting from no cubes. */
  function RevealFrom(cubes: seq<string>): Result<Reveal>
  {
    if cubes == [] then Ok(NONE_SHOWN)
    else
      match RevealFrom(cubes[..|cubes| - 1])
      case Err(e) => Err(e)
      case Ok(rev) => ApplyCube(rev, cubes[|cubes| - 1])
  }

  lemma RevealStep(cubes: seq<string>, k: nat, rev: Reveal)
    requires k < |cubes| && RevealFrom(cubes[..k]) == Ok(rev)
    ensures RevealFrom(cubes[..k + 1]) == ApplyCube(rev, cubes[k])
  {
    var front := cubes[..k + 1];
    assert front[..k] == cubes[..k];
    assert front[k] == cubes[k];
  }

  lemma {:induction false} RevealKeepsError(cubes: seq<string>, k: nat)
    requires k <= |cubes| && RevealFrom(cubes[..k]).Err?
    ensures RevealFrom(cubes) == RevealFrom(cubes[..k])
    decreases |cubes| - k
  {
    if k < |cubes| {
      var front := cubes[..k + 1];
      assert front[..k] == cubes[..k];
      RevealKeepsError(cubes, k + 1);
    } else {
      assert cubes[..k] == cubes;
    }
  }

  /** `parseReveal`: items separated by `", "`, each setting the amount of its colour. */
  method ParseReveal(str: string) returns (r: Result<Reveal>)
    ensures r == RevealFrom(SplitOn(str, ", "))
  {
    var cubeStrs := SplitOn(str, ", ");
    var rev := NONE_SHOWN;
    var k := 0;
    while k < |cubeStrs|
      invariant 0 <= k <= |cubeStrs|
      invariant RevealFrom(cubeStrs[..k]) == Ok(rev)
    {
      RevealStep(cubeStrs, k, rev);
      var cube := ParseCube(cubeStrs[k]);
      match cube
      case Err(e) =>
        RevealKeepsError(cubeStrs, k + 1);
        return Err(e);
      case Ok((amount, color)) =>
        if color == "red" {
          rev := rev.(red := amount);
        } else if color == "green" {
          rev := rev.(green := amount);
        } else if color == "blue" {
          rev := rev.(blue := amount);
        } else {
          RevealKeepsError(cubeStrs, k + 1);
          return Err("Invalid color: " + color);
        }
      k := k + 1;
    }
    assert cubeStrs[..k] == cubeStrs;
    return Ok(rev);
  }

  /** An item that parses and names a known colour. */
  predicate GoodCube(cube: string)
  {
    ParseCube(cube).Ok? && KnownColor(ParseCube(cube).value.1)
  }

  /** The amount of the last item naming `color`, or 0 when none does. */
  function LastAmount(cubes: seq<string>, color: string): int
  {
    if cubes == [] then 0
    else
      var cube := ParseCube(cubes[|cubes| - 1]);
      if cube.Ok? && cube.value.1 == color then cube.value.0
      else LastAmount(cubes[..|cubes| - 1], color)
  }

  /**
   * A draw parses exactly when every item does and names a known colour;
   * each colour then holds the amount of its last item, and a colour never
   * named stays 0.
   */
  lemma {:induction false} RevealMeaning(cubes: seq<string>)
    ensures RevealFrom(cubes).Ok? <==> forall i :: 0 <= i < |cubes| ==> GoodCube(cubes[i])
    ensures RevealFrom(cubes).Ok? ==>
      RevealFrom(cubes).value == Reveal(LastAmount(cubes, "red"), LastAmount(cubes, "green"), LastAmount(cubes, "blue"))
    decreases |cubes|
  {
    if cubes != [] {
      var init := cubes[..|cubes| - 1];
      RevealMeaning(init);
      assert forall i :: 0 <= i < |init| ==> init[i] == cubes[i];
    }
  }

  // ------------------------------------------------------------------
  // parseGame
  // ------------------------------------------------------------------

  /** The straight-line part of `parseGame`: the id, and the text after `": "`. */
  function GameHeader(str: string): Result<(int, string)>
  {
    var idAndGame := SplitOn(str, ": ");
    if |idAndGame| != 2 then Err("Not two `: ` items~~ " + FormatStrings(idAndGame))
    else
      var idStrs := Split(idAndGame[0], ' ');
      if |idStrs| != 2 then Err("Not two ` ` items~~ " + FormatStrings(idStrs))
      else
        match Atoi(idStrs[1])
        case None => Err("Game ID isnt integer: " + AtoiError(idStrs[1]))
        case Some(id) => Ok((id, idAndGame[1]))
  }

  /** The draws of a game, in order; the first that fails to parse aborts. */
  function RevealsFrom(pieces: seq<string>): Result<seq<Reveal>>
  {
    if pieces == [] then Ok([])
    else
      match RevealsFrom(pieces[..|pieces| - 1])
      case Err(e) => Err(e)
      case Ok(rs) =>
        match RevealFrom(SplitOn(pieces[|pieces| - 1], ", "))
        case Err(e) => Err(e)
        case Ok(rev) => Ok(rs + [rev])
  }

  lemma RevealsStep(pieces: seq<string>, k: nat, rs: seq<Reveal>)
    requires k < |pieces| && RevealsFrom(pieces[..k]) == Ok(rs)
    ensures RevealsFrom(pieces[..k + 1]) ==
      match RevealFrom(SplitOn(pieces[k], ", "))
      case Err(e) => Err(e)
      case Ok(rev) => Ok(rs + [rev])
  {
    var front := pieces[..k + 1];
    assert front[..k] == pieces[..k];
    assert front[k] == pieces[k];
  }

  lemma {:induction false} RevealsKeepError(pieces: seq<string>, k: nat)
    requires k <= |pieces| && RevealsFrom(pieces[..k]).Err?
    ensures RevealsFrom(pieces) == RevealsFrom(pieces[..k])
    decreases |pieces| - k
  {
    if k < |pieces| {
      var front := pieces[..k + 1];
      assert front[..k] == pieces[..k];
      RevealsKeepError(pieces, k + 1);
    } else {
      assert pieces[..k] == pieces;
    }
  }

  /** The draws of every `"; "`-separated piece, one per piece, each as `ParseReveal` reads it. */
  lemma {:induction false} RevealsShape(pieces: seq<string>)
    requires RevealsFrom(pieces).Ok?
    ensures |RevealsFrom(pieces).value| == |pieces|
    ensures forall i :: 0 <= i < |pieces| ==> RevealFrom(SplitOn(pieces[i], ", ")) == Ok(RevealsFrom(pieces).value[i])
    decreases |pieces|
  {
    if pieces != [] {
      var init, last := pieces[..|pieces| - 1], pieces[|pieces| - 1];
      assert RevealsFrom(init).Ok? && RevealFrom(SplitOn(last, ", ")).Ok?;
      RevealsShape(init);
      var rs, rev := RevealsFrom(init).value, RevealFrom(SplitOn(last, ", ")).value;
      assert RevealsFrom(pieces).value == rs + [rev];
      forall i | 0 <= i < |pieces|
        ensures RevealFrom(SplitOn(pieces[i], ", ")) == Ok(RevealsFrom(pieces).value[i])
      {
        if i < |init| {
          assert init[i] == pieces[i];
          assert RevealsFrom(pieces).value[i] == rs[i];
        } else {
          assert i == |pieces| - 1;
          assert RevealsFrom(pieces).value[i] == rev;
        }
      }
    }
  }

  /** A game as `parseGame` reads it: its id and its draws. */
  function GameOf(str: string): Result<(int, seq<Reveal>)>
  {
    match GameHeader(str)
    case Err(e) => Err(e)
    case Ok((id, rest)) =>
      match RevealsFrom(SplitOn(rest, "; "))
      case Err(e) => Err(e)
      case Ok(rounds) => Ok((id, rounds))
  }

  /** `parseGame`: the header, then every draw appended in order. */
  method ParseGame(str: string) returns (r: Result<(int, seq<Reveal>)>)
    ensures r == GameOf(str)
  {
    var header := GameHeader(str);
    if header.Err? {
      return Err(header.msg);
    }
    var (id, rest) := header.value;
    var revealStrs := SplitOn(rest, "; ");
    var draws: seq<Reveal> := [];
    var k := 0;
    while k < |revealStrs|
      invariant 0 <= k <= |revealStrs|
      invariant RevealsFrom(revealStrs[..k]) == Ok(draws)
    {
      RevealsStep(revealStrs, k, draws);
      var rev := ParseReveal(revealStrs[k]);
      if rev.Err? {
        RevealsKeepError(revealStrs, k + 1);
        return Err(rev.msg);
      }
      draws := draws + [rev.value];
      k := k + 1;
    }
    assert revealStrs[..k] == revealStrs;
    return Ok((id, draws));
  }

  /**
   * A header written as `<word> <id>: ` is read back, with the text after
   * it; the word is not checked to be `Game`.
   */
  lemma GameHeaderRoundTrip(word: string, id: nat, rest: string)
    requires ' ' !in word && ':' !in word && ':' !in rest && id <= I64_MAX
    ensures GameHeader(word + " " + Decimal(id) + ": " + rest) == Ok((id, rest))
  {
    var digits := Decimal(id);
    var head := word + " " + digits;
    var str := word + " " + digits + ": " + rest;
    assert ':' !in digits && ' ' !in digits by {
      assert AllDigits(digits);
    }
    assert SplitOn(str, ": ") == [head, rest] by {
      assert ':' !in head;
      SplitOnAtFirstSeparator(head, ": ", rest);
      SplitOnNoSeparator(rest, ": ");
      assert head + ": " + rest == str;
    }
    assert Split(head, ' ') == [word, digits] by {
      SplitAtFirstSeparator(word, ' ', digits);
      SplitNoSeparator(digits, ' ');
      assert word + [' '] + digits == head;
    }
    assert Atoi(digits) == Some(id) by {
      DecimalValue(id);
    }
  }

  // ------------------------------------------------------------------
  // gameIsValid and the answer
  // ------------------------------------------------------------------

  /** A draw within all three limits. */
  predicate Within(r: Reveal, rLim: int, gLim: int, bLim: int)
  {
    r.red <= rLim && r.green <= gLim && r.blue <= bLim
  }

  /** `gameIsValid`: true exactly when every draw is within all three limits. */
  method GameIsValid(game: seq<Reveal>, rLim: int, gLim: int, bLim: int) returns (valid: bool)
    ensures valid <==> forall i :: 0 <= i < |game| ==> Within(game[i], rLim, gLim, bLim)
  {
    var k := 0;
    while k < |game|
      invariant 0 <= k <= |game|
      invariant forall i :: 0 <= i < k ==> Within(game[i], rLim, gLim, bLim)
    {
      var r := game[k];
      if r.red > rLim {
        return false;
      }
      if r.green > gLim {
        return false;
      }
      if r.blue > bLim {
        return false;
      }
      k := k + 1;
    }
    return true;
  }

  /** A game none of whose draws exceeds a limit. */
  predicate Possible(game: seq<Reveal>, rLim: int, gLim: int, bLim: int)
  {
    forall i :: 0 <= i < |game| ==> Within(game[i], rLim, gLim, bLim)
  }

  /** Raising a limit never makes a possible game impossible; a game without draws is possible. */
  lemma PossibleMonotone(game: seq<Reveal>, rLim: int, gLim: int, bLim: int, rLim': int, gLim': int, bLim': int)
    requires Possible(game, rLim, gLim, bLim)
    requires rLim <= rLim' && gLim <= gLim' && bLim <= bLim'
    ensures Possible(game, rLim', gLim', bLim')
    ensures Possible([], rLim, gLim, bLim)
  {
  }

  /** The text of a line without its terminating newline (`line[:len(line)-1]`). */
  function Stripped(line: string): string
  {
    if line == [] then [] else line[..|line| - 1]
  }

  /** Every line read as a game, in order; the first that fails to parse aborts. */
  function GamesFrom(lines: seq<string>): Result<seq<(int, seq<Reveal>)>>
  {
    if lines == [] then Ok([])
    else
      match GamesFrom(lines[..|lines| - 1])
      case Err(e) => Err(e)
      case Ok(games) =>
        match GameOf(Stripped(lines[|lines| - 1]))
        case Err(e) => Err(e)
        case Ok(game) => Ok(games + [game])
  }

  /** The sum of the ids of the possible games. */
  function PossibleIdSum(games: seq<(int, seq<Reveal>)>, rLim: int, gLim: int, bLim: int): int
  {
    if games == [] then 0
    else
      var last := games[|games| - 1];
      PossibleIdSum(games[..|games| - 1], rLim, gLim, bLim) + (if Possible(last.1, rLim, gLim, bLim) then last.0 else 0)
  }

  /** The answer: the ids of the possible games added up, or the first parse error. */
  function IdTotal(lines: seq<string>, rLim: int, gLim: int, bLim: int): Result<int>
  {
    match GamesFrom(lines)
    case Err(e) => Err(e)
    case Ok(games) => Ok(PossibleIdSum(games, rLim, gLim, bLim))
  }

  lemma GamesStep(lines: seq<string>, k: nat, games: seq<(int, seq<Reveal>)>)
    requires k < |lines| && GamesFrom(lines[..k]) == Ok(games)
    ensures GamesFrom(lines[..k + 1]) ==
      match GameOf(Stripped(lines[k]))
      case Err(e) => Err(e)
      case Ok(game) => Ok(games + [game])
  {
    var front := lines[..k + 1];
    assert front[..k] == lines[..k];
    assert front[k] == lines[k];
  }

  lemma {:induction false} GamesKeepError(lines: seq<string>, k: nat)
    requires k <= |lines| && GamesFrom(lines[..k]).Err?
    ensures GamesFrom(lines) == GamesFrom(lines[..k])
    decreases |lines| - k
  {
    if k < |lines| {
      var front := lines[..k + 1];
      assert front[..k] == lines[..k];
      GamesKeepError(lines, k + 1);
    } else {
      assert lines[..k] == lines;
    }
  }

  lemma PossibleIdSumSnoc(games: seq<(int, seq<Reveal>)>, game: (int, seq<Reveal>), rLim: int, gLim: int, bLim: int)
    ensures PossibleIdSum(games + [game], rLim, gLim, bLim)
      == PossibleIdSum(games, rLim, gLim, bLim) + (if Possible(game.1, rLim, gLim, bLim) then game.0 else 0)
  {
    assert (games + [game])[..|games|] == games;
  }

  /**
   * `main`'s loop: each line read until end of input is parsed as a game,
   * and the ids of the possible ones are added up.
   */
  method SumPossibleIds(input: string, rLim: int, gLim: int, bLim: int) returns (r: Result<int>)
    ensures r == IdTotal(TerminatedLines(input), rLim, gLim, bLim)
  {
    var lines := TerminatedLines(input);
    ghost var games: seq<(int, seq<Reveal>)> := [];
    var n := 0;
    var k := 0;
    while k < |lines|
      invariant 0 <= k <= |lines|
      invariant GamesFrom(lines[..k]) == Ok(games)
      invariant n == PossibleIdSum(games, rLim, gLim, bLim)
    {
      var line := lines[k][..|lines[k]| - 1];
      GamesStep(lines, k, games);
      var game := ParseGame(line);
      if game.Err? {
        GamesKeepError(lines, k + 1);
        return Err(game.msg);
      }
      var (id, draws) := game.value;
      var valid := GameIsValid(draws, rLim, gLim, bLim);
      PossibleIdSumSnoc(games, game.value, rLim, gLim, bLim);
      if valid {
        n := n + id;
      }
      games := games + [game.value];
      k := k + 1;
    }
    assert lines[..k] == lines;
    return Ok(n);
  }

  /** With ids that are not negative, the answer lies between 0 and the sum of all ids. */
  lemma {:induction false} PossibleIdSumBounds(games: seq<(int, seq<Reveal>)>, rLim: int, gLim: int, bLim: int)
    requires forall i :: 0 <= i < |games| ==> games[i].0 >= 0
    ensures 0 <= PossibleIdSum(games, rLim, gLim, bLim) <= Sum(seq(|games|, i requires 0 <= i < |games| => games[i].0))
    decreases |games|
  {
    if games != [] {
      var init := games[..|games| - 1];
      assert forall i :: 0 <= i < |init| ==> init[i] == games[i];
      PossibleIdSumBounds(init, rLim, gLim, bLim);
      var ids := seq(|games|, i requires 0 <= i < |games| => games[i].0);
      assert ids[..|ids| - 1] == seq(|init|, i requires 0 <= i < |init| => init[i].0);
    }
  }

  /** With limits no draw exceeds, every game counts and the answer is the sum of all ids. */
  lemma {:induction false} AllPossible(games: seq<(int, seq<Reveal>)>, rLim: int, gLim: int, bLim: int)
    requires forall i :: 0 <= i < |games| ==> Possible(games[i].1, rLim, gLim, bLim)
    ensures PossibleIdSum(games, rLim, gLim, bLim) == Sum(seq(|games|, i requires 0 <= i < |games| => games[i].0))
    decreases |games|
  {
    if games != [] {
      var init := games[..|games| - 1];
      assert forall i :: 0 <= i < |init| ==> init[i] == games[i];
      AllPossible(init, rLim, gLim, bLim);
      var ids := seq(|games|, i requires 0 <= i < |games| => games[i].0);
      assert ids[..|ids| - 1] == seq(|init|, i requires 0 <= i < |init| => init[i].0);
    }
  }
}
