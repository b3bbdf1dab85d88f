/**
 * 2022 day 2, first part: each line names the opponent's hand and the
 * player's hand; a game scores the outcome (0, 3 or 6) plus the value of
 * the player's hand.
 */
module RockPaperScissors {
  import opened Common

  datatype Hand = Rock | Paper | Scissors

  /** The enum discriminant: Rock 1, Paper 2, Scissors 3. */
  function Value(h: Hand): nat
  {
    match h
    case Rock => 1
    case Paper => 2
    case Scissors => 3
  }

  /** Reference rule, independent of the score table: each hand beats the one whose value is one below it, cyclically. */
  predicate Beats(a: Hand, b: Hand)
  {
    (Value(a) - Value(b) + 3) % 3 == 1
  }

  /** The outcome score of `self` playing against `opp`. */
  function ScoreAgainst(self: Hand, opp: Hand): (r: nat)
  {
    match (self, opp)
    case (Rock, Scissors) => 6
    case (Paper, Rock) => 6
    case (Scissors, Paper) => 6
    case (Rock, Paper) => 0
    case (Paper, Scissors) => 0
    case (Scissors, Rock) => 0
    case (Rock, Rock) => 3
    case (Paper, Paper) => 3
    case (Scissors, Scissors) => 3
  }

  /** The table is the game: 6 for a win, 3 for a draw, 0 for a loss. */
  lemma ScoreAgainstIsOutcome(a: Hand, b: Hand)
    ensures ScoreAgainst(a, b) == if a == b then 3 else if Beats(a, b) then 6 else 0
    ensures ScoreAgainst(a, b) + ScoreAgainst(b, a) == 6
    ensures Beats(a, b) ==> !Beats(b, a)
    ensures a != b ==> Beats(a, b) || Beats(b, a)
  {
  }

  /** `A`/`X` are Rock, `B`/`Y` Paper, `C`/`Z` Scissors; anything else is an error. */
  function ReadHand(s: string): (r: Result<Hand>)
    ensures r.Ok? <==> s in {"A", "B", "C", "X", "Y", "Z"}
    ensures r.Ok? ==> (r.value == Rock <==> s in {"A", "X"})
    ensures r.Ok? ==> (r.value == Paper <==> s in {"B", "Y"})
  {
    if s == "A" || s == "X" then Ok(Rock)
    else if s == "B" || s == "Y" then Ok(Paper)
    else if s == "C" || s == "Z" then Ok(Scissors)
    else Err("Invalid hand: " + s)
  }

  /**
   * One game line: exactly two space-separated hands, the opponent's and
   * the player's; anything else panics. The game scores the outcome for
   * the player (6 for a win, 3 for a draw, 0 for a loss) plus the value of
   * the player's hand.
   */
  function GameScore(line: string): (r: Result<nat>)
    ensures r.Ok? <==> |Split(line, ' ')| == 2 && ReadHand(Split(line, ' ')[0]).Ok? && ReadHand(Split(line, ' ')[1]).Ok?
    ensures r.Ok? ==>
      r.value == Value(ReadHand(Split(line, ' ')[1]).value) +
        (if ReadHand(Split(line, ' ')[1]).value == ReadHand(Split(line, ' ')[0]).value then 3
         else if Beats(ReadHand(Split(line, ' ')[1]).value, ReadHand(Split(line, ' ')[0]).value) then 6
         else 0)
    ensures r.Ok? ==> 1 <= r.value <= 9
  {
    var tokens := Split(line, ' ');
    if |tokens| != 2 then Err("game doesn't have two hands")
    else match (ReadHand(tokens[0]), ReadHand(tokens[1]))
      case (Ok(opp), Ok(player)) => Ok(ScoreAgainst(player, opp) + Value(player))
      case (Err(e), _) => Err("Opponent: " + e)
      case (_, Err(e)) => Err("Player: " + e)
  }

  /** The score of every game, 0 standing in for a game that does not parse. */
  function Scores(games: seq<string>): (s: seq<int>)
    ensures |s| == |games|
    ensures forall i :: 0 <= i < |games| ==> GameScore(games[i]).Ok? ==> s[i] == GameScore(games[i]).value
  {
    seq(|games|, i requires 0 <= i < |games| => match GameScore(games[i]) case Ok(v) => v case Err(_) => 0)
  }

  /**
   * The sum of the games' scores, taken from the last game to the first;
   * the first bad game met, so the last one of the input, aborts.
   */
  function SumScores(games: seq<string>): (r: Result<nat>)
    ensures r.Ok? <==> forall i :: 0 <= i < |games| ==> GameScore(games[i]).Ok?
    ensures r.Ok? ==> r.value == Sum(Scores(games))
    ensures r.Ok? ==> r.value <= 9 * |games|
  {
    if games == [] then Ok(0)
    else
      var front := games[..|games| - 1];
      var rest := SumScores(front);
      assert forall i :: 0 <= i < |front| ==> games[i] == front[i];
      assert Scores(games)[..|front|] == Scores(front);
      match GameScore(games[|games| - 1])
      case Err(e) => Err(e)
      case Ok(v) => if rest.Ok? then Ok(rest.value + v) else rest
  }

  /** An error comes from the last bad game. */
  lemma {:induction false} SumScoresReportsLastBadGame(games: seq<string>)
    requires SumScores(games).Err?
    ensures exists i :: (0 <= i < |games| && GameScore(games[i]) == Err(SumScores(games).msg) &&
                         forall j :: i < j < |games| ==> GameScore(games[j]).Ok?)
  {
    var last := |games| - 1;
    var front := games[..last];
    if GameScore(games[last]).Ok? {
      SumScoresReportsLastBadGame(front);
      var i :| 0 <= i < |front| && GameScore(front[i]) == Err(SumScores(front).msg) &&
        (forall j :: i < j < |front| ==> GameScore(front[j]).Ok?);
      assert GameScore(games[i]) == Err(SumScores(games).msg);
      assert forall j :: i < j < |games| ==> GameScore(games[j]).Ok? by {
        forall j | i < j < |games|
          ensures GameScore(games[j]).Ok?
        {
          if j < last {
            assert games[j] == front[j];
          }
        }
      }
    }
  }

  /**
   * The total: the input's lines without the last piece of the split
   * (the empty piece after the final newline, or whatever else stands last).
   */
  function TotalScore(data: string): (r: Result<nat>)
    ensures var lines := Split(data, '\n');
      r.Ok? <==> forall i :: 0 <= i < |lines| - 1 ==> GameScore(lines[i]).Ok?
    ensures var lines := Split(data, '\n');
      r.Ok? ==> r.value == Sum(Scores(lines[..|lines| - 1]))
  {
    var lines := Split(data, '\n');
    var games := lines[..|lines| - 1];
    assert forall i :: 0 <= i < |games| ==> games[i] == lines[i];
    SumScores(games)
  }

  /** With a final newline every game counts. */
  lemma TrailingNewlineKeepsEveryGame(games: seq<string>)
    requires forall i :: 0 <= i < |games| ==> '\n' !in games[i]
    ensures TotalScore(Join(games + [""], "\n")) == SumScores(games)
  {
    var lines := games + [""];
    AppendedLinesHaveNoNewline(games);
    assert lines[..|lines| - 1] == games;
    SplitJoin(lines, '\n');
    TotalScoreOfSplit(lines, Join(lines, "\n"));
  }

  lemma AppendedLinesHaveNoNewline(games: seq<string>)
    requires forall i :: 0 <= i < |games| ==> '\n' !in games[i]
    ensures forall i :: 0 <= i < |games| + 1 ==> '\n' !in (games + [""])[i]
  {
    forall i | 0 <= i < |games| + 1
      ensures '\n' !in (games + [""])[i]
    {
      if i < |games| {
        assert (games + [""])[i] == games[i];
      }
    }
  }

  /** Without a final newline the last game is lost. */
  lemma MissingNewlineLosesLastGame(games: seq<string>)
    requires |games| >= 1
    requires forall i :: 0 <= i < |games| ==> '\n' !in games[i]
    ensures TotalScore(Join(games, "\n")) == SumScores(games[..|games| - 1])
  {
    SplitJoin(games, '\n');
    TotalScoreOfSplit(games, Join(games, "\n"));
  }

  lemma TotalScoreOfSplit(lines: seq<string>, data: string)
    requires Split(data, '\n') == lines
    ensures TotalScore(data) == SumScores(lines[..|lines| - 1])
  {
  }

  /** The sample's games `A Y`, `B X` and `C Z` score 8, 1 and 6. */
  lemma SampleGames()
    ensures GameScore("A Y") == Ok(8)
    ensures GameScore("B X") == Ok(1)
    ensures GameScore("C Z") == Ok(6)
  {
    SplitTwo('A', 'Y');
    SplitTwo('B', 'X');
    SplitTwo('C', 'Z');
  }

  lemma SplitTwo(a: char, b: char)
    requires a != ' ' && b != ' '
    ensures Split([a, ' ', b], ' ') == [[a], [b]]
  {
    SplitAtFirstSeparator([a], ' ', [b]);
    SplitNoSeparator([b], ' ');
    assert [a, ' ', b] == [a] + [' '] + [b];
  }
}
