/**
 * 2022 day 2, second part: each line names the opponent's hand and the
 * desired outcome; the player picks the hand that achieves it, and a game
 * scores the outcome plus the value of that hand.
 */
module RockPaperScissorsOutcome {
  import opened Common
  import opened RockPaperScissors

  /** `X` loses (0), `Y` draws (3), `Z` wins (6); anything else is an error. */
  function ScoreOutcome(s: string): (r: Result<nat>)
    ensures r.Ok? <==> s in {"X", "Y", "Z"}
    ensures r.Ok? ==> r.value in {0, 3, 6}
  {
    if s == "X" then Ok(0)
    else if s == "Y" then Ok(3)
    else if s == "Z" then Ok(6)
    else Err("Invalid outcome: " + s)
  }

  /** The `{:?}` text of a hand: its variant name. */
  function HandName(h: Hand): string
  {
    match h
    case Rock => "Rock"
    case Paper => "Paper"
    case Scissors => "Scissors"
  }

  /** `score_against` read backwards: the hand that scores `outcome` against `opp`. */
  function HandForOutcome(opp: Hand, outcome: nat): (r: Result<Hand>)
    ensures r.Ok? <==> outcome in {0, 3, 6}
  {
    match (opp, outcome)
    case (Rock, 3) => Ok(Rock)
    case (Paper, 0) => Ok(Rock)
    case (Scissors, 6) => Ok(Rock)
    case (Rock, 6) => Ok(Paper)
    case (Paper, 3) => Ok(Paper)
    case (Scissors, 0) => Ok(Paper)
    case (Rock, 0) => Ok(Scissors)
    case (Paper, 6) => Ok(Scissors)
    case (Scissors, 3) => Ok(Scissors)
    case _ => Err("Invalid game: (" + HandName(opp) + ", " + Decimal(outcome) + ")")
  }

  /** The chosen hand really scores the desired outcome, and it is the only hand that does. */
  lemma HandForOutcomeInvertsScore(opp: Hand, outcome: nat, h: Hand)
    requires outcome in {0, 3, 6}
    ensures ScoreAgainst(HandForOutcome(opp, outcome).value, opp) == outcome
    ensures ScoreAgainst(h, opp) == outcome ==> h == HandForOutcome(opp, outcome).value
    ensures HandForOutcome(opp, ScoreAgainst(h, opp)) == Ok(h)
  {
  }

  /** For a fixed opponent the three outcomes call for three different hands. */
  lemma OutcomesNeedDistinctHands(opp: Hand, o1: nat, o2: nat)
    requires o1 in {0, 3, 6} && o2 in {0, 3, 6} && o1 != o2
    ensures HandForOutcome(opp, o1).value != HandForOutcome(opp, o2).value
  {
    HandForOutcomeInvertsScore(opp, o1, HandForOutcome(opp, o1).value);
    HandForOutcomeInvertsScore(opp, o2, HandForOutcome(opp, o2).value);
  }

  /** Only `A`, `B` and `C` name the opponent's hand here. */
  function HandFrom(s: string): (r: Result<Hand>)
    ensures r.Ok? <==> s in {"A", "B", "C"}
    ensures r.Ok? ==> r == ReadHand(s)
  {
    if s == "A" then Ok(Rock)
    else if s == "B" then Ok(Paper)
    else if s == "C" then Ok(Scissors)
    else Err("Invalid hand: " + s)
  }

  /**
   * One game line: exactly two tokens, the opponent's hand and the desired
   * outcome; anything else panics. The game scores the outcome plus the
   * value of the hand that achieves it against the opponent.
   */
  function GameScore(line: string): (r: Result<nat>)
    ensures r.Ok? <==> |Split(line, ' ')| == 2 && HandFrom(Split(line, ' ')[0]).Ok? && ScoreOutcome(Split(line, ' ')[1]).Ok?
    ensures r.Ok? ==> 1 <= r.value <= 9
  {
    var tokens := Split(line, ' ');
    if |tokens| != 2 then Err("game doesn't have two hands")
    else match (HandFrom(tokens[0]), ScoreOutcome(tokens[1]))
      case (Err(e), _) => Err("Opponent: " + e)
      case (_, Err(e)) => Err("Couldn't score outcome: " + e)
      case (Ok(opp), Ok(outcome)) =>
        // A scored outcome is 0, 3 or 6, so a hand for it always exists.
        Ok(outcome + Value(HandForOutcome(opp, outcome).value))
  }

  /**
   * What a parsed game line scores: the desired outcome plus the value of
   * any hand that reaches it against the opponent, and such a hand exists.
   */
  lemma GameScoreMeaning(line: string, h: Hand)
    requires GameScore(line).Ok?
    ensures ScoreAgainst(HandForOutcome(HandFrom(Split(line, ' ')[0]).value, ScoreOutcome(Split(line, ' ')[1]).value).value,
                         HandFrom(Split(line, ' ')[0]).value) == ScoreOutcome(Split(line, ' ')[1]).value
    ensures ScoreAgainst(h, HandFrom(Split(line, ' ')[0]).value) == ScoreOutcome(Split(line, ' ')[1]).value ==>
      GameScore(line).value == ScoreOutcome(Split(line, ' ')[1]).value + Value(h)
  {
    var tokens := Split(line, ' ');
    HandForOutcomeInvertsScore(HandFrom(tokens[0]).value, ScoreOutcome(tokens[1]).value, h);
  }

  /** The score of every game, 0 standing in for a game that does not parse. */
  function Scores(games: seq<string>): (s: seq<int>)
    ensures |s| == |games|
    ensures forall i :: 0 <= i < |games| ==> GameScore(games[i]).Ok? ==> s[i] == GameScore(games[i]).value
  {
    seq(|games|, i requires 0 <= i < |games| => match GameScore(games[i]) case Ok(v) => v case Err(_) => 0)
  }

  /** The sum of the games' scores, from the last game to the first, as in the first part. */
  function SumScores(games: seq<string>): (r: Result<nat>)
    ensures r.Ok? <==> forall i :: 0 <= i < |games| ==> GameScore(games[i]).Ok?
    ensures r.Ok? ==> r.value == Sum(Scores(games))
    ensures r.Ok? ==> r.value <= 9 * |games|
  {
    if games == [] then Ok(0)
    else
      var front := games[..|games| - 1];
      var rest := SumScores(front);
      assert forall i :: 0 <= i < |front| ==> games[i] == front[i];
      assert Scores(games)[..|front|] == Scores(front);
      match GameScore(games[|games| - 1])
      case Err(e) => Err(e)
      case Ok(v) => if rest.Ok? then Ok(rest.value + v) else rest
  }

  /** As in the first part, the last piece of the split is skipped. */
  function TotalScore(data: string): (r: Result<nat>)
    ensures var lines := Split(data, '\n');
      r.Ok? <==> forall i :: 0 <= i < |lines| - 1 ==> GameScore(lines[i]).Ok?
    ensures var lines := Split(data, '\n');
      r.Ok? ==> r.value == Sum(Scores(lines[..|lines| - 1]))
  {
    var lines := Split(data, '\n');
    var games := lines[..|lines| - 1];
    assert forall i :: 0 <= i < |games| ==> games[i] == lines[i];
    SumScores(games)
  }
}
