/** `main`: the operator's session, with the console answers given up front as a script. */
module Session {
  import opened Base
  import opened Text
  import opened Schedule
  import opened Converter
  import opened Kelly
  import opened Evaluator

  /** The verdict on one answer to "Which pitcher or team?". */
  datatype PitcherCheck = Accepted(pit: string) | Rejected | Quit | Failed(error: Error)

  /** One round of the outer loop: the answers to the pitcher prompt up to the accepted one, the
      strike-out line, the sportsbook odds for over and under, and the answer to "keep checking?". */
  datatype Turn = Turn(pitcherAnswers: seq<string>, line: string, overOdds: real, underOdds: real, keepChecking: string)

  /** How a session ends: declined at the first prompt, quit with "q", ended by an exception, or
      with the accumulated bets handed to the ledger file. */
  datatype Outcome = Declined | UserQuit | Crashed(error: Error) | Saved(bets: seq<BetRecord>)

  /** `calc_odds_df.name.tolist()`. */
  function NameColumn(table: seq<OddsRow>): (r: seq<string>)
    ensures forall p :: p in r <==> exists row :: row in table && row.name == p
  {
    if table == [] then [] else [table[0].name] + NameColumn(table[1..])
  }

  /** Lines 171-172: a three-character answer is a team code only if its upper-case form is listed. */
  predicate IsListedTeam(pit: string) {
    Upper(pit) in TeamList
  }

  /** Lines 170-183, one answer: lower-case it; a three-character answer must be a listed team code
      (and then `.item()` needs exactly one row of that team); "q" quits; anything else must be a
      name in the table. */
  function CheckPitcher(table: seq<OddsRow>, answer: string): (r: PitcherCheck)
    ensures r.Accepted? ==> r.pit == Lower(answer)
    ensures r.Quit? <==> Lower(answer) == "q"
    ensures r.Failed? ==> |answer| == 3 && r.error.NotExactlyOneRow?
    ensures |answer| == 3 ==> (r.Rejected? <==> !IsListedTeam(Lower(answer)))
    ensures |answer| == 3 ==>
              (r.Accepted? <==> IsListedTeam(Lower(answer)) && exists j :: UniqueAt(table, Lower(answer), j))
    ensures |answer| != 3 && Lower(answer) != "q" ==>
              (r.Accepted? <==> exists row :: row in table && row.name == Lower(answer))
    ensures |answer| != 3 && Lower(answer) != "q" ==> (r.Accepted? || r.Rejected?)
  {
    var p := Lower(answer);
    if |p| == 3 then
      if !IsListedTeam(p) then Rejected
      else
        match FindRow(table, p)
        case Err(e) => Failed(e)
        case Ok(_) => Accepted(p)
    else if p == "q" then Quit
    else if p !in NameColumn(table) then Rejected
    else Accepted(p)
  }

  /** The inner loop of lines 169-183: the first answer that is not rejected decides; running out of
      answers is `input()` at end of file. */
  function ChosenPitcher(table: seq<OddsRow>, answers: seq<string>): (r: PitcherCheck)
    ensures !r.Rejected?
    ensures r == Failed(EndOfInput) <==> forall k :: 0 <= k < |answers| ==> CheckPitcher(table, answers[k]).Rejected?
    ensures r != Failed(EndOfInput) ==>
              exists k :: 0 <= k < |answers| && r == CheckPitcher(table, answers[k]) &&
                forall j :: 0 <= j < k ==> CheckPitcher(table, answers[j]).Rejected?
  {
    if answers == [] then Failed(EndOfInput)
    else
      var c := CheckPitcher(table, answers[0]);
      if c.Rejected? then ChosenPitcher(table, answers[1..]) else c
  }

  /** The outer loop of lines 162-200 from the given turn on, with the bets saved so far. */
  function SessionFrom(table: seq<OddsRow>, tbr: int, turns: seq<Turn>, saved: seq<BetRecord>): Outcome
    decreases |turns|
  {
    if turns == [] then Crashed(EndOfInput)
    else
      var turn := turns[0];
      match ChosenPitcher(table, turn.pitcherAnswers)
      case Quit => UserQuit
      case Failed(e) => Crashed(e)
      case Rejected => Crashed(EndOfInput)
      case Accepted(pit) =>
        match LineBets(table, tbr, pit, Lower(turn.line), turn.overOdds, turn.underOdds)
        case Err(e) => Crashed(e)
        case Ok(bets) =>
          if Lower(turn.keepChecking) == "n" then Saved(saved + bets)
          else SessionFrom(table, tbr, turns[1..], saved + bets)
  }

  /** Lines 152-204 after the odds table is built: anything but "y" at the first prompt ends the
      program; otherwise the outer loop runs until the operator answers "n". */
  function SessionOf(table: seq<OddsRow>, start: string, tbr: int, turns: seq<Turn>): Outcome {
    if Lower(start) != "y" then Declined else SessionFrom(table, tbr, turns, [])
  }

  /** Lines 152-204: the two `while` loops, updating `value_checking`, `checking_pitcher` and
      `saved_bets` as the source does. */
  method RunSession(table: seq<OddsRow>, start: string, tbr: int, turns: seq<Turn>) returns (outcome: Outcome)
    ensures outcome == SessionOf(table, start, tbr, turns)
  {
    if Lower(start) != "y" {
      return Declined;
    }
    var saved: seq<BetRecord> := [];
    var valueChecking := true;
    var k := 0;
    while valueChecking
      invariant 0 <= k <= |turns|
      invariant SessionOf(table, start, tbr, turns) ==
                  if valueChecking then SessionFrom(table, tbr, turns[k..], saved) else Saved(saved)
      decreases |turns| - k, valueChecking
    {
      if k == |turns| {
        return Crashed(EndOfInput);
      }
      var turn := turns[k];
      var answers := turn.pitcherAnswers;
      var pitcher := "";
      var checkingPitcher := true;
      var a := 0;
      while checkingPitcher
        invariant 0 <= a <= |answers|
        invariant checkingPitcher ==> ChosenPitcher(table, answers) == ChosenPitcher(table, answers[a..])
        invariant !checkingPitcher ==> ChosenPitcher(table, answers) == Accepted(pitcher)
        decreases |answers| - a, checkingPitcher
      {
        if a == |answers| {
          return Crashed(EndOfInput);
        }
        assert answers[a..][1..] == answers[a + 1..];
        var p := Lower(answers[a]);
        if |p| == 3 {
          if !IsListedTeam(p) {
            a := a + 1;
          } else {
            var found := FindRow(table, p);
            if found.Err? {
              return Crashed(found.error);
            }
            pitcher := p;
            checkingPitcher := false;
          }
        } else if p == "q" {
          return UserQuit;
        } else if p !in NameColumn(table) {
          a := a + 1;
        } else {
          pitcher := p;
          checkingPitcher := false;
        }
      }
      var bets := KellyCrit(table, tbr, pitcher, Lower(turn.line), turn.overOdds, turn.underOdds);
      if bets.Err? {
        return Crashed(bets.error);
      }
      assert turns[k..][1..] == turns[k + 1..];
      saved := saved + bets.value;
      if Lower(turn.keepChecking) == "n" {
        valueChecking := false;
      }
      k := k + 1;
    }
    return Saved(saved);
  }

  /** Lines 171-173: a three-character answer, in any case, is turned away exactly when its
      upper-case form is not a listed team code, and then before the table is consulted. */
  lemma TeamCodeValidation(table: seq<OddsRow>, answer: string)
    requires |answer| == 3
    ensures CheckPitcher(table, answer).Rejected? <==> Upper(answer) !in TeamList
    ensures Upper(answer) !in TeamList ==> forall other :: CheckPitcher(other, answer) == Rejected
  {
    UpperOfLower(answer);
  }

  /** Lines 174-177: a listed team code is accepted, lower-cased, when exactly one row of the table
      plays for that team. */
  lemma ListedTeamAccepted(table: seq<OddsRow>, answer: string)
    requires |answer| == 3 && Upper(answer) in TeamList
    requires exists j :: UniqueAt(table, Lower(answer), j)
    ensures CheckPitcher(table, answer) == Accepted(Lower(answer))
  {
    UpperOfLower(answer);
  }

  /** Saving only ever appends: the bets saved so far stay in front, in order. */
  lemma {:induction false} SessionKeepsSaved(table: seq<OddsRow>, tbr: int, turns: seq<Turn>, saved: seq<BetRecord>)
    requires SessionFrom(table, tbr, turns, saved).Saved?
    ensures saved <= SessionFrom(table, tbr, turns, saved).bets
  {
    var turn := turns[0];
    var pit := ChosenPitcher(table, turn.pitcherAnswers).pit;
    var bets := LineBets(table, tbr, pit, Lower(turn.line), turn.overOdds, turn.underOdds).value;
    if Lower(turn.keepChecking) != "n" {
      SessionKeepsSaved(table, tbr, turns[1..], saved + bets);
      assert saved <= saved + bets;
    }
  }

  /** Every bet a session saves names the pitcher and team of a row of the odds table. */
  lemma {:induction false} SessionBetsFromTable(table: seq<OddsRow>, tbr: int, turns: seq<Turn>, saved: seq<BetRecord>)
    requires forall b :: b in saved ==> exists row :: row in table && row.name == b.name && row.team == b.team
    requires SessionFrom(table, tbr, turns, saved).Saved?
    ensures forall b :: b in SessionFrom(table, tbr, turns, saved).bets ==>
              exists row :: row in table && row.name == b.name && row.team == b.team
  {
    var turn := turns[0];
    var pit := ChosenPitcher(table, turn.pitcherAnswers).pit;
    var line := Lower(turn.line);
    LineBetsFromTable(table, tbr, pit, line, turn.overOdds, turn.underOdds);
    var bets := LineBets(table, tbr, pit, line, turn.overOdds, turn.underOdds).value;
    if Lower(turn.keepChecking) != "n" {
      SessionBetsFromTable(table, tbr, turns[1..], saved + bets);
    }
  }

  /** A session that reaches the ledger write saved only bets about pitchers of the table. */
  lemma SessionOfBetsFromTable(table: seq<OddsRow>, start: string, tbr: int, turns: seq<Turn>)
    requires SessionOf(table, start, tbr, turns).Saved?
    ensures forall b :: b in SessionOf(table, start, tbr, turns).bets ==>
              exists row :: row in table && row.name == b.name && row.team == b.team
  {
    SessionBetsFromTable(table, tbr, turns, []);
  }
}
