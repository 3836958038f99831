/** `kelly_crit_calc`: the Kelly criterion for one side of an over/under line, over exact reals. */
module Kelly {
  import opened Base

  /** A recommended bet: `edge` in percent, `bet` and `to_win` in bankroll units, `odds` decimal. */
  datatype BetRecord = BetRecord(name: string, team: string, edge: real, bet: real, odds: real, toWin: real)

  /** Lines 56-61: `B = d-1`, `P = 1/i`, `Q = 1-P`, fraction `(B*P-Q)/B`, for sportsbook decimal
      odds `d` and implied decimal odds `i`. */
  function KellyFraction(d: real, i: real): real
    requires i != 0.0 && d != 1.0
  {
    var b := d - 1.0;
    var p := 1.0 / i;
    var q := 1.0 - p;
    (b * p - q) / b
  }

  /** The fraction in closed form: `(d - i) / (i * (d - 1))`. */
  lemma KellyFractionClosedForm(d: real, i: real)
    requires i != 0.0 && d != 1.0
    ensures KellyFraction(d, i) == (d - i) / (i * (d - 1.0))
  {
    var b := d - 1.0;
    var p := 1.0 / i;
    assert p * i == 1.0;
    assert b * p - (1.0 - p) == (d - i) * p by {
      assert b * p - (1.0 - p) == d * p - 1.0;
      assert (d - i) * p == d * p - i * p;
    }
    assert (d - i) * p / b == (d - i) / (i * b) by {
      assert (d - i) * p * (i * b) == (d - i) * b;
    }
  }

  /** Lines 65-73: the record of a positive fraction `f`: stake `f * tbr`, payout stake times `d`,
      edge `(d - i) / d` in percent, odds `d`, name and team passed through. */
  function BetFor(d: real, i: real, tbr: int, name: string, team: string): (b: BetRecord)
    requires i != 0.0 && d != 1.0 && d != 0.0
    ensures b.name == name && b.team == team && b.odds == d
  {
    var bet := KellyFraction(d, i) * tbr as real;
    BetRecord(name, team, (d - i) / d * 100.0, bet, d, bet * d)
  }

  /** Lines 64-80: a bet record when the fraction is positive, nothing otherwise. Python raises
      `ZeroDivisionError` for `i == 0` (line 57), `d == 1` (line 61), and `d == 0`, whose fraction
      is 1 so that the edge at line 66 divides by `d`. Rounding is not modelled. */
  function KellyCalc(d: real, i: real, tbr: int, name: string, team: string): (r: Result<Option<BetRecord>>)
    ensures r.Err? <==> i == 0.0 || d == 1.0 || d == 0.0
    ensures r.Err? ==> r.error == DivisionByZero
    ensures r.Ok? ==> (r.value.Some? <==> KellyFraction(d, i) > 0.0)
    ensures r.Ok? && r.value.Some? ==> r.value.value == BetFor(d, i, tbr, name, team)
  {
    if i == 0.0 || d == 1.0 then Err(DivisionByZero)
    else
      var f := KellyFraction(d, i);
      if f > 0.0 then
        if d == 0.0 then Err(DivisionByZero)
        else Ok(Some(BetFor(d, i, tbr, name, team)))
      else
        KellyFractionClosedForm(d, i);
        Ok(None)
  }

  /** For sportsbook odds above 1 and positive implied odds, a bet is produced exactly when the
      sportsbook pays more than the implied odds. */
  lemma KellySignRule(d: real, i: real)
    requires d > 1.0 && i > 0.0
    ensures KellyFraction(d, i) > 0.0 <==> d > i
  {
    KellyFractionClosedForm(d, i);
    var den := i * (d - 1.0);
    assert den > 0.0;
    if d > i {
      assert (d - i) / den > 0.0;
    } else {
      assert (d - i) / den <= 0.0;
    }
  }

  /** The whole sign rule as the source computes it, for any positive implied odds: below even
      stake (`d < 1`) the denominator changes sign, so the fraction is positive when `d < i`. */
  lemma KellySignGeneral(d: real, i: real)
    requires i > 0.0 && d != 1.0
    ensures KellyFraction(d, i) > 0.0 <==> (d > 1.0 && d > i) || (d < 1.0 && d < i)
  {
    KellyFractionClosedForm(d, i);
    var den := i * (d - 1.0);
    if d > 1.0 {
      KellySignRule(d, i);
    } else {
      assert den < 0.0;
      if d < i {
        assert (d - i) / den > 0.0;
      } else {
        assert (d - i) / den <= 0.0;
      }
    }
  }

  /** What a produced bet means on a proper market (`d > 1`, `i > 0`): the sportsbook beats the
      implied odds, the edge is positive, the stake is the closed-form fraction of the bankroll and
      the payout is the stake times the odds. */
  lemma KellyBetMeaning(d: real, i: real, tbr: int, name: string, team: string)
    requires d > 1.0 && i > 0.0
    ensures KellyCalc(d, i, tbr, name, team).Ok?
    ensures KellyCalc(d, i, tbr, name, team).value.Some? <==> d > i
    ensures KellyCalc(d, i, tbr, name, team).value.Some? ==>
              var b := KellyCalc(d, i, tbr, name, team).value.value;
              b.edge > 0.0 && b.odds == d &&
              b.bet == (d - i) / (i * (d - 1.0)) * tbr as real &&
              b.toWin == b.bet * d && b.edge == (d - i) / d * 100.0 &&
              (tbr > 0 ==> 0.0 < b.bet < b.toWin)
  {
    KellySignRule(d, i);
    KellyFractionClosedForm(d, i);
    if d > i {
      var b := KellyCalc(d, i, tbr, name, team).value.value;
      assert (d - i) / d > 0.0;
      if tbr > 0 {
        var f := KellyFraction(d, i);
        assert f * tbr as real > 0.0;
        assert b.toWin == b.bet * d;
        assert b.bet * d > b.bet * 1.0;
      }
    }
  }

  /** With implied odds of at least 1 (a probability of at most 100 percent) and a proper market,
      the stake never exceeds the bankroll, and stays below it unless the outcome is certain. */
  lemma KellyStakeWithinBankroll(d: real, i: real)
    requires d > 1.0 && i >= 1.0
    ensures KellyFraction(d, i) <= 1.0
    ensures i > 1.0 ==> KellyFraction(d, i) < 1.0
  {
    KellyFractionClosedForm(d, i);
    var den := i * (d - 1.0);
    assert den > 0.0;
    var excess := (i - 1.0) * d;
    assert den - (d - i) == excess;
    assert excess >= 0.0;
    if i > 1.0 {
      ProductOfPositives(i - 1.0, d);
    }
    DivideBelowDenominator(d - i, den);
  }

  /** A product of two positive reals is positive. */
  lemma ProductOfPositives(a: real, b: real)
    requires a > 0.0 && b > 0.0
    ensures a * b > 0.0
  {
  }

  /** A quotient by a positive denominator is at most 1 when the numerator is at most that denominator. */
  lemma DivideBelowDenominator(num: real, den: real)
    requires den > 0.0
    ensures num <= den ==> num / den <= 1.0
    ensures num < den ==> num / den < 1.0
  {
  }

  /** The source does not check that the sportsbook odds exceed 1: below even stake with implied
      odds of at least 1 it still recommends a bet, although the edge is negative. */
  lemma KellyBetsBelowEvenStake(d: real, i: real, tbr: int, name: string, team: string)
    requires 0.0 < d < 1.0 && i >= 1.0
    ensures KellyCalc(d, i, tbr, name, team).Ok?
    ensures KellyCalc(d, i, tbr, name, team).value.Some?
    ensures KellyCalc(d, i, tbr, name, team).value.value.edge < 0.0
  {
    KellySignGeneral(d, i);
    assert (d - i) / d < 0.0;
  }

  /** Two worked cases: sportsbook 2.0 against implied 1.8 stakes a ninth of the bankroll; sportsbook
      1.5 against implied 2.0 has fraction -0.5 and yields no bet. */
  lemma KellyWorkedCases(tbr: int)
    ensures KellyFraction(2.0, 1.8) == 1.0 / 9.0
    ensures KellyCalc(2.0, 1.8, tbr, "", "").Ok? && KellyCalc(2.0, 1.8, tbr, "", "").value.Some?
    ensures KellyFraction(1.5, 2.0) == -0.5
    ensures KellyCalc(1.5, 2.0, tbr, "", "") == Ok(None)
  {
  }
}
