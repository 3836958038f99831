/** `kelly_crit`: resolve the line's columns and the pitcher's row, run the Kelly step on both
    sides and collect the bets, over first. */
module Evaluator {
  import opened Base
  import opened Schedule
  import opened Converter
  import opened Kelly

  /** The column a pitcher identifier is matched on: `team` for three characters, else `name`. */
  function Key(row: OddsRow, pit: string): string {
    if |pit| == 3 then row.team else row.name
  }

  /** The positions of the rows selected by `odds_df[key] == pit`, in table order. */
  function MatchIndices(table: seq<OddsRow>, pit: string, from: nat): (r: seq<nat>)
    requires from <= |table|
    decreases |table| - from
    ensures forall k :: k in r <==> from <= k < |table| && Key(table[k], pit) == pit
    ensures forall a :: 0 <= a < |r| ==> from <= r[a] < |table|
    ensures forall a, b :: 0 <= a < b < |r| ==> r[a] < r[b]
  {
    if from == |table| then []
    else if Key(table[from], pit) == pit then [from] + MatchIndices(table, pit, from + 1)
    else MatchIndices(table, pit, from + 1)
  }

  /** Exactly one row of `table` is selected by `pit`, and it sits at position `j`. */
  predicate UniqueAt(table: seq<OddsRow>, pit: string, j: int) {
    0 <= j < |table| && Key(table[j], pit) == pit &&
    forall k :: 0 <= k < |table| && Key(table[k], pit) == pit ==> k == j
  }

  /** Lines 107-122: `.item()` yields the selected row's values only when the selection has
      exactly one row, and raises otherwise. */
  function FindRow(table: seq<OddsRow>, pit: string): (r: Result<OddsRow>)
    ensures r.Ok? <==> exists j :: UniqueAt(table, pit, j)
    ensures r.Ok? ==> r.value in table && Key(r.value, pit) == pit
    ensures r.Ok? ==> exists j :: UniqueAt(table, pit, j) && table[j] == r.value
    ensures r.Err? ==> r.error.NotExactlyOneRow? && r.error.found != 1
    ensures (forall k :: 0 <= k < |table| ==> Key(table[k], pit) != pit) ==> r == Err(NotExactlyOneRow(0))
  {
    var idx := MatchIndices(table, pit, 0);
    if |idx| == 1 then
      assert idx[0] in idx;
      assert UniqueAt(table, pit, idx[0]);
      Ok(table[idx[0]])
    else
      UniqueMeansOneIndex(table, pit, idx);
      assert idx != [] ==> idx[0] in idx;
      Err(NotExactlyOneRow(|idx|))
  }

  /** A strictly increasing list of the selected positions has one entry iff one row is selected. */
  lemma UniqueMeansOneIndex(table: seq<OddsRow>, pit: string, idx: seq<nat>)
    requires forall k :: k in idx <==> 0 <= k < |table| && Key(table[k], pit) == pit
    requires forall a, b :: 0 <= a < b < |idx| ==> idx[a] < idx[b]
    ensures (exists j :: UniqueAt(table, pit, j)) ==> |idx| == 1
  {
    assert |idx| >= 2 ==> idx[0] < idx[1];
    if j :| UniqueAt(table, pit, j) {
      assert j in idx;
      forall a | 0 <= a < |idx|
        ensures idx[a] == j
      {
        assert idx[a] in idx;
      }
    }
  }

  /** The bet record of one side as a list of zero or one records. */
  function Recorded(side: Option<BetRecord>): (r: seq<BetRecord>)
    ensures |r| <= 1 && (r == [] <==> side.None?)
  {
    match side
    case None => []
    case Some(b) => [b]
  }

  /** Every row of the converted table has all scheduled line labels. */
  predicate Complete(table: seq<OddsRow>) {
    forall row :: row in table ==> HasAllLines(row)
  }

  /** Lines 95-146 as one value: the bets of an over/under line, or the exception raised first. */
  function LineBets(table: seq<OddsRow>, tbr: int, pit: string, so: string, overOdds: real, underOdds: real): Result<seq<BetRecord>>
  {
    var pair :- ResolveLabels(so);
    var row :- FindRow(table, pit);
    if pair.over !in row.lines then Err(MissingColumn(pair.over))
    else if pair.under !in row.lines then Err(MissingColumn(pair.under))
    else RowBets(row, pair, tbr, pit, overOdds, underOdds)
  }

  /** Lines 108-142 once the columns and the row are known. */
  function RowBets(row: OddsRow, pair: LinePair, tbr: int, pit: string, overOdds: real, underOdds: real): Result<seq<BetRecord>>
    requires pair.over in row.lines && pair.under in row.lines
  {
    var name := if |pit| == 3 then row.name else pit;
    var team := if |pit| == 3 then pit else row.team;
    var over :- KellyCalc(overOdds, row.lines[pair.over], tbr, name, team);
    var under :- KellyCalc(underOdds, row.lines[pair.under], tbr, name, team);
    Ok(Recorded(over) + Recorded(under))
  }

  /** Lines 82-146: both sides go through the Kelly step, then `bets_df` grows by concatenation,
      the over record first. */
  method KellyCrit(table: seq<OddsRow>, tbr: int, pit: string, so: string, overOdds: real, underOdds: real)
    returns (r: Result<seq<BetRecord>>)
    ensures r == LineBets(table, tbr, pit, so, overOdds, underOdds)
  {
    var pair := ResolveLabels(so);
    if pair.Err? {
      return Err(pair.error);
    }
    var uCol, oCol := pair.value.under, pair.value.over;
    var found := FindRow(table, pit);
    if found.Err? {
      return Err(found.error);
    }
    var row := found.value;
    if oCol !in row.lines {
      return Err(MissingColumn(oCol));
    }
    if uCol !in row.lines {
      return Err(MissingColumn(uCol));
    }
    assert LineBets(table, tbr, pit, so, overOdds, underOdds) == RowBets(row, pair.value, tbr, pit, overOdds, underOdds);
    var ioOver, ioUnder := row.lines[oCol], row.lines[uCol];
    var name, team;
    if |pit| == 3 {
      name, team := row.name, pit;
    } else {
      name, team := pit, row.team;
    }
    var over := KellyCalc(overOdds, ioOver, tbr, name, team);
    if over.Err? {
      return Err(over.error);
    }
    var under := KellyCalc(underOdds, ioUnder, tbr, name, team);
    if under.Err? {
      return Err(under.error);
    }
    var bets: seq<BetRecord> := [];
    if over.value.Some? {
      bets := bets + [over.value.value];
    }
    assert bets == Recorded(over.value);
    if under.value.Some? {
      bets := bets + [under.value.value];
    } else {
      assert Recorded(under.value) == [];
    }
    assert bets == Recorded(over.value) + Recorded(under.value);
    return Ok(bets);
  }

  /** Which exception a line evaluation raises first: a threshold that does not resolve (one outside
      the schedule, see `ResolveLabelsExact`), then, on a table carrying every scheduled line, a
      pitcher that does not select exactly one row, then a division by zero on the over side or on
      the under side. */
  lemma LineBetsErrors(table: seq<OddsRow>, tbr: int, pit: string, so: string, overOdds: real, underOdds: real)
    ensures ResolveLabels(so).Err? ==> LineBets(table, tbr, pit, so, overOdds, underOdds) == Err(LabelIndex(0))
    ensures ResolveLabels(so).Ok? && Complete(table) && !(exists j :: UniqueAt(table, pit, j)) ==>
              LineBets(table, tbr, pit, so, overOdds, underOdds).Err? &&
              LineBets(table, tbr, pit, so, overOdds, underOdds).error.NotExactlyOneRow?
    ensures ResolveLabels(so).Ok? && (exists j :: UniqueAt(table, pit, j)) ==>
              var row := FindRow(table, pit).value;
              "o" + so in row.lines && "u" + so in row.lines ==>
                (LineBets(table, tbr, pit, so, overOdds, underOdds).Err? <==>
                   row.lines["o" + so] == 0.0 || overOdds == 1.0 || overOdds == 0.0 ||
                   row.lines["u" + so] == 0.0 || underOdds == 1.0 || underOdds == 0.0)
  {
  }

  /** On a table whose rows carry every scheduled line, as the converter produces, no column is
      ever missing. */
  lemma CompleteTableHasColumns(table: seq<OddsRow>, tbr: int, pit: string, so: string, overOdds: real, underOdds: real)
    requires Complete(table)
    ensures !(LineBets(table, tbr, pit, so, overOdds, underOdds).Err? &&
              LineBets(table, tbr, pit, so, overOdds, underOdds).error.MissingColumn?)
  {
    ResolveLabelsExact(so);
    if so in Thresholds && FindRow(table, pit).Ok? {
      var row := FindRow(table, pit).value;
      assert HasAllLines(row);
      assert "o" + so in row.lines && "u" + so in row.lines;
    }
  }

  /** Lines 127-142: over a unique row, the result holds one record per side whose Kelly fraction is
      positive, the over record before the under record, both naming the row's pitcher and team and
      priced from the line's own "o" and "u" columns. */
  lemma LineBetsShape(table: seq<OddsRow>, tbr: int, pit: string, so: string, overOdds: real, underOdds: real)
    requires LineBets(table, tbr, pit, so, overOdds, underOdds).Ok?
    ensures ResolveLabels(so).Ok? && exists j :: UniqueAt(table, pit, j)
    ensures var row := FindRow(table, pit).value;
            var bets := LineBets(table, tbr, pit, so, overOdds, underOdds).value;
            "o" + so in row.lines && "u" + so in row.lines &&
            var ioOver, ioUnder := row.lines["o" + so], row.lines["u" + so];
            ioOver != 0.0 && ioUnder != 0.0 && overOdds != 1.0 && underOdds != 1.0 &&
            var fOver, fUnder := KellyFraction(overOdds, ioOver), KellyFraction(underOdds, ioUnder);
            |bets| == (if fOver > 0.0 then 1 else 0) + (if fUnder > 0.0 then 1 else 0) &&
            (fOver > 0.0 ==> overOdds != 0.0 && bets[0] == BetFor(overOdds, ioOver, tbr, row.name, row.team)) &&
            (fUnder > 0.0 ==> underOdds != 0.0 && bets[|bets| - 1] == BetFor(underOdds, ioUnder, tbr, row.name, row.team)) &&
            forall b :: b in bets ==> b.name == row.name && b.team == row.team
  {
    var row := FindRow(table, pit).value;
    assert Key(row, pit) == pit;
  }

  /** Every recommended bet names the pitcher and team of a row of the table. */
  lemma LineBetsFromTable(table: seq<OddsRow>, tbr: int, pit: string, so: string, overOdds: real, underOdds: real)
    requires LineBets(table, tbr, pit, so, overOdds, underOdds).Ok?
    ensures forall b :: b in LineBets(table, tbr, pit, so, overOdds, underOdds).value ==>
              exists row :: row in table && row.name == b.name && row.team == b.team
  {
    LineBetsShape(table, tbr, pit, so, overOdds, underOdds);
  }

  /** The converter's output answers every scheduled line for every pitcher. */
  lemma ConvertedTableComplete(t: RawTable, table: seq<OddsRow>)
    requires forall row :: row in t.rows ==> CellsUpTo(row, |ColumnLabels|)
    requires |table| == |t.rows| && forall i :: 0 <= i < |t.rows| ==> table[i] == ConvertRow(t.rows[i])
    ensures Complete(table)
  {
    forall row | row in table
      ensures HasAllLines(row)
    {
      var i :| 0 <= i < |table| && table[i] == row;
      assert t.rows[i] in t.rows;
      ConvertRowHasAllLines(t.rows[i]);
    }
  }

  /** A pitcher whose implied probabilities are 45 percent under and 55 percent over (odds 100/45
      and 100/55), offered 2.10 on the over and 2.00 on the under: the over is a bet, the under not. */
  lemma OverUnderWorkedCase(tbr: int, name: string, team: string)
    ensures KellyCalc(2.1, 100.0 / 55.0, tbr, name, team).Ok?
    ensures KellyCalc(2.1, 100.0 / 55.0, tbr, name, team).value.Some?
    ensures KellyCalc(2.0, 100.0 / 45.0, tbr, name, team) == Ok(None)
  {
    KellySignRule(2.1, 100.0 / 55.0);
    KellySignRule(2.0, 100.0 / 45.0);
  }
}
