/** `odds_calc`: the table of implied-probability percentages turned into decimal implied odds. */
module Converter {
  import opened Base
  import opened Text
  import opened Schedule

  /** One row of the input file: `Name`, `Team` and a percentage per column label. */
  datatype RawRow = RawRow(name: string, team: string, cells: map<string, real>)

  /** The input file: its column labels (besides `Name` and `Team`) and its rows. */
  datatype RawTable = RawTable(columns: set<string>, rows: seq<RawRow>)

  /** One row of the converted table: lower-cased `name` and `team`, decimal odds per line label. */
  datatype OddsRow = OddsRow(name: string, team: string, lines: map<string, real>)

  /** A data frame is rectangular: every row has a cell in every column. */
  predicate Rectangular(t: RawTable) {
    forall row :: row in t.rows ==> row.cells.Keys == t.columns
  }

  /** No scheduled percentage is zero (the source would divide by it, see README). */
  predicate NonZeroPercentages(t: RawTable) {
    forall row, j :: row in t.rows && 0 <= j < |ColumnLabels| && ColumnLabels[j] in row.cells ==>
                       row.cells[ColumnLabels[j]] != 0.0
  }

  /** A converted row carries the under and the over label of every scheduled threshold. */
  predicate HasAllLines(row: OddsRow) {
    forall so :: so in Thresholds ==> "u" + so in row.lines && "o" + so in row.lines
  }

  /** Line 32, one cell: `1/(p/100)`, the decimal odds whose inverse is the probability `p` percent. */
  function ConvertCell(p: real): (r: real)
    requires p != 0.0
    ensures r * p == 100.0
    ensures 100.0 / r == p
  {
    1.0 / (p / 100.0)
  }

  /** A probability percentage in (0, 100] gives odds of at least 1, and above 1 below 100 percent. */
  lemma ConvertCellBounds(p: real)
    requires 0.0 < p <= 100.0
    ensures ConvertCell(p) >= 1.0
    ensures p < 100.0 ==> ConvertCell(p) > 1.0
  {
    assert ConvertCell(p) * p == 100.0;
    assert ConvertCell(p) * p >= 1.0 * p;
  }

  /** Lines 27-32 applied to one row: names lower-cased, every scheduled label converted. */
  function ConvertRow(row: RawRow): (r: OddsRow)
    requires CellsUpTo(row, |ColumnLabels|)
    ensures r.name == Lower(row.name) && r.team == Lower(row.team)
    ensures IsLower(r.name) && IsLower(r.team)
    ensures forall c :: c in r.lines <==> c in ColumnLabels
    ensures forall c :: c in r.lines ==> r.lines[c] == ConvertCell(row.cells[c])
  {
    OddsRow(Lower(row.name), Lower(row.team),
            map c | c in ColumnLabels :: ConvertCell(row.cells[c]))
  }

  /** The first `k` scheduled columns are present and non-zero in `row`. */
  predicate CellsUpTo(row: RawRow, k: nat)
    requires k <= |ColumnLabels|
  {
    forall j :: 0 <= j < k ==> ColumnLabels[j] in row.cells && row.cells[ColumnLabels[j]] != 0.0
  }

  /** Every converted row can be queried for both sides of every scheduled threshold. */
  lemma ConvertRowHasAllLines(row: RawRow)
    requires CellsUpTo(row, |ColumnLabels|)
    ensures HasAllLines(ConvertRow(row))
  {
    forall so | so in Thresholds
      ensures "u" + so in ColumnLabels && "o" + so in ColumnLabels
    {
      ScheduledPair(so);
    }
  }

  /** The row after the first `k` columns of the loop at line 31 have been filled in. */
  function PartialRow(row: RawRow, k: nat): OddsRow
    requires k <= |ColumnLabels|
    requires CellsUpTo(row, k)
  {
    OddsRow(Lower(row.name), Lower(row.team),
            map c | c in ColumnLabels[..k] :: ConvertCell(row.cells[c]))
  }

  /** Filling in column `k` extends the partial row by that one label. */
  lemma PartialRowStep(row: RawRow, k: nat)
    requires k < |ColumnLabels| && CellsUpTo(row, k + 1)
    ensures PartialRow(row, k + 1) ==
              var prev := PartialRow(row, k);
              prev.(lines := prev.lines[ColumnLabels[k] := ConvertCell(row.cells[ColumnLabels[k]])])
  {
    assert ColumnLabels[..k + 1] == ColumnLabels[..k] + [ColumnLabels[k]];
  }

  /** Lines 22-38: fill the output frame column by column; a scheduled column absent from the
      input raises a `KeyError` for the first such column. */
  method OddsCalc(t: RawTable) returns (r: Result<seq<OddsRow>>)
    requires Rectangular(t) && NonZeroPercentages(t)
    ensures r.Ok? <==> forall j :: 0 <= j < |ColumnLabels| ==> ColumnLabels[j] in t.columns
    ensures r.Err? ==> exists k :: 0 <= k < |ColumnLabels| && r.error == MissingColumn(ColumnLabels[k]) &&
                                   ColumnLabels[k] !in t.columns &&
                                   forall j :: 0 <= j < k ==> ColumnLabels[j] in t.columns
    ensures r.Ok? ==> |r.value| == |t.rows| &&
                      forall i :: 0 <= i < |t.rows| ==> r.value[i] == ConvertRow(t.rows[i])
  {
    var rows := t.rows;
    var out := seq(|rows|, i requires 0 <= i < |rows| => OddsRow(Lower(rows[i].name), Lower(rows[i].team), map[]));
    for k := 0 to |ColumnLabels|
      invariant forall j :: 0 <= j < k ==> ColumnLabels[j] in t.columns
      invariant |out| == |rows|
      invariant forall i :: 0 <= i < |rows| ==> CellsUpTo(rows[i], k)
      invariant forall i :: 0 <= i < |rows| ==> out[i] == PartialRow(rows[i], k)
    {
      var column := ColumnLabels[k];
      if column !in t.columns {
        return Err(MissingColumn(column));
      }
      forall i | 0 <= i < |rows|
        ensures CellsUpTo(rows[i], k + 1)
      {
        assert rows[i] in t.rows;
      }
      out := seq(|out|, i requires 0 <= i < |out| =>
                 out[i].(lines := out[i].lines[column := ConvertCell(rows[i].cells[column])]));
      forall i | 0 <= i < |rows|
        ensures out[i] == PartialRow(rows[i], k + 1)
      {
        PartialRowStep(rows[i], k);
      }
    }
    assert ColumnLabels[..|ColumnLabels|] == ColumnLabels;
    return Ok(out);
  }
}
