/** The two fixed lookup tables of odds_calc.py and the resolution of a line threshold to its labels. */
module Schedule {
  import opened Base

  /** The strike-out thresholds, in the order the label schedule lists them. */
  const Thresholds: seq<string> :=
    ["2.5", "3", "3.5", "4", "4.5", "5", "5.5", "6",
     "6.5", "7", "7.5", "8", "8.5", "9", "9.5", "10"]

  /** `COLUMN_LABELS`: an under label and then an over label for each threshold. */
  const ColumnLabels: seq<string> :=
    ["u2.5", "o2.5", "u3", "o3", "u3.5", "o3.5", "u4", "o4",
     "u4.5", "o4.5", "u5", "o5", "u5.5", "o5.5", "u6", "o6",
     "u6.5", "o6.5", "u7", "o7", "u7.5", "o7.5", "u8", "o8",
     "u8.5", "o8.5", "u9", "o9", "u9.5", "o9.5", "u10", "o10"]

  /** `TEAM_LIST`: the accepted three-letter team codes, upper case. */
  const TeamList: seq<string> :=
    ["TOR", "SLN", "TEX", "COL", "KCA", "NYA", "OAK", "CHN", "BOS",
     "BAL", "HOU", "MIN", "SFN", "PIT", "ANA", "ATL", "CHA", "SEA",
     "SDN", "DET", "WAS", "ARI", "PHI", "LAN", "TBA", "CIN", "NYN",
     "MIA", "MIL", "CLE"]

  /** The under/over pair of columns chosen for one threshold. */
  datatype LinePair = LinePair(under: string, over: string)

  /** `labels` lists, for each threshold in turn, its under label and then its over label. */
  predicate PairsOf(labels: seq<string>, ts: seq<string>) {
    |labels| == 2 * |ts| &&
    forall k :: 0 <= k < |ts| ==> labels[2 * k] == "u" + ts[k] && labels[2 * k + 1] == "o" + ts[k]
  }

  predicate Distinct(ts: seq<string>) {
    forall i, j :: 0 <= i < j < |ts| ==> ts[i] != ts[j]
  }

  /** Python's `col[1:]`: the label without its first character (empty stays empty). */
  function Suffix(col: string): (r: string)
    ensures col != [] ==> [col[0]] + r == col
    ensures col == [] ==> r == []
  {
    if col == [] then [] else col[1..]
  }

  /** `[col for col in labels if col[1:] == so]`: the labels whose suffix is exactly `so`, in order. */
  function MatchingLabels(labels: seq<string>, so: string): (r: seq<string>)
    ensures |r| <= |labels|
    ensures forall x :: x in r <==> x in labels && Suffix(x) == so
  {
    if labels == [] then []
    else if Suffix(labels[0]) == so then [labels[0]] + MatchingLabels(labels[1..], so)
    else MatchingLabels(labels[1..], so)
  }

  /** Lines 96-98: the first matching label is the under column, the second the over column;
      indexing `ou_cols[1]` fails when fewer than two labels match. Matching is on text, not on
      numbers: a threshold of the schedule gives its own pair, any other string (for instance
      "5.0" where the schedule says "5") matches nothing and fails on the index. */
  function ResolveLabels(so: string): (r: Result<LinePair>)
    ensures r.Ok? ==> r.value == LinePair("u" + so, "o" + so)
    ensures r.Err? ==> r.error == LabelIndex(0)
  {
    var cols := MatchingLabels(ColumnLabels, so);
    MatchingLabelsOfSchedule(so);
    if |cols| < 2 then Err(LabelIndex(|cols|))
    else Ok(LinePair(cols[0], cols[1]))
  }

  /** The literal schedule is exactly the under/over pairs of the thresholds. */
  lemma ColumnLabelsPairThresholds()
    ensures PairsOf(ColumnLabels, Thresholds)
  {
    UnderLabelsAtEvenPositions();
    OverLabelsAtOddPositions();
  }

  lemma UnderLabelsAtEvenPositions()
    ensures forall k :: 0 <= k < |Thresholds| ==> ColumnLabels[2 * k] == "u" + Thresholds[k]
  {
  }

  lemma OverLabelsAtOddPositions()
    ensures forall k :: 0 <= k < |Thresholds| ==> ColumnLabels[2 * k + 1] == "o" + Thresholds[k]
  {
  }

  lemma ThresholdsDistinct()
    ensures Distinct(Thresholds)
  {
  }

  /** Filtering a schedule of distinct thresholds by suffix finds exactly the pair of `so`, or nothing. */
  lemma {:induction false} MatchingLabelsOfPairs(labels: seq<string>, ts: seq<string>, so: string)
    requires PairsOf(labels, ts) && Distinct(ts)
    ensures MatchingLabels(labels, so) == if so in ts then ["u" + so, "o" + so] else []
  {
    if ts != [] {
      var t := ts[0];
      assert labels[0] == "u" + t && labels[1] == "o" + t;
      assert Suffix("u" + t) == t;
      assert Suffix("o" + t) == t;
      assert PairsOf(labels[2..], ts[1..]) by {
        forall k | 0 <= k < |ts[1..]|
          ensures labels[2..][2 * k] == "u" + ts[1..][k] && labels[2..][2 * k + 1] == "o" + ts[1..][k]
        {
          assert labels[2 * (k + 1)] == "u" + ts[k + 1];
          assert labels[2 * (k + 1) + 1] == "o" + ts[k + 1];
        }
      }
      assert Distinct(ts[1..]);
      MatchingLabelsOfPairs(labels[2..], ts[1..], so);
      assert labels[1..][1..] == labels[2..];
      if so == t {
        assert so !in ts[1..];
      } else {
        assert so in ts <==> so in ts[1..];
      }
    }
  }

  /** On the real schedule the suffix filter of line 96 returns exactly `['u'+so, 'o'+so]` for a
      threshold of the schedule, and nothing for any other string. */
  lemma MatchingLabelsOfSchedule(so: string)
    ensures MatchingLabels(ColumnLabels, so) == if so in Thresholds then ["u" + so, "o" + so] else []
  {
    ColumnLabelsPairThresholds();
    ThresholdsDistinct();
    MatchingLabelsOfPairs(ColumnLabels, Thresholds, so);
  }

  /** Lines 96-98 on the real schedule: exactly the scheduled thresholds resolve. */
  lemma ResolveLabelsExact(so: string)
    ensures ResolveLabels(so).Ok? <==> so in Thresholds
  {
    MatchingLabelsOfSchedule(so);
  }

  /** Both labels of a scheduled threshold are columns of the schedule. */
  lemma ScheduledPair(so: string)
    requires so in Thresholds
    ensures "u" + so in ColumnLabels && "o" + so in ColumnLabels
  {
    ColumnLabelsPairThresholds();
    var k :| 0 <= k < |Thresholds| && Thresholds[k] == so;
    assert ColumnLabels[2 * k] == "u" + so && ColumnLabels[2 * k + 1] == "o" + so;
  }
}
