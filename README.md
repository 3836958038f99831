# Strike-out odds and Kelly staking, in Dafny

This project models `odds_calc.py`, a small tool for strike-out over/under betting on baseball
pitchers. The tool has three parts:

- **Converter.** It turns a table of implied-probability percentages into decimal implied odds.
  Each line-label column gets `1/(p/100)`, and the pitcher's name and team are lower-cased.
- **Evaluator.** It resolves a strike-out threshold to its under and over columns, finds the one row
  of the chosen pitcher or team, and runs the Kelly criterion on both sides. It collects the bets
  that have value, the over bet first.
- **Session.** This is the console loop. It validates the pitcher or team answer against the fixed
  team list and accumulates the bets of each round.

Modules, one per file:

- `Base`: the `Result` and `Option` values that stand for the Python exceptions.
- `Text`: ASCII `lower()` and `upper()`.
- `Schedule`: `COLUMN_LABELS`, `TEAM_LIST` and the label filter.
- `Converter`: `odds_calc`.
- `Kelly`: `kelly_crit_calc`.
- `Evaluator`: `kelly_crit`.
- `Session`: `main`.

Arithmetic is over exact reals. Each Python exception becomes an `Err` value:

- `KeyError` becomes `MissingColumn`.
- `.item()` on a selection that does not have exactly one row becomes `NotExactlyOneRow`.
- `ou_cols[1]` on a short list becomes `LabelIndex`.
- `ZeroDivisionError` becomes `DivisionByZero`.
- `input()` at end of file becomes `EndOfInput`.

The console answers are parameters. The odds table, the start answer and the bankroll are given
directly. Each round is a `Turn`: the answers to the pitcher prompt, the line, the two odds and the
answer to "keep checking?".

Notes on how the source behaves, which the model keeps:

- Decimal odds of exactly 1 raise `ZeroDivisionError` at line 61, and so do odds of 0 at line 66
  (their fraction is 1). Implied odds of 0 raise it at line 57. Nothing catches it, so the
  exception ends the program.
- The `try` at lines 190-196 is commented out, so a threshold outside the schedule or a pitcher
  that does not select exactly one row ends the program (`Crashed`).
- An unlisted three-character answer is not an error. Line 173 prints a message and line 170 asks
  again.
- The converter returns the unrounded frame (line 38). Only the CSV copy is rounded (line 36), so
  evaluation uses exact `100/p`.
- Line 204 writes only this session's bets; no earlier file is read or merged.

Decimal odds below 1 are not rejected. `KellyBetsBelowEvenStake` proves that for sportsbook odds in
(0, 1) and implied odds of at least 1, the source recommends a bet whose edge is negative.

## Model

| member | source | states |
|---|---|---|
| `Text.Lower` | odds_calc.py:27-28 | `str.lower()`: same length, no upper-case letter left, each character's upper-case form kept |
| `Text.Upper` | odds_calc.py:172 | `str.upper()`: same length, no lower-case letter left, each character's lower-case form kept |
| `Text.UpperOfLower` | odds_calc.py:170-172 | upper-casing the lower-cased answer equals upper-casing the raw answer, so team validation ignores case |
| `Schedule.MatchingLabels` | odds_calc.py:96 | the comprehension keeps exactly the labels whose text after the first character equals the threshold |
| `Schedule.Suffix` | odds_calc.py:96 | `col[1:]`: the label is its first character followed by the result; the empty label gives the empty string |
| `Schedule.ResolveLabels` | odds_calc.py:96-98 | a successful resolution yields under `'u'+SO` and over `'o'+SO`; otherwise the index error with no label matched |
| `Schedule.ColumnLabelsPairThresholds` | odds_calc.py:12-15 | the label schedule is an under label then an over label for each of the 16 thresholds, in order |
| `Schedule.ThresholdsDistinct` | odds_calc.py:12-15 | no threshold appears twice in the schedule |
| `Schedule.MatchingLabelsOfPairs` | odds_calc.py:96 | on any schedule of distinct threshold pairs, the suffix filter returns `['u'+SO, 'o'+SO]` for a listed threshold and nothing otherwise |
| `Schedule.MatchingLabelsOfSchedule` | odds_calc.py:12-15 | on `COLUMN_LABELS` itself the filter returns exactly `['u'+SO, 'o'+SO]`, in that order, or `[]` |
| `Schedule.ResolveLabelsExact` | odds_calc.py:96-98 | a threshold resolves iff it is textually one of the schedule's thresholds ("5.0" and "5 " do not) |
| `Schedule.ScheduledPair` | odds_calc.py:12-15 | both labels of a scheduled threshold are columns of the schedule |
| `Converter.ConvertCell` | odds_calc.py:32 | the converted cell times the percentage is 100, and `100/odds` recovers the percentage |
| `Converter.ConvertCellBounds` | odds_calc.py:32 | a percentage in (0,100] gives odds of at least 1, and above 1 when below 100 |
| `Converter.ConvertRow` | odds_calc.py:27-32 | name and team lower-cased, the row's labels are exactly the schedule, each value is the converted percentage |
| `Converter.PartialRow` | odds_calc.py:31-32 | the frame after the first `k` columns of the loop; `PartialRowStep` states that one iteration adds exactly the converted `k`-th column and changes nothing else, and `OddsCalc`'s invariant ties the finished frame to `ConvertRow` |
| `Converter.ConvertRowHasAllLines` | odds_calc.py:31-32 | a converted row has the under and over label of every scheduled threshold |
| `Converter.OddsCalc` | odds_calc.py:22-38 | the column loop either fails on the first scheduled column missing from the input, or yields every row converted, in order |
| `Kelly.KellyFractionClosedForm` | odds_calc.py:56-61 | `(B*P-Q)/B` with `B=d-1`, `P=1/i`, `Q=1-P` equals `(d-i)/(i*(d-1))` |
| `Kelly.BetFor` | odds_calc.py:65-73 | the bet record passes name, team and the sportsbook odds through |
| `Kelly.KellyFraction` | odds_calc.py:56-61 | the fraction `(B*P-Q)/B`; its meaning is carried by `KellyFractionClosedForm`, `KellySignRule`, `KellySignGeneral` and `KellyStakeWithinBankroll` |
| `Kelly.KellyCalc` | odds_calc.py:56-80 | division by zero iff `i=0`, `d=1` or `d=0`; otherwise a record iff the fraction is positive, and that record is the one of lines 65-73 |
| `Kelly.KellySignRule` | odds_calc.py:61-64 | for `d>1` and `i>0` the fraction is positive iff `d>i` |
| `Kelly.KellySignGeneral` | odds_calc.py:61-64 | for `i>0`, `d≠1`: positive iff (`d>1` and `d>i`) or (`d<1` and `d<i`) |
| `Kelly.KellyBetMeaning` | odds_calc.py:64-73 | for `d>1`, `i>0`: no division error, and a record iff `d>i`; its edge is `(d-i)/d` percent and positive, its stake is `(d-i)/(i*(d-1))` of the bankroll, its payout is the stake times `d`, and for a positive bankroll `0 < bet < to_win` |
| `Kelly.KellyStakeWithinBankroll` | odds_calc.py:56-65 | with `d>1` and implied odds at least 1 the fraction is at most 1, and below 1 when `i>1` |
| `Kelly.KellyBetsBelowEvenStake` | odds_calc.py:56-66 | sportsbook odds in (0,1) with implied odds at least 1 still produce a record, and its edge is negative |
| `Kelly.KellyWorkedCases` | odds_calc.py:56-80 | 2.0 against 1.8 gives fraction 1/9 and a bet; 1.5 against 2.0 gives -0.5 and no bet |
| `Evaluator.MatchIndices` | odds_calc.py:108 | the selected positions are exactly the rows whose key column equals the identifier, strictly increasing |
| `Evaluator.Key` | odds_calc.py:107-122 | the column compared with the identifier: `team` for a three-character identifier, `name` otherwise; `MatchIndices` and `FindRow` select by it |
| `Evaluator.FindRow` | odds_calc.py:107-122 | succeeds iff exactly one row matches, and returns that row; otherwise the `.item()` error, with 0 when no row matches |
| `Evaluator.LineBets` | odds_calc.py:95-146 | one line evaluation: resolve the labels, select the row, price both sides; `KellyCrit` is proved equal to it, and `LineBetsErrors`, `LineBetsShape` and `LineBetsFromTable` state its errors and its bets |
| `Evaluator.RowBets` | odds_calc.py:107-142 | the two Kelly steps on the selected row, name and team taken from the identifier or the row, the over record first; `LineBetsShape` states its result |
| `Evaluator.KellyCrit` | odds_calc.py:82-146 | the appending method returns exactly the line evaluation `LineBets` |
| `Evaluator.LineBetsErrors` | odds_calc.py:96-128 | the error order: an unresolved threshold gives the index error on any table; on a table carrying every scheduled line, no unique row gives the `.item()` error; on a unique row with the line's columns, an error iff a zero divisor on either side |
| `Evaluator.CompleteTableHasColumns` | odds_calc.py:108-109 | on a table with every scheduled line no column is ever missing |
| `Evaluator.LineBetsShape` | odds_calc.py:127-142 | one record per side with positive fraction, over before under, each record the whole Kelly record of lines 65-73 (edge, stake, odds, payout) priced from the `o`/`u` column of the line, both naming the unique row's pitcher and team |
| `Evaluator.LineBetsFromTable` | odds_calc.py:107-142 | every bet names the pitcher and team of a row of the table |
| `Evaluator.ConvertedTableComplete` | odds_calc.py:26-38 | the converter's output has every scheduled line in every row |
| `Evaluator.OverUnderWorkedCase` | odds_calc.py:127-128 | implied 45/55 percent, offered 2.00 under and 2.10 over: the over is a bet, the under is not |
| `Session.NameColumn` | odds_calc.py:180 | a name is in the list iff some row carries it |
| `Session.IsListedTeam` | odds_calc.py:172 | the upper-cased answer is in `TEAM_LIST`; `TeamCodeValidation` shows it decides rejection of three-character answers whatever their case |
| `Session.CheckPitcher` | odds_calc.py:169-183 | an accepted identifier is the lower-cased answer; quit iff the answer is "q"; a three-character answer is rejected iff it is not a listed team and accepted iff it is listed and exactly one row has that team, otherwise the `.item()` failure; any other answer is accepted iff some row has that name, else rejected |
| `Session.ChosenPitcher` | odds_calc.py:169-183 | the inner loop never ends on a rejected answer; it runs out of input iff every answer is rejected, and otherwise its verdict is that of the first answer not rejected |
| `Session.SessionFrom` | odds_calc.py:162-200 | the outer loop from a given round with the bets saved so far; `SessionKeepsSaved` and `SessionBetsFromTable` state that it only appends bets about rows of the table |
| `Session.SessionOf` | odds_calc.py:152-204 | the whole session after the table is built; `RunSession` is proved equal to it and `SessionOfBetsFromTable` states what it saves |
| `Session.RunSession` | odds_calc.py:152-204 | the two `while` loops compute exactly the session outcome `SessionOf` |
| `Session.TeamCodeValidation` | odds_calc.py:17-20 | a three-character answer in any case is rejected iff its upper-case form is not in `TEAM_LIST`, whatever the table |
| `Session.ListedTeamAccepted` | odds_calc.py:171-177 | a listed code whose team has exactly one row is accepted, lower-cased |
| `Session.SessionKeepsSaved` | odds_calc.py:193 | saving only appends: earlier bets stay in front, in order |
| `Session.SessionBetsFromTable` | odds_calc.py:162-200 | every bet accumulated by the loop names a pitcher and team of the table |
| `Session.SessionOfBetsFromTable` | odds_calc.py:152-204 | a session that reaches the ledger write saved only bets about pitchers of the table |

## Left out

- File I/O and printing: reading `data/data.csv`, the CSV writes with date-stamped names (lines
  23, 36, 203-204), and all `print` output. The odds table is a parameter. A saved session returns
  its bets instead of writing them.
- Number parsing of console answers: `int(...)` for the bankroll and `float(...)` for the odds
  (lines 159, 186-187). A `ValueError` on bad input is not modelled. The bankroll and the odds are
  given as numbers.
- Floating point: `round(...)` at lines 65-67 and 36, IEEE overflow, infinities and NaN. Stakes,
  payouts and edges are the exact unrounded reals.
- Converter.OddsCalc, Converter.ConvertRow, Converter.PartialRow, Converter.ConvertCell: require
  every scheduled percentage to be non-zero (`CellsUpTo`). pandas would store an infinity for a zero
  percentage at line 32, and reals have none. Empty (NaN) cells are not modelled.
- Text.Lower: ASCII letters only. Python's `str.lower()` also maps non-ASCII letters.
- Text.Upper: ASCII letters only, for the same reason.
- Missing `Name` or `Team` columns in the input are not modelled. Every raw row has both fields.
- Evaluator.LineBets, Evaluator.KellyCrit, Evaluator.LineBetsErrors: a missing line column is
  checked after the row is selected, per row. At line 108 pandas raises `KeyError` for a column
  the frame lacks before `.item()` runs, even when no row matches. The table is a sequence of rows
  without a column set of its own, so `LineBetsErrors` states the `.item()` error only for tables
  carrying every scheduled line. This matters only for tables the converter cannot produce
  (`ConvertedTableComplete`).
- The `label` and `SO` arguments of `kelly_crit_calc` are used only for printing and are dropped.
- Session.RunSession: each turn carries its own list of pitcher answers. Running out of them is
  modelled as `EndOfInput`, as running out of turns is. A real console would read the next line
  instead.
