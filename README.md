# Matchup selection rule of `MatchupPlotter`

`MatchupPlotter` compares one pitcher with one batter. It fetches the pitch
events each of them took part in. It filters the pitcher's events by the
handedness of the batters faced. It filters the batter's events by pitch type
and pitcher hand. Then it draws three density heatmaps. This project models
the part that decides what gets drawn, and proves properties of it:

- `Frames`: the data-frame operations the rule uses. A frame is a sequence of
  rows. `frame[mask]` is `Where`, an order-preserving filter. `len` of a
  filtered frame is `CountOf`. `series.unique()` is `Unique`.
- `Matchup`: the pitch row (`Pitch`), the constructor's eight arguments as an
  immutable record (`Config`, with `estimated_woba_using_speedangle` as the
  default weight column), and `filter_data`. It is split into the pitcher
  half, `FilterPitcher`, and the batter half, `FilterBatter`.
- `Plotting`: the two "no data" guards of `plot_matchup` and the two sample
  counts in the panel titles (`Select`). It also has `plot_matchup` on frames
  that were already fetched (`PlotMatchupAsWritten`, `PlotMatchup`). Finally
  it has the pitch-mix loop of the middle panel (`PitchMix`). That loop lists
  the distinct pitch types, gives each a palette slot and computes its
  percentage share.

Handedness codes and pitch-type codes are strings, as in the frames. The
switch-hitter marker is `"S"`. Plate location and the numeric columns, among
them the xwOBA weight, are carried unchanged and are never inspected.

Two behaviours of the code are easy to miss:

- An empty pitcher frame makes `filter_data` raise, because it reads the first
  row's `p_throws`. So it never reaches the "no data" message, and an
  exception escapes `plot_matchup`. This is modelled as the error
  `NoPitcherRows` (see Findings).
- Line 55 rebinds `df_pitcher` to the hand-filtered frame, so the shares at
  line 119 are taken over those rows.

## Model

| member | source | states |
|---|---|---|
| Frames.Where | matchupplotter.py:43-47 | a boolean mask keeps exactly the qualifying rows, in order and unchanged: the result is a subsequence of the input, every row in it satisfies the mask, its length is the number of qualifying input rows, and a row is in it iff it is in the input and qualifies |
| Frames.CountOf | matchupplotter.py:65-66 | the number of qualifying rows is at most the frame length, and it is non-zero iff some row qualifies (so `.empty` of a filtered frame means no row qualifies) |
| Frames.FilterIsUnique | matchupplotter.py:43-47 | any order-preserving subsequence whose rows all qualify and that has as many rows as qualify is exactly the masked frame |
| Frames.WhereIdempotent | matchupplotter.py:46-47 | applying a mask twice gives the same frame as applying it once |
| Frames.WhereCommutes | matchupplotter.py:46-47 | two masks applied in sequence commute |
| Frames.WhereBoth | matchupplotter.py:46-47 | two masks in sequence select the same rows as their conjunction |
| Frames.CountComplement | matchupplotter.py:43-45 | rows kept plus rows dropped by a mask make up the whole frame |
| Frames.Unique | matchupplotter.py:112 | `unique()` lists no value twice and lists exactly the values of the column |
| Frames.UniqueFirstOccurrenceOrder | matchupplotter.py:112 | `unique()` lists values in the order of their first occurrence |
| Matchup.FilterPitcher | matchupplotter.py:40-45 | it fails iff the pitcher frame is empty. When the batter's hand equals the first row's `p_throws`, it keeps exactly the rows with `stand` equal to that hand. Otherwise it keeps exactly the rows whose `stand` is that hand or `"S"`. It is an order-preserving filter in both cases |
| Matchup.FilterBatter | matchupplotter.py:46-47 | it keeps exactly the batter rows with the requested pitch type and the requested pitcher hand, in order and unchanged |
| Matchup.FilterData | matchupplotter.py:39-51 | it fails iff the pitcher frame is empty, whatever the batter frame holds. Otherwise both results are the masked frames of the two rules |
| Matchup.BatterFilterIdempotent | matchupplotter.py:46-47 | filtering the batter frame again changes nothing |
| Matchup.BatterFiltersCommute | matchupplotter.py:46-47 | applying the pitcher-hand mask before the pitch-type mask gives the same batter frame |
| Matchup.PitcherFilterIdempotent | matchupplotter.py:40-45 | filtering the hand-filtered pitcher frame again with the same hand changes nothing |
| Plotting.Select | matchupplotter.py:60-70 | the first guard fires iff either filtered frame is empty. The second fires iff both are non-empty but no pitcher row has the requested type. A figure is made otherwise; it then holds panel C's rows (the pitcher rows of the requested type), `num_pitches` equal to the batter row count and at least 1, and `pitcher_num_pitches` (line 108) equal to the number of pitcher rows of the requested type and at least 1 |
| Plotting.PlotMatchupAsWritten | matchupplotter.py:53-70 | `plot_matchup` on fetched frames raises iff the pitcher frame is empty; otherwise its result is that of PlotMatchup |
| Plotting.PlotMatchup | matchupplotter.py:53-70 | a figure is made iff the pitcher frame is non-empty, some pitcher row faced the batter's hand with the requested pitch type, and some batter row saw that pitch type from the requested hand. Its title counts are the numbers of such rows in the raw frames. An empty pitcher frame gives "no data" |
| Plotting.EmptyPitcherFrameRaises | matchupplotter.py:40 | on an empty pitcher frame the code as written raises, while the corrected rule reports "no data" |
| Plotting.ListedTypeOccurs | matchupplotter.py:112-118 | every pitch type that `unique()` lists has at least one row |
| Plotting.TypeCountsSumToTotal | matchupplotter.py:112-119 | the per-type row counts over the distinct pitch types add up to the number of hand-filtered pitcher rows |
| Plotting.Shares | matchupplotter.py:117-119 | share k is the row count of type k divided by the row total, times 100 |
| Plotting.SharesTotal | matchupplotter.py:117-119 | the shares of a list of types add up to the share of their summed counts |
| Plotting.SharesSumTo100 | matchupplotter.py:112-119 | every pitch type that `unique()` lists has at least one row, and on a non-empty frame the shares of the listed types total exactly 100 |
| Plotting.RenderedPitchMixTotals | matchupplotter.py:60-119 | whenever the guards let a figure through, panel B's rows are non-empty, `unique()` lists at least one type, and the shares computed over those rows total exactly 100 |
| Plotting.PaletteSlots | matchupplotter.py:114 | the colour map has exactly the listed types as keys. Each type maps to a position holding that type, and for distinct types that position is its own |
| Plotting.PitchMix | matchupplotter.py:112-119 | the types are the distinct pitch types in first-occurrence order, with palette slot i for type i. Each type has at least one row, and its share is its count times 100 over the row total. On a non-empty frame the shares total exactly 100 |

## Left out

- `get_data` (matchupplotter.py:22-37): the player-id lookup, the two statistics queries and today's date are network I/O and a clock. The model takes the two fetched frames as parameters. The failed-lookup `values[0]` error is not modelled.
- The `print` calls (matchupplotter.py:29, 34-35, 49, 61, 67): console output only. The two guard messages become the `NoMatchupData` and `NoPitchTypeData` outcomes.
- Kernel-density estimation, the colour normalisation, colour bars, the palette's colour values, the strike-zone lines, the axis limits and titles' text (matchupplotter.py:73-180): float numerics and drawing done by plotting libraries. Palette colours are modelled as slot positions, and the per-type subsets at line 118 only as counts.
- Legend formatting (matchupplotter.py:144-146): the `.1f` rendering of the shares is text formatting.
- Plotting.PitchMix: shares are exact rationals. The source divides in float64, so its shares total 100 only up to rounding.
- The weight column (`batter_color_column`) is kept in `Config` but never read, since only the heatmaps use it.
- Missing or NaN `pitch_type` values: every row is assumed to carry a pitch type.
- Pandas index labels: a filtered frame is modelled by its rows in order, without the index.

## Findings

| source | as written | input that shows it | evidently intended | confidence | as-written member | corrected member |
|---|---|---|---|---|---|---|
| matchupplotter.py:40 | `filter_data` reads `p_throws` from row 0 of the pitcher frame before `plot_matchup` checks `df_pitcher.empty` at line 60 | a pitcher frame with no rows, e.g. a pitcher with no pitches since the fixed start date | report "No data available for the specified matchup." and return without raising | medium, not executed | Plotting.PlotMatchupAsWritten | Plotting.PlotMatchup |
