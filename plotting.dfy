/** The decisions of `MatchupPlotter.plot_matchup` once the two frames are in
    hand: the two "no data" guards, the sample counts printed in the panel
    titles, and the pitch mix (distinct pitch types, their palette slots and
    their percentage shares) shown in the middle panel's legend. */
module Plotting {
  import opened Frames
  import opened Matchup

  /** What the three panels are drawn from, with the sample counts in their
      titles: panel A the batter rows, panel B the hand-filtered pitcher rows,
      panel C those of the requested pitch type. */
  datatype Figure = Figure(
    batterRows: Frame,
    pitcherRows: Frame,
    pitcherTypeRows: Frame,
    numPitches: nat,
    pitcherNumPitches: nat)

  /** Either guard stops the method before any figure is made. */
  datatype Outcome = NoMatchupData | NoPitchTypeData | Rendered(figure: Figure)

  /** The two guards and the two title counts, applied to the filtered frames.
      The first guard looks at both whole frames; the second only at the
      pitcher rows of the requested pitch type. */
  function Select(cfg: Config, pitcherRows: Frame, batterRows: Frame): (r: Outcome)
    ensures r.NoMatchupData? <==> pitcherRows == [] || batterRows == []
    ensures r.NoPitchTypeData? <==>
      pitcherRows != [] && batterRows != [] &&
      forall p :: p in pitcherRows ==> p.pitchType != cfg.pitchType
    ensures r.Rendered? ==>
      && r.figure.batterRows == batterRows
      && r.figure.pitcherRows == pitcherRows
      && IsFilterOf(r.figure.pitcherTypeRows, pitcherRows, IsType(cfg.pitchType))
      && r.figure.numPitches == |batterRows| >= 1
      && r.figure.pitcherNumPitches == CountOf(pitcherRows, IsType(cfg.pitchType)) >= 1
  {
    if pitcherRows == [] || batterRows == [] then NoMatchupData
    else
      var typed := Where(pitcherRows, IsType(cfg.pitchType));
      if typed == [] then NoPitchTypeData
      else Rendered(Figure(batterRows, pitcherRows, typed, |batterRows|, |typed|))
  }

  /** A pitcher row that survives the hand filter (with `throws` the observed
      throwing hand) and has the requested pitch type. */
  function FacedWithType(cfg: Config, throws: Code): Pitch -> bool {
    (p: Pitch) => FacesHand(p, cfg.batterHand, throws) && p.pitchType == cfg.pitchType
  }

  /** plot_matchup on fetched frames as the source orders it: filter_data
      reads the first pitcher row before any guard, so an empty pitcher frame
      raises instead of being reported. Otherwise it agrees with PlotMatchup. */
  function PlotMatchupAsWritten(cfg: Config, pitcher: Frame, batter: Frame): (r: Result<Outcome>)
    ensures r.Err? <==> pitcher == []
    ensures r.Ok? ==> r.value == PlotMatchup(cfg, pitcher, batter)
  {
    match FilterData(cfg, pitcher, batter)
    case Err(e) => Err(e)
    case Ok(f) => Ok(Select(cfg, f.pitcherRows, f.batterRows))
  }

  /** plot_matchup on fetched frames with an empty pitcher frame reported as
      "no data" like an empty filtered one; it never fails. A figure is made
      exactly when some pitcher row faced the batter's hand with the requested
      pitch type and some batter row saw that pitch type from the requested
      pitcher hand, and its title counts are the numbers of such rows. */
  function PlotMatchup(cfg: Config, pitcher: Frame, batter: Frame): (r: Outcome)
    ensures pitcher == [] ==> r.NoMatchupData?
    ensures r.Rendered? <==>
      && pitcher != []
      && (exists p :: p in pitcher && FacesHand(p, cfg.batterHand, pitcher[0].pThrows) && p.pitchType == cfg.pitchType)
      && (exists b :: b in batter && Requested(cfg, b))
    ensures r.Rendered? ==>
      && r.figure.numPitches == CountOf(batter, RequestedMask(cfg))
      && r.figure.pitcherNumPitches == CountOf(pitcher, FacedWithType(cfg, pitcher[0].pThrows))
  {
    if pitcher == [] then NoMatchupData
    else
      var f := FilterData(cfg, pitcher, batter).value;
      var throws := pitcher[0].pThrows;
      FilterIsUnique(f.pitcherRows, pitcher, HandMask(cfg.batterHand, throws));
      WhereBoth(pitcher, HandMask(cfg.batterHand, throws), IsType(cfg.pitchType), FacedWithType(cfg, throws));
      Select(cfg, f.pitcherRows, f.batterRows)
  }

  /** The input on which the source and the corrected rule part ways. */
  lemma EmptyPitcherFrameRaises(cfg: Config, batter: Frame)
    ensures PlotMatchupAsWritten(cfg, [], batter) == Err(NoPitcherRows)
    ensures PlotMatchup(cfg, [], batter) == NoMatchupData
  {
  }

  /** `frame['pitch_type']` */
  function PitchTypes(rows: Frame): seq<Code> {
    seq(|rows|, i requires 0 <= i < |rows| => rows[i].pitchType)
  }

  /** `count / total * 100`, exactly. */
  function Percent(count: nat, total: nat): real
    requires total > 0
  {
    count as real / total as real * 100.0
  }

  function Sum(xs: seq<real>): real {
    if xs == [] then 0.0 else Sum(xs[..|xs| - 1]) + xs[|xs| - 1]
  }

  lemma SumAppend(xs: seq<real>, x: real)
    ensures Sum(xs + [x]) == Sum(xs) + x
  {
    assert (xs + [x])[..|xs|] == xs;
  }

  /** The row counts of the pitch types in `types`, added up. */
  function SumCounts(rows: Frame, types: seq<Code>): nat {
    if types == [] then 0
    else SumCounts(rows, types[..|types| - 1]) + CountOf(rows, IsType(types[|types| - 1]))
  }

  function InTypes(types: seq<Code>): Pitch -> bool {
    (p: Pitch) => p.pitchType in types
  }

  lemma {:induction false} CountInExtend(rows: Frame, types: seq<Code>, t: Code)
    requires t !in types
    ensures CountOf(rows, InTypes(types + [t])) == CountOf(rows, InTypes(types)) + CountOf(rows, IsType(t))
    decreases |rows|
  {
    if rows != [] {
      CountInExtend(rows[1..], types, t);
    }
  }

  lemma {:induction false} SumCountsOfDistinct(rows: Frame, types: seq<Code>)
    requires Distinct(types)
    ensures SumCounts(rows, types) == CountOf(rows, InTypes(types))
    decreases |types|
  {
    if types == [] {
      assert forall p :: p in rows ==> !InTypes(types)(p);
    } else {
      var front, last := types[..|types| - 1], types[|types| - 1];
      SumCountsOfDistinct(rows, front);
      CountInExtend(rows, front, last);
      assert front + [last] == types;
    }
  }

  lemma {:induction false} CountAllCovered(rows: Frame, types: seq<Code>)
    requires forall p :: p in rows ==> p.pitchType in types
    ensures CountOf(rows, InTypes(types)) == |rows|
    decreases |rows|
  {
    if rows != [] {
      CountAllCovered(rows[1..], types);
    }
  }

  /** The per-type counts over the distinct pitch types of a frame add up to
      its number of rows. */
  lemma TypeCountsSumToTotal(rows: Frame)
    ensures SumCounts(rows, Unique(PitchTypes(rows))) == |rows|
  {
    var types := Unique(PitchTypes(rows));
    SumCountsOfDistinct(rows, types);
    forall p | p in rows
      ensures p.pitchType in types
    {
      var i :| 0 <= i < |rows| && rows[i] == p;
      assert PitchTypes(rows)[i] == p.pitchType;
    }
    CountAllCovered(rows, types);
  }

  /** Every type that unique() lists occurs in some row. */
  lemma ListedTypeOccurs(rows: Frame, t: Code)
    requires t in Unique(PitchTypes(rows))
    ensures CountOf(rows, IsType(t)) >= 1
  {
    assert t in PitchTypes(rows);
    var j :| 0 <= j < |rows| && PitchTypes(rows)[j] == t;
    assert rows[j] in rows && IsType(t)(rows[j]);
  }

  /** Appending a share to shares that add up to `tally` rows' worth gives the
      share of `tally + count` rows. */
  lemma ShareStep(shares: seq<real>, tally: nat, count: nat, n: nat)
    requires n > 0
    requires Sum(shares) == Percent(tally, n)
    ensures Sum(shares + [Percent(count, n)]) == Percent(tally + count, n)
  {
    SumAppend(shares, Percent(count, n));
    PercentsAdd(tally, count, n);
  }

  /** The percentage of the rows taken by each pitch type in `types`, in order. */
  function Shares(rows: Frame, types: seq<Code>): (r: seq<real>)
    requires types != [] ==> rows != []
    ensures |r| == |types|
    ensures forall k :: 0 <= k < |types| ==> r[k] == Percent(CountOf(rows, IsType(types[k])), |rows|)
  {
    if types == [] then []
    else Shares(rows, types[..|types| - 1]) + [Percent(CountOf(rows, IsType(types[|types| - 1])), |rows|)]
  }

  /** The shares of some pitch types add up to the share of their summed counts. */
  lemma {:induction false} SharesTotal(rows: Frame, types: seq<Code>)
    requires rows != []
    ensures Sum(Shares(rows, types)) == Percent(SumCounts(rows, types), |rows|)
    decreases |types|
  {
    if types != [] {
      var front, last := types[..|types| - 1], types[|types| - 1];
      SharesTotal(rows, front);
      ShareStep(Shares(rows, front), SumCounts(rows, front), CountOf(rows, IsType(last)), |rows|);
    }
  }

  /** All the rows are 100 percent of them. */
  lemma PercentOfWhole(n: nat)
    requires n > 0
    ensures Percent(n, n) == 100.0
  {
  }

  /** Shares of one total add like their counts. */
  lemma PercentsAdd(a: nat, b: nat, n: nat)
    requires n > 0
    ensures Percent(a, n) + Percent(b, n) == Percent(a + b, n)
  {
  }

  /** One more pitch type processed adds its share at the end. */
  lemma SharesAppend(rows: Frame, types: seq<Code>, i: nat)
    requires i < |types|
    requires rows != []
    ensures Shares(rows, types[..i + 1]) ==
      Shares(rows, types[..i]) + [Percent(CountOf(rows, IsType(types[i])), |rows|)]
  {
    assert types[..i + 1][..i] == types[..i];
  }

  /** Every pitch type that unique() lists has at least one row, and on a
      non-empty frame the shares of those types total exactly 100. */
  lemma SharesSumTo100(rows: Frame)
    ensures forall t :: t in Unique(PitchTypes(rows)) ==> CountOf(rows, IsType(t)) >= 1
    ensures rows != [] ==> Sum(Shares(rows, Unique(PitchTypes(rows)))) == 100.0
  {
    var types := Unique(PitchTypes(rows));
    forall t | t in types
      ensures CountOf(rows, IsType(t)) >= 1
    {
      ListedTypeOccurs(rows, t);
    }
    if rows != [] {
      SharesTotal(rows, types);
      TypeCountsSumToTotal(rows);
      PercentOfWhole(|rows|);
    }
  }

  /** Whenever a figure is made, panel B's rows are not empty, so the pitch
      mix computed over them lists at least one type and its shares total 100. */
  lemma RenderedPitchMixTotals(cfg: Config, pitcherRows: Frame, batterRows: Frame)
    requires Select(cfg, pitcherRows, batterRows).Rendered?
    ensures Select(cfg, pitcherRows, batterRows).figure.pitcherRows == pitcherRows != []
    ensures Unique(PitchTypes(pitcherRows)) != []
    ensures Sum(Shares(pitcherRows, Unique(PitchTypes(pitcherRows)))) == 100.0
  {
    assert PitchTypes(pitcherRows)[0] == pitcherRows[0].pitchType;
    assert pitcherRows[0].pitchType in Unique(PitchTypes(pitcherRows));
    SharesSumTo100(pitcherRows);
  }

  /** `{t: colors[i] for i, t in enumerate(types)}`, each colour given as its
      position in the palette; a later duplicate would overwrite an earlier one. */
  function PaletteSlots(types: seq<Code>): (slots: map<Code, nat>)
    ensures slots.Keys == set t | t in types
    ensures forall t :: t in slots ==> slots[t] < |types| && types[slots[t]] == t
    ensures Distinct(types) ==> forall i :: 0 <= i < |types| ==> slots[types[i]] == i
  {
    if types == [] then map[]
    else PaletteSlots(types[..|types| - 1])[types[|types| - 1] := |types| - 1]
  }

  /** The pitch-mix loop of the middle panel: the distinct pitch types of the
      hand-filtered pitcher rows in order of first appearance, the palette slot
      of each, and the share of the rows each accounts for. Every listed type
      occurs at least once and the shares total 100. */
  method PitchMix(rows: Frame) returns (types: seq<Code>, slots: map<Code, nat>, percents: seq<real>)
    ensures types == Unique(PitchTypes(rows))
    ensures slots.Keys == set t | t in types
    ensures forall i :: 0 <= i < |types| ==> slots[types[i]] == i
    ensures |percents| == |types|
    ensures forall i :: 0 <= i < |types| ==>
      CountOf(rows, IsType(types[i])) >= 1 &&
      percents[i] == Percent(CountOf(rows, IsType(types[i])), |rows|)
    ensures rows != [] ==> Sum(percents) == 100.0
  {
    types := Unique(PitchTypes(rows));
    slots := PaletteSlots(types);
    percents := [];
    for i := 0 to |types|
      invariant i > 0 ==> rows != []
      invariant percents == Shares(rows, types[..i])
    {
      ListedTypeOccurs(rows, types[i]);
      var subset := Where(rows, IsType(types[i]));
      SharesAppend(rows, types, i);
      assert |subset| == CountOf(rows, IsType(types[i]));
      percents := percents + [Percent(|subset|, |rows|)];
    }
    assert types[..|types|] == types;
    SharesSumTo100(rows);
    forall i | 0 <= i < |types|
      ensures CountOf(rows, IsType(types[i])) >= 1
    {
      assert types[i] in types;
    }
  }
}
