/** The MatchupPlotter configuration record and its filter step
    (`MatchupPlotter.__init__` and `MatchupPlotter.filter_data`). */
module Matchup {
  import opened Frames

  /** Handedness codes ('L', 'R', 'S') and pitch-type codes ('FF', 'SL', ...) are
      the strings the statistics frames carry; the rule only compares them. */
  type Code = string

  /** The `stand` value of a switch hitter. */
  const Switch: Code := "S"

  /** The weight column used when the caller names none. */
  const DefaultColorColumn: string := "estimated_woba_using_speedangle"

  /** One pitch event (one frame row). The plate location and the numeric
      columns (among them the xwOBA weight) only feed the charts and are carried
      unchanged. */
  datatype Pitch = Pitch(
    pitchType: Code,
    stand: Code,
    pThrows: Code,
    plateX: real,
    plateZ: real,
    metrics: map<string, real>)

  type Frame = seq<Pitch>

  /** The eight constructor arguments, fixed once the plotter is built. */
  datatype Config = Config(
    pitcherFirst: string,
    pitcherLast: string,
    batterFirst: string,
    batterLast: string,
    batterHand: Code,
    pitcherHand: Code,
    pitchType: Code,
    batterColorColumn: string := DefaultColorColumn)

  /** Reading the first pitcher row of an empty frame raises an IndexError. */
  datatype FilterError = NoPitcherRows

  datatype Result<T> = Ok(value: T) | Err(error: FilterError)

  /** The pitcher-side handedness rule: with the batter's hand equal to the
      pitcher's observed throwing hand, keep rows where the batter stood with
      that hand; otherwise keep that hand or the switch marker. */
  predicate FacesHand(p: Pitch, batterHand: Code, pitcherThrows: Code) {
    if batterHand == pitcherThrows then p.stand == batterHand
    else p.stand in [batterHand, Switch]
  }

  function HandMask(batterHand: Code, pitcherThrows: Code): Pitch -> bool {
    (p: Pitch) => FacesHand(p, batterHand, pitcherThrows)
  }

  /** `frame['pitch_type'] == t` */
  function IsType(t: Code): Pitch -> bool {
    (p: Pitch) => p.pitchType == t
  }

  /** `frame['p_throws'] == h` */
  function ThrownWith(h: Code): Pitch -> bool {
    (p: Pitch) => p.pThrows == h
  }

  /** A batter row the matchup asks for: the requested pitch type, thrown with
      the requested pitcher hand. */
  predicate Requested(cfg: Config, p: Pitch) {
    p.pitchType == cfg.pitchType && p.pThrows == cfg.pitcherHand
  }

  function RequestedMask(cfg: Config): Pitch -> bool {
    (p: Pitch) => Requested(cfg, p)
  }

  /** The pitcher half of filter_data: the observed throwing hand comes from
      the first row, so an empty frame is an error. */
  function FilterPitcher(cfg: Config, pitcher: Frame): (r: Result<Frame>)
    ensures r.Err? <==> pitcher == []
    ensures r.Ok? ==> IsFilterOf(r.value, pitcher, HandMask(cfg.batterHand, pitcher[0].pThrows))
    ensures r.Ok? && cfg.batterHand == pitcher[0].pThrows ==>
      (forall p :: p in r.value ==> p in pitcher && p.stand == cfg.batterHand) &&
      (forall p :: p in pitcher && p.stand == cfg.batterHand ==> p in r.value)
    ensures r.Ok? && cfg.batterHand != pitcher[0].pThrows ==>
      (forall p :: p in r.value ==> p in pitcher && (p.stand == cfg.batterHand || p.stand == Switch)) &&
      (forall p :: p in pitcher && (p.stand == cfg.batterHand || p.stand == Switch) ==> p in r.value)
  {
    if pitcher == [] then Err(NoPitcherRows)
    else Ok(Where(pitcher, HandMask(cfg.batterHand, pitcher[0].pThrows)))
  }

  /** The batter half of filter_data: first the pitch-type mask, then the
      pitcher-hand mask. */
  function FilterBatter(cfg: Config, batter: Frame): (r: Frame)
    ensures IsFilterOf(r, batter, RequestedMask(cfg))
    ensures forall p :: p in r ==> p in batter && Requested(cfg, p)
    ensures forall p :: p in batter && Requested(cfg, p) ==> p in r
  {
    var byType := Where(batter, IsType(cfg.pitchType));
    WhereBoth(batter, IsType(cfg.pitchType), ThrownWith(cfg.pitcherHand), RequestedMask(cfg));
    Where(byType, ThrownWith(cfg.pitcherHand))
  }

  /** The two filtered frames of filter_data. */
  datatype Filtered = Filtered(pitcherRows: Frame, batterRows: Frame)

  /** filter_data: both frames filtered, or the IndexError of an empty pitcher
      frame; the batter frame plays no part in whether it fails. */
  function FilterData(cfg: Config, pitcher: Frame, batter: Frame): (r: Result<Filtered>)
    ensures r.Err? <==> pitcher == []
    ensures r.Ok? ==> IsFilterOf(r.value.pitcherRows, pitcher, HandMask(cfg.batterHand, pitcher[0].pThrows))
    ensures r.Ok? ==> IsFilterOf(r.value.batterRows, batter, RequestedMask(cfg))
  {
    match FilterPitcher(cfg, pitcher)
    case Err(e) => Err(e)
    case Ok(rows) => Ok(Filtered(rows, FilterBatter(cfg, batter)))
  }

  /** Filtering the batter frame a second time changes nothing. */
  lemma BatterFilterIdempotent(cfg: Config, batter: Frame)
    ensures FilterBatter(cfg, FilterBatter(cfg, batter)) == FilterBatter(cfg, batter)
  {
    var asked := RequestedMask(cfg);
    FilterIsUnique(FilterBatter(cfg, batter), batter, asked);
    FilterIsUnique(FilterBatter(cfg, FilterBatter(cfg, batter)), FilterBatter(cfg, batter), asked);
    WhereIdempotent(batter, asked);
  }

  /** Applying the batter's two masks in the other order gives the same frame. */
  lemma BatterFiltersCommute(cfg: Config, batter: Frame)
    ensures Where(Where(batter, ThrownWith(cfg.pitcherHand)), IsType(cfg.pitchType)) == FilterBatter(cfg, batter)
  {
    WhereCommutes(batter, IsType(cfg.pitchType), ThrownWith(cfg.pitcherHand));
  }

  /** Filtering the pitcher frame a second time, with the hand read from the
      original first row, changes nothing. */
  lemma PitcherFilterIdempotent(cfg: Config, pitcher: Frame)
    requires pitcher != []
    ensures Where(FilterPitcher(cfg, pitcher).value, HandMask(cfg.batterHand, pitcher[0].pThrows))
         == FilterPitcher(cfg, pitcher).value
  {
    WhereIdempotent(pitcher, HandMask(cfg.batterHand, pitcher[0].pThrows));
  }
}
