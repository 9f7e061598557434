/** The fixed configuration of the calculator: the companies a shift can be
    worked for, the pieces one worker is expected to handle per shift for
    each of them, and the constants of the two-tier piece-rate bonus. */
module Rules {

  /** The company selector. `None` is the empty selection, for which the
      calculator reports all-zero results without consulting any ratio. */
  datatype Company = None | Gnv | Grimaldi

  /** Pieces one worker unloads (`sbarco`) and loads (`carico`) per shift. */
  datatype Ratios = Ratios(sbarco: real, carico: real)

  /** The ratio table. Every selectable company has an entry, and no ratio is
      zero or negative, so every division by a ratio is well defined. */
  function CompanyRatios(c: Company): (r: Ratios)
    requires c != None
    ensures r.sbarco > 0.0 && r.carico > 0.0
  {
    match c
    case Gnv => Ratios(25.0, 19.0)
    case Grimaldi => Ratios(22.0, 16.0)
  }

  /** Vehicles one worker handles per shift, the same for every company. */
  const AutoRatio: real := 40.0

  /** Whole extra pieces paid at the low rate (pieces 1 to 18). */
  const LimitLowRate: nat := 18

  /** Euro per extra piece up to and including the threshold. */
  const RateLow: nat := 5

  /** Euro per extra piece beyond the threshold. */
  const RateHigh: nat := 10
}
