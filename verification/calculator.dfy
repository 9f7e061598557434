/** The staffing and bonus calculation of a dock shift. From the selected
    company, the pieces unloaded (`sbarco`), loaded (`carico`) and vehicles
    (`auto`), and the staff available, it derives the staff theoretically
    required, the signed staff deficit or surplus, the pieces loaded beyond
    what the loading crew could theoretically handle, and the bonus each
    employee earns for them. Inputs are already-normalised numbers. */
module Calculator {
  import opened Rules
  import opened Bonus

  datatype Input = Input(
    company: Company,
    piecesSbarco: real,
    piecesCarico: real,
    piecesAuto: real,
    staffAvailable: real)

  datatype Outcome = Outcome(
    staffRequired: real,
    staffDeficit: real,
    piecesExtra: real,
    bonusPerEmployee: real)

  /** The result shown when no company is selected. */
  const Zero := Outcome(0.0, 0.0, 0.0, 0.0)

  /** Staff needed to unload the unloaded pieces: that crew, working at the
      unloading ratio, handles exactly those pieces. */
  function StaffSbarco(r: Ratios, pieces: real): (s: real)
    requires r.sbarco > 0.0
    ensures s * r.sbarco == pieces
  {
    pieces / r.sbarco
  }

  /** Staff needed to load the loaded pieces: that crew, working at the
      loading ratio, handles exactly those pieces. */
  function StaffCarico(r: Ratios, pieces: real): (s: real)
    requires r.carico > 0.0
    ensures s * r.carico == pieces
  {
    pieces / r.carico
  }

  /** Staff needed for the vehicles: that crew, working at the vehicle
      ratio, handles exactly those vehicles. */
  function StaffAuto(pieces: real): (s: real)
    ensures s * AutoRatio == pieces
  {
    pieces / AutoRatio
  }

  /** Phase A: the staff theoretically required for all three kinds of work.
      Once the unloading and vehicle crews are taken out of it, what remains,
      at the loading ratio, handles exactly the loaded pieces. */
  function StaffRequired(r: Ratios, sbarco: real, carico: real, auto: real): (req: real)
    requires r.sbarco > 0.0 && r.carico > 0.0
    ensures (req - StaffSbarco(r, sbarco) - StaffAuto(auto)) * r.carico == carico
    ensures sbarco == 0.0 && carico == 0.0 && auto == 0.0 ==> req == 0.0
    ensures sbarco >= 0.0 && carico >= 0.0 && auto >= 0.0 ==> req >= 0.0
  {
    StaffSbarco(r, sbarco) + StaffCarico(r, carico) + StaffAuto(auto)
  }

  /** Staff left for loading once unloading and vehicles are covered; it may
      be negative, and is clamped only where the loading capacity uses it. */
  function StaffForCarico(r: Ratios, sbarco: real, auto: real, staff: real): (s: real)
    requires r.sbarco > 0.0
    ensures s + StaffSbarco(r, sbarco) + StaffAuto(auto) == staff
    ensures sbarco >= 0.0 && auto >= 0.0 ==> s <= staff
  {
    staff - StaffSbarco(r, sbarco) - StaffAuto(auto)
  }

  /** The clamp applied to the crew left for loading. */
  function Max0(x: real): (m: real)
    ensures m >= 0.0 && m >= x
    ensures m == x || m == 0.0
  {
    if 0.0 < x then x else 0.0
  }

  /** Phase C: the loaded pieces beyond the theoretical loading capacity of
      the staff left for loading. Nothing is counted without staff. */
  function PiecesExtra(r: Ratios, sbarco: real, carico: real, auto: real, staff: real): (extra: real)
    requires r.sbarco > 0.0 && r.carico > 0.0
    ensures staff <= 0.0 ==> extra == 0.0
    ensures staff > 0.0 ==> extra <= carico
    ensures staff > 0.0 && StaffForCarico(r, sbarco, auto, staff) <= 0.0 ==> extra == carico
  {
    if staff > 0.0 then
      var capacity := Max0(StaffForCarico(r, sbarco, auto, staff)) * r.carico;
      carico - capacity
    else 0.0
  }

  /** The whole calculation. */
  function Calculate(inp: Input): (out: Outcome)
    ensures inp.company == None ==> out == Zero
    ensures inp.company != None ==> out.staffDeficit == inp.staffAvailable - out.staffRequired
    ensures inp.company != None ==> (out.staffDeficit < 0.0 <==> inp.staffAvailable < out.staffRequired)
    ensures inp.staffAvailable <= 0.0 ==> out.piecesExtra == 0.0 && out.bonusPerEmployee == 0.0
    ensures inp.staffAvailable > 0.0 && inp.company != None ==> out.piecesExtra <= inp.piecesCarico
    ensures out.bonusPerEmployee >= 0.0
    ensures inp.staffAvailable > 0.0 ==>
              out.bonusPerEmployee * inp.staffAvailable == TotalBonus(out.piecesExtra) as real
  {
    if inp.company == None then Zero
    else
      var r := CompanyRatios(inp.company);
      var required := StaffRequired(r, inp.piecesSbarco, inp.piecesCarico, inp.piecesAuto);
      var deficit := inp.staffAvailable - required;
      var extra := PiecesExtra(r, inp.piecesSbarco, inp.piecesCarico, inp.piecesAuto, inp.staffAvailable);
      var share := BonusPerEmployee(TotalBonus(extra), inp.staffAvailable);
      Outcome(required, deficit, extra, share)
  }

  /** With no company selected the result is all zero, whatever the counts. */
  lemma NoCompanyIsZero(sbarco: real, carico: real, auto: real, staff: real)
    ensures Calculate(Input(None, sbarco, carico, auto, staff)) == Zero
  {
  }

  /** With a company selected, the staff required is the sum of the three
      per-ratio shares, and it vanishes exactly when all counts vanish (for
      non-negative counts). */
  lemma RequiredIsSumOfShares(inp: Input)
    requires inp.company != None
    ensures var r := CompanyRatios(inp.company);
      Calculate(inp).staffRequired
        == inp.piecesSbarco / r.sbarco + inp.piecesCarico / r.carico + inp.piecesAuto / AutoRatio
    ensures inp.piecesSbarco >= 0.0 && inp.piecesCarico >= 0.0 && inp.piecesAuto >= 0.0 ==>
              (Calculate(inp).staffRequired == 0.0 <==>
                 inp.piecesSbarco == 0.0 && inp.piecesCarico == 0.0 && inp.piecesAuto == 0.0)
  {
  }

  /** Each of the three crews is non-negative for a non-negative count, and
      is zero only when its count is zero. */
  lemma SharesNonNegative(r: Ratios, sbarco: real, carico: real, auto: real)
    requires r.sbarco > 0.0 && r.carico > 0.0
    requires sbarco >= 0.0 && carico >= 0.0 && auto >= 0.0
    ensures StaffSbarco(r, sbarco) >= 0.0 && (StaffSbarco(r, sbarco) == 0.0 <==> sbarco == 0.0)
    ensures StaffCarico(r, carico) >= 0.0 && (StaffCarico(r, carico) == 0.0 <==> carico == 0.0)
    ensures StaffAuto(auto) >= 0.0 && (StaffAuto(auto) == 0.0 <==> auto == 0.0)
  {
  }

  /** A crew exactly as large as the staff required loads no extra pieces:
      the theoretical capacity covers the loaded pieces exactly. */
  lemma ExactCrewNoExtra(inp: Input)
    requires inp.company != None && inp.piecesCarico >= 0.0
    requires inp.staffAvailable == Calculate(inp).staffRequired > 0.0
    ensures Calculate(inp).piecesExtra == 0.0
    ensures Calculate(inp).bonusPerEmployee == 0.0
  {
  }

  /** Phase C in the caller's terms: with staff available, the extra pieces
      are the loaded pieces minus the clamped capacity of the crew left for
      loading. */
  lemma ExtraIsLoadedMinusCapacity(inp: Input)
    requires inp.company != None && inp.staffAvailable > 0.0
    ensures var r := CompanyRatios(inp.company);
      var left := inp.staffAvailable - inp.piecesSbarco / r.sbarco - inp.piecesAuto / AutoRatio;
      Calculate(inp).piecesExtra == inp.piecesCarico - (if left > 0.0 then left else 0.0) * r.carico
  {
  }

  /** The extra pieces are the staff deficit converted into loading pieces:
      exactly so while the crew left for loading is not negative, and never
      more than that when the clamp applies. */
  lemma ExtraIsDeficitInPieces(inp: Input)
    requires inp.company != None && inp.staffAvailable > 0.0
    ensures var r := CompanyRatios(inp.company);
      var out := Calculate(inp);
      && out.piecesExtra <= -out.staffDeficit * r.carico
      && (StaffForCarico(r, inp.piecesSbarco, inp.piecesAuto, inp.staffAvailable) >= 0.0 ==>
            out.piecesExtra == -out.staffDeficit * r.carico)
  {
  }

  /** A bonus is only ever paid to an understaffed crew: a positive share
      means there were staff, pieces beyond their capacity, and a deficit. */
  lemma BonusOnlyWhenUnderstaffed(inp: Input)
    requires Calculate(inp).bonusPerEmployee > 0.0
    ensures inp.company != None
    ensures inp.staffAvailable > 0.0
    ensures Calculate(inp).piecesExtra >= 1.0
    ensures Calculate(inp).staffDeficit < 0.0
  {
  }

  /** Without staff there are no extra pieces and no bonus, whatever the
      counts and the company. */
  lemma NoStaffNoBonus(inp: Input)
    requires inp.staffAvailable <= 0.0
    ensures Calculate(inp).piecesExtra == 0.0
    ensures Calculate(inp).bonusPerEmployee == 0.0
  {
  }

  /** The worked Gnv shift: 250 pieces unloaded, 190 loaded, 40 vehicles and
      20 staff require 21 staff, leave a deficit of one, produce 19 extra
      pieces, a 100 euro pool and 5 euro per employee. */
  lemma GnvScenario()
    ensures Calculate(Input(Gnv, 250.0, 190.0, 40.0, 20.0)) == Outcome(21.0, -1.0, 19.0, 5.0)
  {
  }

  /** A Grimaldi shift: 220 pieces unloaded, 160 loaded and 15 staff require
      20 staff; with 10 of them unloading, the 5 left could load 80 pieces,
      so 80 are extra and the 18-piece tier plus 62 high-rate pieces give a
      710 euro pool. */
  lemma GrimaldiScenario()
    ensures Calculate(Input(Grimaldi, 220.0, 160.0, 0.0, 15.0)) == Outcome(20.0, -5.0, 80.0, 710.0 / 15.0)
  {
  }

  /** Without staff the extra pieces and the share are zero, but the staff
      required and the deficit are still reported for a selected company. */
  lemma NoStaffKeepsRequirement()
    ensures Calculate(Input(Gnv, 25.0, 0.0, 0.0, -3.0)) == Outcome(1.0, -4.0, 0.0, 0.0)
  {
  }
}
