# Dock staffing and bonus calculator — Dafny model

The calculator takes a company (Gnv, Grimaldi, or none selected), the pieces
unloaded (*sbarco*), loaded (*carico*) and vehicles (*autovetture*) of a shift,
and the staff available. It returns four figures:

- the staff theoretically required;
- the signed staff deficit or surplus;
- the loaded pieces beyond what the loading crew could theoretically handle;
- the bonus each employee earns for those pieces.

Extra whole pieces are paid progressively: 5 euro each up to 18 pieces, then
10 euro for each further piece. The pool is split evenly among all available
staff.

The model is split into three modules:

- `Rules` (`rules.dfy`): the company datatype (with a `None` case for the
  empty selection), the ratio table, the vehicle ratio and the bonus constants.
- `Bonus` (`bonus.dfy`): the tier function on whole pieces, a piece-by-piece
  reference definition of the same bonus, the floor-then-tier total, and the
  per-employee share.
- `Calculator` (`calculator.dfy`): the four phases of `calculate()` as pure
  functions over `real`, and lemmas for each branch.

The JavaScript works on IEEE doubles. The model uses exact `real` arithmetic
and `.Floor` for `Math.floor`, and it uses integers for the bonus amounts.

## Model

| member | source | states |
|---|---|---|
| Rules.CompanyRatios | script.js:2-6 | every selectable company has an entry, and both of its ratios are positive, so no division by a ratio can fail |
| Bonus.TierBonus | script.js:62-71 | the bonus for n whole extra pieces lies between paying all n at 5 euro and paying all n at 10 euro |
| Bonus.TierIsProgressive | script.js:62-71 | the closed-form tier equals the sum of per-piece rates, where piece k earns 5 if k ≤ 18 and 10 otherwise. Crossing the threshold therefore raises only the marginal rate; earlier pieces are not re-priced |
| Bonus.TierStep | script.js:65-70 | each further whole piece adds exactly its own position's rate |
| Bonus.TierMonotone | script.js:65-70 | the tier bonus is non-decreasing in n and strictly increasing from each n to any larger n |
| Bonus.TierThreshold | script.js:10-12 | 18 pieces earn 90 euro; 19 pieces earn 100 euro |
| Bonus.TotalBonus | script.js:59-73 | the total bonus is zero exactly when the extra pieces are below one. From one piece upwards, it is the tier bonus of their floor |
| Bonus.TotalBonusOfFloor | script.js:62-64 | with or without the `> 0` guards, the total is the tier bonus of the floored count when that count is positive, and 0 otherwise |
| Bonus.TotalBonusDependsOnFloor | script.js:63 | two extra-piece counts with the same whole part earn the same bonus |
| Bonus.TotalBonusMonotone | script.js:62-71 | more extra pieces never earn less; a higher whole part earns strictly more |
| Bonus.TotalBonusBoundary | script.js:63-70 | 18.9 extra pieces earn 90 euro, 19 earn 100, and 0.9 earn nothing |
| Bonus.BonusPerEmployee | script.js:59-77 | the share is non-negative and is zero without staff. With staff, share × staff equals the pool, and a positive pool gives a positive share |
| Bonus.ShareMonotone | script.js:62-77 | for a fixed crew, more extra pieces never lower the share, and a higher whole part raises it |
| Calculator.StaffSbarco | script.js:38 | the unloading crew, working at the company's unloading ratio, handles exactly the unloaded pieces |
| Calculator.StaffAuto | script.js:39 | the vehicle crew, working at 40 vehicles each, handles exactly the vehicles |
| Calculator.StaffCarico | script.js:40 | the loading crew, working at the company's loading ratio, handles exactly the loaded pieces |
| Calculator.StaffRequired | script.js:38-41 | once the unloading and vehicle crews are taken out of the required staff, the remainder at the loading ratio handles exactly the loaded pieces. The total is 0 when all counts are 0, and non-negative for non-negative counts |
| Calculator.StaffForCarico | script.js:51 | the crew left for loading, plus the unloading and vehicle crews, is the whole available staff. For non-negative counts it is never more than the available staff |
| Calculator.Max0 | script.js:52 | the clamp is non-negative and at least its argument, and it is either the argument or 0 |
| Calculator.PiecesExtra | script.js:49-54 | no extra pieces without staff; with staff, never more than the loaded pieces, and exactly the loaded pieces when no staff is left for loading |
| Calculator.Calculate | script.js:27-77 | with no company, the result is all zero. Otherwise the deficit is available minus required, and it is negative iff available < required. Without staff, extra and share are 0. The share is never negative, and with staff share × staff equals the pool for the extra pieces |
| Calculator.NoCompanyIsZero | script.js:27-30 | with no company selected, the result is (0, 0, 0, 0) whatever the counts and staff |
| Calculator.RequiredIsSumOfShares | script.js:33-41 | required staff is sbarco/ratio + carico/ratio + auto/40. For non-negative counts it is zero iff all three counts are zero |
| Calculator.SharesNonNegative | script.js:38-40 | for non-negative counts each of the three crews is non-negative, and it is zero exactly when its count is zero |
| Calculator.ExactCrewNoExtra | script.js:41-77 | when the available staff equals the (positive) staff required, no pieces are extra and no bonus is paid |
| Calculator.ExtraIsLoadedMinusCapacity | script.js:50-53 | with staff, extra = carico − max(0, staff − sbarco/ratio − auto/40) × carico ratio |
| Calculator.ExtraIsDeficitInPieces | script.js:44-53 | with staff, extra pieces are at most the staff deficit converted into loading pieces (−deficit × carico ratio). They equal it exactly while the crew left for loading is not negative |
| Calculator.BonusOnlyWhenUnderstaffed | script.js:44-77 | a positive share implies a company is selected, staff is available, there is at least one extra piece, and the deficit is negative |
| Calculator.NoStaffNoBonus | script.js:49-77 | with no staff (≤ 0), extra pieces and the share are 0 whatever the counts |
| Calculator.GrimaldiScenario | script.js:2-77 | Grimaldi, 220 unloaded, 160 loaded, no vehicles, 15 staff gives required 20, deficit −5, extra 80, a 710 euro pool and 710/15 euro each |
| Calculator.NoStaffKeepsRequirement | script.js:26-54 | with no staff, extra pieces and the share are 0. The staff required and the deficit are still reported: Gnv with 25 unloaded and −3 staff gives (1, −4, 0, 0) |
| Calculator.GnvScenario | script.js:2-77 | Gnv, 250 unloaded, 190 loaded, 40 vehicles, 20 staff gives required 21, deficit −1, extra 19 and 5 euro each |

## Left out

- Reading the form fields and the `parseFloat(...) || 0` coercion (script.js:20-24): the model takes already-normalised numbers. Negative or fractional counts are still accepted, as in the source.
- `updateResults` (script.js:87-115): it only renders, with two-decimal formatting, absolute values and label/colour choices.
- `initializeInputs` and `window.onload` (script.js:120-133): page start-up plumbing.
- IEEE-754 rounding: quotients and products are exact `real`s.
- Company keys other than Gnv and Grimaldi: the datatype rules them out. Note that the source checks only for an empty selection (`!company`), so an unknown key does not give the zero result. A key missing from `RATIOS` (say `Moby`) makes `RATIOS[company]` undefined, and destructuring it (script.js:33) throws a TypeError. `calculate()` then stops before `updateResults` and the previous results stay displayed. A key whose value has no `sbarco`/`carico` properties (the number under `Autovetture`, or inherited members such as `constructor` or `toString`) destructures to undefined ratios. The staff required and the deficit are then NaN. The extra pieces are NaN when staff is positive and 0 otherwise. The bonus per employee is 0, because `NaN > 0` is false.
- The comment at script.js:26 promises zeroed results when no staff is available, but the code short-circuits only on a missing company. The model follows the code. With no staff, extra pieces and the bonus are 0, but the staff required and the deficit are still computed (`Calculator.NoStaffKeepsRequirement`).
- Idempotence: the model is a pure function, so equal inputs give equal outputs by construction. No separate lemma is stated for it.
