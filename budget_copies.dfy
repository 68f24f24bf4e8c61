/** The two budget calculations side by side. For a non-zero night count and
    a non-empty week they agree on accommodation, flights and extras, and the
    route's total is lower only by the free transfers and included parks it
    honours. They also differ on the defaults: the route turns 0 nights into
    7 and an empty week into the May 24 week, where the test suite's copy
    charges 0 nights and the May 31 price. */
module BudgetCopies {
  import opened Wrappers
  import opened Fixtures
  import TripBudget
  import BudgetRoute

  /** The database rows that hold the same data as the test tables */
  function RowOf(r: Resort): BudgetRoute.ResortRow {
    BudgetRoute.ResortRow(r.name, r.priceMay24, r.priceMay31, r.isVilla)
  }

  function CostsOf(id: int): Option<BudgetRoute.CostsRow> {
    if id in HiddenCostProfiles then
      var c := HiddenCostProfiles[id];
      Some(BudgetRoute.CostsRow(Some(c.extras), c.freeTransfer, c.parksIncluded))
    else None
  }

  /** For a non-zero night count and a non-empty week, the copies agree except
      for the route's transfer and parks discounts */
  lemma CopiesAgree(i: nat, nights: int, week: string)
    requires i < |Resorts|
    requires nights != 0 && week != ""
    ensures var r := Resorts[i];
      var t := TripBudget.CalculateBudget(r.id, nights, week);
      var s := BudgetRoute.Budget(Some(RowOf(r)), CostsOf(r.id), Some(nights), Some(week));
      var free := r.id in HiddenCostProfiles && HiddenCostProfiles[r.id].freeTransfer;
      var parks := r.id in HiddenCostProfiles && HiddenCostProfiles[r.id].parksIncluded;
      && t.Some? && s.Found?
      && s.report.breakdown.accommodation == t.value.accommodation
      && s.report.breakdown.flights == t.value.flights
      && s.report.breakdown.extras == t.value.extras
      && s.report.total == t.value.total - (if free then 360 else 0) - (if parks then 1400 else 0)
  {
    TripBudget.AccommodationByKind(i, nights, week);
  }

  /** At 0 nights the test suite's copy charges nothing for the stay and the
      extras, while the route charges 7 nights of both, and its
      nightly extras are never 0 */
  lemma ZeroNightsDiffer(i: nat, week: string)
    requires i < |Resorts|
    ensures var r := Resorts[i];
      var t := TripBudget.CalculateBudget(r.id, 0, week);
      var s := BudgetRoute.Budget(Some(RowOf(r)), CostsOf(r.id), Some(0), Some(week));
      var price := if s.report.week == "may24" then r.priceMay24 else r.priceMay31;
      && t.Some? && s.Found?
      && t.value.accommodation == 0 && t.value.extras == 0
      && s.report.nights == 7
      && s.report.breakdown.accommodation == (if r.isVilla then price * 7 else price * 7 * 7)
      && s.report.breakdown.extras == BudgetRoute.NightlyExtras(CostsOf(r.id)) * 7
      && s.report.breakdown.extras != 0
  {
    TripBudget.AccommodationByKind(i, 0, week);
  }

  /** For an empty week the test suite's copy uses the May 31 price and the
      route the May 24 price */
  lemma EmptyWeekDiffers(i: nat, nights: int)
    requires i < |Resorts|
    ensures var r := Resorts[i];
      var t := TripBudget.CalculateBudget(r.id, nights, "");
      var s := BudgetRoute.Budget(Some(RowOf(r)), CostsOf(r.id), Some(nights), Some(""));
      && t.Some? && s.Found?
      && t.value.accommodation == (if r.isVilla then r.priceMay31 * nights else r.priceMay31 * 7 * nights)
      && s.report.week == "may24"
      && s.report.breakdown.accommodation == (if r.isVilla then r.priceMay24 * s.report.nights
                                              else r.priceMay24 * 7 * s.report.nights)
  {
    TripBudget.AccommodationByKind(i, nights, "");
  }
}
