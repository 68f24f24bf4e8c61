/** The budget route: the cost of a stay for the 14-person party at one
    resort, per person, and where the total falls against the trip's target
    band. The resort row and its hidden-cost row are what the database
    returned for the requested id; `nights` and `week` are the parsed query. */
module BudgetRoute {
  import opened Wrappers
  import opened Arith

  /** The columns of a `resorts` row the route reads */
  datatype ResortRow = ResortRow(name: string, priceMay24: int, priceMay31: int, isVilla: bool)

  /** The columns of a `hidden_costs` row the route reads; `extras` may be NULL */
  datatype CostsRow = CostsRow(extras: Option<int>, freeTransfer: bool, parksIncluded: bool)

  datatype Breakdown = Breakdown(
    accommodation: int,
    flights: int,
    transfers: int,
    excursions: int,
    extras: int)

  datatype Target = Target(min: int, max: int, sweet: int)

  /** The trip's target band; `sweet` is reported but decides nothing */
  const BudgetTarget: Target := Target(20000, 25000, 22500)

  const PartySize: int := 14
  const Rooms: int := 7
  const Flights: int := 5330
  const TransferCost: int := 360
  const ExcursionsWithParks: int := 1400
  const ExcursionsWithoutParks: int := 2800
  const DefaultExtras: int := 20

  datatype Status = Under | Sweet | Over

  datatype Report = Report(
    resort: string,
    nights: int,
    week: string,
    breakdown: Breakdown,
    total: int,
    perPerson: int,
    budgetTarget: Target,
    budgetStatus: Status,
    budgetDiff: int)

  /** The route answers 404 for an unknown resort */
  datatype Response = NotFound | Found(report: Report)

  /** `parseInt(nights) || 7`: `None` is a missing or unparseable parameter
      (NaN); it and 0 both become 7, anything else, negatives included, stays */
  function NightsOrDefault(query: Option<int>): (nights: int)
    ensures nights != 0
    ensures query.Some? && query.value != 0 ==> nights == query.value
    ensures query.None? || query.value == 0 ==> nights == 7
  {
    match query
    case Some(n) => if n != 0 then n else 7
    case None => 7
  }

  /** `week || 'may24'`: a missing or empty week is the May 24 week */
  function WeekOrDefault(query: Option<string>): (week: string)
    ensures week != ""
    ensures query.Some? && query.value != "" ==> week == query.value
    ensures query.None? || query.value == "" ==> week == "may24"
  {
    match query
    case Some(w) => if w != "" then w else "may24"
    case None => "may24"
  }

  /** `Math.round(total / 14)`: the nearest whole number, halves rounded up */
  function PerPerson(total: int): (p: int)
    ensures PartySize * p - 7 <= total < PartySize * p + 7
  {
    (total + 7) / PartySize
  }

  function Max(a: int, b: int): int {
    if a < b then b else a
  }

  /** How far `total` lies outside the target band [min, max] */
  function DistanceToBand(total: int): (d: int)
    ensures d >= 0
  {
    Max(0, Max(BudgetTarget.min - total, total - BudgetTarget.max))
  }

  /** The status band and the accompanying difference */
  function Band(total: int): (band: (Status, int)) {
    if total <= BudgetTarget.min then (Under, BudgetTarget.min - total)
    else if total <= BudgetTarget.max then (Sweet, 0)
    else (Over, total - BudgetTarget.max)
  }

  /** under up to 20000, sweet above it up to 25000, over above that; the
      difference is the distance from the band [20000, 25000], never negative */
  lemma BandClassifies(total: int)
    ensures Band(total).0 == Under <==> total <= 20000
    ensures Band(total).0 == Sweet <==> 20000 < total <= 25000
    ensures Band(total).0 == Over <==> total > 25000
    ensures Band(total).1 == DistanceToBand(total)
    ensures Band(total).1 >= 0
  {
  }

  function StatusRank(s: Status): nat {
    match s
    case Under => 0
    case Sweet => 1
    case Over => 2
  }

  /** A larger total never moves to a lower band */
  lemma BandMonotone(t1: int, t2: int)
    requires t1 <= t2
    ensures StatusRank(Band(t1).0) <= StatusRank(Band(t2).0)
  {
  }

  /** The stay's cost: villa prices are for the whole villa, other prices per
      room and the party takes 7 rooms; any week but 'may24' is May 31 */
  function Accommodation(resort: ResortRow, nights: int, week: string): int {
    var pricePerNight := if week == "may24" then resort.priceMay24 else resort.priceMay31;
    if resort.isVilla then pricePerNight * nights else pricePerNight * Rooms * nights
  }

  /** `costs?.extras || 20`: no profile, a NULL extras and an extras of 0 all give 20 */
  function NightlyExtras(costs: Option<CostsRow>): (e: int)
    ensures e != 0
    ensures costs.Some? && costs.value.extras.Some? && costs.value.extras.value != 0
            ==> e == costs.value.extras.value
    ensures costs.None? || costs.value.extras.None? || costs.value.extras.value == 0
            ==> e == DefaultExtras
  {
    match costs
    case None => DefaultExtras
    case Some(c) => if c.extras.Some? && c.extras.value != 0 then c.extras.value else DefaultExtras
  }

  function CostBreakdown(resort: ResortRow, costs: Option<CostsRow>, nights: int, week: string): Breakdown {
    var freeTransfer := costs.Some? && costs.value.freeTransfer;
    var parksIncluded := costs.Some? && costs.value.parksIncluded;
    Breakdown(
      Accommodation(resort, nights, week),
      Flights,
      if freeTransfer then 0 else TransferCost,
      if parksIncluded then ExcursionsWithParks else ExcursionsWithoutParks,
      NightlyExtras(costs) * nights)
  }

  function Total(b: Breakdown): int {
    b.accommodation + b.flights + b.transfers + b.excursions + b.extras
  }

  /** `GET /api/budget/:resortId` */
  function Budget(resort: Option<ResortRow>, costs: Option<CostsRow>,
                  nightsQuery: Option<int>, weekQuery: Option<string>): (r: Response)
    ensures r.NotFound? <==> resort.None?
    ensures r.Found? ==>
      var rep := r.report;
      && rep.resort == resort.value.name
      && rep.nights == NightsOrDefault(nightsQuery)
      && rep.week == WeekOrDefault(weekQuery)
      && rep.breakdown.flights == 5330
      && (rep.breakdown.transfers == 0 <==> costs.Some? && costs.value.freeTransfer)
      && (rep.breakdown.transfers == 360 <==> !(costs.Some? && costs.value.freeTransfer))
      && (rep.breakdown.excursions == 1400 <==> costs.Some? && costs.value.parksIncluded)
      && (rep.breakdown.excursions == 2800 <==> !(costs.Some? && costs.value.parksIncluded))
      && rep.breakdown.extras == NightlyExtras(costs) * rep.nights
      && rep.total == rep.breakdown.accommodation + rep.breakdown.flights + rep.breakdown.transfers
                      + rep.breakdown.excursions + rep.breakdown.extras
      && 14 * rep.perPerson - 7 <= rep.total < 14 * rep.perPerson + 7
      && (rep.budgetStatus == Under <==> rep.total <= 20000)
      && (rep.budgetStatus == Sweet <==> 20000 < rep.total <= 25000)
      && (rep.budgetStatus == Over <==> rep.total > 25000)
      && rep.budgetDiff == DistanceToBand(rep.total)
      && rep.budgetTarget == Target(20000, 25000, 22500)
  {
    var nights := NightsOrDefault(nightsQuery);
    var week := WeekOrDefault(weekQuery);
    match resort
    case None => NotFound
    case Some(res) =>
      var breakdown := CostBreakdown(res, costs, nights, week);
      var total := Total(breakdown);
      var band := Band(total);
      Found(Report(res.name, nights, week, breakdown, total, PerPerson(total),
                   BudgetTarget, band.0, band.1))
  }

  /** Accommodation is price times nights for a villa and price times 7 rooms
      times nights otherwise, with the May 24 price only for the 'may24' week */
  lemma AccommodationByKind(resort: ResortRow, costs: Option<CostsRow>,
                            nightsQuery: Option<int>, weekQuery: Option<string>)
    ensures var rep := Budget(Some(resort), costs, nightsQuery, weekQuery).report;
      var price := if rep.week == "may24" then resort.priceMay24 else resort.priceMay31;
      rep.breakdown.accommodation == if resort.isVilla then price * rep.nights else price * 7 * rep.nights
  {
  }

  /** A missing profile, a NULL extras and an extras of 0 all charge 20 a night */
  lemma ExtrasDefault(resort: ResortRow, nightsQuery: Option<int>, weekQuery: Option<string>,
                      freeTransfer: bool, parksIncluded: bool)
    ensures var nights := NightsOrDefault(nightsQuery);
      && Budget(Some(resort), None, nightsQuery, weekQuery).report.breakdown.extras == 20 * nights
      && Budget(Some(resort), Some(CostsRow(None, freeTransfer, parksIncluded)), nightsQuery, weekQuery)
           .report.breakdown.extras == 20 * nights
      && Budget(Some(resort), Some(CostsRow(Some(0), freeTransfer, parksIncluded)), nightsQuery, weekQuery)
           .report.breakdown.extras == 20 * nights
  {
  }

  /** For a non-negative stay at a resort whose May 31 price is no lower,
      the May 31 week costs no less and lands in no lower band */
  lemma LaterWeekCostsNoLess(resort: ResortRow, costs: Option<CostsRow>, nightsQuery: Option<int>, week: string)
    requires resort.priceMay31 >= resort.priceMay24
    requires NightsOrDefault(nightsQuery) > 0
    requires week != "" && week != "may24"
    ensures var early := Budget(Some(resort), costs, nightsQuery, Some("may24")).report;
      var late := Budget(Some(resort), costs, nightsQuery, Some(week)).report;
      && late.breakdown.accommodation >= early.breakdown.accommodation
      && late.total >= early.total
      && StatusRank(late.budgetStatus) >= StatusRank(early.budgetStatus)
  {
    var nights := NightsOrDefault(nightsQuery);
    if resort.isVilla {
      MulMonotone(resort.priceMay24, resort.priceMay31, nights);
    } else {
      MulMonotone(resort.priceMay24 * Rooms, resort.priceMay31 * Rooms, nights);
    }
    var early := Budget(Some(resort), costs, nightsQuery, Some("may24")).report;
    var late := Budget(Some(resort), costs, nightsQuery, Some(week)).report;
    BandMonotone(early.total, late.total);
  }
}
