/** The trip budget of the planner's test suite: a cost breakdown for the
    whole 14-person party from the constant tables. Unlike the server's
    budget route it always charges the full transfer and excursion costs. */
module TripBudget {
  import opened Wrappers
  import opened Fixtures
  import opened Arith

  datatype Breakdown = Breakdown(
    accommodation: int,
    flights: int,
    transfers: int,
    excursions: int,
    extras: int,
    total: int)

  /** Airfare for the party: 3, 5, 4 and 2 travellers at four fares */
  const FlightTotal: int := (450 * 3) + (420 * 5) + (280 * 4) + (380 * 2)
  const TransferCost: int := 360
  const ExcursionTotal: int := 200 * 14
  /** Nightly extras when a resort has no profile, or its extras are 0 */
  const DefaultExtras: int := 20
  /** A non-villa price is per room; the party takes 7 rooms */
  const Rooms: int := 7

  /** `hiddenCosts[id]?.extras || 20`: a missing profile and an extras of 0 both give 20 */
  function NightlyExtras(id: int): (e: int)
    ensures id !in HiddenCostProfiles || HiddenCostProfiles[id].extras == 0 ==> e == DefaultExtras
    ensures id in HiddenCostProfiles && HiddenCostProfiles[id].extras != 0 ==> e == HiddenCostProfiles[id].extras
  {
    if id in HiddenCostProfiles && HiddenCostProfiles[id].extras != 0 then HiddenCostProfiles[id].extras
    else DefaultExtras
  }

  /** The nightly price the week selects: 'may24', and any other week means May 31 */
  function NightlyPrice(r: Resort, week: string): int {
    if week == "may24" then r.priceMay24 else r.priceMay31
  }

  /** `calculateBudget(resortId, nights, week)`; None for an unknown resort */
  function CalculateBudget(resortId: int, nights: int, week: string): (b: Option<Breakdown>)
    ensures b.None? <==> forall i :: 0 <= i < |Resorts| ==> Resorts[i].id != resortId
    ensures b.Some? ==>
      && b.value.flights == 5330
      && b.value.transfers == 360
      && b.value.excursions == 2800
      && b.value.extras == NightlyExtras(resortId) * nights
      && b.value.total == b.value.accommodation + b.value.flights + b.value.transfers
                          + b.value.excursions + b.value.extras
  {
    match FindResort(Resorts, resortId)
    case None => None
    case Some(resort) =>
      var pricePerNight := NightlyPrice(resort, week);
      var accommodation := if resort.isVilla then pricePerNight * nights else pricePerNight * Rooms * nights;
      var extras := NightlyExtras(resortId) * nights;
      Some(Breakdown(accommodation, FlightTotal, TransferCost, ExcursionTotal, extras,
                     accommodation + FlightTotal + TransferCost + ExcursionTotal + extras))
  }

  /** Accommodation is the week's price times the nights for a villa, and
      times 7 rooms and the nights otherwise */
  lemma AccommodationByKind(i: nat, nights: int, week: string)
    requires i < |Resorts|
    ensures var b := CalculateBudget(Resorts[i].id, nights, week);
      var r := Resorts[i];
      var price := if week == "may24" then r.priceMay24 else r.priceMay31;
      && b.Some?
      && b.value.accommodation == (if r.isVilla then price * nights else price * 7 * nights)
  {
    FindResortAt(i);
  }

  /** With no fewer nights than zero, the May 31 trip never costs less than
      the May 24 trip, since every resort's May 31 price is at least its May 24 price */
  lemma LaterWeekCostsNoLess(i: nat, nights: int, week: string)
    requires i < |Resorts|
    requires nights >= 0
    requires week != "may24"
    ensures var early := CalculateBudget(Resorts[i].id, nights, "may24");
      var late := CalculateBudget(Resorts[i].id, nights, week);
      && early.Some? && late.Some?
      && late.value.accommodation >= early.value.accommodation
      && late.value.total >= early.value.total
  {
    TablesWellFormed();
    AccommodationByKind(i, nights, "may24");
    AccommodationByKind(i, nights, week);
    var r := Resorts[i];
    if r.isVilla {
      MulMonotone(r.priceMay24, r.priceMay31, nights);
    } else {
      MulMonotone(r.priceMay24 * 7, r.priceMay31 * 7, nights);
    }
  }

  /** The planner's worked examples: Hard Rock (320 a room) and Villa Quinta
      Clara (1650 the villa) for 7 nights from May 24 */
  lemma AccommodationExamples()
    ensures CalculateBudget(2, 7, "may24").Some?
    ensures CalculateBudget(2, 7, "may24").value.accommodation == 15680
    ensures CalculateBudget(44, 7, "may24").Some?
    ensures CalculateBudget(44, 7, "may24").value.accommodation == 11550
  {
    AccommodationByKind(1, 7, "may24");
    AccommodationByKind(5, 7, "may24");
  }

  /** Hyatt Ziva costs more from May 31 */
  lemma LaterWeekExample()
    ensures CalculateBudget(1, 7, "may31").Some? && CalculateBudget(1, 7, "may24").Some?
    ensures CalculateBudget(1, 7, "may31").value.accommodation > CalculateBudget(1, 7, "may24").value.accommodation
  {
    AccommodationByKind(0, 7, "may24");
    AccommodationByKind(0, 7, "may31");
    assert Resorts[0].priceMay31 > Resorts[0].priceMay24;
  }

  /** An unknown resort has no budget */
  lemma UnknownResortExample()
    ensures CalculateBudget(999, 7, "may24").None?
  {
    ResortIdsDistinct();
  }
}
