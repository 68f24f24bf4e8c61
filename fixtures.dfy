/** The constant tables the planner's deal finder and trip budget read:
    resorts, their price statistics and their hidden-cost profiles.
    Percent changes are in tenths of a percent (-9.5 is -95). */
module Fixtures {
  import opened Wrappers

  datatype Resort = Resort(
    id: int,
    name: string,
    priceMay24: int,
    priceMay31: int,
    valueScore: int,
    isVilla: bool)

  /** Aggregated price statistics of one resort */
  datatype PriceHistory = PriceHistory(
    trend: string,
    percentChange: int,
    lowestSeen: int,
    avgPrice: int,
    dealThreshold: int)

  datatype HiddenCosts = HiddenCosts(
    resortFee: int,
    tips: int,
    transfer: int,
    extras: int,
    freeTransfer: bool,
    resortCredits: Option<int>,
    parksIncluded: bool,
    parksValue: Option<int>,
    isVilla: bool)

  const PriceHistories: map<int, PriceHistory> := map[
    1 := PriceHistory("down", -95, 380, 400, 360),
    2 := PriceHistory("down", -59, 299, 335, 300),
    3 := PriceHistory("down", -79, 320, 365, 330),
    4 := PriceHistory("stable", -40, 450, 495, 460),
    11 := PriceHistory("down", -67, 380, 435, 400),
    16 := PriceHistory("down", -77, 450, 500, 460),
    41 := PriceHistory("down", -47, 2700, 2925, 2750),
    44 := PriceHistory("down", -57, 1500, 1700, 1550)
  ]

  const HiddenCostProfiles: map<int, HiddenCosts> := map[
    1 := HiddenCosts(0, 0, 85, 25, false, None, false, None, false),
    2 := HiddenCosts(0, 0, 90, 15, false, None, false, None, false),
    3 := HiddenCosts(0, 0, 0, 40, true, Some(1500), false, None, false),
    11 := HiddenCosts(0, 0, 0, 10, true, None, false, None, false),
    16 := HiddenCosts(0, 0, 0, 0, true, None, true, Some(1200), false),
    41 := HiddenCosts(0, 350, 180, 200, false, None, false, None, true),
    44 := HiddenCosts(0, 200, 200, 150, false, None, false, None, true)
  ]

  const Resorts: seq<Resort> := [
    Resort(1, "Hyatt Ziva Cancun", 380, 420, 8, false),
    Resort(2, "Hard Rock Hotel Cancun", 320, 360, 9, false),
    Resort(11, "Generations Riviera Maya", 420, 480, 10, false),
    Resort(16, "Hotel Xcaret Mexico", 480, 540, 9, false),
    Resort(41, "Hacienda Magica (Villa)", 2860, 3200, 10, true),
    Resort(44, "Villa Quinta Clara (Villa)", 1650, 1900, 10, true)
  ]

  /** `priceHistory[id]`, undefined for a resort without statistics */
  function HistoryOf(id: int): Option<PriceHistory> {
    if id in PriceHistories then Some(PriceHistories[id]) else None
  }

  /** `resorts.find(r => r.id === id)`: the first resort with that id */
  function FindResort(rs: seq<Resort>, id: int): (found: Option<Resort>)
    ensures found.None? <==> forall i :: 0 <= i < |rs| ==> rs[i].id != id
    ensures found.Some? ==> found.value.id == id && found.value in rs
    ensures found.Some? ==> exists i :: 0 <= i < |rs| && rs[i] == found.value
                                        && forall j :: 0 <= j < i ==> rs[j].id != id
  {
    if rs == [] then None
    else if rs[0].id == id then Some(rs[0])
    else
      var rest := FindResort(rs[1..], id);
      assert forall j :: 1 <= j < |rs| ==> rs[j] == rs[1..][j - 1];
      rest
  }

  /** The well-formedness the planner's tests check of these tables */
  ghost predicate WellFormedHistory(h: PriceHistory) {
    && h.dealThreshold < h.avgPrice
    && (h.trend == "down" ==> h.percentChange < 0)
    && h.trend in {"down", "up", "stable"}
  }

  lemma TablesWellFormed()
    ensures forall id | id in PriceHistories :: WellFormedHistory(PriceHistories[id])
    ensures forall i | 0 <= i < |Resorts| :: Resorts[i].priceMay31 >= Resorts[i].priceMay24
    ensures forall i | 0 <= i < |Resorts| :: 1 <= Resorts[i].valueScore <= 10
  {
  }

  /** No two resorts of the table share an id */
  lemma ResortIdsDistinct()
    ensures forall i, j | 0 <= i < j < |Resorts| :: Resorts[i].id != Resorts[j].id
  {
  }

  /** Looking up a resort of the table by its id finds that very resort */
  lemma FindResortAt(i: nat)
    requires i < |Resorts|
    ensures FindResort(Resorts, Resorts[i].id) == Some(Resorts[i])
  {
    var id := Resorts[i].id;
    var found := FindResort(Resorts, id);
    assert found.Some?;
    var k :| 0 <= k < |Resorts| && Resorts[k] == found.value && forall j :: 0 <= j < k ==> Resorts[j].id != id;
    ResortIdsDistinct();
  }
}
