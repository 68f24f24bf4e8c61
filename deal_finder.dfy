/** The deal finder: a badge for a resort's current price against its price
    statistics, and a one-line price-trend indicator. */
module DealFinder {
  import opened Wrappers
  import opened Decimal
  import opened Fixtures

  /** The badge's CSS class: 'hot-deal', 'price-drop', 'good-value', 'premium' */
  datatype BadgeClass = HotDeal | PriceDrop | GoodValue | Premium

  datatype Badge = Badge(kind: BadgeClass, text: string, icon: string)

  function Abs(x: int): nat {
    if x < 0 then -x else x
  }

  /** The price-drop text: `Math.abs(percentChange).toFixed(0)` and "% Drop" */
  function DropText(percentChange: int): string {
    ToFixed0(Abs(percentChange)) + "% Drop"
  }

  /** The first-match classification chain. The current price is the
      May 24 price; without statistics the static value score decides.
      `avgPrice * 1.1` is compared exactly, as `10 * price > 11 * avgPrice`. */
  function BadgeFor(resort: Resort, history: Option<PriceHistory>): Option<Badge> {
    match history
    case None =>
      if resort.valueScore >= 9 then Some(Badge(GoodValue, "Good Value", "\U{1F49A}"))
      else if resort.valueScore >= 7 then Some(Badge(Premium, "Fair Price", "⚖️"))
      else None
    case Some(h) =>
      var currentPrice := resort.priceMay24;
      if currentPrice <= h.dealThreshold then
        Some(Badge(HotDeal, "Hot Deal!", "\U{1F525}"))
      else if h.trend == "down" && h.percentChange <= -50 then
        Some(Badge(PriceDrop, DropText(h.percentChange), "\U{1F4C9}"))
      else if currentPrice < h.avgPrice then
        Some(Badge(GoodValue, "Good Value", "\U{1F49A}"))
      else if 10 * currentPrice > 11 * h.avgPrice then
        Some(Badge(Premium, "Premium", "⭐"))
      else
        None
  }

  /** `getDealBadge(resort)`: the statistics come from the price-history table */
  function DealBadge(resort: Resort): Option<Badge> {
    BadgeFor(resort, HistoryOf(resort.id))
  }

  /** The classification rules as an ordered list; the first whose guard holds wins */
  datatype Rule = Rule(applies: bool, kind: BadgeClass)

  function Rules(currentPrice: int, h: PriceHistory): seq<Rule> {
    [ Rule(currentPrice <= h.dealThreshold, HotDeal),
      Rule(h.trend == "down" && h.percentChange <= -50, PriceDrop),
      Rule(currentPrice < h.avgPrice, GoodValue),
      Rule(10 * currentPrice > 11 * h.avgPrice, Premium) ]
  }

  function FirstMatch(rules: seq<Rule>): (kind: Option<BadgeClass>)
    ensures kind.None? <==> forall i :: 0 <= i < |rules| ==> !rules[i].applies
    ensures kind.Some? ==> exists i :: 0 <= i < |rules| && rules[i].applies && rules[i].kind == kind.value
                                       && forall j :: 0 <= j < i ==> !rules[j].applies
  {
    if rules == [] then None
    else if rules[0].applies then Some(rules[0].kind)
    else
      assert forall j :: 1 <= j < |rules| ==> rules[j] == rules[1..][j - 1];
      FirstMatch(rules[1..])
  }

  function KindOf(badge: Option<Badge>): Option<BadgeClass> {
    match badge
    case None => None
    case Some(b) => Some(b.kind)
  }

  /** With statistics, the badge is the first rule of the priority list that applies */
  lemma BadgeIsFirstMatchingRule(resort: Resort, h: PriceHistory)
    ensures KindOf(BadgeFor(resort, Some(h))) == FirstMatch(Rules(resort.priceMay24, h))
  {
    var rules := Rules(resort.priceMay24, h);
    assert rules[1..] == [rules[1], rules[2], rules[3]];
    assert rules[1..][1..] == [rules[2], rules[3]];
    assert rules[1..][1..][1..] == [rules[3]];
    assert FirstMatch([rules[3]]) == if rules[3].applies then Some(Premium) else None by {
      assert [rules[3]][1..] == [];
    }
  }

  /** Without statistics: score 9 or more is "Good Value", 7 or 8 "Fair Price"
      (class premium), anything lower no badge */
  lemma NoHistoryFallsBackToValueScore(resort: Resort)
    ensures var b := BadgeFor(resort, None);
      && (resort.valueScore >= 9 <==> b.Some? && b.value.kind == GoodValue && b.value.text == "Good Value")
      && (7 <= resort.valueScore < 9 <==> b.Some? && b.value.kind == Premium && b.value.text == "Fair Price")
      && (resort.valueScore < 7 <==> b.None?)
  {
  }

  /** A price at or below the deal threshold is a hot deal, whatever the trend */
  lemma HotDealWins(resort: Resort, h: PriceHistory)
    ensures var b := BadgeFor(resort, Some(h));
      resort.priceMay24 <= h.dealThreshold <==> b.Some? && b.value.kind == HotDeal
  {
  }

  /** Not a hot deal, falling by 5% or more: a price drop, labelled with the
      rounded size of the fall */
  lemma PriceDropSecond(resort: Resort, h: PriceHistory)
    ensures var b := BadgeFor(resort, Some(h));
      && (b.Some? && b.value.kind == PriceDrop <==>
            resort.priceMay24 > h.dealThreshold && h.trend == "down" && h.percentChange <= -50)
      && (b.Some? && b.value.kind == PriceDrop ==>
            b.value.text == ToFixed0(-h.percentChange) + "% Drop"
            && 10 * DigitsValue(ToFixed0(-h.percentChange)) - 5 <= -h.percentChange
            && -h.percentChange < 10 * DigitsValue(ToFixed0(-h.percentChange)) + 5)
  {
    if h.percentChange <= -50 {
      ToFixed0Reads(-h.percentChange);
    }
  }

  /** Past the first two rules, good value (below average) and premium
      (above 110% of average) exclude each other for a non-negative average,
      and everything in between gets no badge */
  lemma ValueBandsExclusive(resort: Resort, h: PriceHistory)
    requires h.avgPrice >= 0
    requires resort.priceMay24 > h.dealThreshold
    requires !(h.trend == "down" && h.percentChange <= -50)
    ensures var b := BadgeFor(resort, Some(h));
      && (b.Some? && b.value.kind == GoodValue <==> resort.priceMay24 < h.avgPrice)
      && (b.Some? && b.value.kind == Premium <==> 10 * resort.priceMay24 > 11 * h.avgPrice)
      && (b.None? <==> h.avgPrice <= resort.priceMay24 && 10 * resort.priceMay24 <= 11 * h.avgPrice)
  {
  }

  /** Resorts 1, 2 and 44 fall by 5% or more without reaching their threshold: price drops */
  lemma TableResortsGetBadges()
    ensures DealBadge(Resorts[0]) == Some(Badge(PriceDrop, "10% Drop", "\U{1F4C9}"))
    ensures DealBadge(Resorts[1]) == Some(Badge(PriceDrop, "6% Drop", "\U{1F4C9}"))
    ensures DealBadge(Resorts[5]) == Some(Badge(PriceDrop, "6% Drop", "\U{1F4C9}"))
  {
    assert NatToString(1) == "1" && NatToString(0) == "0";
    assert HistoryOf(1) == Some(PriceHistory("down", -95, 380, 400, 360));
    assert HistoryOf(2) == Some(PriceHistory("down", -59, 299, 335, 300));
    assert BadgeFor(Resorts[0], HistoryOf(1)) == Some(Badge(PriceDrop, DropText(-95), "\U{1F4C9}"));
    assert BadgeFor(Resorts[1], HistoryOf(2)) == Some(Badge(PriceDrop, DropText(-59), "\U{1F4C9}"));
    assert DropText(-95) == "10% Drop";
    assert DropText(-59) == "6% Drop";
    assert DealBadge(Resorts[0]) == BadgeFor(Resorts[0], HistoryOf(1));
    assert DealBadge(Resorts[1]) == BadgeFor(Resorts[1], HistoryOf(2));
    assert ToFixed0(95) == NatToString(10) == "10";
    assert ToFixed0(59) == NatToString(6) == "6";
    assert ToFixed0(57) == "6";
  }

  function Arrow(trend: string): string {
    if trend == "down" then "↓" else if trend == "up" then "↑" else "→"
  }

  function TrendLabel(trend: string): string {
    if trend == "down" then "prices falling" else if trend == "up" then "prices rising" else "stable"
  }

  /** The trend line: arrow, the size of the change to one decimal, and a label;
      empty when there are no statistics */
  function TrendFor(history: Option<PriceHistory>): string {
    match history
    case None => ""
    case Some(h) => Arrow(h.trend) + " " + ToFixed1(Abs(h.percentChange)) + "% " + TrendLabel(h.trend)
  }

  /** `getTrendIndicator(resort)` */
  function TrendIndicator(resort: Resort): string {
    TrendFor(HistoryOf(resort.id))
  }

  /** The indicator is empty exactly when there are no statistics; otherwise
      it opens with the arrow of the trend, then the percentage it shows reads
      back as the size of the change, then the label */
  lemma TrendIndicatorShape(history: Option<PriceHistory>)
    ensures TrendFor(history) == "" <==> history.None?
    ensures history.Some? ==>
      var h := history.value;
      var s := TrendFor(history);
      var pct := ToFixed1(Abs(h.percentChange));
      && s == Arrow(h.trend) + " " + pct + "% " + TrendLabel(h.trend)
      && (h.trend == "down" ==> s[0] == '↓' && TrendLabel(h.trend) == "prices falling")
      && (h.trend == "up" ==> s[0] == '↑' && TrendLabel(h.trend) == "prices rising")
      && (h.trend != "down" && h.trend != "up" ==> s[0] == '→' && TrendLabel(h.trend) == "stable")
      && DigitsValue(pct[..|pct| - 2]) * 10 + DigitValue(pct[|pct| - 1]) == Abs(h.percentChange)
  {
    if history.Some? {
      ToFixed1Reads(Abs(history.value.percentChange));
    }
  }

  lemma FallingTrend(h: PriceHistory, shown: string)
    requires h.trend == "down" && ToFixed1(Abs(h.percentChange)) == shown
    ensures TrendFor(Some(h)) == "↓ " + shown + "% prices falling"
  {
  }

  /** Resort 1 shows its 9.5% fall */
  lemma TrendIndicatorExample()
    ensures TrendIndicator(Resorts[0]) == "↓ 9.5% prices falling"
  {
    var h := PriceHistories[1];
    assert HistoryOf(Resorts[0].id) == Some(h);
    assert ToFixed1(95) == "9.5" by {
      assert NatToString(9) == "9";
    }
    FallingTrend(h, "9.5");
  }

  /** A resort without statistics shows no trend */
  lemma NoTrendExample()
    ensures TrendIndicator(Resort(999, "Unknown Resort", 300, 0, 0, false)) == ""
  {
    assert HistoryOf(999) == None;
  }
}
