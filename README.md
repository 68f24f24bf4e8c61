# Cancun vacation planner: deals, budgets and votes

A model of the decision core of a family trip planner for 14 people choosing
a resort in Cancun. The model covers four parts.

- **Deal finder** (`DealFinder`). Each resort gets a badge (hot deal, price
  drop, good value, premium or fair price) or none. The badge compares its May 24
  price with its price statistics, taking the first rule that applies. A
  one-line trend indicator is shown next to it.
- **Trip budget, two copies.**
  - `TripBudget` is the test suite's calculator over the constant tables.
  - `BudgetRoute` is the server's budget route. It takes the resort and
    hidden-cost rows the database returned.
  - Both compute accommodation, flights, transfers, excursions and nightly
    extras for the party.
  - The route also computes the cost per person and where the total falls
    against the trip's target band of 20000 to 25000.
  - `BudgetCopies` proves where the two copies differ: the route's free
    transfers and included parks, and its defaults for 0 nights and an empty
    week.
- **Votes table** (`VoteTable`). This is a class over the table's rows.
  - A single vote is an insert-or-replace on the table's key (member,
    category, value).
  - A ranked submission deletes the member's ballot for a category, then
    inserts each ranking in turn.
- **Tally** (`VoteTally`). This is the results route.
  - It counts first-choice (rank 1) votes per option and lists every option's
    (member, rank) placings.
  - It sorts the options by first-choice votes, most first, using a stable
    sort.
  - It is a plurality count of first choices, not instant-runoff.

Supporting modules:
- `Decimal` has the decimal text of `toFixed(0)` and `toFixed(1)`.
- `Fixtures` has the planner's constant tables: 6 resorts, 8 price histories
  and 7 hidden-cost profiles.
- `Wrappers` has `Option`, and `Arith` one arithmetic fact the budget proofs share.

Numbers:
- Prices and costs are integers.
- A percentage change is held in tenths, so -9.5 is -95. With that,
  `toFixed(1)` is exact and `toFixed(0)` is round-half-up on natural numbers.
- `avgPrice * 1.1` is compared exactly as `10 * price > 11 * avgPrice`. For
  integer prices this is the same decision as the floating-point product.
- `Math.round(total / 14)` is `(total + 7) / 14`. This holds for every
  integer total, negative ones included.

JavaScript `||` defaults are modelled as written:
- `parseInt(nights) || 7` turns a missing, unparseable or zero night count
  into 7.
- `week || 'may24'` turns a missing or empty week into `may24`.
- `rank || 1` turns a missing or zero rank into 1.
- `extras || 20` turns a missing profile, a NULL extras or a zero extras
  into 20.

Where the design and the code differ, the model follows the code:
- **Ranked submission.** The design calls it an all-or-nothing replacement.
  The code deletes and then inserts statement by statement, with no
  transaction.
  - A submission that names the same option twice breaks the table's
    uniqueness key on the second insert.
  - The request then fails, but the deletion and the earlier inserts remain.
  - `VoteTable.Votes.SubmitRanked` states this outcome exactly.
- **First-choice counts.** The design says the counts add up to at most the
  number of voters.
  - The key is (member, category, value), so ranks are not unique within a
    ballot.
  - A member who ranks two options first gives both a first-choice vote.
  - `VoteTally.OneMemberTwoFirstChoices` shows such a table.

## Model

| member | source | states |
|---|---|---|
| Decimal.NatToString | test.js:98 | the decimal text of a number is non-empty, digits only, and starts with '0' only for zero |
| Decimal.NatToStringRoundTrip | test.js:98 | reading the printed digits back gives the number again |
| Decimal.ToFixed0 | test.js:98 | no contract of its own; stated by Decimal.ToFixed0Reads and DealFinder.PriceDropSecond |
| Decimal.ToFixed1 | test.js:119 | no contract of its own; stated by Decimal.ToFixed1Reads and DealFinder.TrendIndicatorShape |
| Decimal.RoundTenths | test.js:98 | `toFixed(0)` of x = t/10 picks the whole number n with 10n - 5 <= t < 10n + 5 (nearest, halves up) |
| Decimal.ToFixed0Reads | test.js:98 | the `toFixed(0)` text is digits whose value is within half a unit of the number |
| Decimal.ToFixed1Reads | test.js:119 | the `toFixed(1)` text is digits, a point and one digit, and reads back as exactly the number of tenths |
| Fixtures.HistoryOf | test.js:84 | no contract of its own; the statistics of a resort with a price history, None otherwise; used by DealFinder.DealBadge and DealFinder.TrendIndicator |
| Fixtures.FindResort | test.js:123 | `find` by id: None exactly when no resort has the id, otherwise the first resort with that id |
| Fixtures.ResortIdsDistinct | test.js:73-80 | no two resorts of the table share an id |
| Fixtures.FindResortAt | test.js:73-80 | looking up a table resort's id returns that very resort |
| Fixtures.TablesWellFormed | test.js:321-365 | every deal threshold is below its average, a falling trend has a negative change, trends are down/up/stable, May 31 prices are at least May 24 prices, value scores lie in 1..10 |
| DealFinder.BadgeFor | test.js:83-110 | no contract of its own; stated by DealFinder.BadgeIsFirstMatchingRule, NoHistoryFallsBackToValueScore, HotDealWins, PriceDropSecond and ValueBandsExclusive |
| DealFinder.DealBadge | test.js:83-84 | no contract of its own; BadgeFor over the resort's price history; stated by DealFinder.TableResortsGetBadges |
| DealFinder.FirstMatch | test.js:83-110 | the first rule of an ordered list whose guard holds; None exactly when none holds |
| DealFinder.BadgeIsFirstMatchingRule | test.js:91-109 | with statistics, the badge is the first rule of hot deal, price drop (down by 5% or more), good value (below average), premium (above 110% of average) that applies, and none otherwise |
| DealFinder.NoHistoryFallsBackToValueScore | test.js:84-89 | without statistics: score >= 9 gives "Good Value", 7 or 8 "Fair Price" (class premium), below 7 no badge, each an if-and-only-if |
| DealFinder.HotDealWins | test.js:93-95 | a May 24 price at or below the deal threshold is a hot deal, and nothing else is |
| DealFinder.PriceDropSecond | test.js:97-99 | a price drop is exactly a non-hot-deal with a falling trend of at least 5%; its text is the change rounded to whole percent plus "% Drop", within half a percent of the change |
| DealFinder.ValueBandsExclusive | test.js:101-109 | after the first two rules, good value is exactly below average, premium exactly above 110% of it, and no badge exactly in between |
| DealFinder.TableResortsGetBadges | test.js:160-165 | Hyatt Ziva, Hard Rock and Villa Quinta Clara get "10% Drop", "6% Drop" and "6% Drop" price-drop badges |
| DealFinder.TrendFor | test.js:113-120 | no contract of its own; stated by DealFinder.TrendIndicatorShape |
| DealFinder.TrendIndicator | test.js:112-120 | no contract of its own; TrendFor over the resort's price history; stated by DealFinder.TrendIndicatorExample and NoTrendExample |
| DealFinder.TrendIndicatorShape | test.js:112-120 | the indicator is empty exactly without statistics; otherwise it is the trend's arrow, a space, a `toFixed(1)` text reading back as the size of the change, "% " and the trend's label |
| DealFinder.TrendIndicatorExample | test.js:194-205 | Hyatt Ziva shows "↓ 9.5% prices falling" |
| DealFinder.NoTrendExample | test.js:207-211 | a resort without statistics shows the empty string |
| TripBudget.NightlyPrice | test.js:127 | no contract of its own; stated by TripBudget.AccommodationByKind |
| TripBudget.NightlyExtras | test.js:132 | a profile's extras when it has a non-zero one, 20 otherwise |
| TripBudget.CalculateBudget | test.js:122-142 | None exactly for an unknown resort; otherwise flights 5330, transfers 360, excursions 2800, extras the nightly extras times the nights, total the sum of the five parts |
| TripBudget.AccommodationByKind | test.js:126-128 | accommodation is the week's price times nights for a villa, times 7 rooms and nights otherwise, May 24 price only for week 'may24' |
| TripBudget.LaterWeekCostsNoLess | test.js:127-140 | for a non-negative number of nights, any week other than May 24 costs no less in accommodation and in total |
| TripBudget.AccommodationExamples | test.js:275-286 | Hard Rock for 7 nights is 15680, Villa Quinta Clara 11550 |
| TripBudget.LaterWeekExample | test.js:305-309 | Hyatt Ziva costs more from May 31 than from May 24 |
| TripBudget.UnknownResortExample | test.js:123-124 | resort 999 has no budget |
| BudgetRoute.NightsOrDefault | server.js:93 | a missing, unparseable or zero night count becomes 7; any other count is kept; the result is never 0 |
| BudgetRoute.WeekOrDefault | server.js:94 | a missing or empty week becomes 'may24'; any other week is kept |
| BudgetRoute.PerPerson | server.js:110 | the per-person cost p is the nearest whole number to total/14: 14p - 7 <= total < 14p + 7 |
| BudgetRoute.DistanceToBand | server.js:112-120 | the distance from the target band is never negative |
| BudgetRoute.NightlyExtras | server.js:107 | a profile's non-zero extras is charged as it is; no profile, a NULL extras or 0 gives 20; never 0 |
| BudgetRoute.Band | server.js:112-120 | no contract of its own; stated by BudgetRoute.BandClassifies and BandMonotone |
| BudgetRoute.Accommodation | server.js:101-103 | no contract of its own; stated by BudgetRoute.AccommodationByKind |
| BudgetRoute.CostBreakdown | server.js:101-107 | no contract of its own; stated by BudgetRoute.Budget's breakdown clauses |
| BudgetRoute.BandClassifies | server.js:112-120 | under exactly up to 20000, sweet exactly above 20000 up to 25000, over exactly above 25000; the difference is the distance from [20000, 25000] |
| BudgetRoute.BandMonotone | server.js:112-120 | a larger total never lands in a lower band |
| BudgetRoute.Budget | server.js:91-136 | 404 exactly for an unknown resort; otherwise the defaulted nights and week, flights 5330, transfers 0 exactly with a free transfer and 360 otherwise, excursions 1400 exactly with parks included and 2800 otherwise, extras the nightly extras times the nights, total the sum, per person rounded, status and difference per the band, the target (20000, 25000, 22500) |
| BudgetRoute.AccommodationByKind | server.js:101-103 | accommodation is price times nights for a villa, times 7 rooms and nights otherwise, with the May 24 price only for 'may24' |
| BudgetRoute.ExtrasDefault | server.js:107 | no profile, a NULL extras and an extras of 0 all charge 20 a night |
| BudgetRoute.LaterWeekCostsNoLess | server.js:101-120 | with positive nights and a May 31 price no lower, a week other than May 24 costs no less and lands in no lower band |
| BudgetCopies.CopiesAgree | server.js:101-109 | on the shared tables, for a non-zero night count and a non-empty week, the route and the test copy agree on accommodation, flights and extras; the route's total is the test copy's less 360 for a free transfer and less 1400 when parks are included |
| BudgetCopies.ZeroNightsDiffer | server.js:93 | at 0 nights the test copy charges no accommodation and no extras, while the route charges 7 nights of both, with extras never 0 |
| BudgetCopies.EmptyWeekDiffers | server.js:94 | for an empty week the test copy uses the May 31 price and the route the May 24 price |
| VoteTable.WithoutKey | server.js:169 | the rows left are exactly those whose key differs from the new vote's |
| VoteTable.Upserted | server.js:168-172 | insert-or-replace ends with the new row and holds exactly it and the old rows with another key |
| VoteTable.RankOrDefault | server.js:172 | `rank || 1`: a non-zero rank is kept, a missing rank or 0 gives 1, never 0 |
| VoteTable.UpsertKeepsKeysUnique | db/init.js:104 | insert-or-replace keeps the key unique, ends with the new row, leaves it the only row with its key, and keeps every row with another key |
| VoteTable.WithoutBallot | server.js:187 | the rows left are exactly those outside the member's ballot for the category |
| VoteTable.BallotRows | server.js:195-197 | one row per ranking, in order, carrying the member, category, value and rank |
| VoteTable.Replaced | server.js:186-197 | no contract of its own; stated by VoteTable.ReplacedBallot, ReplacedKeepsOthers, ReplacedTwice and Votes.SubmitRanked |
| VoteTable.ReplacedBallot | server.js:186-197 | after a ranked submission that went through, the member's ballot is exactly the submitted rankings, in order |
| VoteTable.ReplacedKeepsOthers | server.js:187 | a ranked submission leaves every other row in place and every other ballot as it was |
| VoteTable.ReplacedTwice | server.js:186-197 | a second ranked submission leaves no trace of the first |
| VoteTable.TakenInReplaced | db/init.js:104 | inserting a ranking clashes with the key exactly when the submission already holds that value |
| VoteTable.ReplacedKeysUnique | server.js:195-197 | a ranking with a new value extends the table by one row and keeps the key unique |
| VoteTable.Votes.constructor | db/init.js:96-105 | the table starts empty and satisfies its key |
| VoteTable.Votes.Submit | server.js:164-178 | the table becomes the insert-or-replace of the vote with rank defaulted to 1, and the key stays unique |
| VoteTable.Votes.SubmitRanked | server.js:181-203 | succeeds exactly when the values are distinct, leaving the ballot replaced; otherwise it fails at the first repeated value with the ballot deleted and the earlier rankings inserted; the key stays unique either way |
| VoteTally.FirstVoteAt | server.js:220-223 | the position of the first rank-1 row for an option, and no rank-1 row for it before; the row count when there is none |
| VoteTally.FirstChoiceVotesArePlacings | server.js:220-226 | an option's first-choice count is the number of rank-1 placings in its list |
| VoteTally.FirstChoiceOrderFacts | server.js:222 | the key order lists exactly the options with a first-choice vote, in the order of their first rank-1 rows |
| VoteTally.FirstChoiceCounts | server.js:217-223 | no contract of its own; stated by VoteTally.FirstChoiceCountsMeaning |
| VoteTally.PlacingsByOption | server.js:218-226 | no contract of its own; stated by VoteTally.PlacingsByOptionMeaning |
| VoteTally.FirstChoiceCountsMeaning | server.js:217-223 | the dictionary of counts has a key exactly for the options in the key order, each holding that option's number of rank-1 rows |
| VoteTally.PlacingsByOptionMeaning | server.js:218-226 | the dictionary of placings holds every row's (member, rank) under its option, in row order |
| VoteTally.KeyedInOrder | server.js:222 | an option is a key of the counts exactly when it is in the key order |
| VoteTally.EntriesOf | server.js:229-234 | one entry per key of the counts, in key order; its value is stated by VoteTally.EntriesFromMaps |
| VoteTally.Entries | server.js:229-234 | no contract of its own; stated by VoteTally.EntriesCorrect |
| VoteTally.EntriesFromMaps | server.js:229-234 | the entries built from the two dictionaries, in key order, are the unsorted results |
| VoteTally.InsertByVotes | server.js:235 | inserting a standing adds exactly it to the multiset |
| VoteTally.SortByVotes | server.js:235 | the sort is a permutation of its input |
| VoteTally.InsertKeepsOrder | server.js:235 | inserting after every standing with at least as many votes keeps the list non-increasing with ties in key order |
| VoteTally.SortKeepsTies | server.js:235 | sorting a list in increasing key order yields one sorted by votes, most first, with ties still in key order (stability) |
| VoteTally.EntriesCorrect | server.js:229-234 | before sorting, every entry carries its option's count (at least 1) and all its placings, every option with a first-choice vote has one, in first-vote order |
| VoteTally.Standings | server.js:229-235 | no contract of its own; stated by VoteTally.StandingsCorrect |
| VoteTally.StandingsCorrect | server.js:206-241 | every entry carries its option's count (at least 1) and all placings; an option appears exactly when it has a first-choice vote, and only once; most votes first, ties in the order options first got a first-choice vote |
| VoteTally.OneMemberTwoFirstChoices | server.js:221-223 | two rank-1 rows of one member give two first-choice votes in total |
| VoteTally.Tally | server.js:206-241 | the loop over the rows, then the entries and the sort, returns exactly the standings |

## Left out

- HTTP handling is not part of this model: Express routing, JSON bodies, status codes and the 500 error path.
- SQLite is not part of this model. The budget route receives the rows its two lookups return. The tally receives the rows of its query, already joined, filtered to 'resort' and ordered.
- The other routes (resorts, prices, family, comments, itinerary, comparisons) are not modelled, nor is the price scraper in scrapers/prices.js.
- The test harness is not modelled: registration, assertions and colour output.
- `getHiddenCosts` and `getAllInclusiveValue` are not modelled. They are plain table lookups, and only their fixture values are used here.
- Floating-point arithmetic is not modelled. Percentages are held in tenths and prices as integers. A fractional price or a change with more than one decimal is out of scope.
- `parseInt` is not modelled. The route's `nights` query arrives already parsed as an `Option<int>`, with `None` standing for a missing or unparseable value (NaN).
- Database integer flags (`is_villa`, `free_transfer`, `parks_included`) are booleans. A NULL flag is modelled as false, which matches JavaScript's falsy reading.
- NULL prices and a NULL resort name are not modelled.
- Missing request fields are not modelled. A vote missing its member, category or value is rejected by the database's NOT NULL check with a 500, and nothing is written. A ranked submission without `rankings` also fails with a 500, but only after the DELETE has run, so the member's ballot for the category stays deleted.
- VoteTable.Votes.Submit and VoteTable.Votes.SubmitRanked: the foreign key from `member_id` to the family members is not modelled; every member id is taken to be a family member. For an unknown member the insert fails with a 500 and no row is written; SubmitRanked then has already deleted that (empty) ballot, and its result is a failure for any non-empty rankings, even with distinct values; with empty rankings nothing is inserted, the key is never checked, and it succeeds.
- The order of `Object.entries` is not modelled. JavaScript lists integer-like keys (such as "2") first, in numeric order, before other keys in insertion order. The model uses insertion order throughout, which is right for the 'resort_2' style values the submissions use.
- Option names that clash with properties of `Object.prototype`, such as "constructor", are not modelled.
- VoteTable.Votes: the row id and `created_at` columns are not modelled. A row's position in `rows` stands for its insertion order.
- VoteTable.Votes.SubmitRanked: concurrency is not modelled. Two requests interleaving their statements are outside the model.
- VoteTally.Tally: the JSON response is not modelled. The method returns the standings themselves.
- TripBudget.CalculateBudget: its ensures does not give accommodation itself. That is stated by TripBudget.AccommodationByKind for every resort of the table.
