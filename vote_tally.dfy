/** The vote results: a plurality count of first choices over the 'resort'
    ballots, with every option's full list of (member, rank) placings, sorted
    by first-choice votes, most first, ties in the order in which the options
    first received a first-choice vote. It is not instant-runoff: second and
    later choices are listed but never counted. */
module VoteTally {

  /** A row of the results query: a 'resort' vote joined with its member's name */
  datatype Row = Row(memberName: string, value: string, rank: int)

  datatype Placing = Placing(member: string, rank: int)

  /** One entry of the results */
  datatype Standing = Standing(resortId: string, firstChoiceVotes: int, rankings: seq<Placing>)

  predicate IsFirstChoiceFor(row: Row, value: string) {
    row.rank == 1 && row.value == value
  }

  /** The number of rank-1 rows for `value` */
  function FirstChoiceVotes(rows: seq<Row>, value: string): nat {
    if rows == [] then 0
    else FirstChoiceVotes(rows[..|rows| - 1], value)
         + (if IsFirstChoiceFor(rows[|rows| - 1], value) then 1 else 0)
  }

  /** Every row for `value`, as (member, rank), in row order */
  function RankingsFor(rows: seq<Row>, value: string): seq<Placing> {
    if rows == [] then []
    else
      var last := rows[|rows| - 1];
      RankingsFor(rows[..|rows| - 1], value)
      + (if last.value == value then [Placing(last.memberName, last.rank)] else [])
  }

  /** The position of the first rank-1 row for `value`, or |rows| when there is none */
  function FirstVoteAt(rows: seq<Row>, value: string): (k: nat)
    ensures k <= |rows|
    ensures k < |rows| ==> IsFirstChoiceFor(rows[k], value)
    ensures forall j :: 0 <= j < k && j < |rows| ==> !IsFirstChoiceFor(rows[j], value)
  {
    if rows == [] then 0
    else
      var prefix := rows[..|rows| - 1];
      var k := FirstVoteAt(prefix, value);
      if k < |prefix| then k
      else if IsFirstChoiceFor(rows[|prefix|], value) then |prefix|
      else |rows|
  }

  /** The options with a first-choice vote, in the order they first got one:
      the key order of the `firstChoices` object */
  function FirstChoiceOrder(rows: seq<Row>): seq<string> {
    if rows == [] then []
    else
      var order := FirstChoiceOrder(rows[..|rows| - 1]);
      var last := rows[|rows| - 1];
      if last.rank == 1 && last.value !in order then order + [last.value] else order
  }

  /** The number of first choices among an option's placings */
  function FirstPlaces(placings: seq<Placing>): nat {
    if placings == [] then 0
    else FirstPlaces(placings[..|placings| - 1]) + (if placings[|placings| - 1].rank == 1 then 1 else 0)
  }

  lemma FirstPlacesAppend(a: seq<Placing>, b: seq<Placing>)
    requires |b| <= 1
    ensures FirstPlaces(a + b) == FirstPlaces(a) + FirstPlaces(b)
  {
    if b != [] {
      assert (a + b)[..|a + b| - 1] == a;
      assert b[..0] == [];
    } else {
      assert a + b == a;
    }
  }

  /** An option's first-choice count is the number of first places in its
      placings list */
  lemma {:induction false} FirstChoiceVotesArePlacings(rows: seq<Row>, value: string)
    ensures FirstChoiceVotes(rows, value) == FirstPlaces(RankingsFor(rows, value))
  {
    if rows != [] {
      var last := rows[|rows| - 1];
      FirstChoiceVotesArePlacings(rows[..|rows| - 1], value);
      FirstPlacesAppend(RankingsFor(rows[..|rows| - 1], value),
                        if last.value == value then [Placing(last.memberName, last.rank)] else []);
    }
  }

  /** The first-choice order lists exactly the options with a first-choice
      vote, each once, by the position of its first rank-1 row */
  lemma {:induction false} FirstChoiceOrderFacts(rows: seq<Row>)
    ensures forall v :: v in FirstChoiceOrder(rows) <==> FirstChoiceVotes(rows, v) >= 1
    ensures forall v :: FirstChoiceVotes(rows, v) >= 1 <==> FirstVoteAt(rows, v) < |rows|
    ensures forall i, j :: 0 <= i < j < |FirstChoiceOrder(rows)| ==>
              FirstVoteAt(rows, FirstChoiceOrder(rows)[i]) < FirstVoteAt(rows, FirstChoiceOrder(rows)[j])
  {
    if rows != [] {
      var prefix := rows[..|rows| - 1];
      FirstChoiceOrderFacts(prefix);
      var order := FirstChoiceOrder(rows);
      var old_order := FirstChoiceOrder(prefix);
      forall v ensures FirstVoteAt(prefix, v) < |prefix| ==> FirstVoteAt(rows, v) == FirstVoteAt(prefix, v) {
      }
      forall i, j | 0 <= i < j < |order|
        ensures FirstVoteAt(rows, order[i]) < FirstVoteAt(rows, order[j])
      {
        assert order[i] in old_order;
        if j == |old_order| {
          assert FirstVoteAt(rows, order[j]) == |prefix|;
        } else {
          assert order[j] == old_order[j];
        }
      }
    }
  }

  /** The results before sorting: one entry per key of `firstChoices` */
  function Entries(rows: seq<Row>): seq<Standing> {
    var order := FirstChoiceOrder(rows);
    seq(|order|, i requires 0 <= i < |order| =>
      Standing(order[i], FirstChoiceVotes(rows, order[i]), RankingsFor(rows, order[i])))
  }

  /** Insert `x` after every standing with at least its votes */
  function InsertByVotes(x: Standing, sorted: seq<Standing>): (r: seq<Standing>)
    ensures multiset(r) == multiset(sorted) + multiset{x}
  {
    if sorted == [] then [x]
    else if sorted[0].firstChoiceVotes >= x.firstChoiceVotes then
      assert sorted == [sorted[0]] + sorted[1..];
      [sorted[0]] + InsertByVotes(x, sorted[1..])
    else [x] + sorted
  }

  /** A stable sort by first-choice votes, most first (what `sort` with
      the comparator `b.firstChoiceVotes - a.firstChoiceVotes` yields) */
  function SortByVotes(s: seq<Standing>): (r: seq<Standing>)
    ensures multiset(r) == multiset(s)
  {
    if s == [] then []
    else
      assert s == s[..|s| - 1] + [s[|s| - 1]];
      InsertByVotes(s[|s| - 1], SortByVotes(s[..|s| - 1]))
  }

  ghost predicate NonIncreasing(s: seq<Standing>) {
    forall i, j :: 0 <= i < j < |s| ==> s[i].firstChoiceVotes >= s[j].firstChoiceVotes
  }

  /** Standings with equal votes appear in increasing order of `key` */
  ghost predicate TiesOrderedBy(s: seq<Standing>, key: string -> int) {
    forall i, j :: 0 <= i < j < |s| && s[i].firstChoiceVotes == s[j].firstChoiceVotes ==>
      key(s[i].resortId) < key(s[j].resortId)
  }

  /** Standings with equal votes appear in the order their options first
      received a first-choice vote in `rows` */
  ghost predicate TiesInFirstVoteOrder(s: seq<Standing>, rows: seq<Row>) {
    TiesOrderedBy(s, v => FirstVoteAt(rows, v))
  }

  lemma ConsOrdered(x: Standing, s: seq<Standing>, key: string -> int)
    requires NonIncreasing(s) && TiesOrderedBy(s, key)
    requires forall e :: e in s ==> x.firstChoiceVotes >= e.firstChoiceVotes
                                    && (x.firstChoiceVotes == e.firstChoiceVotes ==> key(x.resortId) < key(e.resortId))
    ensures NonIncreasing([x] + s) && TiesOrderedBy([x] + s, key)
  {
    var r := [x] + s;
    forall i, j | 0 <= i < j < |r|
      ensures r[i].firstChoiceVotes >= r[j].firstChoiceVotes
      ensures r[i].firstChoiceVotes == r[j].firstChoiceVotes ==> key(r[i].resortId) < key(r[j].resortId)
    {
      assert r[j] == s[j - 1];
      if i == 0 {
        assert s[j - 1] in s;
      } else {
        assert r[i] == s[i - 1];
      }
    }
  }

  /** `x` goes in front of a list whose head has fewer votes */
  lemma InsertInFront(x: Standing, sorted: seq<Standing>, key: string -> int)
    requires NonIncreasing(sorted) && TiesOrderedBy(sorted, key)
    requires sorted != [] && sorted[0].firstChoiceVotes < x.firstChoiceVotes
    ensures NonIncreasing([x] + sorted) && TiesOrderedBy([x] + sorted, key)
  {
    forall e | e in sorted
      ensures x.firstChoiceVotes >= e.firstChoiceVotes
      ensures x.firstChoiceVotes == e.firstChoiceVotes ==> key(x.resortId) < key(e.resortId)
    {
      var k :| 0 <= k < |sorted| && sorted[k] == e;
      assert k == 0 || sorted[0].firstChoiceVotes >= sorted[k].firstChoiceVotes;
    }
    ConsOrdered(x, sorted, key);
  }

  /** The head of a sorted list may precede everything of the rest once `x` is inserted there */
  lemma HeadPrecedesInsert(x: Standing, sorted: seq<Standing>, key: string -> int)
    requires NonIncreasing(sorted) && TiesOrderedBy(sorted, key)
    requires sorted != [] && sorted[0].firstChoiceVotes >= x.firstChoiceVotes
    requires key(sorted[0].resortId) < key(x.resortId)
    ensures forall e :: e in InsertByVotes(x, sorted[1..]) ==>
      sorted[0].firstChoiceVotes >= e.firstChoiceVotes
      && (sorted[0].firstChoiceVotes == e.firstChoiceVotes ==> key(sorted[0].resortId) < key(e.resortId))
  {
    var rest := InsertByVotes(x, sorted[1..]);
    forall e | e in rest
      ensures sorted[0].firstChoiceVotes >= e.firstChoiceVotes
      ensures sorted[0].firstChoiceVotes == e.firstChoiceVotes ==> key(sorted[0].resortId) < key(e.resortId)
    {
      assert e in multiset(rest);
      if e != x {
        var k :| 0 <= k < |sorted[1..]| && sorted[1..][k] == e;
        assert sorted[k + 1] == e;
      }
    }
  }

  lemma {:induction false} InsertKeepsOrder(x: Standing, sorted: seq<Standing>, key: string -> int)
    requires NonIncreasing(sorted)
    requires TiesOrderedBy(sorted, key)
    requires forall e :: e in sorted ==> key(e.resortId) < key(x.resortId)
    ensures NonIncreasing(InsertByVotes(x, sorted))
    ensures TiesOrderedBy(InsertByVotes(x, sorted), key)
  {
    if sorted == [] {
    } else if sorted[0].firstChoiceVotes >= x.firstChoiceVotes {
      var head := sorted[0];
      var tail := sorted[1..];
      assert forall e :: e in tail ==> e in sorted;
      InsertKeepsOrder(x, tail, key);
      HeadPrecedesInsert(x, sorted, key);
      ConsOrdered(head, InsertByVotes(x, tail), key);
    } else {
      InsertInFront(x, sorted, key);
    }
  }

  /** Sorting a list whose options are in increasing key order yields a list
      sorted by votes, most first, with ties still in key order */
  lemma {:induction false} SortKeepsTies(s: seq<Standing>, key: string -> int)
    requires forall i, j :: 0 <= i < j < |s| ==> key(s[i].resortId) < key(s[j].resortId)
    ensures NonIncreasing(SortByVotes(s))
    ensures TiesOrderedBy(SortByVotes(s), key)
  {
    if s != [] {
      var prefix := s[..|s| - 1];
      var x := s[|s| - 1];
      SortKeepsTies(prefix, key);
      var sorted := SortByVotes(prefix);
      forall e | e in sorted ensures key(e.resortId) < key(x.resortId) {
        assert e in multiset(prefix);
        var k :| 0 <= k < |prefix| && prefix[k] == e;
        assert s[k] == e;
      }
      InsertKeepsOrder(x, sorted, key);
    }
  }

  /** The results of the tally */
  function Standings(rows: seq<Row>): seq<Standing> {
    SortByVotes(Entries(rows))
  }

  /** Before sorting, each entry carries its option's counts and placings,
      every option with a first-choice vote has an entry, and the entries run
      in the order their options first got one */
  lemma EntriesCorrect(rows: seq<Row>)
    ensures forall s :: s in Entries(rows) ==>
      && s.firstChoiceVotes == FirstChoiceVotes(rows, s.resortId) >= 1
      && s.rankings == RankingsFor(rows, s.resortId)
    ensures forall v :: FirstChoiceVotes(rows, v) >= 1 ==> exists s :: s in Entries(rows) && s.resortId == v
    ensures forall i, j :: 0 <= i < j < |Entries(rows)| ==>
      FirstVoteAt(rows, Entries(rows)[i].resortId) < FirstVoteAt(rows, Entries(rows)[j].resortId)
  {
    var entries := Entries(rows);
    var order := FirstChoiceOrder(rows);
    FirstChoiceOrderFacts(rows);
    forall s | s in entries
      ensures s.firstChoiceVotes == FirstChoiceVotes(rows, s.resortId) >= 1
      ensures s.rankings == RankingsFor(rows, s.resortId)
    {
      var k :| 0 <= k < |entries| && entries[k] == s;
      assert order[k] in order;
    }
    forall v | FirstChoiceVotes(rows, v) >= 1 ensures exists s :: s in entries && s.resortId == v {
      var k :| 0 <= k < |order| && order[k] == v;
      assert entries[k] in entries;
    }
  }

  /** What the results promise: each entry carries its option's number of
      rank-1 rows (at least one) and all of its placings; every option with
      a first-choice vote appears, once; entries run from most to fewest
      first-choice votes, ties in the order the options first got one */
  lemma StandingsCorrect(rows: seq<Row>)
    ensures forall s :: s in Standings(rows) ==>
      && s.firstChoiceVotes == FirstChoiceVotes(rows, s.resortId) >= 1
      && s.rankings == RankingsFor(rows, s.resortId)
    ensures forall v :: FirstChoiceVotes(rows, v) >= 1 <==> exists s :: s in Standings(rows) && s.resortId == v
    ensures forall i, j :: 0 <= i < j < |Standings(rows)| ==>
      Standings(rows)[i].resortId != Standings(rows)[j].resortId
    ensures NonIncreasing(Standings(rows))
    ensures TiesInFirstVoteOrder(Standings(rows), rows)
  {
    var entries := Entries(rows);
    var r := Standings(rows);
    EntriesCorrect(rows);
    SortKeepsTies(entries, v => FirstVoteAt(rows, v));
    assert forall s :: s in r <==> s in entries by {
      forall s ensures s in r <==> s in entries {
        assert s in r <==> s in multiset(r);
        assert s in entries <==> s in multiset(entries);
      }
    }
    forall i, j | 0 <= i < j < |r| ensures r[i].resortId != r[j].resortId {
      assert r[i] in r && r[j] in r;
    }
  }

  /** Ranks are not unique within a ballot: one member who ranks two options
      first gives each of them a first-choice vote, so the counts can add up
      to more than the number of voters */
  lemma OneMemberTwoFirstChoices()
    ensures var rows := [Row("Ana", "2", 1), Row("Ana", "11", 1)];
      FirstChoiceVotes(rows, "2") + FirstChoiceVotes(rows, "11") == 2
  {
    var rows := [Row("Ana", "2", 1), Row("Ana", "11", 1)];
    assert rows[..1] == [Row("Ana", "2", 1)];
    assert rows[..1][..0] == [];
  }

  /** The `firstChoices` dictionary the loop builds from `rows`: one more vote
      for the option of each rank-1 row */
  function FirstChoiceCounts(rows: seq<Row>): map<string, int> {
    if rows == [] then map[]
    else
      var counts := FirstChoiceCounts(rows[..|rows| - 1]);
      var last := rows[|rows| - 1];
      if last.rank != 1 then counts
      else counts[last.value := (if last.value in counts then counts[last.value] else 0) + 1]
  }

  /** The `allRankings` dictionary the loop builds from `rows`: each row's
      placing appended under its option */
  function PlacingsByOption(rows: seq<Row>): map<string, seq<Placing>> {
    if rows == [] then map[]
    else
      var placings := PlacingsByOption(rows[..|rows| - 1]);
      var last := rows[|rows| - 1];
      placings[last.value :=
        (if last.value in placings then placings[last.value] else []) + [Placing(last.memberName, last.rank)]]
  }

  /** The keys of `firstChoices` are the options of the first-choice order, and
      each holds that option's first-choice count */
  lemma {:induction false} FirstChoiceCountsMeaning(rows: seq<Row>)
    ensures forall v :: v in FirstChoiceCounts(rows) <==> v in FirstChoiceOrder(rows)
    ensures forall v :: FirstChoiceVotes(rows, v)
                        == if v in FirstChoiceCounts(rows) then FirstChoiceCounts(rows)[v] else 0
  {
    if rows != [] {
      FirstChoiceCountsMeaning(rows[..|rows| - 1]);
    }
  }

  /** Each key of `allRankings` holds every placing of its option, in row order,
      and an option with no key has no placing */
  lemma {:induction false} PlacingsByOptionMeaning(rows: seq<Row>)
    ensures forall v :: RankingsFor(rows, v)
                        == if v in PlacingsByOption(rows) then PlacingsByOption(rows)[v] else []
  {
    if rows != [] {
      PlacingsByOptionMeaning(rows[..|rows| - 1]);
    }
  }

  /** An option is a key of `firstChoices` exactly when it is in the key order */
  lemma KeyedInOrder(rows: seq<Row>, value: string)
    ensures value in FirstChoiceCounts(rows) <==> value in FirstChoiceOrder(rows)
  {
    FirstChoiceCountsMeaning(rows);
  }

  lemma PrefixOfNext(rows: seq<Row>, i: nat)
    requires i < |rows|
    ensures rows[..i + 1][..i] == rows[..i]
    ensures rows[..i + 1][i] == rows[i]
  {
  }

  /** `Object.entries(firstChoices).map(...)`: one standing per key, in key order */
  function EntriesOf(keys: seq<string>, firstChoices: map<string, int>,
                     allRankings: map<string, seq<Placing>>): (entries: seq<Standing>)
    requires forall v :: v in keys ==> v in firstChoices
    ensures |entries| == |keys|
  {
    seq(|keys|, k requires 0 <= k < |keys| =>
      Standing(keys[k], firstChoices[keys[k]], if keys[k] in allRankings then allRankings[keys[k]] else []))
  }

  /** The entries built from the two dictionaries are the results before sorting */
  lemma EntriesFromMaps(rows: seq<Row>, keys: seq<string>, firstChoices: map<string, int>,
                        allRankings: map<string, seq<Placing>>)
    requires keys == FirstChoiceOrder(rows)
    requires firstChoices == FirstChoiceCounts(rows)
    requires allRankings == PlacingsByOption(rows)
    ensures forall v :: v in keys ==> v in firstChoices
    ensures EntriesOf(keys, firstChoices, allRankings) == Entries(rows)
  {
    FirstChoiceCountsMeaning(rows);
    PlacingsByOptionMeaning(rows);
    var entries := EntriesOf(keys, firstChoices, allRankings);
    var expected := Entries(rows);
    forall k | 0 <= k < |keys| ensures entries[k] == expected[k] {
      var v := keys[k];
      assert (if v in allRankings then allRankings[v] else []) == RankingsFor(rows, v);
    }
  }

  lemma StandingsOfAll(rows: seq<Row>, i: nat)
    requires i == |rows|
    ensures Standings(rows[..i]) == Standings(rows)
  {
    assert rows[..i] == rows;
  }

  /** `GET /api/votes/results` over the rows of its query, in query order */
  method Tally(rows: seq<Row>) returns (results: seq<Standing>)
    ensures results == Standings(rows)
  {
    var firstChoices: map<string, int> := map[];
    var allRankings: map<string, seq<Placing>> := map[];
    var keys: seq<string> := [];  // the insertion order of firstChoices' keys
    var i := 0;
    while i < |rows|
      invariant 0 <= i <= |rows|
      invariant keys == FirstChoiceOrder(rows[..i])
      invariant firstChoices == FirstChoiceCounts(rows[..i])
      invariant allRankings == PlacingsByOption(rows[..i])
    {
      var row := rows[i];
      KeyedInOrder(rows[..i], row.value);
      PrefixOfNext(rows, i);
      if row.rank == 1 {
        if row.value in firstChoices {
          firstChoices := firstChoices[row.value := firstChoices[row.value] + 1];
        } else {
          firstChoices := firstChoices[row.value := 1];
          keys := keys + [row.value];
        }
      }
      var placings := if row.value in allRankings then allRankings[row.value] else [];
      allRankings := allRankings[row.value := placings + [Placing(row.memberName, row.rank)]];
      i := i + 1;
    }
    EntriesFromMaps(rows[..i], keys, firstChoices, allRankings);
    results := SortByVotes(EntriesOf(keys, firstChoices, allRankings));
    StandingsOfAll(rows, i);
  }
}
