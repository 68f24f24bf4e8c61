/** The family's `votes` table and the two ways of writing it: a single vote
    (insert or replace on the row's key) and a ranked submission (delete the
    member's ballot for a category, then insert each ranking). Rows are kept
    in insertion order; the table's key is UNIQUE(member_id, category, value). */
module VoteTable {
  import opened Wrappers

  /** One row of the votes table */
  datatype Vote = Vote(member: int, category: string, value: string, rank: int)

  /** One entry of a ranked submission */
  datatype Ranking = Ranking(value: string, rank: int)

  predicate SameKey(a: Vote, b: Vote) {
    a.member == b.member && a.category == b.category && a.value == b.value
  }

  /** The table's uniqueness constraint */
  ghost predicate KeysUnique(rows: seq<Vote>) {
    forall i, j :: 0 <= i < j < |rows| ==> !SameKey(rows[i], rows[j])
  }

  /** Whether inserting `v` would violate the uniqueness constraint */
  predicate Taken(rows: seq<Vote>, v: Vote) {
    exists i :: 0 <= i < |rows| && SameKey(rows[i], v)
  }

  /** The rows whose key differs from `v`'s, in order */
  function WithoutKey(rows: seq<Vote>, v: Vote): (r: seq<Vote>)
    ensures forall x :: x in r <==> x in rows && !SameKey(x, v)
  {
    if rows == [] then []
    else (if SameKey(rows[0], v) then [] else [rows[0]]) + WithoutKey(rows[1..], v)
  }

  /** `INSERT OR REPLACE`: the row holding `v`'s key, if any, is deleted and
      `v` is appended */
  function Upserted(rows: seq<Vote>, v: Vote): (r: seq<Vote>)
    ensures |r| >= 1 && r[|r| - 1] == v
    ensures forall x :: x in r <==> x == v || (x in rows && !SameKey(x, v))
  {
    WithoutKey(rows, v) + [v]
  }

  /** `rank || 1`: a missing rank and a rank of 0 both mean first choice */
  function RankOrDefault(rank: Option<int>): (r: int)
    ensures r != 0
    ensures rank.Some? && rank.value != 0 ==> r == rank.value
    ensures rank.None? || rank.value == 0 ==> r == 1
  {
    match rank
    case Some(r) => if r != 0 then r else 1
    case None => 1
  }

  predicate InBallot(row: Vote, member: int, category: string) {
    row.member == member && row.category == category
  }

  /** `DELETE FROM votes WHERE member_id = ? AND category = ?` */
  function WithoutBallot(rows: seq<Vote>, member: int, category: string): (r: seq<Vote>)
    ensures forall x :: x in r <==> x in rows && !InBallot(x, member, category)
  {
    if rows == [] then []
    else (if InBallot(rows[0], member, category) then [] else [rows[0]])
         + WithoutBallot(rows[1..], member, category)
  }

  /** The rows a ranked submission inserts, in submission order */
  function BallotRows(member: int, category: string, rankings: seq<Ranking>): (r: seq<Vote>)
    ensures |r| == |rankings|
    ensures forall i :: 0 <= i < |r| ==> r[i] == Vote(member, category, rankings[i].value, rankings[i].rank)
  {
    seq(|rankings|, i requires 0 <= i < |rankings| => Vote(member, category, rankings[i].value, rankings[i].rank))
  }

  /** A member's ballot in a category: the (value, rank) of each of their rows, in order */
  function BallotOf(rows: seq<Vote>, member: int, category: string): seq<Ranking> {
    if rows == [] then []
    else (if InBallot(rows[0], member, category) then [Ranking(rows[0].value, rows[0].rank)] else [])
         + BallotOf(rows[1..], member, category)
  }

  /** The table after a ranked submission that went through */
  function Replaced(rows: seq<Vote>, member: int, category: string, rankings: seq<Ranking>): seq<Vote> {
    WithoutBallot(rows, member, category) + BallotRows(member, category, rankings)
  }

  predicate HasValue(rankings: seq<Ranking>, value: string) {
    exists i :: 0 <= i < |rankings| && rankings[i].value == value
  }

  predicate DistinctValues(rankings: seq<Ranking>) {
    forall i, j :: 0 <= i < j < |rankings| ==> rankings[i].value != rankings[j].value
  }

  lemma ConsKeysUnique(x: Vote, rows: seq<Vote>)
    requires KeysUnique(rows)
    requires forall y :: y in rows ==> !SameKey(x, y)
    ensures KeysUnique([x] + rows)
  {
    var s := [x] + rows;
    forall i, j | 0 <= i < j < |s| ensures !SameKey(s[i], s[j]) {
      if i == 0 {
        assert s[j] in rows;
      } else {
        assert s[i] == rows[i - 1] && s[j] == rows[j - 1];
      }
    }
  }

  lemma {:induction false} WithoutKeyKeepsKeysUnique(rows: seq<Vote>, v: Vote)
    requires KeysUnique(rows)
    ensures KeysUnique(WithoutKey(rows, v))
  {
    if rows != [] {
      assert KeysUnique(rows[1..]) by {
        forall i, j | 0 <= i < j < |rows[1..]| ensures !SameKey(rows[1..][i], rows[1..][j]) {
          assert rows[1..][i] == rows[i + 1] && rows[1..][j] == rows[j + 1];
        }
      }
      WithoutKeyKeepsKeysUnique(rows[1..], v);
      if !SameKey(rows[0], v) {
        forall y | y in WithoutKey(rows[1..], v) ensures !SameKey(rows[0], y) {
          var k :| 0 <= k < |rows[1..]| && rows[1..][k] == y;
          assert rows[k + 1] == y;
        }
        ConsKeysUnique(rows[0], WithoutKey(rows[1..], v));
      }
    }
  }

  lemma {:induction false} WithoutBallotKeepsKeysUnique(rows: seq<Vote>, member: int, category: string)
    requires KeysUnique(rows)
    ensures KeysUnique(WithoutBallot(rows, member, category))
  {
    if rows != [] {
      assert KeysUnique(rows[1..]) by {
        forall i, j | 0 <= i < j < |rows[1..]| ensures !SameKey(rows[1..][i], rows[1..][j]) {
          assert rows[1..][i] == rows[i + 1] && rows[1..][j] == rows[j + 1];
        }
      }
      WithoutBallotKeepsKeysUnique(rows[1..], member, category);
      if !InBallot(rows[0], member, category) {
        forall y | y in WithoutBallot(rows[1..], member, category) ensures !SameKey(rows[0], y) {
          var k :| 0 <= k < |rows[1..]| && rows[1..][k] == y;
          assert rows[k + 1] == y;
        }
        ConsKeysUnique(rows[0], WithoutBallot(rows[1..], member, category));
      }
    }
  }

  lemma SnocKeysUnique(rows: seq<Vote>, v: Vote)
    requires KeysUnique(rows)
    requires !Taken(rows, v)
    ensures KeysUnique(rows + [v])
  {
    var s := rows + [v];
    forall i, j | 0 <= i < j < |s| ensures !SameKey(s[i], s[j]) {
      if j == |rows| {
        assert s[i] == rows[i];
      } else {
        assert s[i] == rows[i] && s[j] == rows[j];
      }
    }
  }

  /** A single vote keeps the table's key unique, leaves exactly one row with
      its key (the new one, last), and keeps every other row */
  lemma UpsertKeepsKeysUnique(rows: seq<Vote>, v: Vote)
    requires KeysUnique(rows)
    ensures KeysUnique(Upserted(rows, v))
    ensures Upserted(rows, v)[|Upserted(rows, v)| - 1] == v
    ensures forall x :: x in Upserted(rows, v) && SameKey(x, v) ==> x == v
    ensures forall x :: !SameKey(x, v) ==> (x in Upserted(rows, v) <==> x in rows)
  {
    WithoutKeyKeepsKeysUnique(rows, v);
    SnocKeysUnique(WithoutKey(rows, v), v);
  }

  lemma {:induction false} BallotOfAppend(a: seq<Vote>, b: seq<Vote>, member: int, category: string)
    ensures BallotOf(a + b, member, category) == BallotOf(a, member, category) + BallotOf(b, member, category)
  {
    if a != [] {
      assert (a + b)[1..] == a[1..] + b;
      BallotOfAppend(a[1..], b, member, category);
    } else {
      assert a + b == b;
    }
  }

  lemma {:induction false} WithoutBallotAppend(a: seq<Vote>, b: seq<Vote>, member: int, category: string)
    ensures WithoutBallot(a + b, member, category)
         == WithoutBallot(a, member, category) + WithoutBallot(b, member, category)
  {
    if a != [] {
      assert (a + b)[1..] == a[1..] + b;
      WithoutBallotAppend(a[1..], b, member, category);
    } else {
      assert a + b == b;
    }
  }

  /** Rows that are all outside a ballot survive its deletion unchanged */
  lemma {:induction false} WithoutBallotOutside(rows: seq<Vote>, member: int, category: string)
    requires forall x :: x in rows ==> !InBallot(x, member, category)
    ensures WithoutBallot(rows, member, category) == rows
  {
    if rows != [] {
      assert forall x :: x in rows[1..] ==> x in rows;
      WithoutBallotOutside(rows[1..], member, category);
    }
  }

  /** The rows of a ballot are deleted entirely */
  lemma {:induction false} WithoutBallotInside(rows: seq<Vote>, member: int, category: string)
    requires forall x :: x in rows ==> InBallot(x, member, category)
    ensures WithoutBallot(rows, member, category) == []
  {
    if rows != [] {
      assert forall x :: x in rows[1..] ==> x in rows;
      WithoutBallotInside(rows[1..], member, category);
    }
  }

  lemma {:induction false} BallotOfOutside(rows: seq<Vote>, member: int, category: string)
    requires forall x :: x in rows ==> !InBallot(x, member, category)
    ensures BallotOf(rows, member, category) == []
  {
    if rows != [] {
      assert forall x :: x in rows[1..] ==> x in rows;
      BallotOfOutside(rows[1..], member, category);
    }
  }

  lemma {:induction false} BallotOfBallotRows(member: int, category: string, rankings: seq<Ranking>)
    ensures BallotOf(BallotRows(member, category, rankings), member, category) == rankings
  {
    if rankings != [] {
      var rows := BallotRows(member, category, rankings);
      assert rows[1..] == BallotRows(member, category, rankings[1..]);
      BallotOfBallotRows(member, category, rankings[1..]);
      assert rankings == [Ranking(rankings[0].value, rankings[0].rank)] + rankings[1..];
    }
  }

  /** After a ranked submission that went through, the member's ballot in
      that category is exactly the submitted rankings, in order */
  lemma ReplacedBallot(rows: seq<Vote>, member: int, category: string, rankings: seq<Ranking>)
    ensures BallotOf(Replaced(rows, member, category, rankings), member, category) == rankings
  {
    var kept := WithoutBallot(rows, member, category);
    BallotOfAppend(kept, BallotRows(member, category, rankings), member, category);
    BallotOfOutside(kept, member, category);
    BallotOfBallotRows(member, category, rankings);
  }

  /** A ranked submission leaves every row outside that member's ballot for
      that category where it was, and every other ballot as it was */
  lemma ReplacedKeepsOthers(rows: seq<Vote>, member: int, category: string, rankings: seq<Ranking>,
                            other: int, otherCategory: string)
    requires other != member || otherCategory != category
    ensures WithoutBallot(Replaced(rows, member, category, rankings), member, category)
         == WithoutBallot(rows, member, category)
    ensures BallotOf(Replaced(rows, member, category, rankings), other, otherCategory)
         == BallotOf(rows, other, otherCategory)
  {
    var kept := WithoutBallot(rows, member, category);
    var added := BallotRows(member, category, rankings);
    WithoutBallotAppend(kept, added, member, category);
    WithoutBallotOutside(kept, member, category);
    WithoutBallotInside(added, member, category);
    assert kept + [] == kept;
    BallotOfAppend(kept, added, other, otherCategory);
    BallotOfOutside(added, other, otherCategory);
    BallotOfKept(rows, member, category, other, otherCategory);
    assert BallotOf(kept, other, otherCategory) + [] == BallotOf(kept, other, otherCategory);
  }

  lemma {:induction false} BallotOfKept(rows: seq<Vote>, member: int, category: string,
                                       other: int, otherCategory: string)
    requires other != member || otherCategory != category
    ensures BallotOf(WithoutBallot(rows, member, category), other, otherCategory) == BallotOf(rows, other, otherCategory)
  {
    if rows != [] {
      BallotOfKept(rows[1..], member, category, other, otherCategory);
      var head := if InBallot(rows[0], member, category) then [] else [rows[0]];
      BallotOfAppend(head, WithoutBallot(rows[1..], member, category), other, otherCategory);
      if head != [] {
        assert head[1..] == [];
      }
    }
  }

  /** A second ranked submission leaves no trace of the first */
  lemma ReplacedTwice(rows: seq<Vote>, member: int, category: string, first: seq<Ranking>, second: seq<Ranking>)
    ensures Replaced(Replaced(rows, member, category, first), member, category, second)
         == Replaced(rows, member, category, second)
  {
    var kept := WithoutBallot(rows, member, category);
    var added := BallotRows(member, category, first);
    WithoutBallotAppend(kept, added, member, category);
    WithoutBallotOutside(kept, member, category);
    WithoutBallotInside(added, member, category);
    assert kept + [] == kept;
  }

  /** Inserting a ranking clashes with the table exactly when the submission
      already holds that value */
  lemma TakenInReplaced(rows: seq<Vote>, member: int, category: string, rankings: seq<Ranking>, value: string, rank: int)
    ensures Taken(Replaced(rows, member, category, rankings), Vote(member, category, value, rank))
        <==> HasValue(rankings, value)
  {
    var kept := WithoutBallot(rows, member, category);
    var added := BallotRows(member, category, rankings);
    var s := kept + added;
    var v := Vote(member, category, value, rank);
    if Taken(s, v) {
      var i :| 0 <= i < |s| && SameKey(s[i], v);
      assert forall j :: 0 <= j < |kept| ==> s[j] == kept[j] && !InBallot(kept[j], member, category);
      assert s[i] == added[i - |kept|];
    }
    if HasValue(rankings, value) {
      var k :| 0 <= k < |rankings| && rankings[k].value == value;
      assert s[|kept| + k] == added[k];
    }
  }

  lemma ReplacedKeysUnique(rows: seq<Vote>, member: int, category: string, rankings: seq<Ranking>, next: Ranking)
    requires KeysUnique(Replaced(rows, member, category, rankings))
    requires !HasValue(rankings, next.value)
    ensures Replaced(rows, member, category, rankings + [next])
         == Replaced(rows, member, category, rankings) + [Vote(member, category, next.value, next.rank)]
    ensures KeysUnique(Replaced(rows, member, category, rankings + [next]))
  {
    var v := Vote(member, category, next.value, next.rank);
    assert BallotRows(member, category, rankings + [next]) == BallotRows(member, category, rankings) + [v];
    TakenInReplaced(rows, member, category, rankings, next.value, next.rank);
    SnocKeysUnique(Replaced(rows, member, category, rankings), v);
  }

  class Votes {
    /** The table's rows, in insertion order */
    var rows: seq<Vote>

    ghost predicate Valid()
      reads this
    {
      KeysUnique(rows)
    }

    constructor ()
      ensures Valid() && rows == []
    {
      rows := [];
    }

    /** `POST /api/votes`: insert or replace the row for (member, category, value) */
    method Submit(member: int, category: string, value: string, rank: Option<int>)
      requires Valid()
      modifies this
      ensures Valid()
      ensures rows == Upserted(old(rows), Vote(member, category, value, RankOrDefault(rank)))
    {
      var v := Vote(member, category, value, RankOrDefault(rank));
      UpsertKeepsKeysUnique(rows, v);
      rows := Upserted(rows, v);
    }

    /** `POST /api/votes/ranked`: delete the member's rows for the category,
        then insert each ranking in turn. A repeated value violates the key;
        the request then fails, and the deletion and earlier inserts stay. */
    method SubmitRanked(member: int, category: string, rankings: seq<Ranking>) returns (ok: bool)
      requires Valid()
      modifies this
      ensures Valid()
      ensures ok <==> DistinctValues(rankings)
      ensures ok ==> rows == Replaced(old(rows), member, category, rankings)
      ensures !ok ==> exists n :: 0 <= n < |rankings| && DistinctValues(rankings[..n])
                                  && HasValue(rankings[..n], rankings[n].value)
                                  && rows == Replaced(old(rows), member, category, rankings[..n])
    {
      WithoutBallotKeepsKeysUnique(rows, member, category);
      rows := WithoutBallot(rows, member, category);
      assert rankings[..0] == [];
      assert rows == Replaced(old(rows), member, category, rankings[..0]);
      var i := 0;
      while i < |rankings|
        invariant 0 <= i <= |rankings|
        invariant rows == Replaced(old(rows), member, category, rankings[..i])
        invariant DistinctValues(rankings[..i])
        invariant KeysUnique(rows)
      {
        var vote := Vote(member, category, rankings[i].value, rankings[i].rank);
        TakenInReplaced(old(rows), member, category, rankings[..i], vote.value, vote.rank);
        if Taken(rows, vote) {
          assert !DistinctValues(rankings) by {
            var k :| 0 <= k < i && rankings[..i][k].value == vote.value;
            assert rankings[k].value == rankings[i].value;
          }
          return false;
        }
        ReplacedKeysUnique(old(rows), member, category, rankings[..i], rankings[i]);
        assert rankings[..i + 1] == rankings[..i] + [rankings[i]];
        rows := rows + [vote];
        i := i + 1;
      }
      assert rankings[..i] == rankings;
      return true;
    }
  }
}
