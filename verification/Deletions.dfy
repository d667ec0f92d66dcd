/** What a query finds once rows are deleted, and small databases where the order of steps matters. */
module Deletions {
  import opened Orderings
  import opened Queries

  // ---------------------------------------------------------------- when nothing is found

  lemma {:induction false} NothingLeft(db: Db, o: Ordering, rows: seq<Row>)
    ensures Apply(db, o, rows) == [] <==> rows == [] || Limit(0) in o
    decreases |o|
  {
    if o != [] {
      NothingLeft(db, o[1..], ApplyOne(db, o[0], rows));
      assert Limit(0) in o <==> o[0] == Limit(0) || Limit(0) in o[1..];
    }
  }

  lemma {:induction false} RemainingMember(rows: seq<Row>, gone: seq<Row>, r: Row)
    ensures r in Remaining(rows, gone) <==> r in rows && r !in gone
  {
    if rows != [] {
      RemainingMember(rows[1..], gone, r);
      assert r in rows <==> r == rows[0] || r in rows[1..];
    }
  }

  lemma {:induction false} FilterAllMember(db: Db, rows: seq<Row>, conditions: seq<Condition>, r: Row)
    ensures r in FilterAll(db, rows, conditions) <==>
              r in rows && forall i | 0 <= i < |conditions| :: Meets(db, conditions[i], r)
  {
    if conditions != [] {
      var n := |conditions| - 1;
      FilterAllMember(db, rows, conditions[..n], r);
      FilterMember(db, FilterAll(db, rows, conditions[..n]), conditions[n], r);
      if forall i | 0 <= i < n :: Meets(db, conditions[..n][i], r) {
        assert forall i | 0 <= i < n :: Meets(db, conditions[i], r) by {
          forall i | 0 <= i < n ensures Meets(db, conditions[i], r) { assert Meets(db, conditions[..n][i], r); }
        }
      }
    }
  }

  /** A query finds the rows of its source that meet all of its conditions. */
  lemma {:induction false} QueryFinds(db: Db, q: Query, r: Row)
    ensures r in Matching(db, q) <==>
              && (forall i | 0 <= i < |q.conditions| :: q.conditions[i](db.values(r)))
              && match q.source
                 case WholeTable => r in db.rows
                 case TheList => r in db.list
                 case Only(rows) => r in rows && r in db.rows
  {
    FilterAllMember(db, SourceRows(db, q.source), q.conditions, r);
    if q.source.Only? { ExistingMember(db, q.source.rows, r); }
    forall i | 0 <= i < |q.conditions| ensures Meets(db, q.conditions[i], r) == q.conditions[i](db.values(r)) {}
  }

  lemma {:induction false} ExistingMember(db: Db, rows: seq<Row>, r: Row)
    ensures r in Existing(db, rows) <==> r in rows && r in db.rows
  {
    if rows != [] {
      ExistingMember(db, rows[1..], r);
      assert r in rows <==> r == rows[0] || r in rows[1..];
    }
  }

  lemma {:induction false} MatchingWithout(db: Db, q: Query, gone: seq<Row>, r: Row)
    ensures r in Matching(Without(db, gone), q) <==> r in Matching(db, q) && r !in gone
  {
    var now := Without(db, gone);
    FilterAllMember(db, SourceRows(db, q.source), q.conditions, r);
    FilterAllMember(now, SourceRows(now, q.source), q.conditions, r);
    RemainingMember(db.rows, gone, r);
    RemainingMember(db.list, gone, r);
    if q.source.Only? {
      ExistingMember(db, q.source.rows, r);
      ExistingMember(now, q.source.rows, r);
    }
  }

  /** Deleting what a query shows leaves it empty exactly if it showed every match, or shows nothing ever. */
  lemma {:induction false} EmptyAfterDeleting(db: Db, q: Query, o: Ordering)
    ensures FindAll(Without(db, FindAll(db, q, o)), q, o) == [] <==>
              Limit(0) in o || forall r | r in Matching(db, q) :: r in FindAll(db, q, o)
  {
    var shown := FindAll(db, q, o);
    var now := Without(db, shown);
    NothingLeft(now, o, Matching(now, q));
    if forall r | r in Matching(db, q) :: r in shown {
      if Matching(now, q) != [] {
        var r := Matching(now, q)[0];
        assert r in Matching(now, q);
        MatchingWithout(db, q, shown, r);
      }
    } else {
      var r :| r in Matching(db, q) && r !in shown;
      MatchingWithout(db, q, shown, r);
    }
  }

  // ---------------------------------------------------------------- where the order of steps matters

  /** Two rows whose only values are their own numbers. */
  function TwoRows(): Db {
    Db([0, 1], [0, 1], (r: Row) => [r], true)
  }

  lemma {:induction false} TwoRowsSorted(key: Key)
    ensures SortBy(TwoRows(), [0, 1], key) == if key([0]) <= key([1]) then [0, 1] else [1, 0]
    ensures SortBy(TwoRows(), [1, 0], key) == if key([1]) <= key([0]) then [1, 0] else [0, 1]
  {
    var db := TwoRows();
    assert [0, 1][1..] == [1] && [1, 0][1..] == [0];
    assert SortBy(db, [1], key) == [1] && SortBy(db, [0], key) == [0];
    assert db.values(0) == [0] && db.values(1) == [1];
  }

  /** A key that every row shares, one that puts the second row first, and a condition only that row meets. */
  function Same(v: seq<int>): int {
    0
  }

  function OneFirst(v: seq<int>): int {
    if v == [1] then 0 else 1
  }

  predicate IsOne(v: seq<int>) {
    v == [1]
  }

  lemma {:induction false} LimitOnly(db: Db, o: Ordering, rows: seq<Row>)
    requires |o| == 1 && o[0].Limit?
    ensures Apply(db, o, rows) == AtMost(rows, o[0].max)
  {
    assert o[1..] == [];
    assert Apply(db, o[1..], AtMost(rows, o[0].max)) == AtMost(rows, o[0].max);
  }

  /** Deleting all that a limited query shows may bring rows into view that it did not show before. */
  lemma {:induction false} DeletingUncoversRows(q: Query, o: Ordering)
    requires q == Query(WholeTable, []) && o == [Limit(1)]
    ensures FindAll(TwoRows(), q, o) == [0]
    ensures FindAll(Without(TwoRows(), [0]), q, o) == [1]
  {
    var db := TwoRows();
    assert o[0] == Limit(1) && o[1..] == [];
    LimitOnly(db, o, [0, 1]);
    assert Matching(db, q) == [0, 1];
    assert [0, 1][1..] == [1] && Remaining([1], [0]) == [1];
    var now := Without(db, [0]);
    assert now.rows == [1] && Matching(now, q) == [1];
    LimitOnly(now, o, [1]);
  }

  lemma {:induction false} DistinctOfOne(db: Db, a: Row, key: Key)
    ensures DistinctBy(db, [a], key) == [a]
  {
    assert [a][..0] == [];
  }

  lemma {:induction false} DistinctOfPair(db: Db, a: Row, b: Row, key: Key)
    requires KeyOf(db, key, a) == KeyOf(db, key, b)
    ensures DistinctBy(db, [a, b], key) == [a]
  {
    assert [a, b][..1] == [a] && [a, b][1] == b;
    DistinctOfOne(db, a, key);
    assert [a][0] == a;
    assert HasKey(db, [a], key, KeyOf(db, key, b));
  }

  /** Narrowing a query before its duplicates are removed may show a row that was not shown. */
  lemma {:induction false} NarrowingUncoversRows()
    ensures DistinctBy(TwoRows(), [0, 1], Same) == [0] && Filter(TwoRows(), [0], IsOne) == []
    ensures Filter(TwoRows(), [0, 1], IsOne) == [1] && DistinctBy(TwoRows(), [1], Same) == [1]
    ensures !NoneUncovered(TwoRows(), [0, 1], Same, IsOne)
  {
    var db := TwoRows();
    DistinctOfPair(db, 0, 1, Same);
    DistinctOfOne(db, 1, Same);
    FilterOfCons(db, 0, [], IsOne);
    FilterOfCons(db, 1, [], IsOne);
    FilterOfCons(db, 0, [1], IsOne);
    assert [0] + [] == [0] && [1] + [] == [1] && [0] + [1] == [0, 1];
    FilterOfDistinct(db, [0, 1], Same, IsOne);
  }

  /** Three rows, a condition that all but the second meet, a key that the last two share and one that
      the second alone has. */
  function ThreeRows(): Db {
    Db([0, 1, 2], [0, 1, 2], (r: Row) => [r], true)
  }

  predicate NotOne(v: seq<int>) {
    v != [1]
  }

  function ZeroApart(v: seq<int>): int {
    if v == [0] then 0 else 1
  }

  lemma {:induction false} DistinctOfTriple(db: Db, a: Row, b: Row, c: Row, key: Key)
    requires KeyOf(db, key, a) != KeyOf(db, key, b) == KeyOf(db, key, c)
    ensures DistinctBy(db, [a, b, c], key) == [a, b] == DistinctBy(db, [a, b], key)
  {
    DistinctOfOne(db, a, key);
    assert [a] + [b] == [a, b] && [a, b] + [c] == [a, b, c];
    assert [a][0] == a && [a, b][1] == b;
    DistinctOfSnoc(db, [a], b, key);
    DistinctOfSnoc(db, [a, b], c, key);
  }

  /** With two removals of duplicates the second may cover again what the first has uncovered: the rows
      are those of filtering last although the first removal does not change places with the filter. */
  lemma {:induction false} SecondRemovalCoversAgain()
    ensures var db, first := ThreeRows(), DistinctBy(ThreeRows(), [0, 1, 2], ZeroApart);
            && Filter(db, DistinctBy(db, first, OneFirst), NotOne) == [0]
            && DistinctBy(db, DistinctBy(db, Filter(db, [0, 1, 2], NotOne), ZeroApart), OneFirst) == [0]
            && !NoneUncovered(db, [0, 1, 2], ZeroApart, NotOne)
  {
    var db := ThreeRows();
    RemovedFromThree(db);
    ThreeFiltered(db);
    FilterOfDistinct(db, [0, 1, 2], ZeroApart, NotOne);
    hide *;
    assert [0, 1] != [0, 2];
  }

  lemma {:induction false} RemovedFromThree(db: Db)
    requires db == ThreeRows()
    ensures DistinctBy(db, [0, 1, 2], ZeroApart) == [0, 1] == DistinctBy(db, [0, 1], OneFirst)
    ensures DistinctBy(db, [0, 2], ZeroApart) == [0, 2] && DistinctBy(db, [0, 2], OneFirst) == [0]
  {
    hide DistinctBy, HasKey;
    assert KeyOf(db, OneFirst, 0) == 1 == KeyOf(db, OneFirst, 2) && KeyOf(db, OneFirst, 1) == 0;
    assert KeyOf(db, ZeroApart, 0) == 0 && KeyOf(db, ZeroApart, 1) == 1 == KeyOf(db, ZeroApart, 2);
    DistinctOfTriple(db, 0, 1, 2, ZeroApart);
    DistinctOfTriple(db, 0, 1, 1, OneFirst);
    DistinctOfTriple(db, 0, 2, 2, ZeroApart);
    DistinctOfPair(db, 0, 2, OneFirst);
  }

  lemma {:induction false} ThreeFiltered(db: Db)
    requires db == ThreeRows()
    ensures Filter(db, [0, 1, 2], NotOne) == [0, 2] && Filter(db, [0, 1], NotOne) == [0]
  {
    var one, two: seq<Row> := [1], [2];
    assert Filter(db, [], NotOne) == [];
    assert two == [2] + [] && one == [1] + [] && [1, 2] == [1] + two;
    assert [0, 1, 2] == [0] + [1, 2] && [0, 1] == [0] + one;
    hide Filter;
    FilterOfCons(db, 2, [], NotOne);
    FilterOfCons(db, 1, [], NotOne);
    FilterOfCons(db, 1, two, NotOne);
    FilterOfCons(db, 0, one, NotOne);
    FilterOfCons(db, 0, [1, 2], NotOne);
  }

  /** Sorting a sorted list on a key that leaves ties shows whether the first sort was kept. */
  lemma {:induction false} ResortingShowsFirstSort()
    ensures SortBy(TwoRows(), SortBy(TwoRows(), [0, 1], OneFirst), Same) == [1, 0]
    ensures SortBy(TwoRows(), [0, 1], Same) == [0, 1]
  {
    TwoRowsSorted(OneFirst);
    TwoRowsSorted(Same);
  }
}
