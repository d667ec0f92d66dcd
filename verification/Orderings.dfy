/** Orderings applied one after the other, and which of them may change places with a filter. */
module Orderings {
  import opened Queries

  lemma {:induction false} ApplyOneMore(db: Db, o: Ordering, d: Descriptor, rows: seq<Row>)
    ensures Apply(db, o + [d], rows) == ApplyOne(db, d, Apply(db, o, rows))
    decreases |o|
  {
    if o == [] {
      assert (o + [d])[1..] == [];
    } else {
      assert (o + [d])[1..] == o[1..] + [d];
      ApplyOneMore(db, o[1..], d, ApplyOne(db, o[0], rows));
    }
  }

  ghost predicate InKeyOrder(db: Db, rows: seq<Row>, key: Key) {
    forall i, j | 0 <= i < j < |rows| :: KeyOf(db, key, rows[i]) <= KeyOf(db, key, rows[j])
  }

  lemma {:induction false} InsertKeepsOrder(db: Db, r: Row, rows: seq<Row>, key: Key)
    requires InKeyOrder(db, rows, key)
    ensures InKeyOrder(db, Insert(db, r, rows, key), key)
  {
    if rows != [] && KeyOf(db, key, r) > KeyOf(db, key, rows[0]) {
      InsertKeepsOrder(db, r, rows[1..], key);
      InsertPermutes(db, r, rows[1..], key);
      assert rows == [rows[0]] + rows[1..];
      StaysBehind(db, rows[0], r, rows[1..], Insert(db, r, rows[1..], key), key);
    }
  }

  lemma {:induction false} StaysBehind(db: Db, first: Row, r: Row, tail: seq<Row>, inserted: seq<Row>, key: Key)
    requires multiset(inserted) == multiset{r} + multiset(tail)
    requires KeyOf(db, key, r) > KeyOf(db, key, first) && InKeyOrder(db, [first] + tail, key)
    ensures forall j | 0 <= j < |inserted| :: KeyOf(db, key, first) <= KeyOf(db, key, inserted[j])
  {
    forall j | 0 <= j < |inserted| ensures KeyOf(db, key, first) <= KeyOf(db, key, inserted[j]) {
      assert inserted[j] in multiset(inserted);
      if inserted[j] != r {
        var i :| 0 <= i < |tail| && tail[i] == inserted[j];
        assert ([first] + tail)[0] == first && ([first] + tail)[i + 1] == tail[i];
      }
    }
  }

  lemma {:induction false} SortByOrders(db: Db, rows: seq<Row>, key: Key)
    ensures InKeyOrder(db, SortBy(db, rows, key), key)
  {
    if rows != [] {
      SortByOrders(db, rows[1..], key);
      InsertKeepsOrder(db, rows[0], SortBy(db, rows[1..], key), key);
    }
  }

  /** A sort shows the same rows, from the least key to the greatest. */
  lemma {:induction false} SortAscends(db: Db, rows: seq<Row>, key: Key)
    ensures multiset(SortBy(db, rows, key)) == multiset(rows)
    ensures var s := SortBy(db, rows, key);
            forall i, j | 0 <= i < j < |s| :: key(db.values(s[i])) <= key(db.values(s[j]))
  {
    SortByPermutes(db, rows, key);
    SortByOrders(db, rows, key);
    forall r: Row ensures KeyOf(db, key, r) == key(db.values(r)) {}
    assert InKeyOrder(db, SortBy(db, rows, key), key);
  }

  lemma {:induction false} FilterMember(db: Db, rows: seq<Row>, c: Condition, r: Row)
    ensures r in Filter(db, rows, c) <==> r in rows && Meets(db, c, r)
  {
    if rows != [] {
      FilterMember(db, rows[1..], c, r);
      assert r in rows <==> r == rows[0] || r in rows[1..];
    }
  }

  lemma {:induction false} FilterOfCons(db: Db, r: Row, rows: seq<Row>, c: Condition)
    ensures Meets(db, c, r) ==> Filter(db, [r] + rows, c) == [r] + Filter(db, rows, c)
    ensures !Meets(db, c, r) ==> Filter(db, [r] + rows, c) == Filter(db, rows, c)
  {
    assert ([r] + rows)[1..] == rows;
  }

  lemma {:induction false} InsertInFront(db: Db, r: Row, rows: seq<Row>, key: Key, c: Condition)
    requires InKeyOrder(db, rows, key)
    requires rows == [] || KeyOf(db, key, r) <= KeyOf(db, key, rows[0])
    ensures Insert(db, r, Filter(db, rows, c), key) == [r] + Filter(db, rows, c)
  {
    var found := Filter(db, rows, c);
    if found != [] {
      FilterMember(db, rows, c, found[0]);
      var i :| 0 <= i < |rows| && rows[i] == found[0];
      assert i > 0 ==> KeyOf(db, key, rows[0]) <= KeyOf(db, key, rows[i]);
    }
  }

  lemma {:induction false} InsertBehind(db: Db, r: Row, first: Row, found: seq<Row>, key: Key)
    requires KeyOf(db, key, r) > KeyOf(db, key, first)
    ensures Insert(db, r, [first] + found, key) == [first] + Insert(db, r, found, key)
  {
    assert ([first] + found)[1..] == found;
  }

  /** What Filter makes of a row inserted, given what it makes of the other rows. */
  ghost function InsertIf(db: Db, r: Row, found: seq<Row>, key: Key, c: Condition): seq<Row> {
    if Meets(db, c, r) then Insert(db, r, found, key) else found
  }

  lemma {:induction false} FilterOfInsertBehind(db: Db, r: Row, first: Row, tail: seq<Row>, key: Key, c: Condition)
    requires KeyOf(db, key, r) > KeyOf(db, key, first)
    requires Filter(db, Insert(db, r, tail, key), c) == InsertIf(db, r, Filter(db, tail, c), key, c)
    ensures Filter(db, Insert(db, r, [first] + tail, key), c) ==
            InsertIf(db, r, Filter(db, [first] + tail, c), key, c)
  {
    var inserted, found := Insert(db, r, tail, key), Filter(db, tail, c);
    InsertBehind(db, r, first, tail, key);
    FilterOfCons(db, first, inserted, c);
    FilterOfCons(db, first, tail, c);
    if Meets(db, c, first) {
      InsertBehind(db, r, first, found, key);
    }
  }

  lemma {:induction false} FilterOfInsert(db: Db, r: Row, rows: seq<Row>, key: Key, c: Condition)
    requires InKeyOrder(db, rows, key)
    ensures Filter(db, Insert(db, r, rows, key), c) == InsertIf(db, r, Filter(db, rows, c), key, c)
  {
    if rows == [] || KeyOf(db, key, r) <= KeyOf(db, key, rows[0]) {
      assert Insert(db, r, rows, key) == [r] + rows;
      FilterOfCons(db, r, rows, c);
      InsertInFront(db, r, rows, key, c);
    } else {
      FilterOfInsert(db, r, rows[1..], key, c);
      FilterOfInsertBehind(db, r, rows[0], rows[1..], key, c);
      assert rows == [rows[0]] + rows[1..];
    }
  }

  /** Filtering and a stable sort may change places. */
  lemma {:induction false} FilterOfSort(db: Db, rows: seq<Row>, key: Key, c: Condition)
    ensures Filter(db, SortBy(db, rows, key), c) == SortBy(db, Filter(db, rows, c), key)
  {
    if rows != [] {
      var sorted := SortBy(db, rows[1..], key);
      SortByOrders(db, rows[1..], key);
      FilterOfSort(db, rows[1..], key, c);
      FilterOfInsert(db, rows[0], sorted, key, c);
      if Meets(db, c, rows[0]) {
        var rest := Filter(db, rows[1..], c);
        assert Filter(db, rows, c) == [rows[0]] + rest;
        assert ([rows[0]] + rest)[1..] == rest;
      } else {
        assert Filter(db, rows, c) == Filter(db, rows[1..], c);
      }
    }
  }

  lemma {:induction false} FilterOfSorts(db: Db, o: Ordering, rows: seq<Row>, c: Condition)
    requires OnlySorts(o)
    ensures Filter(db, Apply(db, o, rows), c) == Apply(db, o, Filter(db, rows, c))
    decreases |o|
  {
    if o != [] {
      FilterOfSort(db, rows, o[0].key, c);
      FilterOfSorts(db, o[1..], ApplyOne(db, o[0], rows), c);
    }
  }

  // ---------------------------------------------------------------- filters and the removal of duplicates

  lemma {:induction false} FilterOfSnoc(db: Db, rows: seq<Row>, r: Row, c: Condition)
    ensures Meets(db, c, r) ==> Filter(db, rows + [r], c) == Filter(db, rows, c) + [r]
    ensures !Meets(db, c, r) ==> Filter(db, rows + [r], c) == Filter(db, rows, c)
  {
    if rows == [] {
      assert [] + [r] == [r];
      FilterOfCons(db, r, [], c);
    } else {
      FilterOfSnoc(db, rows[1..], r, c);
      assert rows + [r] == [rows[0]] + (rows[1..] + [r]) && rows == [rows[0]] + rows[1..];
      FilterOfCons(db, rows[0], rows[1..] + [r], c);
      FilterOfCons(db, rows[0], rows[1..], c);
    }
  }

  lemma {:induction false} DistinctOfSnoc(db: Db, rows: seq<Row>, r: Row, key: Key)
    ensures HasKey(db, rows, key, KeyOf(db, key, r)) ==> DistinctBy(db, rows + [r], key) == DistinctBy(db, rows, key)
    ensures !HasKey(db, rows, key, KeyOf(db, key, r)) ==>
              DistinctBy(db, rows + [r], key) == DistinctBy(db, rows, key) + [r]
  {
    assert (rows + [r])[..|rows|] == rows && (rows + [r])[|rows|] == r;
  }

  /** Of the rows with one key the first is kept, and no other; what is kept stays in order. */
  lemma {:induction false} DistinctKeepsFirst(db: Db, rows: seq<Row>, r: Row, key: Key)
    ensures DistinctBy(db, rows + [r], key) == DistinctBy(db, rows, key) +
            if exists i | 0 <= i < |rows| :: key(db.values(rows[i])) == key(db.values(r)) then [] else [r]
  {
    DistinctOfSnoc(db, rows, r, key);
    forall q: Row ensures KeyOf(db, key, q) == key(db.values(q)) {}
  }

  /** Some row before the given position has the same key. */
  ghost predicate SameKeyBefore(db: Db, rows: seq<Row>, i: nat, key: Key)
    requires i < |rows|
  {
    exists j | 0 <= j < i :: KeyOf(db, key, rows[j]) == KeyOf(db, key, rows[i])
  }

  /** Some row before the given position has the same key and meets the condition. */
  ghost predicate MetBefore(db: Db, rows: seq<Row>, i: nat, key: Key, c: Condition)
    requires i < |rows|
  {
    exists j | 0 <= j < i :: KeyOf(db, key, rows[j]) == KeyOf(db, key, rows[i]) && Meets(db, c, rows[j])
  }

  /** No row that meets the condition is a duplicate only of rows that do not. */
  ghost predicate NoneUncovered(db: Db, rows: seq<Row>, key: Key, c: Condition) {
    forall i | 0 <= i < |rows| && Meets(db, c, rows[i]) && SameKeyBefore(db, rows, i, key) :: MetBefore(db, rows, i, key, c)
  }

  lemma {:induction false} NoneUncoveredSnoc(db: Db, rows: seq<Row>, r: Row, key: Key, c: Condition)
    ensures NoneUncovered(db, rows + [r], key, c) <==>
              NoneUncovered(db, rows, key, c) &&
              (Meets(db, c, r) && SameKeyBefore(db, rows + [r], |rows|, key) ==> MetBefore(db, rows + [r], |rows|, key, c))
  {
    var all := rows + [r];
    forall i | 0 <= i < |rows|
      ensures SameKeyBefore(db, all, i, key) <==> SameKeyBefore(db, rows, i, key)
      ensures MetBefore(db, all, i, key, c) <==> MetBefore(db, rows, i, key, c)
    {
      assert forall j | 0 <= j <= i :: all[j] == rows[j];
    }
    if NoneUncovered(db, all, key, c) {
      forall i | 0 <= i < |rows| && Meets(db, c, rows[i]) && SameKeyBefore(db, rows, i, key)
        ensures MetBefore(db, rows, i, key, c)
      {
        assert all[i] == rows[i];
      }
    }
  }

  lemma {:induction false} KeyAmongFiltered(db: Db, rows: seq<Row>, r: Row, key: Key, c: Condition)
    ensures HasKey(db, rows, key, KeyOf(db, key, r)) <==> SameKeyBefore(db, rows + [r], |rows|, key)
    ensures HasKey(db, Filter(db, rows, c), key, KeyOf(db, key, r)) <==> MetBefore(db, rows + [r], |rows|, key, c)
  {
    var all, found := rows + [r], Filter(db, rows, c);
    assert forall j | 0 <= j < |rows| :: all[j] == rows[j];
    if HasKey(db, found, key, KeyOf(db, key, r)) {
      var i :| 0 <= i < |found| && KeyOf(db, key, found[i]) == KeyOf(db, key, r);
      FilterMember(db, rows, c, found[i]);
    }
    if MetBefore(db, all, |rows|, key, c) {
      var j :| 0 <= j < |rows| && KeyOf(db, key, all[j]) == KeyOf(db, key, r) && Meets(db, c, all[j]);
      FilterMember(db, rows, c, rows[j]);
    }
  }

  /** Filtering and removing duplicates may change places exactly if no row that meets the condition
      is a duplicate only of rows that do not; otherwise filtering first shows more rows. */
  lemma {:induction false} FilterOfDistinct(db: Db, rows: seq<Row>, key: Key, c: Condition)
    ensures var before, after := DistinctBy(db, Filter(db, rows, c), key), Filter(db, DistinctBy(db, rows, key), c);
            && |after| <= |before|
            && (|after| == |before| <==> NoneUncovered(db, rows, key, c))
            && (after == before <==> NoneUncovered(db, rows, key, c))
    decreases |rows|
  {
    if rows != [] {
      var n := |rows| - 1;
      var front, r := rows[..n], rows[n];
      assert rows == front + [r];
      FilterOfDistinct(db, front, key, c);
      NoneUncoveredSnoc(db, front, r, key, c);
      KeyAmongFiltered(db, front, r, key, c);
      DistinctOfSnoc(db, front, r, key);
      FilterOfSnoc(db, front, r, c);
      FilterOfSnoc(db, DistinctBy(db, front, key), r, c);
      DistinctOfSnoc(db, Filter(db, front, c), r, key);
    }
  }

  /** At every removal of duplicates along the ordering no row is uncovered. */
  ghost predicate UncoversNothing(db: Db, o: Ordering, rows: seq<Row>, c: Condition)
    decreases |o|
  {
    o == [] ||
    (&& (o[0].Distinct? ==> NoneUncovered(db, rows, o[0].key, c))
     && UncoversNothing(db, o[1..], ApplyOne(db, o[0], rows), c))
  }

  ghost predicate OneDistinctAtMost(o: Ordering) {
    forall i, j | 0 <= i < j < |o| :: !(o[i].Distinct? && o[j].Distinct?)
  }

  lemma {:induction false} SortsUncoverNothing(db: Db, o: Ordering, rows: seq<Row>, c: Condition)
    requires OnlySorts(o)
    ensures UncoversNothing(db, o, rows, c)
    decreases |o|
  {
    if o != [] { SortsUncoverNothing(db, o[1..], ApplyOne(db, o[0], rows), c); }
  }

  /** Filtering first is filtering last if nothing is uncovered, and with one removal of duplicates only then. */
  lemma {:induction false} FilterOfOrdering(db: Db, o: Ordering, rows: seq<Row>, c: Condition)
    requires !WillApplyLimit(o)
    ensures UncoversNothing(db, o, rows, c) ==> Filter(db, Apply(db, o, rows), c) == Apply(db, o, Filter(db, rows, c))
    ensures OneDistinctAtMost(o) && Filter(db, Apply(db, o, rows), c) == Apply(db, o, Filter(db, rows, c)) ==>
              UncoversNothing(db, o, rows, c)
    decreases |o|
  {
    if o == [] {
      return;
    }
    assert !o[0].Limit?;
    assert !WillApplyLimit(o[1..]) by {
      assert forall i | 0 <= i < |o[1..]| :: o[1..][i] == o[i + 1];
    }
    FilterOfOrdering(db, o[1..], ApplyOne(db, o[0], rows), c);
    if o[0].Sort? {
      FilterOfSort(db, rows, o[0].key, c);
      assert OneDistinctAtMost(o) ==> OneDistinctAtMost(o[1..]);
    } else {
      FilterOfDistinct(db, rows, o[0].key, c);
      if OneDistinctAtMost(o) {
        FilterOfLastDistinct(db, o, rows, c);
      }
    }
  }

  lemma {:induction false} FilterOfLastDistinct(db: Db, o: Ordering, rows: seq<Row>, c: Condition)
    requires o != [] && o[0].Distinct? && OneDistinctAtMost(o) && !WillApplyLimit(o)
    ensures Filter(db, Apply(db, o, rows), c) == Apply(db, o, Filter(db, rows, c)) ==> UncoversNothing(db, o, rows, c)
  {
    var key, kept, later := o[0].key, DistinctBy(db, rows, o[0].key), o[1..];
    forall i | 0 <= i < |later| ensures later[i].Sort? {
      assert later[i] == o[i + 1] && !o[i + 1].Limit?;
    }
    SortsUncoverNothing(db, later, kept, c);
    FilterOfSorts(db, later, kept, c);
    FilterOfDistinct(db, rows, key, c);
    SortsPermute(db, later, Filter(db, kept, c));
    SortsPermute(db, later, DistinctBy(db, Filter(db, rows, c), key));
  }

  // ---------------------------------------------------------------- one sort after another

  /** The condition of having the given key. */
  function Tied(key: Key, k: int): Condition {
    v => key(v) == k
  }

  lemma {:induction false} SortOfTies(db: Db, rows: seq<Row>, key: Key, k: int)
    requires forall r | r in rows :: KeyOf(db, key, r) == k
    ensures SortBy(db, rows, key) == rows
  {
    if rows != [] {
      SortOfTies(db, rows[1..], key, k);
      assert rows == [rows[0]] + rows[1..];
      assert rows[0] in rows && (|rows| > 1 ==> rows[1] in rows);
    }
  }

  /** A stable sort leaves the rows of one key as they are. */
  lemma {:induction false} SortKeepsTies(db: Db, rows: seq<Row>, key: Key, k: int)
    ensures Filter(db, SortBy(db, rows, key), Tied(key, k)) == Filter(db, rows, Tied(key, k))
  {
    var ties := Filter(db, rows, Tied(key, k));
    FilterOfSort(db, rows, key, Tied(key, k));
    forall r | r in ties ensures KeyOf(db, key, r) == k {
      FilterMember(db, rows, Tied(key, k), r);
    }
    SortOfTies(db, ties, key, k);
  }

  ghost predicate SameTies(db: Db, a: seq<Row>, b: seq<Row>, key: Key) {
    forall k: int :: Filter(db, a, Tied(key, k)) == Filter(db, b, Tied(key, k))
  }

  /** The first row of the one list is in the other, so the other does not start later. */
  lemma {:induction false} StartsNoLater(db: Db, a: seq<Row>, b: seq<Row>, key: Key)
    requires InKeyOrder(db, b, key) && SameTies(db, a, b, key) && a != []
    ensures b != [] && KeyOf(db, key, b[0]) <= KeyOf(db, key, a[0])
  {
    var k := KeyOf(db, key, a[0]);
    FilterMember(db, a, Tied(key, k), a[0]);
    FilterMember(db, b, Tied(key, k), a[0]);
    var i :| 0 <= i < |b| && b[i] == a[0];
    assert i > 0 ==> KeyOf(db, key, b[0]) <= KeyOf(db, key, b[i]);
  }

  /** Lists in order of their keys are determined by their ties. */
  lemma {:induction false} TiesDetermine(db: Db, a: seq<Row>, b: seq<Row>, key: Key)
    requires InKeyOrder(db, a, key) && InKeyOrder(db, b, key) && SameTies(db, a, b, key)
    ensures a == b
    decreases |a|
  {
    if a == [] {
      if b != [] { StartsNoLater(db, b, a, key); }
    } else {
      StartsNoLater(db, a, b, key);
      StartsNoLater(db, b, a, key);
      var k := KeyOf(db, key, a[0]);
      assert a == [a[0]] + a[1..] && b == [b[0]] + b[1..];
      FilterOfCons(db, a[0], a[1..], Tied(key, k));
      FilterOfCons(db, b[0], b[1..], Tied(key, k));
      assert a[0] == Filter(db, a, Tied(key, k))[0] == Filter(db, b, Tied(key, k))[0] == b[0];
      forall l: int ensures Filter(db, a[1..], Tied(key, l)) == Filter(db, b[1..], Tied(key, l)) {
        FilterOfCons(db, a[0], a[1..], Tied(key, l));
        FilterOfCons(db, b[0], b[1..], Tied(key, l));
        assert Filter(db, a, Tied(key, l)) == Filter(db, b, Tied(key, l));
        if KeyOf(db, key, a[0]) == l {
          assert Filter(db, a, Tied(key, l))[1..] == Filter(db, a[1..], Tied(key, l));
          assert Filter(db, b, Tied(key, l))[1..] == Filter(db, b[1..], Tied(key, l));
        }
      }
      TiesDetermine(db, a[1..], b[1..], key);
    }
  }

  /** The earlier sorts leave every group of rows with equal new key as it is. */
  ghost predicate TiesInPlace(db: Db, o: Ordering, rows: seq<Row>, key: Key) {
    forall k: int :: Apply(db, o, Filter(db, rows, Tied(key, k))) == Filter(db, rows, Tied(key, k))
  }

  /** Earlier sorts may be dropped before a new one exactly if they move no two rows of equal new key. */
  lemma {:induction false} EarlierSortsMatter(db: Db, o: Ordering, rows: seq<Row>, key: Key)
    requires OnlySorts(o)
    ensures SortBy(db, rows, key) == SortBy(db, Apply(db, o, rows), key) <==> TiesInPlace(db, o, rows, key)
  {
    var sorted := Apply(db, o, rows);
    var a, b := SortBy(db, rows, key), SortBy(db, sorted, key);
    forall k: int
      ensures Filter(db, a, Tied(key, k)) == Filter(db, rows, Tied(key, k))
      ensures Filter(db, b, Tied(key, k)) == Apply(db, o, Filter(db, rows, Tied(key, k)))
    {
      SortKeepsTies(db, rows, key, k);
      SortKeepsTies(db, sorted, key, k);
      FilterOfSorts(db, o, rows, Tied(key, k));
    }
    if TiesInPlace(db, o, rows, key) {
      SortByOrders(db, rows, key);
      SortByOrders(db, sorted, key);
      TiesDetermine(db, a, b, key);
    }
  }
}
