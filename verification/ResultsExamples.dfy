/** Small runs in which results made from others, or left behind by a deletion, show rows one might not expect. */
module ResultsExamples {
  import opened Deletions
  import opened Options
  import opened Orderings
  import opened Queries
  import opened ResultsModes

  /** Two rows, in a write transaction of a plain Realm. */
  function TwoRowsWritable(): Env {
    Env(TwoRows(), false, true, false, false)
  }

  lemma {:induction false} ApplySingle(db: Db, d: Descriptor, rows: seq<Row>)
    ensures Apply(db, [d], rows) == ApplyOne(db, d, rows)
  {
    assert [d][1..] == [];
  }

  /** A row with value 1 is hidden as a duplicate of one with value 0, but filtering for 1 shows it. */
  method FilterUncoversRow() returns (shown: seq<Row>, filtered: seq<Row>)
    ensures shown == [0] && Filter(TwoRows(), shown, IsOne) == []
    ensures filtered == [1]
  {
    var env := TwoRowsWritable();
    var q, o := Query(WholeTable, []), [Distinct(Same)];
    var r := new Results.OfQuery(q, o);
    OneRowOfTwo(env.db, q, o);
    hide *;
    var made := r.FilteredBy(env, IsOne);
    assert made.value.Rows(env.db) == [1];
    var all := r.GetTableView(env);
    var some := made.value.GetTableView(env);
    return all.value, some.value;
  }

  lemma {:induction false} OneRowOfTwo(db: Db, q: Query, o: Ordering)
    requires db == TwoRows() && q == Query(WholeTable, []) && o == [Distinct(Same)]
    ensures !WillApplyLimit(o) && Matching(db, q) == [0, 1]
    ensures FindAll(db, q, o) == [0] && Filter(db, [0], IsOne) == []
    ensures Apply(db, o, Filter(db, [0, 1], IsOne)) == [1]
  {
    hide DistinctBy, Filter, Apply, Matching, NoneUncovered;
    AllRowsMatch(db, q);
    NarrowingUncoversRows();
    ApplySingle(db, o[0], [0, 1]);
    ApplySingle(db, o[0], [1]);
    assert !WillApplyLimit(o);
  }

  lemma {:induction false} AllRowsMatch(db: Db, q: Query)
    requires q == Query(WholeTable, [])
    ensures Matching(db, q) == db.rows
  {
  }

  /** After all that a limited query shows has been deleted it shows the next row. */
  method ClearUncoversRow() returns (before: nat, after: nat)
    ensures before == 1 && after == 1
  {
    var env := TwoRowsWritable();
    var q, o := Query(WholeTable, []), [Limit(1)];
    DeletingUncoversRows(q, o);
    var r := new Results.OfQuery(q, o);
    var size := r.Size(env);
    assert r.Rows(env.db) == [0];
    var db := r.Clear(env);
    assert 1 in db.value.rows && r.Rows(db.value) == AtMost(db.value.rows, 1) by {
      ApplySingle(db.value, Limit(1), db.value.rows);
    }
    var sizeAfter := r.Size(env.(db := db.value));
    return size.value, sizeAfter.value;
  }

  /** A list sorted twice keeps the first sort among ties only if it was read in between. */
  method ReadingKeepsFirstSort(readFirst: bool) returns (shown: seq<Row>)
    ensures shown == if readFirst then [1, 0] else [0, 1]
  {
    var env := TwoRowsWritable();
    ResortingShowsFirstSort();
    ApplySingle(env.db, Sort(OneFirst), [0, 1]);
    var r := new Results.OfList(None, Some(OneFirst));
    assert r.Rows(env.db) == SortBy(env.db, [0, 1], OneFirst);
    if readFirst {
      var _ := r.GetTableView(env);
    }
    var again := r.SortedBy(env, Same);
    var rows := again.GetTableView(env);
    return rows.value;
  }

  /** What is made from a snapshot follows the database, as if made from the results themselves, while
      the snapshot stays as it was. */
  method LimitOfSnapshot(r: Results, env: Env, max: nat) returns (snapshot: Results, limited: Results)
    requires r.Valid() && r.Live() && env.db.attached
    ensures fresh(snapshot) && forall d :: snapshot.Rows(d) == r.Rows(env.db)
    ensures fresh(limited) && forall d :: limited.Rows(d) == AtMost(r.Rows(d), max)
  {
    var taken := r.Snapshot(env);
    snapshot := taken.value;
    limited := snapshot.LimitedTo(env, max);
    forall d: Db ensures limited.Rows(d) == AtMost(r.Rows(d), max) {
      r.QueryDescribesRows(d);
    }
  }

  /** Of two deliveries the second asks for no more unless the rows have been read in between. */
  method UnreadDeliveriesStop(readBetween: bool) returns (wantsMore: bool)
    ensures wantsMore == readBetween
  {
    var env := Env(TwoRows(), false, false, true, false);
    var r := new Results.OfQuery(Query(WholeTable, []), []);
    var _ := r.GetTableView(env);
    r.SetTableView(env, r.notifier.value.Found(env.db));
    assert r.wantsBackgroundUpdates;
    if readBetween {
      var _ := r.GetTableView(env);
    }
    r.SetTableView(env, r.notifier.value.Found(env.db));
    return r.wantsBackgroundUpdates;
  }
}
