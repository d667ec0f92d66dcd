/** The rows of a table, the queries over them, and the orderings applied to what a query finds.
    This is the part of the database that results are views of, reduced to sequences of rows. */
module Queries {

  type Row = nat

  /** A key or a condition looks at a row's values. */
  type Key = seq<int> -> int
  type Condition = seq<int> -> bool

  /** The table in table order, the target rows of the link list, and the rows' values. */
  datatype Db = Db(rows: seq<Row>, list: seq<Row>, values: Row -> seq<int>, attached: bool)

  datatype Descriptor = Sort(key: Key) | Distinct(key: Key) | Limit(max: nat)
  type Ordering = seq<Descriptor>

  datatype Source = WholeTable | TheList | Only(rows: seq<Row>)
  datatype Query = Query(source: Source, conditions: seq<Condition>)

  function KeyOf(db: Db, key: Key, r: Row): int {
    key(db.values(r))
  }

  predicate Meets(db: Db, c: Condition, r: Row) {
    c(db.values(r))
  }

  // ---------------------------------------------------------------- what a query finds

  function Filter(db: Db, rows: seq<Row>, c: Condition): seq<Row> {
    if rows == [] then []
    else (if Meets(db, c, rows[0]) then [rows[0]] else []) + Filter(db, rows[1..], c)
  }

  function FilterAll(db: Db, rows: seq<Row>, conditions: seq<Condition>): seq<Row> {
    if conditions == [] then rows
    else Filter(db, FilterAll(db, rows, conditions[..|conditions| - 1]), conditions[|conditions| - 1])
  }

  function Existing(db: Db, rows: seq<Row>): seq<Row> {
    if rows == [] then []
    else (if rows[0] in db.rows then [rows[0]] else []) + Existing(db, rows[1..])
  }

  function SourceRows(db: Db, source: Source): seq<Row> {
    match source
    case WholeTable => db.rows
    case TheList => db.list
    case Only(rows) => Existing(db, rows)
  }

  function Matching(db: Db, q: Query): seq<Row> {
    FilterAll(db, SourceRows(db, q.source), q.conditions)
  }

  /** Puts a row in front of those that do not come before it. */
  function Insert(db: Db, r: Row, rows: seq<Row>, key: Key): (all: seq<Row>)
    ensures |all| == |rows| + 1
  {
    if rows == [] || KeyOf(db, key, r) <= KeyOf(db, key, rows[0]) then [r] + rows
    else [rows[0]] + Insert(db, r, rows[1..], key)
  }

  /** A stable sort. */
  function SortBy(db: Db, rows: seq<Row>, key: Key): (all: seq<Row>)
    ensures |all| == |rows|
  {
    if rows == [] then [] else Insert(db, rows[0], SortBy(db, rows[1..], key), key)
  }

  predicate HasKey(db: Db, rows: seq<Row>, key: Key, k: int) {
    exists i | 0 <= i < |rows| :: KeyOf(db, key, rows[i]) == k
  }

  /** Keeps the first row of each key. */
  function DistinctBy(db: Db, rows: seq<Row>, key: Key): (kept: seq<Row>)
    ensures rows != [] ==> kept != []
  {
    if rows == [] then []
    else
      var before := rows[..|rows| - 1];
      var last := rows[|rows| - 1];
      DistinctBy(db, before, key) + if HasKey(db, before, key, KeyOf(db, key, last)) then [] else [last]
  }

  function AtMost(rows: seq<Row>, n: nat): seq<Row> {
    if n < |rows| then rows[..n] else rows
  }

  function ApplyOne(db: Db, d: Descriptor, rows: seq<Row>): seq<Row> {
    match d
    case Sort(key) => SortBy(db, rows, key)
    case Distinct(key) => DistinctBy(db, rows, key)
    case Limit(max) => AtMost(rows, max)
  }

  function Apply(db: Db, o: Ordering, rows: seq<Row>): seq<Row> {
    if o == [] then rows else Apply(db, o[1..], ApplyOne(db, o[0], rows))
  }

  function FindAll(db: Db, q: Query, o: Ordering): seq<Row> {
    Apply(db, o, Matching(db, q))
  }

  function Without(db: Db, gone: seq<Row>): Db {
    db.(rows := Remaining(db.rows, gone), list := Remaining(db.list, gone))
  }

  function Remaining(rows: seq<Row>, gone: seq<Row>): seq<Row> {
    if rows == [] then []
    else (if rows[0] in gone then [] else [rows[0]]) + Remaining(rows[1..], gone)
  }

  predicate WillApplyDistinct(o: Ordering) {
    exists i | 0 <= i < |o| :: o[i].Distinct?
  }

  predicate WillApplyLimit(o: Ordering) {
    exists i | 0 <= i < |o| :: o[i].Limit?
  }

  ghost predicate OnlySorts(o: Ordering) {
    forall i | 0 <= i < |o| :: o[i].Sort?
  }

  // ---------------------------------------------------------------- what each of them keeps

  /** A limit shows the first rows, as many as it allows or as there are. */
  lemma {:induction false} AtMostIsPrefix(rows: seq<Row>, n: nat)
    ensures AtMost(rows, n) <= rows
    ensures |AtMost(rows, n)| == if n <= |rows| then n else |rows|
  {
  }

  lemma {:induction false} ExistingOfFirst(db: Db, r: Row, after: seq<Row>)
    ensures Existing(db, []) == []
    ensures Existing(db, [r] + after) == (if r in db.rows then [r] else []) + Existing(db, after)
  {
    assert ([r] + after)[1..] == after;
  }

  /** The rows of a view that are left are those still in the table, each where it was among them. */
  lemma {:induction false} ExistingKeepsOrder(db: Db, before: seq<Row>, r: Row, after: seq<Row>)
    ensures Existing(db, before + [r] + after) ==
            Existing(db, before) + (if r in db.rows then [r] else []) + Existing(db, after)
  {
    hide Existing;
    if before == [] {
      assert before + [r] + after == [r] + after;
      ExistingOfFirst(db, r, after);
    } else {
      var first, later := before[0], before[1..];
      ExistingKeepsOrder(db, later, r, after);
      ExistingOfFirst(db, first, later + [r] + after);
      ExistingOfFirst(db, first, later);
      assert before == [first] + later && before + [r] + after == [first] + (later + [r] + after);
    }
  }

  lemma {:induction false} FilterOfFirst(db: Db, r: Row, after: seq<Row>, c: Condition)
    ensures Filter(db, [], c) == []
    ensures Filter(db, [r] + after, c) == (if c(db.values(r)) then [r] else []) + Filter(db, after, c)
  {
    assert ([r] + after)[1..] == after;
  }

  /** A filter shows the rows that meet the condition, each where it was among them. */
  lemma {:induction false} FilterKeepsOrder(db: Db, before: seq<Row>, r: Row, after: seq<Row>, c: Condition)
    ensures Filter(db, before + [r] + after, c) ==
            Filter(db, before, c) + (if c(db.values(r)) then [r] else []) + Filter(db, after, c)
  {
    hide Filter;
    if before == [] {
      assert before + [r] + after == [r] + after;
      FilterOfFirst(db, r, after, c);
    } else {
      var first, later := before[0], before[1..];
      FilterKeepsOrder(db, later, r, after, c);
      FilterOfFirst(db, first, later + [r] + after, c);
      FilterOfFirst(db, first, later, c);
      assert before == [first] + later && before + [r] + after == [first] + (later + [r] + after);
    }
  }

  // ---------------------------------------------------------------- counting without finding

  function Clipped(n: nat, o: Ordering): nat {
    if o == [] then n
    else Clipped(if o[0].Limit? && o[0].max < n then o[0].max else n, o[1..])
  }

  /** The number of rows a query would find, from the number of its matches alone. */
  function Count(db: Db, q: Query, o: Ordering): nat {
    Clipped(|Matching(db, q)|, o)
  }

  lemma {:induction false} ClippedIsSize(db: Db, o: Ordering, rows: seq<Row>)
    requires !WillApplyDistinct(o)
    ensures |Apply(db, o, rows)| == Clipped(|rows|, o)
    decreases |o|
  {
    if o != [] {
      assert !o[0].Distinct?;
      ClippedIsSize(db, o[1..], ApplyOne(db, o[0], rows));
    }
  }

  /** Unless duplicates are removed, counting agrees with finding. */
  lemma {:induction false} CountIsSize(db: Db, q: Query, o: Ordering)
    requires !WillApplyDistinct(o)
    ensures Count(db, q, o) == |FindAll(db, q, o)|
  {
    ClippedIsSize(db, o, Matching(db, q));
  }

  lemma {:induction false} InsertPermutes(db: Db, r: Row, rows: seq<Row>, key: Key)
    ensures multiset(Insert(db, r, rows, key)) == multiset{r} + multiset(rows)
  {
    if rows != [] && KeyOf(db, key, r) > KeyOf(db, key, rows[0]) {
      InsertPermutes(db, r, rows[1..], key);
      assert rows == [rows[0]] + rows[1..];
    }
  }

  lemma {:induction false} SortByPermutes(db: Db, rows: seq<Row>, key: Key)
    ensures multiset(SortBy(db, rows, key)) == multiset(rows)
  {
    if rows != [] {
      SortByPermutes(db, rows[1..], key);
      InsertPermutes(db, rows[0], SortBy(db, rows[1..], key), key);
      assert rows == [rows[0]] + rows[1..];
    }
  }

  lemma {:induction false} SortsPermute(db: Db, o: Ordering, rows: seq<Row>)
    requires OnlySorts(o)
    ensures |Apply(db, o, rows)| == |rows|
    ensures multiset(Apply(db, o, rows)) == multiset(rows)
    decreases |o|
  {
    if o != [] {
      SortByPermutes(db, rows, o[0].key);
      SortsPermute(db, o[1..], ApplyOne(db, o[0], rows));
    }
  }
}
