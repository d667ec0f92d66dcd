/** Results: a lazily evaluated view of rows that moves from a list or a query to a table view. */
module ResultsModes {
  import opened Deletions
  import opened Options
  import opened Orderings
  import opened Queries

  /** What a result object is backed by at the moment. */
  datatype Mode = OnNothing | OnTable | OnQuery | OnLinkView | OnTableView

  datatype Policy = Auto | Never

  /** Found rows, with the query and ordering that found them if they came from one. */
  datatype TableView = TableView(rows: seq<Row>, made: Option<(Query, Ordering)>)

  /** What runs in the background: the query and the ordering of the results it was made for. */
  datatype Notifier = Notifier(query: Query, ordering: Ordering) {
    /** What it delivers, brought up to date with the database. */
    function Found(db: Db): TableView {
      TableView(FindAll(db, query, ordering), Some((query, ordering)))
    }
  }

  datatype Env = Env(db: Db, immutable: bool, inTransaction: bool, canDeliver: bool, partial: bool)

  datatype Outcome<T> =
    | Value(value: T)
    | Invalidated
    | NotInTransaction
    | OutOfBounds(requested: nat, count: nat)
    | FilteredAfterLimit
    | DetachedRow
    | IncorrectTable

  datatype Refusal = ImmutableRealm | WriteInProgress | Snapshotted

  /** What an index holds: a row, or the place of a row that has since been deleted. */
  datatype Slot = At(row: Row) | Gone

  /** A row as handed in by a caller. */
  datatype RowRef = RowRef(row: Row, attached: bool, ofThisTable: bool)

  /** What preparing an aggregate comes to.  ReadsPastColumns is a read of the type of no column. */
  datatype Aggregation = ColumnOutOfBounds | ReadsPastColumns | UnsupportedColumn | Ready

  /** The largest value of the original's index type, which stands for no index. */
  const NOWHERE: nat := 0xFFFF_FFFF_FFFF_FFFF

  function Synced(db: Db, v: TableView): TableView {
    if v.made.None? then v else v.(rows := FindAll(db, v.made.value.0, v.made.value.1))
  }

  function Position(rows: seq<Row>, r: Row): (p: Option<nat>)
    ensures p.None? <==> r !in rows
    ensures p.Some? ==> p.value < |rows| && rows[p.value] == r && r !in rows[..p.value]
  {
    if rows == [] then None
    else if rows[0] == r then Some(0)
    else
      match Position(rows[1..], r)
      case None => None
      case Some(k) =>
        assert rows[..k + 1] == [rows[0]] + rows[1..][..k];
        Some(k + 1)
  }

  class Results {
    var mode: Mode
    var query: Option<Query>
    var view: TableView
    var ordering: Ordering
    var policy: Policy
    var notifier: Option<Notifier>
    var hasUsedTableView: bool
    var wantsBackgroundUpdates: bool

    /** A table is shown as it is, a list at most sorted, and a snapshot is a view nobody updates.  The
        notifier goes on with the query there was when it was made, which is still the one held here. */
    ghost predicate Valid()
      reads this
    {
      && (policy.Never? ==> mode.OnTableView? && notifier.None?)
      && (mode.OnTable? ==> ordering == [])
      && (mode.OnLinkView? ==> OnlySorts(ordering))
      && (mode.OnQuery? ==> query.Some?)
      && (notifier.Some? ==> !mode.OnNothing?)
      && (notifier.Some? && Live() ==> GetQuery() == Some(notifier.value.query) && ordering == notifier.value.ordering)
    }

    /** The rows represented when the database is as given. */
    ghost function Rows(db: Db): seq<Row>
      reads this
    {
      match mode
      case OnNothing => []
      case OnTable => db.rows
      case OnLinkView => Apply(db, ordering, db.list)
      case OnQuery => if query.None? then [] else FindAll(db, query.value, ordering)
      case OnTableView => if policy.Never? then view.rows else Synced(db, view).rows
    }

    /** The rows still follow the database by way of the query and ordering held here. */
    ghost predicate Live()
      reads this
    {
      && policy.Auto? && !mode.OnNothing?
      && (mode.OnTableView? ==> view.made.Some? && view.made.value.1 == ordering)
    }

    ghost predicate IsValid(db: Db)
      reads this
    {
      mode.OnNothing? || db.attached
    }

    // -------------------------------------------------------------- making results

    constructor Missing()
      ensures Valid() && mode.OnNothing? && policy.Auto? && notifier.None?
      ensures forall d :: Rows(d) == []
    {
      mode, query, view, ordering := OnNothing, None, TableView([], None), [];
      policy, notifier, hasUsedTableView, wantsBackgroundUpdates := Auto, None, false, true;
    }

    constructor OfQuery(q: Query, o: Ordering)
      ensures Valid() && Live() && notifier.None?
      ensures mode.OnQuery? && query == Some(q) && ordering == o
    {
      mode, query, view, ordering := OnQuery, Some(q), TableView([], None), o;
      policy, notifier, hasUsedTableView, wantsBackgroundUpdates := Auto, None, false, true;
    }

    constructor OfTable()
      ensures Valid() && Live() && notifier.None?
      ensures forall d :: Rows(d) == d.rows
    {
      mode, query, view, ordering := OnTable, None, TableView([], None), [];
      policy, notifier, hasUsedTableView, wantsBackgroundUpdates := Auto, None, false, true;
    }

    constructor OfList(q: Option<Query>, sort: Option<Key>)
      ensures Valid() && Live() && notifier.None?
      ensures mode == (if q.Some? then OnQuery else OnLinkView) && query == q
      ensures ordering == if sort.Some? then [Sort(sort.value)] else []
    {
      mode, query, view := if q.Some? then OnQuery else OnLinkView, q, TableView([], None);
      ordering := if sort.Some? then [Sort(sort.value)] else [];
      policy, notifier, hasUsedTableView, wantsBackgroundUpdates := Auto, None, false, true;
    }

    constructor OfView(tv: TableView, o: Ordering)
      ensures Valid() && notifier.None? && mode.OnTableView? && view == tv && ordering == o && policy.Auto?
      ensures forall d :: Rows(d) == if tv.made.None? then tv.rows else FindAll(d, tv.made.value.0, tv.made.value.1)
    {
      mode, query, view, ordering := OnTableView, None, tv, o;
      policy, notifier, hasUsedTableView, wantsBackgroundUpdates := Auto, None, false, true;
    }

    /** A copy has no notifier of its own. */
    constructor Copy(other: Results)
      requires other.Valid()
      ensures Valid() && notifier.None?
      ensures mode == other.mode && query == other.query && view == other.view
      ensures ordering == other.ordering && policy == other.policy
      ensures forall d :: Rows(d) == other.Rows(d)
    {
      mode, query, view, ordering, policy := other.mode, other.query, other.view, other.ordering, other.policy;
      hasUsedTableView, wantsBackgroundUpdates := other.hasUsedTableView, other.wantsBackgroundUpdates;
      notifier := None;
    }

    // -------------------------------------------------------------- mode changes

    /** A query for the same rows before ordering.  For a table that is missing there is none. */
    function GetQuery(): Option<Query>
      reads this
    {
      match mode
      case OnNothing => query
      case OnQuery => query
      case OnTableView =>
        if view.made.Some? then Some(view.made.value.0) else Some(Query(Only(view.rows), []))
      case OnLinkView => Some(Query(TheList, []))
      case OnTable => Some(Query(WholeTable, []))
    }

    lemma {:induction false} QueryDescribesRows(db: Db)
      requires Valid() && Live()
      ensures GetQuery().Some? && FindAll(db, GetQuery().value, ordering) == Rows(db)
    {
    }

    /** Of a view the query takes no notice of the update policy: it goes back to the query that made the
        view, also for a snapshot, or to those of its rows that still exist. */
    lemma {:induction false} QueryOfView(db: Db)
      requires mode.OnTableView?
      ensures GetQuery().Some?
      ensures view.made.Some? ==> FindAll(db, GetQuery().value, ordering) == FindAll(db, view.made.value.0, ordering)
      ensures view.made.None? ==> FindAll(db, GetQuery().value, ordering) == Apply(db, ordering, Existing(db, view.rows))
    {
    }

    /** Makes a notifier unless there is one: always if forced, otherwise only where it can deliver and has
        something to run.  What stands in the way is an error only if forced. */
    method PrepareAsync(env: Env, force: bool) returns (refused: Option<Refusal>)
      requires Valid() && !mode.OnNothing?
      modifies `notifier, `wantsBackgroundUpdates
      ensures Valid()
      ensures refused == if !force || old(notifier).Some? then None
                         else if env.immutable then Some(ImmutableRealm)
                         else if env.inTransaction then Some(WriteInProgress)
                         else if policy.Never? then Some(Snapshotted)
                         else None
      ensures old(notifier).Some? ==> notifier == old(notifier)
      ensures old(notifier).None? ==>
                (notifier.Some? <==> !env.immutable && !env.inTransaction && policy.Auto? &&
                                     (force || (env.canDeliver && (query.Some? || ordering != []))))
      ensures old(notifier).None? && notifier.Some? ==> notifier == Some(Notifier(GetQuery().value, ordering))
      ensures wantsBackgroundUpdates == (old(wantsBackgroundUpdates) || (old(notifier).None? && notifier.Some?))
    {
      refused := None;
      if notifier.Some? { return; }
      if env.immutable {
        if force { return Some(ImmutableRealm); }
        return;
      }
      if env.inTransaction {
        if force { return Some(WriteInProgress); }
        return;
      }
      if policy == Never {
        if force { return Some(Snapshotted); }
        return;
      }
      if !force {
        if !env.canDeliver { return; }
        if query.None? && |ordering| == 0 { return; }
      }
      wantsBackgroundUpdates, notifier := true, Some(Notifier(GetQuery().value, ordering));
    }

    /** A view that has been read is marked as used, and is watched for changes where it can be. */
    ghost predicate Noted(env: Env)
      reads this
    {
      policy.Auto? && mode.OnTableView? ==>
        && hasUsedTableView
        && (!env.immutable && !env.inTransaction && env.canDeliver && (query.Some? || ordering != []) ==> notifier.Some?)
    }

    /** Runs the query if it has not been run or is out of date.  Whatever the database may become, the
        rows represented stay the same. */
    method EvaluateQueryIfNeeded(env: Env, wantsNotifications: bool)
      requires Valid()
      modifies this
      ensures Valid() && ordering == old(ordering) && policy == old(policy) && query == old(query)
      ensures mode == if old(mode).OnQuery? then OnTableView else old(mode)
      ensures forall d :: Rows(d) == old(Rows(d))
      ensures mode.OnTableView? ==> view.rows == Rows(env.db)
      ensures GetQuery() == old(GetQuery())
      ensures policy.Never? ==> view == old(view)
      ensures !wantsNotifications || old(notifier).Some? ==> notifier == old(notifier)
      ensures wantsNotifications ==> Noted(env)
      ensures hasUsedTableView == (old(hasUsedTableView) || (policy.Auto? && mode.OnTableView?))
      ensures wantsBackgroundUpdates == (old(wantsBackgroundUpdates) || (old(notifier).None? && notifier.Some?))
      ensures old(Live()) ==> Live()
    {
      hide FindAll;
      if policy == Never {
        assert mode == OnTableView;
        return;
      }
      if mode == OnNothing || mode == OnTable || mode == OnLinkView { return; }
      if mode == OnQuery {
        view := TableView(FindAll(env.db, query.value, ordering), Some((query.value, ordering)));
        mode := OnTableView;
      }
      if wantsNotifications {
        var _ := PrepareAsync(env, false);
      }
      hasUsedTableView := true;
      view := Synced(env.db, view);
    }

    /** A sorted list has to become a query to be read; a plain one can be read as it is. */
    method UpdateLinkView(env: Env) returns (stillList: bool)
      requires Valid() && mode.OnLinkView?
      modifies this
      ensures Valid() && ordering == old(ordering) && policy == old(policy) == Auto
      ensures stillList <==> ordering == []
      ensures mode == if stillList then OnLinkView else OnTableView
      ensures forall d :: Rows(d) == old(Rows(d))
      ensures mode.OnTableView? ==> view.rows == Rows(env.db)
      ensures Noted(env) && (old(notifier).Some? ==> notifier == old(notifier))
      ensures Live()
    {
      if |ordering| != 0 {
        query := GetQuery();
        mode := OnQuery;
        EvaluateQueryIfNeeded(env, true);
        return false;
      }
      return true;
    }

    // -------------------------------------------------------------- reading

    method Size(env: Env) returns (r: Outcome<nat>)
      requires Valid()
      modifies this
      ensures Valid() && ordering == old(ordering) && policy == old(policy)
      ensures r == if old(IsValid(env.db)) then Value(|old(Rows(env.db))|) else Invalidated
      ensures old(mode).OnQuery? && (forall i | 0 <= i < |ordering| :: !ordering[i].Distinct?) ==> mode.OnQuery?
      ensures mode.OnNothing? <==> old(mode).OnNothing?
      ensures forall d :: Rows(d) == old(Rows(d))
      ensures policy.Never? ==> view == old(view)
      ensures r.Value? ==> Noted(env)
      ensures old(notifier).Some? ==> notifier == old(notifier)
      ensures old(Live()) ==> Live()
    {
      if mode != OnNothing && !env.db.attached { return Invalidated; }
      if mode == OnNothing { return Value(0); }
      if mode == OnTable { return Value(|env.db.rows|); }
      if mode == OnLinkView {
        SortsPermute(env.db, ordering, env.db.list);
        return Value(|env.db.list|);
      }
      if mode == OnQuery && !WillApplyDistinct(ordering) {
        CountIsSize(env.db, query.value, ordering);
        return Value(Count(env.db, query.value, ordering));
      }
      EvaluateQueryIfNeeded(env, true);
      return Value(|view.rows|);
    }

    ghost predicate Reads(slot: Slot, db: Db, r: Row)
      reads this
    {
      slot == if policy.Never? && r !in db.rows then Gone else At(r)
    }

    method TryGet(env: Env, i: nat) returns (r: Outcome<Option<Slot>>)
      requires Valid()
      modifies this
      ensures Valid() && ordering == old(ordering) && policy == old(policy)
      ensures mode.OnNothing? <==> old(mode).OnNothing?
      ensures forall d :: Rows(d) == old(Rows(d))
      ensures r.Value? <==> old(IsValid(env.db))
      ensures !r.Value? ==> r.Invalidated?
      ensures r.Value? ==> (r.value.Some? <==> i < |Rows(env.db)|)
      ensures r.Value? && r.value.Some? ==> Reads(r.value.value, env.db, Rows(env.db)[i])
      ensures policy.Never? ==> view == old(view)
      ensures r.Value? ==> IsValid(env.db)
      ensures r.Value? ==> Noted(env)
      ensures old(notifier).Some? ==> notifier == old(notifier)
      ensures r.Value? ==> mode == if old(mode).OnQuery? || (old(mode).OnLinkView? && ordering != []) then OnTableView else old(mode)
      ensures old(Live()) ==> Live()
    {
      if mode != OnNothing && !env.db.attached { return Invalidated; }
      if mode == OnNothing { return Value(None); }
      if mode == OnTable {
        return if i < |env.db.rows| then Value(Some(At(env.db.rows[i]))) else Value(None);
      }
      if mode == OnLinkView {
        var list := UpdateLinkView(env);
        if list {
          return if i < |env.db.list| then Value(Some(At(env.db.list[i]))) else Value(None);
        }
      }
      EvaluateQueryIfNeeded(env, true);
      if i >= |view.rows| { return Value(None); }
      if policy == Never && view.rows[i] !in env.db.rows { return Value(Some(Gone)); }
      return Value(Some(At(view.rows[i])));
    }

    /** Reading an index succeeds exactly below the size, which the failure reports. */
    method Get(env: Env, i: nat) returns (r: Outcome<Slot>)
      requires Valid()
      modifies this
      ensures Valid() && ordering == old(ordering) && policy == old(policy)
      ensures mode.OnNothing? <==> old(mode).OnNothing?
      ensures forall d :: Rows(d) == old(Rows(d))
      ensures !old(IsValid(env.db)) ==> r.Invalidated?
      ensures old(IsValid(env.db)) && i < |old(Rows(env.db))| ==> r.Value? && Reads(r.value, env.db, Rows(env.db)[i])
      ensures old(IsValid(env.db)) && i >= |old(Rows(env.db))| ==> r == OutOfBounds(i, |old(Rows(env.db))|)
      ensures policy.Never? ==> view == old(view)
      ensures !r.Invalidated? ==> Noted(env)
      ensures old(notifier).Some? ==> notifier == old(notifier)
      ensures old(Live()) ==> Live()
    {
      var slot := TryGet(env, i);
      if slot.Invalidated? { return Invalidated; }
      if slot.value.Some? { return Value(slot.value.value); }
      var size := Size(env);
      return OutOfBounds(i, size.value);
    }

    /** The last row, if there is one; the index before the first wraps to the largest of all. */
    method Last(env: Env) returns (r: Outcome<Option<Slot>>)
      requires Valid() && |Rows(env.db)| <= 0xFFFF_FFFF_FFFF_FFFF
      modifies this
      ensures Valid() && ordering == old(ordering) && policy == old(policy)
      ensures mode.OnNothing? <==> old(mode).OnNothing?
      ensures forall d :: Rows(d) == old(Rows(d))
      ensures r.Value? <==> old(IsValid(env.db))
      ensures r.Value? ==> (r.value.Some? <==> Rows(env.db) != [])
      ensures r.Value? && r.value.Some? ==> Reads(r.value.value, env.db, Rows(env.db)[|Rows(env.db)| - 1])
      ensures policy.Never? ==> view == old(view)
      ensures r.Value? ==> Noted(env)
      ensures old(notifier).Some? ==> notifier == old(notifier)
      ensures old(Live()) ==> Live()
    {
      if mode != OnNothing && !env.db.attached { return Invalidated; }
      ghost var rows := Rows(env.db);
      if mode == OnQuery { EvaluateQueryIfNeeded(env, true); }
      assert Rows(env.db) == rows;
      var size := Size(env);
      assert Rows(env.db) == rows && size == Value(|rows|);
      r := TryGet(env, if size.value == 0 then NOWHERE else size.value - 1);
    }

    /** The first index of an existing row of the table; other rows are refused. */
    method IndexOf(env: Env, ref: RowRef) returns (r: Outcome<Option<nat>>)
      requires Valid() && (ref.attached && ref.ofThisTable ==> ref.row in env.db.rows)
      modifies this
      ensures Valid() && ordering == old(ordering) && policy == old(policy)
      ensures mode.OnNothing? <==> old(mode).OnNothing?
      ensures forall d :: Rows(d) == old(Rows(d))
      ensures r == if !old(IsValid(env.db)) then Invalidated
                   else if !ref.attached then DetachedRow
                   else if !old(mode).OnNothing? && !ref.ofThisTable then IncorrectTable
                   else Value(Position(old(Rows(env.db)), ref.row))
      ensures policy.Never? ==> view == old(view)
      ensures r.Value? ==> Noted(env)
      ensures old(notifier).Some? ==> notifier == old(notifier)
      ensures r.Value? ==> mode == if old(mode).OnQuery? || (old(mode).OnLinkView? && ordering != []) then OnTableView else old(mode)
      ensures old(Live()) ==> Live()
    {
      if mode != OnNothing && !env.db.attached { return Invalidated; }
      if !ref.attached { return DetachedRow; }
      if mode != OnNothing && !ref.ofThisTable { return IncorrectTable; }
      if mode == OnNothing { return Value(None); }
      if mode == OnTable { return Value(Position(env.db.rows, ref.row)); }
      if mode == OnLinkView {
        var list := UpdateLinkView(env);
        if list { return Value(Position(env.db.list, ref.row)); }
      }
      EvaluateQueryIfNeeded(env, true);
      return Value(Position(view.rows, ref.row));
    }

    /** Makes the rows to aggregate available.  aggregable says of each column whether its type allows it.
        The bound is not strict: a column one past the last passes it, and its type is read. */
    method PrepareForAggregate(env: Env, column: nat, aggregable: seq<bool>) returns (r: Aggregation)
      requires Valid()
      modifies this
      ensures Valid() && ordering == old(ordering) && policy == old(policy)
      ensures mode.OnNothing? <==> old(mode).OnNothing?
      ensures forall d :: Rows(d) == old(Rows(d))
      ensures r == if column > |aggregable| then ColumnOutOfBounds
                   else if column == |aggregable| then ReadsPastColumns
                   else if aggregable[column] then Ready else UnsupportedColumn
      ensures r != ColumnOutOfBounds ==>
                mode.OnNothing? || mode.OnTable? || (mode.OnTableView? && view.rows == Rows(env.db))
      ensures policy.Never? ==> view == old(view)
      ensures r != ColumnOutOfBounds ==> Noted(env)
      ensures old(notifier).Some? ==> notifier == old(notifier)
      ensures old(Live()) ==> Live()
    {
      if column > |aggregable| { return ColumnOutOfBounds; }
      if mode == OnLinkView {
        query := GetQuery();
        mode := OnQuery;
      }
      EvaluateQueryIfNeeded(env, true);
      if column == |aggregable| { return ReadsPastColumns; }
      return if aggregable[column] then Ready else UnsupportedColumn;
    }

    method GetTableView(env: Env) returns (r: Outcome<seq<Row>>)
      requires Valid()
      modifies this
      ensures Valid() && ordering == old(ordering) && policy == old(policy)
      ensures mode.OnNothing? <==> old(mode).OnNothing?
      ensures forall d :: Rows(d) == old(Rows(d))
      ensures r == if old(IsValid(env.db)) then Value(old(Rows(env.db))) else Invalidated
      ensures r.Value? ==> mode == if old(mode).OnQuery? || (old(mode).OnLinkView? && ordering != []) then OnTableView else old(mode)
      ensures !old(mode).OnLinkView? ==> query == old(query)
      ensures policy.Never? ==> view == old(view)
      ensures r.Value? ==> Noted(env)
      ensures old(notifier).Some? ==> notifier == old(notifier)
      ensures old(Live()) ==> Live()
    {
      if mode != OnNothing && !env.db.attached { return Invalidated; }
      if mode == OnNothing { return Value([]); }
      if mode == OnTable { return Value(FindAll(env.db, Query(WholeTable, []), [])); }
      if mode == OnLinkView {
        var list := UpdateLinkView(env);
        if list { return Value(FindAll(env.db, Query(TheList, []), [])); }
      }
      EvaluateQueryIfNeeded(env, true);
      return Value(view.rows);
    }

    // -------------------------------------------------------------- snapshots and background updates

    /** Turns this very object into a snapshot of the rows it represents now. */
    method Freeze(env: Env)
      requires Valid() && !mode.OnNothing?
      modifies this
      ensures Valid() && policy.Never? && mode.OnTableView? && notifier.None?
      ensures forall d :: Rows(d) == old(Rows(env.db))
      ensures old(policy).Never? ==> view == old(view)
      ensures ordering == old(ordering) && GetQuery() == old(GetQuery())
    {
      if mode == OnTable || mode == OnLinkView {
        query := GetQuery();
        mode := OnQuery;
      }
      EvaluateQueryIfNeeded(env, false);
      notifier := None;
      policy := Never;
    }

    /** A snapshot shows for ever what this object shows now, and leaves this object alone. */
    method Snapshot(env: Env) returns (r: Outcome<Results>)
      requires Valid()
      ensures r.Value? <==> IsValid(env.db)
      ensures !r.Value? ==> r.Invalidated?
      ensures r.Value? ==> fresh(r.value) && r.value.Valid() && forall d :: r.value.Rows(d) == Rows(env.db)
      ensures r.Value? ==> (r.value.policy.Never? <==> !mode.OnNothing?)
      ensures r.Value? && !mode.OnNothing? ==> r.value.ordering == ordering && r.value.GetQuery() == GetQuery()
      ensures r.Value? && Live() ==>
                r.value.GetQuery().Some? && forall d :: FindAll(d, r.value.GetQuery().value, r.value.ordering) == Rows(d)
    {
      if mode != OnNothing && !env.db.attached { return Invalidated; }
      if mode == OnNothing {
        var none := new Results.Missing();
        return Value(none);
      }
      var copy := new Results.Copy(this);
      copy.Freeze(env);
      return Value(copy);
    }

    /** What the notifier has found as of now is delivered, which does not change the rows represented.
        Only an updating object has a notifier, so the delivery never meets a snapshot. */
    method SetTableView(env: Env, tv: TableView)
      requires Valid() && notifier.Some? && tv == notifier.value.Found(env.db)
      modifies this
      ensures Valid() && mode.OnTableView? && view == tv
      ensures ordering == old(ordering) && policy == old(policy) && notifier == old(notifier)
      ensures forall d: Db {:trigger Rows(d)} :: Rows(d) == FindAll(d, notifier.value.query, notifier.value.ordering)
      ensures old(Live()) ==> Live() && forall d :: Rows(d) == old(Rows(d))
      ensures !hasUsedTableView
      ensures wantsBackgroundUpdates == if old(mode).OnTableView? then old(hasUsedTableView) else old(wantsBackgroundUpdates)
    {
      assert policy != Never;
      if Live() { FoundByTheNotifier(); }
      wantsBackgroundUpdates := if mode == OnTableView then hasUsedTableView else wantsBackgroundUpdates;
      view, mode, hasUsedTableView := tv, OnTableView, false;
      FollowsItsQuery();
    }

    lemma {:induction false} FoundByTheNotifier()
      requires Valid() && Live() && notifier.Some?
      ensures forall d: Db {:trigger Rows(d)} :: Rows(d) == FindAll(d, notifier.value.query, notifier.value.ordering)
    {
      forall d: Db ensures Rows(d) == FindAll(d, notifier.value.query, notifier.value.ordering) {
        QueryDescribesRows(d);
      }
    }

    lemma {:induction false} FollowsItsQuery()
      requires mode.OnTableView? && policy.Auto? && view.made.Some?
      ensures forall d: Db :: Rows(d) == FindAll(d, view.made.value.0, view.made.value.1)
    {
    }

    // -------------------------------------------------------------- results made from these

    /** Narrows the query before it is ordered.  These are the rows shown that meet the condition if no
        row is uncovered where duplicates are removed, and with one such removal only then. */
    method FilteredBy(env: Env, c: Condition) returns (r: Outcome<Results>)
      requires Valid() && !mode.OnNothing?
      ensures r.FilteredAfterLimit? <==> exists i | 0 <= i < |ordering| :: ordering[i].Limit?
      ensures !r.FilteredAfterLimit? ==> r.Value? && fresh(r.value) && r.value.Valid() && r.value.Live()
      ensures r.Value? ==> r.value.ordering == ordering
      ensures r.Value? ==> forall d :: r.value.Rows(d) == Apply(d, ordering, Filter(d, Matching(d, GetQuery().value), c))
      ensures r.Value? && Live() ==> forall d :: UncoversNothing(d, ordering, Matching(d, GetQuery().value), c) ==>
                r.value.Rows(d) == Filter(d, Rows(d), c)
      ensures r.Value? && Live() && OneDistinctAtMost(ordering) ==> forall d ::
                r.value.Rows(d) == Filter(d, Rows(d), c) ==> UncoversNothing(d, ordering, Matching(d, GetQuery().value), c)
    {
      if WillApplyLimit(ordering) { return FilteredAfterLimit; }
      var q := GetQuery().value;
      var made := new Results.OfQuery(Query(q.source, q.conditions + [c]), ordering);
      MadeByFilter(made, c);
      return Value(made);
    }

    lemma {:induction false} MadeByFilter(made: Results, c: Condition)
      requires Valid() && !mode.OnNothing? && !WillApplyLimit(ordering)
      requires made.mode.OnQuery? && made.ordering == ordering
      requires made.query == Some(Query(GetQuery().value.source, GetQuery().value.conditions + [c]))
      ensures forall d: Db :: made.Rows(d) == Apply(d, ordering, Filter(d, Matching(d, GetQuery().value), c))
      ensures Live() ==> forall d: Db :: UncoversNothing(d, ordering, Matching(d, GetQuery().value), c) ==>
                made.Rows(d) == Filter(d, Rows(d), c)
      ensures Live() && OneDistinctAtMost(ordering) ==> forall d: Db ::
                made.Rows(d) == Filter(d, Rows(d), c) ==> UncoversNothing(d, ordering, Matching(d, GetQuery().value), c)
    {
      var q := GetQuery().value;
      forall d: Db
        ensures made.Rows(d) == Apply(d, ordering, Filter(d, Matching(d, q), c))
        ensures Live() && UncoversNothing(d, ordering, Matching(d, q), c) ==> made.Rows(d) == Filter(d, Rows(d), c)
        ensures Live() && OneDistinctAtMost(ordering) && made.Rows(d) == Filter(d, Rows(d), c) ==>
                  UncoversNothing(d, ordering, Matching(d, q), c)
      {
        MatchingOneMore(d, q, c);
        FilterOfOrdering(d, ordering, Matching(d, q), c);
        if Live() { QueryDescribesRows(d); }
      }
    }

    /** Sorts what the query finds.  A list that is already sorted and not yet read loses its first sort,
        which matters exactly where that sort moves rows of equal new key. */
    method SortedBy(env: Env, key: Key) returns (r: Results)
      requires Valid() && !mode.OnNothing?
      ensures fresh(r) && r.Valid() && r.Live()
      ensures r.ordering == (if mode.OnLinkView? then [] else ordering) + [Sort(key)]
      ensures !mode.OnLinkView? ==> forall d :: r.Rows(d) == SortBy(d, FindAll(d, GetQuery().value, ordering), key)
      ensures Live() && !mode.OnLinkView? ==> forall d :: r.Rows(d) == SortBy(d, Rows(d), key)
      ensures mode.OnLinkView? ==> forall d :: r.Rows(d) == SortBy(d, d.list, key)
      ensures mode.OnLinkView? ==>
                forall d :: r.Rows(d) == SortBy(d, Rows(d), key) <==> TiesInPlace(d, ordering, d.list, key)
    {
      if mode == OnLinkView {
        r := new Results.OfList(None, Some(key));
        MadeFromList(r, key);
        return;
      }
      r := new Results.OfQuery(GetQuery().value, ordering + [Sort(key)]);
      MadeByOneMore(r, Sort(key));
    }

    lemma {:induction false} MadeFromList(made: Results, key: Key)
      requires Valid() && mode.OnLinkView?
      requires made.mode.OnLinkView? && made.ordering == [Sort(key)]
      ensures forall d: Db :: made.Rows(d) == SortBy(d, d.list, key)
      ensures forall d: Db :: made.Rows(d) == SortBy(d, Rows(d), key) <==> TiesInPlace(d, ordering, d.list, key)
    {
      forall d: Db
        ensures made.Rows(d) == SortBy(d, d.list, key)
        ensures made.Rows(d) == SortBy(d, Rows(d), key) <==> TiesInPlace(d, ordering, d.list, key)
      {
        ApplyOneMore(d, [], Sort(key), d.list);
        assert [] + [Sort(key)] == [Sort(key)];
        EarlierSortsMatter(d, ordering, d.list, key);
      }
    }

    method LimitedTo(env: Env, max: nat) returns (r: Results)
      requires Valid() && !mode.OnNothing?
      ensures fresh(r) && r.Valid() && r.Live()
      ensures forall d :: r.Rows(d) == AtMost(FindAll(d, GetQuery().value, ordering), max)
      ensures Live() ==> forall d :: r.Rows(d) == AtMost(Rows(d), max)
    {
      r := new Results.OfQuery(GetQuery().value, ordering + [Limit(max)]);
      MadeByOneMore(r, Limit(max));
    }

    method DistinctOn(env: Env, key: Key) returns (r: Results)
      requires Valid() && !mode.OnNothing?
      ensures fresh(r) && r.Valid() && r.Live()
      ensures forall d :: r.Rows(d) == DistinctBy(d, FindAll(d, GetQuery().value, ordering), key)
      ensures Live() ==> forall d :: r.Rows(d) == DistinctBy(d, Rows(d), key)
    {
      r := new Results.OfQuery(GetQuery().value, ordering + [Distinct(key)]);
      MadeByOneMore(r, Distinct(key));
    }

    lemma {:induction false} MadeByOneMore(made: Results, desc: Descriptor)
      requires Valid() && !mode.OnNothing?
      requires made.mode.OnQuery? && made.query == GetQuery() && made.ordering == ordering + [desc]
      ensures forall d: Db :: made.Rows(d) == ApplyOne(d, desc, FindAll(d, GetQuery().value, ordering))
      ensures Live() ==> forall d: Db :: made.Rows(d) == ApplyOne(d, desc, Rows(d))
    {
      forall d: Db
        ensures made.Rows(d) == ApplyOne(d, desc, FindAll(d, GetQuery().value, ordering))
        ensures Live() ==> made.Rows(d) == ApplyOne(d, desc, Rows(d))
      {
        ApplyOneMore(d, ordering, desc, Matching(d, GetQuery().value));
        if Live() { QueryDescribesRows(d); }
      }
    }

    // -------------------------------------------------------------- deleting the rows

    /** Deletes exactly the rows shown. */
    method Clear(env: Env) returns (r: Outcome<Db>)
      requires Valid()
      modifies this
      ensures Valid() && ordering == old(ordering) && policy == old(policy)
      ensures mode.OnNothing? <==> old(mode).OnNothing?
      ensures mode.OnNothing? ==> r == Value(env.db)
      ensures !mode.OnNothing? && !env.db.attached ==> r == Invalidated
      ensures !mode.OnNothing? && env.db.attached && !env.inTransaction ==> r == NotInTransaction
      ensures !mode.OnNothing? && env.db.attached && env.inTransaction ==> r.Value?
      ensures r.Value? ==> r.value.values == env.db.values && r.value.attached == env.db.attached
      ensures r.Value? ==> forall x :: x in r.value.rows <==> x in env.db.rows && x !in old(Rows(env.db))
      ensures r.Value? ==> forall x :: x in r.value.list <==> x in env.db.list && x !in old(Rows(env.db))
      ensures policy.Never? ==> view == old(view) && forall d :: Rows(d) == old(Rows(d))
      ensures r.Value? ==> Noted(env)
      ensures old(notifier).Some? ==> notifier == old(notifier)
      ensures old(Live()) ==> Live() && forall d :: Rows(d) == old(Rows(d))
      ensures r.Value? && policy.Auto? && (mode.OnTable? || mode.OnLinkView?) ==> Rows(r.value) == []
      ensures r.Value? && policy.Auto? && mode.OnTableView? ==> view.rows == []
      ensures r.Value? && old(Live()) && mode.OnTableView? ==>
                (Rows(r.value) == [] <==>
                   Limit(0) in ordering || forall x | x in old(Matching(env.db, GetQuery().value)) :: x in old(Rows(env.db)))
      decreases if mode.OnTable? then 1 else 0
    {
      if mode == OnNothing { return Value(env.db); }
      if !env.db.attached { return Invalidated; }
      if !env.inTransaction { return NotInTransaction; }
      if mode == OnTable {
        NoneRemain(env.db.rows);
        WithoutMembers(env.db, env.db.rows);
        if env.partial {
          var all := new Results.OfQuery(Query(WholeTable, []), []);
          r := all.Clear(env);
          EmptyIff(r.value.rows);
          return;
        }
        return Value(Without(env.db, env.db.rows));
      }
      if mode == OnLinkView {
        SortsPermute(env.db, ordering, env.db.list);
        SamePermuted(Rows(env.db), env.db.list);
        NoneRemain(env.db.list);
        WithoutMembers(env.db, env.db.list);
        var after := Without(env.db, env.db.list);
        SortsPermute(after, ordering, after.list);
        return Value(after);
      }
      EvaluateQueryIfNeeded(env, true);
      var shown := view.rows;
      WithoutMembers(env.db, shown);
      if Live() {
        EmptyAfterDeleting(env.db, view.made.value.0, ordering);
      }
      if policy == Auto {
        view := view.(rows := []);
      }
      return Value(Without(env.db, shown));
    }
  }

  lemma {:induction false} MatchingOneMore(db: Db, q: Query, c: Condition)
    ensures Matching(db, Query(q.source, q.conditions + [c])) == Filter(db, Matching(db, q), c)
  {
    assert (q.conditions + [c])[..|q.conditions|] == q.conditions;
  }

  lemma {:induction false} EmptyIff(rows: seq<Row>)
    ensures rows == [] <==> forall x :: x !in rows
  {
    if rows != [] {
      assert rows[0] in rows;
    }
  }

  lemma {:induction false} NoneRemain(rows: seq<Row>)
    ensures Remaining(rows, rows) == []
  {
    if Remaining(rows, rows) != [] {
      assert Remaining(rows, rows)[0] in Remaining(rows, rows);
      RemainingMember(rows, rows, Remaining(rows, rows)[0]);
    }
  }

  lemma {:induction false} WithoutMembers(db: Db, gone: seq<Row>)
    ensures forall x :: x in Without(db, gone).rows <==> x in db.rows && x !in gone
    ensures forall x :: x in Without(db, gone).list <==> x in db.list && x !in gone
  {
    forall x ensures x in Without(db, gone).rows <==> x in db.rows && x !in gone {
      RemainingMember(db.rows, gone, x);
    }
    forall x ensures x in Without(db, gone).list <==> x in db.list && x !in gone {
      RemainingMember(db.list, gone, x);
    }
  }

  lemma {:induction false} SamePermuted(a: seq<Row>, b: seq<Row>)
    requires multiset(a) == multiset(b)
    ensures forall x :: x in a <==> x in b
  {
    forall x ensures x in a <==> x in b {
      assert x in multiset(a) <==> x in multiset(b);
    }
  }
}
