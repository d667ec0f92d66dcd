/** Whole runs of a result object: reads, deliveries, deletions and commits in any order. */
module ResultsRuns {
  import opened Options
  import opened Queries
  import opened ResultsModes

  datatype Event =
    | AskSize
    | AskRow(i: nat)
    | AskIndex(ref: RowRef)
    | AskView
    | Evaluate(wantsNotifications: bool)
    | Aggregate(column: nat, aggregable: seq<bool>)
    | Observe
    | Deliver
    | DeleteShown
    | Commit(env: Env)

  /** Objects whose rows are not found by a query lose them for good when they are deleted or looked for
      again, and results of nothing have no database to be observed in. */
  ghost predicate Allowed(e: Event, r: Results)
    reads r
  {
    && (e.DeleteShown? || e.Deliver? ==> r.Live() || r.policy.Never? || r.mode.OnNothing?)
    && (e.Observe? ==> !r.mode.OnNothing?)
  }

  /** One event; a delivery to an object without a notifier does not happen. */
  method Handle(r: Results, env: Env, e: Event) returns (now: Env, sizes: seq<nat>)
    requires r.Valid() && Allowed(e, r)
    modifies r
    ensures r.Valid() && r.policy == old(r.policy) && r.ordering == old(r.ordering)
    ensures forall d :: r.Rows(d) == old(r.Rows(d))
    ensures old(r.Live()) ==> r.Live()
    ensures r.mode.OnNothing? <==> old(r.mode).OnNothing?
    ensures r.policy.Never? ==> r.view == old(r.view)
    ensures sizes == if (e.AskSize? || e.AskView?) && old(r.IsValid(env.db)) then [|old(r.Rows(env.db))|] else []
    ensures e.Commit? ==> now == e.env
    ensures e.DeleteShown? ==> forall x :: x in now.db.rows <==>
              x in env.db.rows && !(env.db.attached && env.inTransaction && x in old(r.Rows(env.db)))
    ensures !e.Commit? && !e.DeleteShown? ==> now == env
  {
    now, sizes := env, [];
    match e
    case AskSize =>
      var size := r.Size(env);
      if size.Value? { sizes := [size.value]; }
    case AskRow(i) =>
      var _ := r.Get(env, i);
    case AskIndex(ref) =>
      if ref.attached && ref.ofThisTable ==> ref.row in env.db.rows { var _ := r.IndexOf(env, ref); }
    case AskView =>
      var rows := r.GetTableView(env);
      if rows.Value? { sizes := [|rows.value|]; }
    case Evaluate(wantsNotifications) =>
      r.EvaluateQueryIfNeeded(env, wantsNotifications);
    case Aggregate(column, aggregable) =>
      var _ := r.PrepareForAggregate(env, column, aggregable);
    case Observe =>
      var _ := r.PrepareAsync(env, true);
    case Deliver =>
      if r.notifier.Some? { r.SetTableView(env, r.notifier.value.Found(env.db)); }
    case DeleteShown =>
      var after := r.Clear(env);
      if after.Value? { now := env.(db := after.value); }
    case Commit(later) =>
      now := later;
  }

  /** Whatever happens in whatever order, an object goes on representing the same rows of whatever
      the database has become.  A snapshot therefore keeps its rows and every size it reports, and in
      no state reached is there a snapshot that has a notifier or is in another mode. */
  method Run(r: Results, start: Env, events: seq<Event>) returns (end: Env, sizes: seq<nat>)
    requires r.Valid()
    requires forall e | e in events :: Allowed(e, r)
    modifies r
    ensures r.Valid() && r.policy == old(r.policy) && r.ordering == old(r.ordering)
    ensures forall d :: r.Rows(d) == old(r.Rows(d))
    ensures old(r.Live()) ==> r.Live()
    ensures r.mode.OnNothing? <==> old(r.mode).OnNothing?
    ensures r.policy.Never? ==> r.view == old(r.view)
    ensures r.policy.Never? ==> r.mode.OnTableView? && r.notifier.None?
    ensures r.policy.Never? ==> forall n | n in sizes :: n == |old(r.view.rows)|
  {
    end, sizes := start, [];
    var i := 0;
    while i < |events|
      invariant i <= |events|
      invariant r.Valid() && r.policy == old(r.policy) && r.ordering == old(r.ordering)
      invariant forall d :: r.Rows(d) == old(r.Rows(d))
      invariant old(r.Live()) ==> r.Live()
      invariant r.mode.OnNothing? <==> old(r.mode).OnNothing?
      invariant r.policy.Never? ==> r.view == old(r.view)
      invariant r.policy.Never? ==> forall n | n in sizes :: n == |old(r.view.rows)|
    {
      var more: seq<nat>;
      assert old(Allowed(events[i], r));
      end, more := Handle(r, end, events[i]);
      sizes := sizes + more;
      i := i + 1;
    }
  }

  /** A snapshot taken in one state of the database, whatever is done with it or to the database afterwards. */
  method SnapshotStays(r: Results, env: Env, events: seq<Event>) returns (snapshot: Outcome<Results>)
    requires r.Valid() && !r.mode.OnNothing?
    ensures snapshot.Value? <==> env.db.attached
    ensures snapshot.Value? ==> forall d :: snapshot.value.Rows(d) == r.Rows(env.db)
    ensures snapshot.Value? ==> fresh(snapshot.value) && snapshot.value.Valid() && snapshot.value.policy.Never?
  {
    snapshot := r.Snapshot(env);
    if snapshot.Value? {
      var _, _ := Run(snapshot.value, env, events);
    }
  }
}
