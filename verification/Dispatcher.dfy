/** The event loop dispatcher: calls made on other threads are queued under a lock and run by a
    callback on the owning thread.  Every interleaving of the threads is a sequence of steps. */
module Dispatchers {

  /** Where a calling thread stands in the dispatcher's call operator. */
  datatype Caller<T> = Idle | HasLock(args: T) | SignalSet(args: T) | Queued | Unlocked

  /** Where the owning thread stands in the callback. */
  datatype Owner<T> = Resting | Waking | Draining | Calling(args: T)

  datatype Holder = Free | ByCaller(i: nat) | ByOwner

  /** The shared state, the threads, and what has happened so far: pushed lists the queued calls in
      the order the lock was held, delivered those handed to the function by the callback, direct
      those made on the owning thread itself. */
  datatype State<T> = State(
    callers: seq<Caller<T>>, owner: Owner<T>, lock: Holder,
    queue: seq<T>, signal: bool, notified: bool,
    pushed: seq<T>, delivered: seq<T>, direct: seq<T>)

  datatype Step<T> =
    | Acquire(i: nat, args: T)
    | SetSignal(i: nat)
    | Push(i: nat)
    | Unlock(i: nat)
    | Notify(i: nat)
    | Wake
    | Lock
    | Call
    | Pop
    | Finish
    | Direct(args: T)

  function Init<T>(n: nat): State<T> {
    State(seq(n, _ => Idle), Resting, Free, [], false, false, [], [], [])
  }

  predicate Enabled<T>(s: State<T>, step: Step<T>) {
    match step
    case Acquire(i, _) => i < |s.callers| && s.callers[i].Idle? && s.lock.Free?
    case SetSignal(i) => i < |s.callers| && s.callers[i].HasLock?
    case Push(i) => i < |s.callers| && s.callers[i].SignalSet?
    case Unlock(i) => i < |s.callers| && s.callers[i].Queued?
    case Notify(i) => i < |s.callers| && s.callers[i].Unlocked?
    case Wake => s.owner.Resting? && s.notified
    case Lock => s.owner.Waking? && s.lock.Free?
    case Call => s.owner.Draining? && s.queue != []
    case Pop => s.owner.Calling? && s.queue != []
    case Finish => s.owner.Draining? && s.queue == []
    case Direct(_) => s.owner.Resting? || s.owner.Calling?
  }

  function Do<T>(s: State<T>, step: Step<T>): State<T>
    requires Enabled(s, step)
  {
    match step
    case Acquire(i, args) => s.(callers := s.callers[i := HasLock(args)], lock := ByCaller(i))
    case SetSignal(i) => s.(callers := s.callers[i := SignalSet(s.callers[i].args)], signal := true)
    case Push(i) =>
      var args := s.callers[i].args;
      s.(callers := s.callers[i := Queued], queue := s.queue + [args], pushed := s.pushed + [args])
    case Unlock(i) => s.(callers := s.callers[i := Unlocked], lock := Free)
    case Notify(i) => s.(callers := s.callers[i := Idle], notified := true)
    case Wake => s.(owner := Waking, notified := false)
    case Lock => s.(owner := Draining, lock := ByOwner)
    case Call => s.(owner := Calling(s.queue[0]), delivered := s.delivered + [s.queue[0]])
    case Pop => s.(owner := Draining, queue := s.queue[1..])
    case Finish => s.(owner := Resting, lock := Free, signal := false)
    case Direct(args) => s.(direct := s.direct + [args])
  }

  // ---------------------------------------------------------------- what every step keeps

  /** The lock is held by exactly the thread that is inside a critical section. */
  ghost predicate MutexHeld<T>(s: State<T>) {
    && (s.lock.ByOwner? <==> s.owner.Draining? || s.owner.Calling?)
    && (s.lock.ByCaller? ==> s.lock.i < |s.callers|)
    && forall i: nat | i < |s.callers| ::
         s.lock == ByCaller(i) <==> s.callers[i].HasLock? || s.callers[i].SignalSet? || s.callers[i].Queued?
  }

  /** The queued calls not yet handed to the function. */
  ghost function Waiting<T>(s: State<T>): seq<T> {
    if s.owner.Calling? && s.queue != [] then s.queue[1..] else s.queue
  }

  /** Every queued call is delivered exactly once and in the order of the pushes. */
  ghost predicate InOrder<T>(s: State<T>) {
    && s.pushed == s.delivered + Waiting(s)
    && (s.owner.Calling? ==> s.queue != [] && s.owner.args == s.queue[0])
  }

  /** While calls are queued, or about to be, the state keeps the signal alive. */
  ghost predicate KeptAlive<T>(s: State<T>) {
    && (s.queue != [] ==> s.signal)
    && forall i: nat | i < |s.callers| :: s.callers[i].SignalSet? ==> s.signal
  }

  ghost predicate AboutToNotify<T>(s: State<T>) {
    exists i: nat :: i < |s.callers| && (s.callers[i].Queued? || s.callers[i].Unlocked?)
  }

  /** While calls are queued the callback is running, has been asked for, or is about to be. */
  ghost predicate WillRun<T>(s: State<T>) {
    s.queue != [] ==> s.notified || !s.owner.Resting? || AboutToNotify(s)
  }

  ghost predicate Inv<T>(s: State<T>) {
    MutexHeld(s) && InOrder(s) && KeptAlive(s) && WillRun(s)
  }

  lemma {:induction false} StepKeepsMutex<T>(s: State<T>, step: Step<T>)
    requires Inv(s) && Enabled(s, step)
    ensures MutexHeld(Do(s, step))
  {
  }

  lemma {:induction false} StepKeepsOrder<T>(s: State<T>, step: Step<T>)
    requires Inv(s) && Enabled(s, step)
    ensures InOrder(Do(s, step))
  {
    var t := Do(s, step);
    match step
    case Push(i) =>
      assert !s.owner.Calling?;
      assert t.pushed == s.delivered + (Waiting(s) + [s.callers[i].args]);
    case Call =>
      assert s.queue == [s.queue[0]] + s.queue[1..];
    case _ =>
  }

  lemma {:induction false} StepKeepsAlive<T>(s: State<T>, step: Step<T>)
    requires Inv(s) && Enabled(s, step)
    ensures KeptAlive(Do(s, step))
  {
  }

  lemma {:induction false} StillAboutToNotify<T>(s: State<T>, t: State<T>)
    requires |t.callers| == |s.callers|
    requires forall i: nat | i < |s.callers| && (s.callers[i].Queued? || s.callers[i].Unlocked?) ::
               t.callers[i] == s.callers[i]
    ensures AboutToNotify(s) ==> AboutToNotify(t)
  {
    if AboutToNotify(s) {
      var i: nat :| i < |s.callers| && (s.callers[i].Queued? || s.callers[i].Unlocked?);
      assert t.callers[i] == s.callers[i];
    }
  }

  lemma {:induction false} StepKeepsRunning<T>(s: State<T>, step: Step<T>)
    requires Inv(s) && Enabled(s, step)
    ensures WillRun(Do(s, step))
  {
    var t := Do(s, step);
    match step
    case Push(i) => assert t.callers[i].Queued?;
    case Unlock(i) => assert t.callers[i].Unlocked?;
    case Acquire(_, _) => StillAboutToNotify(s, t);
    case SetSignal(_) => StillAboutToNotify(s, t);
    case Direct(_) => StillAboutToNotify(s, t);
    case _ =>
  }

  lemma {:induction false} StepKeepsInv<T>(s: State<T>, step: Step<T>)
    requires Inv(s) && Enabled(s, step)
    ensures Inv(Do(s, step))
  {
    StepKeepsMutex(s, step);
    StepKeepsOrder(s, step);
    StepKeepsAlive(s, step);
    StepKeepsRunning(s, step);
  }

  // ---------------------------------------------------------------- whole runs

  ghost predicate Runs<T>(s: State<T>, steps: seq<Step<T>>)
    decreases |steps|
  {
    steps == [] || (Enabled(s, steps[0]) && Runs(Do(s, steps[0]), steps[1..]))
  }

  ghost function After<T>(s: State<T>, steps: seq<Step<T>>): State<T>
    requires Runs(s, steps)
    decreases |steps|
  {
    if steps == [] then s else After(Do(s, steps[0]), steps[1..])
  }

  lemma {:induction false} RunKeepsInv<T>(s: State<T>, steps: seq<Step<T>>)
    requires Inv(s) && Runs(s, steps)
    ensures Inv(After(s, steps))
    decreases |steps|
  {
    if steps != [] {
      StepKeepsInv(s, steps[0]);
      RunKeepsInv(Do(s, steps[0]), steps[1..]);
    }
  }

  /** In every state that any interleaving of any number of threads can reach, delivered calls
      followed by waiting calls are the pushes in lock order, and what is queued will be run. */
  lemma {:induction false} EveryRunIsSafe<T>(n: nat, steps: seq<Step<T>>)
    requires Runs(Init<T>(n), steps)
    ensures var s := After(Init<T>(n), steps);
            && s.pushed == s.delivered + Waiting(s)
            && (s.queue != [] ==> s.signal)
            && (s.queue != [] ==> s.notified || !s.owner.Resting? || AboutToNotify(s))
            && MutexHeld(s)
  {
    RunKeepsInv(Init<T>(n), steps);
  }

  // ---------------------------------------------------------------- what was called is what is pushed

  /** The arguments of the calls from other threads, in the order in which they got the lock. */
  ghost function Called<T>(steps: seq<Step<T>>): seq<T> {
    if steps == [] then []
    else (if steps[0].Acquire? then [steps[0].args] else []) + Called(steps[1..])
  }

  /** The arguments of the calls on the owning thread, in order. */
  ghost function CalledDirectly<T>(steps: seq<Step<T>>): seq<T> {
    if steps == [] then []
    else (if steps[0].Direct? then [steps[0].args] else []) + CalledDirectly(steps[1..])
  }

  /** The arguments of the call that has the lock and is not queued yet. */
  ghost function InHand<T>(s: State<T>): seq<T> {
    if s.lock.ByCaller? && s.lock.i < |s.callers| && (s.callers[s.lock.i].HasLock? || s.callers[s.lock.i].SignalSet?)
    then [s.callers[s.lock.i].args] else []
  }

  lemma {:induction false} StepKeepsCalls<T>(s: State<T>, step: Step<T>)
    requires Inv(s) && Enabled(s, step)
    ensures var t := Do(s, step);
            && t.pushed + InHand(t) == s.pushed + InHand(s) + (if step.Acquire? then [step.args] else [])
            && t.direct == s.direct + if step.Direct? then [step.args] else []
  {
    var t := Do(s, step);
    match step
    case Acquire(i, args) =>
      assert InHand(s) == [] && InHand(t) == [args];
    case SetSignal(i) =>
      assert s.lock == ByCaller(i) && InHand(t) == [s.callers[i].args] == InHand(s);
    case Push(i) =>
      assert s.lock == ByCaller(i) && InHand(s) == [s.callers[i].args] && InHand(t) == [];
    case Unlock(i) =>
      assert s.lock == ByCaller(i) && InHand(s) == [] == InHand(t);
    case Notify(i) =>
      assert s.lock != ByCaller(i) && InHand(s) == InHand(t);
    case _ =>
  }

  lemma {:induction false} RunKeepsCalls<T>(s: State<T>, steps: seq<Step<T>>)
    requires Inv(s) && Runs(s, steps)
    ensures var t := After(s, steps);
            && t.pushed + InHand(t) == s.pushed + InHand(s) + Called(steps)
            && t.direct == s.direct + CalledDirectly(steps)
    decreases |steps|
  {
    hide Do, Enabled, InHand, Inv;
    if steps != [] {
      var first := Do(s, steps[0]);
      StepKeepsInv(s, steps[0]);
      StepKeepsCalls(s, steps[0]);
      RunKeepsCalls(first, steps[1..]);
      var a := if steps[0].Acquire? then [steps[0].args] else [];
      var b := if steps[0].Direct? then [steps[0].args] else [];
      assert s.pushed + InHand(s) + a + Called(steps[1..]) == s.pushed + InHand(s) + (a + Called(steps[1..]));
      assert s.direct + b + CalledDirectly(steps[1..]) == s.direct + (b + CalledDirectly(steps[1..]));
    }
  }

  /** Over every run the arguments queued are exactly those called with, each once and in the order of
      the lock, but for the one call that has the lock and is still to queue its own. */
  lemma {:induction false} EveryCallIsPushed<T>(n: nat, steps: seq<Step<T>>)
    requires Runs(Init<T>(n), steps)
    ensures var s := After(Init<T>(n), steps);
            && s.pushed + InHand(s) == Called(steps)
            && s.delivered + Waiting(s) + InHand(s) == Called(steps)
            && s.direct == CalledDirectly(steps)
  {
    var s := After(Init<T>(n), steps);
    RunKeepsCalls(Init<T>(n), steps);
    RunKeepsInv(Init<T>(n), steps);
    assert [] + Called(steps) == Called(steps) && [] + CalledDirectly(steps) == CalledDirectly(steps);
  }

  /** An idle thread may call as soon as the lock is free, whatever else is under way, and the owning
      thread may at rest and from inside the function, without being kept waiting or changing the queue. */
  lemma {:induction false} CallsAreNotRefused<T>(s: State<T>, i: nat, args: T)
    ensures i < |s.callers| && s.callers[i].Idle? && s.lock.Free? ==> Enabled(s, Acquire(i, args))
    ensures s.owner.Resting? || s.owner.Calling? ==>
              Enabled(s, Direct(args)) && Do(s, Direct(args)) == s.(direct := s.direct + [args])
  {
  }

  /** The lock is all that a thread inside a call or the callback ever waits for, and a callback that has
      been asked for waits for nothing but its turn on the owning thread. */
  lemma {:induction false} OnlyTheLockIsWaitedFor<T>(s: State<T>, i: nat)
    requires Inv(s) && i < |s.callers|
    ensures match s.callers[i]
            case Idle => true
            case HasLock(_) => Enabled(s, SetSignal(i))
            case SignalSet(_) => Enabled(s, Push(i))
            case Queued => Enabled(s, Unlock(i))
            case Unlocked => Enabled(s, Notify(i))
    ensures match s.owner
            case Resting => s.notified ==> Enabled(s, Wake)
            case Waking => s.lock.Free? ==> Enabled(s, Lock)
            case Draining => Enabled(s, if s.queue == [] then Finish else Call)
            case Calling(_) => Enabled(s, Pop)
  {
  }

  // ---------------------------------------------------------------- every call takes its steps

  predicate IsStepOf<T>(step: Step<T>, i: nat) {
    match step
    case Acquire(j, _) => i == j
    case SetSignal(j) => i == j
    case Push(j) => i == j
    case Unlock(j) => i == j
    case Notify(j) => i == j
    case _ => false
  }

  /** The steps caller i has taken. */
  ghost function StepsTaken<T>(steps: seq<Step<T>>, i: nat): nat {
    if steps == [] then 0 else (if IsStepOf(steps[0], i) then 1 else 0) + StepsTaken(steps[1..], i)
  }

  /** The times caller i has notified, and those it has begun a call. */
  ghost function Notified<T>(steps: seq<Step<T>>, i: nat): nat {
    if steps == [] then 0 else (if steps[0] == Notify(i) then 1 else 0) + Notified(steps[1..], i)
  }

  ghost function Begun<T>(steps: seq<Step<T>>, i: nat): nat {
    if steps == [] then 0 else (if steps[0].Acquire? && steps[0].i == i then 1 else 0) + Begun(steps[1..], i)
  }

  /** The steps a caller has taken of the call it is in. */
  ghost function Stage<T>(c: Caller<T>): nat {
    match c
    case Idle => 0
    case HasLock(_) => 1
    case SignalSet(_) => 2
    case Queued => 3
    case Unlocked => 4
  }

  lemma {:induction false} StepCounts<T>(s: State<T>, step: Step<T>, i: nat)
    requires Enabled(s, step) && i < |s.callers|
    ensures var t := Do(s, step);
            && |t.callers| == |s.callers|
            && (if IsStepOf(step, i) then 1 else 0) + Stage(s.callers[i]) ==
               5 * (if step == Notify(i) then 1 else 0) + Stage(t.callers[i])
            && (if step.Acquire? && step.i == i then 1 else 0) + (if s.callers[i].Idle? then 0 else 1) ==
               (if step == Notify(i) then 1 else 0) + if t.callers[i].Idle? then 0 else 1
  {
  }

  lemma {:induction false} RunCounts<T>(s: State<T>, steps: seq<Step<T>>, i: nat)
    requires Runs(s, steps) && i < |s.callers|
    ensures var t := After(s, steps);
            && |t.callers| == |s.callers|
            && StepsTaken(steps, i) + Stage(s.callers[i]) == 5 * Notified(steps, i) + Stage(t.callers[i])
            && Begun(steps, i) + (if s.callers[i].Idle? then 0 else 1) ==
               Notified(steps, i) + if t.callers[i].Idle? then 0 else 1
    decreases |steps|
  {
    hide Do, Enabled, Stage, IsStepOf;
    if steps != [] {
      StepCounts(s, steps[0], i);
      RunCounts(Do(s, steps[0]), steps[1..], i);
    }
  }

  /** Over every run each call of each thread takes five steps, the last of which notifies: a thread that
      is not in a call has notified exactly as often as it has called. */
  lemma {:induction false} EveryCallNotifies<T>(n: nat, steps: seq<Step<T>>, i: nat)
    requires Runs(Init<T>(n), steps) && i < n
    ensures var t := After(Init<T>(n), steps);
            && |t.callers| == n
            && StepsTaken(steps, i) == 5 * Notified(steps, i) + Stage(t.callers[i])
            && Begun(steps, i) == Notified(steps, i) + if t.callers[i].Idle? then 0 else 1
  {
    RunCounts(Init<T>(n), steps, i);
  }

  // ---------------------------------------------------------------- nothing is lost

  ghost predicate AllIdle<T>(callers: seq<Caller<T>>) {
    forall i | 0 <= i < |callers| :: callers[i].Idle?
  }

  /** No call is under way and no callback is due. */
  ghost predicate Quiet<T>(s: State<T>) {
    AllIdle(s.callers) && s.owner.Resting? && !s.notified
  }

  /** When everything has come to rest, every pushed call has been delivered. */
  lemma {:induction false} QuietMeansDelivered<T>(s: State<T>)
    requires Inv(s) && Quiet(s)
    ensures s.queue == [] && s.delivered == s.pushed
  {
  }

  /** A step that finishes work under way, as opposed to a new call coming in. */
  predicate Finishing<T>(step: Step<T>) {
    !step.Acquire? && !step.Direct?
  }

  /** No deadlock: as long as something is under way some thread can go on. */
  lemma {:induction false} SomethingCanRun<T>(s: State<T>) returns (step: Step<T>)
    requires Inv(s) && !Quiet(s)
    ensures Enabled(s, step) && Finishing(step)
  {
    if s.owner.Draining? {
      step := if s.queue == [] then Finish else Call;
    } else if s.owner.Calling? {
      step := Pop;
    } else if AllIdle(s.callers) {
      step := if s.owner.Waking? then Lock else Wake;
    } else {
      var i: nat :| i < |s.callers| && !s.callers[i].Idle?;
      match s.callers[i]
      case HasLock(_) => step := SetSignal(i);
      case SignalSet(_) => step := Push(i);
      case Queued => step := Unlock(i);
      case Unlocked => step := Notify(i);
    }
  }

  ghost function CallerWork<T>(c: Caller<T>): nat {
    match c
    case Idle => 0
    case Unlocked => 4
    case Queued => 5
    case SignalSet(_) => 8
    case HasLock(_) => 9
  }

  ghost function CallersWork<T>(callers: seq<Caller<T>>): nat {
    if callers == [] then 0 else CallerWork(callers[0]) + CallersWork(callers[1..])
  }

  ghost function OwnerWork<T>(o: Owner<T>): nat {
    match o
    case Resting => 0
    case Waking => 2
    case Draining => 1
    case Calling(_) => 0
  }

  /** An upper bound on the steps left until everything is at rest. */
  ghost function Work<T>(s: State<T>): nat {
    CallersWork(s.callers) + (if s.notified then 3 else 0) + OwnerWork(s.owner) + 2 * |s.queue|
  }

  lemma {:induction false} CallersWorkUpdate<T>(callers: seq<Caller<T>>, i: nat, c: Caller<T>)
    requires i < |callers|
    ensures CallersWork(callers[i := c]) == CallersWork(callers) - CallerWork(callers[i]) + CallerWork(c)
  {
    if i == 0 {
      assert callers[i := c][1..] == callers[1..];
    } else {
      CallersWorkUpdate(callers[1..], i - 1, c);
      assert callers[i := c][1..] == callers[1..][i - 1 := c];
    }
  }

  lemma {:induction false} StepLessensWork<T>(s: State<T>, step: Step<T>)
    requires Enabled(s, step) && Finishing(step)
    ensures Work(Do(s, step)) < Work(s)
  {
    match step
    case SetSignal(i) => CallersWorkUpdate(s.callers, i, SignalSet(s.callers[i].args));
    case Push(i) => CallersWorkUpdate(s.callers, i, Queued);
    case Unlock(i) => CallersWorkUpdate(s.callers, i, Unlocked);
    case Notify(i) => CallersWorkUpdate(s.callers, i, Idle);
    case _ =>
  }

  ghost predicate AllFinishing<T>(steps: seq<Step<T>>) {
    forall i | 0 <= i < |steps| :: Finishing(steps[i])
  }

  lemma {:induction false} FinishingIsBounded<T>(s: State<T>, steps: seq<Step<T>>)
    requires Runs(s, steps) && AllFinishing(steps)
    ensures |steps| + Work(After(s, steps)) <= Work(s)
    decreases |steps|
  {
    if steps != [] {
      StepLessensWork(s, steps[0]);
      FinishingIsBounded(Do(s, steps[0]), steps[1..]);
    }
  }

  /** However the threads are scheduled, once no new call comes in the threads come to rest after
      at most Work(s) steps, and a run that cannot go on has delivered every pushed call. */
  lemma {:induction false} EveryScheduleDelivers<T>(s: State<T>, steps: seq<Step<T>>)
    requires Inv(s) && Runs(s, steps) && AllFinishing(steps)
    ensures |steps| <= Work(s)
    ensures var t := After(s, steps);
            (forall step | Finishing(step) :: !Enabled(t, step)) ==>
              Quiet(t) && t.queue == [] && t.delivered == t.pushed
  {
    FinishingIsBounded(s, steps);
    RunKeepsInv(s, steps);
    var t := After(s, steps);
    if forall step | Finishing(step) :: !Enabled(t, step) {
      if !Quiet(t) {
        var step := SomethingCanRun(t);
        assert false;
      }
      QuietMeansDelivered(t);
    }
  }

  // ---------------------------------------------------------------- the code of one thread

  /** The steps of one callback over a queue of the given length, once it holds the lock. */
  ghost function Drain<T>(n: nat): seq<Step<T>> {
    if n == 0 then [Finish] else [Call, Pop] + Drain(n - 1)
  }

  /** Run without interruption the callback hands over the whole queue in order and lets the signal go. */
  lemma {:induction false} DrainDelivers<T>(s: State<T>)
    requires s.owner.Draining?
    ensures Runs(s, Drain(|s.queue|))
    ensures After(s, Drain(|s.queue|)) ==
            s.(owner := Resting, lock := Free, signal := false, queue := [], delivered := s.delivered + s.queue)
    decreases |s.queue|
  {
    var steps := Drain<T>(|s.queue|);
    if s.queue == [] {
      assert Runs(Do(s, Finish), steps[1..]);
    } else {
      var a := Do(s, Call);
      var t := Do(a, Pop);
      DrainDelivers(t);
      assert steps[1..][0] == Pop && steps[1..][1..] == Drain(|t.queue|);
      assert Runs(a, steps[1..]);
      assert t.delivered + t.queue == s.delivered + s.queue;
    }
  }

  /** The steps of a call from another thread, of which the model of one thread has one. */
  function CallSteps<T>(args: T): seq<Step<T>> {
    [Acquire(0, args), SetSignal(0), Push(0), Unlock(0), Notify(0)]
  }

  /** The steps of the callback, from the event loop running it, over a queue of the given length. */
  ghost function CallbackSteps<T>(n: nat): seq<Step<T>> {
    [Wake, Lock] + Drain(n)
  }

  lemma {:induction false} OneStepMore<T>(s: State<T>, step: Step<T>, rest: seq<Step<T>>)
    requires Enabled(s, step) && Runs(Do(s, step), rest)
    ensures Runs(s, [step] + rest) && After(s, [step] + rest) == After(Do(s, step), rest)
  {
    assert ([step] + rest)[1..] == rest;
  }

  /** Uninterrupted, a call from another thread is queued and the owner told. */
  lemma {:induction false} CallQueues<T>(s: State<T>, args: T)
    requires s.callers == [Idle] && s.lock.Free?
    ensures Runs(s, CallSteps(args))
    ensures After(s, CallSteps(args)) ==
            s.(queue := s.queue + [args], pushed := s.pushed + [args], signal := true, notified := true)
  {
    var a := Do(s, Acquire(0, args));
    var b := Do(a, SetSignal(0));
    var c := Do(b, Push(0));
    var d := Do(c, Unlock(0));
    var e := Do(d, Notify(0));
    assert e.callers == [Idle];
    var notifying: seq<Step<T>> := [Notify(0)] + [];
    var unlocking := [Unlock(0)] + notifying;
    var pushing := [Push(0)] + unlocking;
    var setting := [SetSignal(0)] + pushing;
    OneStepMore(d, Notify(0), []);
    OneStepMore(c, Unlock(0), notifying);
    OneStepMore(b, Push(0), unlocking);
    OneStepMore(a, SetSignal(0), pushing);
    OneStepMore(s, Acquire(0, args), setting);
    assert [Acquire(0, args)] + setting == CallSteps(args);
  }

  /** Uninterrupted, the callback delivers the queue in order. */
  lemma {:induction false} CallbackDelivers<T>(s: State<T>)
    requires s.owner.Resting? && s.lock.Free? && s.notified
    ensures Runs(s, CallbackSteps(|s.queue|))
    ensures After(s, CallbackSteps(|s.queue|)) ==
            s.(notified := false, signal := false, queue := [], delivered := s.delivered + s.queue)
  {
    var a := Do(s, Wake);
    var b := Do(a, Lock);
    DrainDelivers(b);
    OneStepMore(a, Lock, Drain(|s.queue|));
    OneStepMore(s, Wake, [Lock] + Drain(|s.queue|));
    assert [Wake] + ([Lock] + Drain<T>(|s.queue|)) == CallbackSteps<T>(|s.queue|);
  }

  /** The dispatcher as the code of its methods sees it while no other thread is between two steps. */
  class EventLoopDispatcher<T> {
    var invocations: seq<T>
    var signal: bool
    /** The event loop has been asked to run the callback and has not begun to. */
    var notified: bool
    /** The arguments the function was called with, by the callback and on the owning thread. */
    var delivered: seq<T>
    var direct: seq<T>
    ghost var pushed: seq<T>

    /** The state of the protocol with one other thread, all at rest. */
    ghost function View(): State<T>
      reads this
    {
      State([Idle], Resting, Free, invocations, signal, notified, pushed, delivered, direct)
    }

    constructor ()
      ensures View() == Init(1) && Inv(View())
    {
      invocations, signal, notified := [], false, false;
      delivered, direct, pushed := [], [], [];
      new;
      assert Init<T>(1).callers == [Idle];
    }

    /** A call on the owning thread runs at once; any other takes the steps of a caller. */
    method Invoke(args: T, onOwnThread: bool)
      requires Inv(View())
      modifies this
      ensures Inv(View())
      ensures var steps := if onOwnThread then [Direct(args)] else CallSteps(args);
              Runs(old(View()), steps) && View() == After(old(View()), steps)
      ensures onOwnThread ==> direct == old(direct) + [args] && invocations == old(invocations)
      ensures !onOwnThread ==> direct == old(direct) && invocations == old(invocations) + [args] && signal && notified
    {
      ghost var was := View();
      if onOwnThread {
        OneStepMore(was, Direct(args), []);
        assert [Direct(args)] + [] == [Direct(args)];
        RunKeepsInv(was, [Direct(args)]);
        direct := direct + [args];
        return;
      }
      CallQueues(was, args);
      RunKeepsInv(was, CallSteps(args));
      signal := true;
      invocations := invocations + [args];
      pushed := pushed + [args];
      notified := true;
    }

    /** The event loop runs the callback it was asked for: the steps that hand every queued call over
        in order, leave the queue empty and let the signal go. */
    method Callback()
      requires Inv(View()) && notified
      modifies this
      ensures Inv(View())
      ensures Runs(old(View()), CallbackSteps(|old(invocations)|))
      ensures View() == After(old(View()), CallbackSteps(|old(invocations)|))
      ensures delivered == old(delivered) + old(invocations) == pushed == old(pushed)
      ensures invocations == [] && !signal && !notified
    {
      ghost var was := View();
      CallbackDelivers(was);
      RunKeepsInv(was, CallbackSteps(|invocations|));
      notified := false;
      while invocations != []
        invariant delivered + invocations == was.delivered + was.queue
        invariant View() == was.(notified := false, delivered := delivered, queue := invocations)
        decreases |invocations|
      {
        var args := invocations[0];
        delivered := delivered + [args];
        invocations := invocations[1..];
      }
      signal := false;
    }
  }
}
