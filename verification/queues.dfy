/** The three deferred-work queues and the calls that fill and drain them
    (src/scope.js:117-119, 131-141, 154-188). */
module Queues {
  import opened Values
  import opened ScopeState

  /** `$$asyncQueue`, `$$applyAsyncQueue` and `$$postDigestQueue`. */
  datatype QueueName = AsyncQ | ApplyAsyncQ | PostDigestQ

  function Queue(s: Scope, q: QueueName): seq<Task> {
    match q
    case AsyncQ => s.asyncQueue
    case ApplyAsyncQ => s.applyAsyncQueue
    case PostDigestQ => s.postDigestQueue
  }

  function WithQueue(s: Scope, q: QueueName, ts: seq<Task>): (r: Scope)
    ensures Queue(r, q) == ts
    ensures forall p :: p != q ==> Queue(r, p) == Queue(s, p)
  {
    match q
    case AsyncQ => s.(asyncQueue := ts)
    case ApplyAsyncQ => s.(applyAsyncQueue := ts)
    case PostDigestQ => s.(postDigestQueue := ts)
  }

  /** The queue a request appends to. */
  function Target(req: Request): QueueName {
    match req
    case EvalAsyncCall(_) => AsyncQ
    case ApplyAsyncCall(_) => ApplyAsyncQ
    case PostDigestCall(_) => PostDigestQ
  }

  /** The tasks of `reqs` that go to queue `q`, in the order they were made. */
  function Tasks(reqs: seq<Request>, q: QueueName): seq<Task> {
    if |reqs| == 0 then []
    else (if Target(reqs[0]) == q then [reqs[0].task] else []) + Tasks(reqs[1..], q)
  }

  /** Everything but the three queues and the two timer records is the same. */
  ghost predicate SameButQueues(r: Scope, s: Scope) {
    && r.bag == s.bag && r.watchers == s.watchers && r.lastDirty == s.lastDirty
    && r.phase == s.phase && r.nextId == s.nextId
  }

  /** `$evalAsync(expr)`: always enqueues; sets a timer to start a digest only
      when no phase is active and the queue was empty. */
  function EvalAsync(s: Scope, t: Task): (r: Scope)
    ensures r.asyncQueue == s.asyncQueue + [t]
    ensures r.pendingDigests > s.pendingDigests <==> s.phase == NoPhase && |s.asyncQueue| == 0
    ensures r.pendingDigests <= s.pendingDigests + 1
    ensures r == s.(asyncQueue := r.asyncQueue, pendingDigests := r.pendingDigests)
  {
    var timers := if s.phase == NoPhase && |s.asyncQueue| == 0 then s.pendingDigests + 1 else s.pendingDigests;
    s.(asyncQueue := s.asyncQueue + [t], pendingDigests := timers)
  }

  /** `$applyAsync(expr)`: enqueues and sets the flush timer unless one is
      already set, so any number of calls share one flush. */
  function ApplyAsync(s: Scope, t: Task): (r: Scope)
    ensures r.applyAsyncQueue == s.applyAsyncQueue + [t]
    ensures r.applyAsyncPending
    ensures r == s.(applyAsyncQueue := r.applyAsyncQueue, applyAsyncPending := true)
  {
    s.(applyAsyncQueue := s.applyAsyncQueue + [t], applyAsyncPending := true)
  }

  /** `$$postDigest(fn)`: enqueues, and never starts anything. */
  function PostDigest(s: Scope, t: Task): (r: Scope)
    ensures r.postDigestQueue == s.postDigestQueue + [t]
    ensures r == s.(postDigestQueue := r.postDigestQueue)
  {
    s.(postDigestQueue := s.postDigestQueue + [t])
  }

  /** One queueing call made by user code. */
  function Call(s: Scope, req: Request): (r: Scope)
    ensures SameButQueues(r, s)
    ensures forall q :: Queue(r, q) == Queue(s, q) + (if Target(req) == q then [req.task] else [])
    ensures r.pendingDigests >= s.pendingDigests
  {
    match req
    case EvalAsyncCall(t) => EvalAsync(s, t)
    case ApplyAsyncCall(t) => ApplyAsync(s, t)
    case PostDigestCall(t) => PostDigest(s, t)
  }

  /** Performs the queueing calls user code made, in order. */
  function Perform(s: Scope, reqs: seq<Request>): (r: Scope)
    ensures SameButQueues(r, s)
    ensures forall q :: Queue(r, q) == Queue(s, q) + Tasks(reqs, q)
    ensures r.pendingDigests >= s.pendingDigests
    ensures |reqs| == 0 ==> r == s
    decreases |reqs|
  {
    if |reqs| == 0 then s
    else Perform(Call(s, reqs[0]), reqs[1..])
  }

  /** The timers a run of queueing calls sets: a flush timer when some call
      is `$applyAsync`, and one digest timer when some call is `$evalAsync`
      and the first of those finds no phase and an empty queue. */
  lemma {:induction false} PerformSetsTimers(s: Scope, reqs: seq<Request>)
    ensures Perform(s, reqs).pendingDigests ==
              s.pendingDigests + (if s.phase == NoPhase && |s.asyncQueue| == 0 && |Tasks(reqs, AsyncQ)| > 0 then 1 else 0)
    ensures Perform(s, reqs).applyAsyncPending == (s.applyAsyncPending || |Tasks(reqs, ApplyAsyncQ)| > 0)
    decreases |reqs|
  {
    if |reqs| > 0 {
      PerformSetsTimers(Call(s, reqs[0]), reqs[1..]);
    }
  }

  /** `scope.$eval(expr)`: runs the expression against the scope, keeps what
      it did to the property bag and the queues, and reports how it ended. */
  function Eval(s: Scope, t: Task): (r: (Scope, Outcome))
    ensures r.0.bag == t.run(s.bag).after
    ensures r.1 == t.run(s.bag).outcome
    ensures forall q :: Queue(r.0, q) == Queue(s, q) + Tasks(t.run(s.bag).queued, q)
    ensures r.0.watchers == s.watchers && r.0.lastDirty == s.lastDirty && r.0.phase == s.phase
    ensures r.0.nextId == s.nextId
  {
    var e := t.run(s.bag);
    (Perform(s.(bag := e.after), e.queued), e.outcome)
  }

  /** The `while (queue.length) { try { queue.shift() ... } catch ... }` loops:
      runs the head task until the queue is empty, swallowing what tasks
      throw. Tasks may refill the queue, and then the source loops forever;
      here `fuel` bounds the number of tasks and `None` stands for that.
      With `resetDirty` the last dirty watcher is forgotten after each task. */
  function Drain(s: Scope, q: QueueName, fuel: nat, resetDirty: bool): (r: Option<Scope>)
    ensures |Queue(s, q)| == 0 ==> r == Some(s)
    ensures r.Some? ==> |Queue(r.value, q)| == 0
    ensures r.Some? ==> r.value.watchers == s.watchers && r.value.phase == s.phase && r.value.nextId == s.nextId
    ensures r.Some? && !resetDirty ==> r.value.lastDirty == s.lastDirty
    ensures r.Some? && resetDirty && |Queue(s, q)| > 0 ==> r.value.lastDirty == None
    decreases fuel
  {
    if |Queue(s, q)| == 0 then Some(s)
    else if fuel == 0 then None
    else
      var (s1, _) := Eval(WithQueue(s, q, Queue(s, q)[1..]), Queue(s, q)[0]);
      Drain(if resetDirty then s1.(lastDirty := None) else s1, q, fuel - 1, resetDirty)
  }

  /** More fuel never changes a drain that finishes, so `None` means only that
      the drain needs more tasks than `fuel`, and a drain whose tasks keep
      refilling the queue is `None` for every `fuel`. */
  lemma {:induction false} DrainFuelMonotone(s: Scope, q: QueueName, fuel: nat, resetDirty: bool)
    ensures Drain(s, q, fuel, resetDirty).Some? ==> Drain(s, q, fuel + 1, resetDirty) == Drain(s, q, fuel, resetDirty)
    decreases fuel
  {
    if |Queue(s, q)| > 0 && fuel > 0 {
      var s1 := Eval(WithQueue(s, q, Queue(s, q)[1..]), Queue(s, q)[0]).0;
      var next := if resetDirty then s1.(lastDirty := None) else s1;
      assert Drain(s, q, fuel, resetDirty) == Drain(next, q, fuel - 1, resetDirty);
      assert Drain(s, q, fuel + 1, resetDirty) == Drain(next, q, fuel, resetDirty);
      DrainFuelMonotone(next, q, fuel - 1, resetDirty);
    }
  }

  /** `$$flushApplyAsync`: drains the apply-async queue and clears the timer. */
  function FlushApplyAsync(s: Scope, fuel: nat): (r: Option<Scope>)
    ensures r.Some? ==> |r.value.applyAsyncQueue| == 0 && !r.value.applyAsyncPending
    ensures r.Some? ==> r.value.watchers == s.watchers && r.value.phase == s.phase
    ensures r.Some? ==> r.value.lastDirty == s.lastDirty && r.value.nextId == s.nextId
  {
    match Drain(s, ApplyAsyncQ, fuel, false)
    case None => None
    case Some(d) => Some(d.(applyAsyncPending := false))
  }

  /** A task never adds work to queue `q`, whatever the property bag. */
  ghost predicate StaysOut(t: Task, q: QueueName) {
    forall b :: Tasks(t.run(b).queued, q) == []
  }

  /** The property bag after running `ts` one after the other. */
  function RunAll(bag: Bag, ts: seq<Task>): Bag
    decreases |ts|
  {
    if |ts| == 0 then bag else RunAll(ts[0].run(bag).after, ts[1..])
  }

  /** Draining is first-in first-out: when the queued tasks do not refill the
      queue, the drain finishes within one step per task and leaves the bag
      that running them in queue order gives. */
  lemma {:induction false} DrainRunsInOrder(s: Scope, q: QueueName, fuel: nat, resetDirty: bool)
    requires |Queue(s, q)| <= fuel
    requires forall i :: 0 <= i < |Queue(s, q)| ==> StaysOut(Queue(s, q)[i], q)
    ensures Drain(s, q, fuel, resetDirty).Some?
    ensures Drain(s, q, fuel, resetDirty).value.bag == RunAll(s.bag, Queue(s, q))
    decreases fuel
  {
    var ts := Queue(s, q);
    if |ts| > 0 {
      var (s1, _) := Eval(WithQueue(s, q, ts[1..]), ts[0]);
      assert Tasks(ts[0].run(s.bag).queued, q) == [];
      assert Queue(s1, q) == ts[1..];
      var s2 := if resetDirty then s1.(lastDirty := None) else s1;
      assert Queue(s2, q) == ts[1..];
      forall i | 0 <= i < |Queue(s2, q)| ensures StaysOut(Queue(s2, q)[i], q) {
        assert Queue(s2, q)[i] == ts[i + 1];
      }
      DrainRunsInOrder(s2, q, fuel - 1, resetDirty);
    }
  }

  /** `$$flushApplyAsync` runs the batch first-in first-out: when no task of
      the batch calls `$applyAsync` again, the flush finishes and leaves the
      bag that running the batch in order gives. */
  lemma FlushRunsBatchInOrder(s: Scope, fuel: nat)
    requires |s.applyAsyncQueue| <= fuel
    requires forall i :: 0 <= i < |s.applyAsyncQueue| ==> StaysOut(s.applyAsyncQueue[i], ApplyAsyncQ)
    ensures FlushApplyAsync(s, fuel).Some?
    ensures FlushApplyAsync(s, fuel).value.bag == RunAll(s.bag, s.applyAsyncQueue)
  {
    DrainRunsInOrder(s, ApplyAsyncQ, fuel, false);
  }

  /** `$evalAsync` called once per task of `ts`, in order. */
  function EvalAsyncAll(s: Scope, ts: seq<Task>): Scope
    decreases |ts|
  {
    if |ts| == 0 then s else EvalAsyncAll(EvalAsync(s, ts[0]), ts[1..])
  }

  /** A burst of `$evalAsync` calls queues every task in call order and sets
      at most one digest timer: one exactly when no phase is active and the
      queue was empty before the burst. */
  lemma {:induction false} EvalAsyncCoalesces(s: Scope, ts: seq<Task>)
    ensures EvalAsyncAll(s, ts).asyncQueue == s.asyncQueue + ts
    ensures EvalAsyncAll(s, ts).pendingDigests ==
              s.pendingDigests + (if |ts| > 0 && s.phase == NoPhase && |s.asyncQueue| == 0 then 1 else 0)
    ensures EvalAsyncAll(s, ts) ==
              s.(asyncQueue := EvalAsyncAll(s, ts).asyncQueue, pendingDigests := EvalAsyncAll(s, ts).pendingDigests)
    decreases |ts|
  {
    if |ts| > 0 {
      var s1 := EvalAsync(s, ts[0]);
      EvalAsyncCoalesces(s1, ts[1..]);
      assert s1.asyncQueue + ts[1..] == s.asyncQueue + ts;
    }
  }

  /** `$applyAsync` called once per task of `ts`, in order. */
  function ApplyAsyncAll(s: Scope, ts: seq<Task>): Scope
    decreases |ts|
  {
    if |ts| == 0 then s else ApplyAsyncAll(ApplyAsync(s, ts[0]), ts[1..])
  }

  /** How many of those calls find no flush timer set, and so set one. */
  function FlushTimersSet(s: Scope, ts: seq<Task>): nat
    decreases |ts|
  {
    if |ts| == 0 then 0
    else (if s.applyAsyncPending then 0 else 1) + FlushTimersSet(ApplyAsync(s, ts[0]), ts[1..])
  }

  /** A burst of `$applyAsync` calls queues every task in call order and sets
      one flush timer at most, and none when one was already set. */
  lemma {:induction false} ApplyAsyncCoalesces(s: Scope, ts: seq<Task>)
    ensures ApplyAsyncAll(s, ts).applyAsyncQueue == s.applyAsyncQueue + ts
    ensures FlushTimersSet(s, ts) == (if |ts| > 0 && !s.applyAsyncPending then 1 else 0)
    ensures |ts| > 0 ==> ApplyAsyncAll(s, ts).applyAsyncPending
    decreases |ts|
  {
    if |ts| > 0 {
      var s1 := ApplyAsync(s, ts[0]);
      ApplyAsyncCoalesces(s1, ts[1..]);
      assert s1.applyAsyncQueue + ts[1..] == s.applyAsyncQueue + ts;
      if |ts[1..]| > 0 {
        assert FlushTimersSet(s1, ts[1..]) == 0;
      }
    }
  }
}
