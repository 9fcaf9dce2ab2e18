/** The state of one scope (src/scope.js, the `Scope` constructor) and the
    callback shapes it stores. Watch functions, listeners and queued
    expressions are pure functions over the scope's property bag; what a
    callback would have done to the scope's queues comes back as a list of
    requests that the engine performs in order. */
module ScopeState {
  import opened Values

  datatype Option<T> = None | Some(value: T)

  /** The scope's own open-ended properties. Reading a missing one gives
      `undefined`. */
  type Bag = map<string, Value>

  function Get(bag: Bag, key: string): Value {
    if key in bag then bag[key] else Undefined
  }

  /** How a call into user code ended: with a value or with a thrown value. */
  datatype Outcome = Returned(value: Value) | Raised(error: Value)

  /** An expression handed to `$eval`, `$evalAsync`, `$applyAsync` or
      `$$postDigest`. */
  datatype Task = Task(run: Bag -> Effect)

  /** What a listener or task did: the property bag it left behind (also when
      it threw part-way), the queueing calls it made on the scope, in order,
      and how it ended. */
  datatype Effect = Effect(after: Bag, queued: seq<Request>, outcome: Outcome)

  /** A queueing call made by user code on its scope. */
  datatype Request =
    | EvalAsyncCall(task: Task)
    | ApplyAsyncCall(task: Task)
    | PostDigestCall(task: Task)

  /** `$$phase`: null, '$digest' or '$apply'. */
  datatype Phase = NoPhase | InDigest | InApply

  type WatchFn = Bag -> Outcome
  type ListenerFn = (Value, Value, Bag) -> Effect

  /** A registration made by `$watch`. The `id` stands for the watcher
      object's identity, which `indexOf` and `$$lastDirtyWatch` compare. */
  datatype Watcher = Watcher(id: nat, watchFn: WatchFn, listenerFn: ListenerFn, valueEq: bool, last: Last)

  /** A scope. `applyAsyncPending` is `$$applyAsyncId !== null`, that is, a
      flush timer is set; `pendingDigests` counts the timers `$evalAsync` has
      set to start a digest; `nextId` is the identity the next watcher gets. */
  datatype Scope = Scope(
    bag: Bag,
    watchers: seq<Watcher>,
    lastDirty: Option<nat>,
    asyncQueue: seq<Task>,
    applyAsyncQueue: seq<Task>,
    applyAsyncPending: bool,
    postDigestQueue: seq<Task>,
    phase: Phase,
    pendingDigests: nat,
    nextId: nat)

  /** How a public entry point ended. `Hang` stands for a queue drain that
      never finishes, because its tasks keep refilling the queue. */
  datatype Fault = Thrown(error: Value) | Busy(phase: Phase) | TtlExceeded
  datatype Exit = Normal(value: Value) | Abrupt(fault: Fault) | Hang

  /** No two registered watchers share an identity. */
  ghost predicate UniqueIds(ws: seq<Watcher>) {
    forall i, j :: 0 <= i < j < |ws| ==> ws[i].id != ws[j].id
  }

  /** Watcher identities are unique and all older than `nextId`. */
  ghost predicate WellFormed(s: Scope) {
    && UniqueIds(s.watchers)
    && forall i :: 0 <= i < |s.watchers| ==> s.watchers[i].id < s.nextId
  }

  /** `new Scope()`, with an initial property bag. */
  function NewScope(bag: Bag): (s: Scope)
    ensures WellFormed(s)
    ensures s.bag == bag && |s.watchers| == 0 && s.phase == NoPhase && s.lastDirty == None
    ensures s.asyncQueue == [] && s.applyAsyncQueue == [] && s.postDigestQueue == []
    ensures !s.applyAsyncPending && s.pendingDigests == 0
  {
    Scope(bag, [], None, [], [], false, [], NoPhase, 0, 0)
  }

  /** `$$watchers.indexOf(watcher)`: the first position holding the watcher
      with identity `id`, or -1. */
  function IndexOf(ws: seq<Watcher>, id: nat): (r: int)
    ensures -1 <= r < |ws|
    ensures r == -1 <==> forall j :: 0 <= j < |ws| ==> ws[j].id != id
    ensures r >= 0 ==> ws[r].id == id && forall j :: 0 <= j < r ==> ws[j].id != id
  {
    if |ws| == 0 then -1
    else if ws[0].id == id then 0
    else
      var k := IndexOf(ws[1..], id);
      if k < 0 then -1 else k + 1
  }

  /** With unique identities, a watcher's position is the one holding it. */
  lemma IndexOfUnique(ws: seq<Watcher>, k: nat)
    requires UniqueIds(ws)
    requires k < |ws|
    ensures IndexOf(ws, ws[k].id) == k
  {
  }

  /** The same registrations in the same order; only `last` may differ. */
  ghost predicate SameShape(a: seq<Watcher>, b: seq<Watcher>) {
    && |a| == |b|
    && forall j {:trigger a[j], b[j]} :: 0 <= j < |a| ==>
         && a[j].id == b[j].id && a[j].watchFn == b[j].watchFn
         && a[j].listenerFn == b[j].listenerFn && a[j].valueEq == b[j].valueEq
  }

  lemma SameShapeKeepsIds(a: seq<Watcher>, b: seq<Watcher>)
    requires SameShape(a, b)
    ensures UniqueIds(a) <==> UniqueIds(b)
    ensures forall j :: 0 <= j < |a| ==> a[j].id == b[j].id
  {
    forall j | 0 <= j < |a| ensures a[j].id == b[j].id {
    }
  }

  lemma SameShapeTrans(a: seq<Watcher>, b: seq<Watcher>, c: seq<Watcher>)
    ensures SameShape(a, b) && SameShape(b, c) ==> SameShape(a, c)
  {
    if SameShape(a, b) && SameShape(b, c) {
      forall j | 0 <= j < |a|
        ensures a[j].id == c[j].id && a[j].watchFn == c[j].watchFn
        ensures a[j].listenerFn == c[j].listenerFn && a[j].valueEq == c[j].valueEq
      {
        assert a[j].id == b[j].id;
      }
    }
  }

  /** A watcher is settled against a property bag when evaluating it now would
      not fire its listener: its watch function throws, or returns a value
      equal to `last` under its equality rule. */
  ghost predicate Settled(w: Watcher, bag: Bag) {
    match w.watchFn(bag)
    case Raised(_) => true
    case Returned(v) => AreEqual(v, w.last, w.valueEq)
  }

  ghost predicate AllSettled(s: Scope) {
    forall j :: 0 <= j < |s.watchers| ==> Settled(s.watchers[j], s.bag)
  }

  /** No listener of the scope ever throws. */
  ghost predicate ListenersReturn(ws: seq<Watcher>) {
    forall j, n, o, b :: 0 <= j < |ws| ==> ws[j].listenerFn(n, o, b).outcome.Returned?
  }
}
