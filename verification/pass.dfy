/** One dirty-checking pass over the watcher list: `$$digestOnce`
    (src/scope.js:45-68). The list itself is fixed during a pass; only the
    watchers' `last` values, the property bag, the queues and the last dirty
    watcher change. */
module DigestPass {
  import opened Values
  import opened ScopeState
  import opened Queues

  /** What evaluating one watcher did. */
  datatype Step =
    | WatchThrew
    | Clean
    | ShortCircuit
    | Fired(newValue: Value, oldValue: Value, listenerThrew: bool)

  /** One evaluation, in the order the pass made them. */
  datatype Visited = Visited(id: nat, step: Step)

  datatype PassResult = PassResult(scope: Scope, dirty: bool, trace: seq<Visited>)

  /** The body of the `forEachRight` callback for the watcher at position
      `k`. A changed watch value (under the watcher's equality rule) makes it
      the last dirty watcher, is stored as `last` and is handed to the
      listener, with old = new on the first evaluation. An unchanged value
      touches nothing, and stops the pass when this is the last dirty
      watcher. A throwing watch function is skipped; a throwing listener
      keeps what happened before it threw. */
  function Visit(s: Scope, k: nat): (r: (Scope, Step))
    requires k < |s.watchers|
    ensures SameShape(s.watchers, r.0.watchers)
    ensures r.0.watchers == s.watchers[k := r.0.watchers[k]]
    ensures r.0.phase == s.phase && r.0.nextId == s.nextId
    ensures !r.1.Fired? ==> r.0 == s
    ensures r.1.WatchThrew? <==> s.watchers[k].watchFn(s.bag).Raised?
    ensures r.1.Fired? <==>
              s.watchers[k].watchFn(s.bag).Returned?
              && !AreEqual(s.watchers[k].watchFn(s.bag).value, s.watchers[k].last, s.watchers[k].valueEq)
    ensures r.1.ShortCircuit? <==>
              s.watchers[k].watchFn(s.bag).Returned?
              && AreEqual(s.watchers[k].watchFn(s.bag).value, s.watchers[k].last, s.watchers[k].valueEq)
              && s.lastDirty == Some(s.watchers[k].id)
    ensures r.1.Fired? ==>
              && r.1.newValue == s.watchers[k].watchFn(s.bag).value
              && r.1.oldValue == (if s.watchers[k].last.Initial? then r.1.newValue else s.watchers[k].last.v)
              && r.0.watchers[k].last == Seen(r.1.newValue)
              && r.0.lastDirty == Some(s.watchers[k].id)
              && r.0.bag == s.watchers[k].listenerFn(r.1.newValue, r.1.oldValue, s.bag).after
              && r.1.listenerThrew == s.watchers[k].listenerFn(r.1.newValue, r.1.oldValue, s.bag).outcome.Raised?
  {
    var w := s.watchers[k];
    match w.watchFn(s.bag)
    case Raised(_) => (s, WatchThrew)
    case Returned(newValue) =>
      if !AreEqual(newValue, w.last, w.valueEq) then
        var oldValue := match w.last case Initial => newValue case Seen(v) => v;
        // The stored value is a snapshot, so it is already the deep copy
        // that `valueEq` watchers keep.
        var marked := s.(lastDirty := Some(w.id), watchers := s.watchers[k := w.(last := Seen(newValue))]);
        var e := w.listenerFn(newValue, oldValue, marked.bag);
        var after := Perform(marked.(bag := e.after), e.queued);
        (after, Fired(newValue, oldValue, e.outcome.Raised?))
      else if s.lastDirty == Some(w.id) then (s, ShortCircuit)
      else (s, Clean)
  }

  /** A listener's queueing calls take effect when it fires: its tasks are
      appended to the queues they were meant for, in call order, a flush timer
      is set by an `$applyAsync` call, and a digest timer only by an
      `$evalAsync` call that finds no phase and an empty queue. Kept apart
      from `Visit` so that unfolding a pass does not drag it along. */
  lemma VisitPerformsListenerCalls(s: Scope, k: nat)
    requires k < |s.watchers|
    ensures var r := Visit(s, k);
            r.1.Fired? ==>
              var calls := s.watchers[k].listenerFn(r.1.newValue, r.1.oldValue, s.bag).queued;
              && r.0.asyncQueue == s.asyncQueue + Tasks(calls, AsyncQ)
              && r.0.applyAsyncQueue == s.applyAsyncQueue + Tasks(calls, ApplyAsyncQ)
              && r.0.postDigestQueue == s.postDigestQueue + Tasks(calls, PostDigestQ)
              && r.0.applyAsyncPending == (s.applyAsyncPending || |Tasks(calls, ApplyAsyncQ)| > 0)
              && r.0.pendingDigests ==
                   s.pendingDigests + (if s.phase == NoPhase && |s.asyncQueue| == 0 && |Tasks(calls, AsyncQ)| > 0 then 1 else 0)
  {
    var r := Visit(s, k);
    if r.1.Fired? {
      var w := s.watchers[k];
      var marked := s.(lastDirty := Some(w.id), watchers := s.watchers[k := w.(last := Seen(r.1.newValue))]);
      var e := w.listenerFn(r.1.newValue, r.1.oldValue, s.bag);
      var after := Perform(marked.(bag := e.after), e.queued);
      assert r.0 == after;
      PerformSetsTimers(marked.(bag := e.after), e.queued);
      assert Queue(after, AsyncQ) == after.asyncQueue && Queue(after, ApplyAsyncQ) == after.applyAsyncQueue;
      assert Queue(after, PostDigestQ) == after.postDigestQueue;
    }
  }

  /** How a recorded step relates to the watcher as it stood before the pass
      (each watcher is visited at most once, so that is also how it stood
      when it was evaluated). */
  ghost predicate StepAgrees(step: Step, w: Watcher) {
    match step
    case WatchThrew => exists b :: w.watchFn(b).Raised?
    case Clean => w.last.Seen?
    case ShortCircuit => w.last.Seen?
    case Fired(nv, ov, threw) =>
      && !AreEqual(nv, w.last, w.valueEq)
      && ov == (if w.last.Initial? then nv else w.last.v)
      && (threw ==> exists b :: w.listenerFn(nv, ov, b).outcome.Raised?)
  }

  /** Some step of the trace fired a listener that returned normally. */
  ghost predicate MarksDirty(trace: seq<Visited>) {
    exists j :: 0 <= j < |trace| && trace[j].step.Fired? && !trace[j].step.listenerThrew
  }

  /** `_.forEachRight` over positions `i - 1` down to 0, carrying the
      `dirty` flag; the order and early stop are stated by the lemmas below. */
  function Pass(s: Scope, i: nat, dirty: bool): (r: PassResult)
    requires i <= |s.watchers|
    ensures SameShape(s.watchers, r.scope.watchers)
    ensures r.scope.phase == s.phase && r.scope.nextId == s.nextId
    ensures |r.trace| <= i
    decreases i
  {
    if i == 0 then PassResult(s, dirty, [])
    else
      var (s1, step) := Visit(s, i - 1);
      var here := Visited(s.watchers[i - 1].id, step);
      if step.ShortCircuit? then PassResult(s1, dirty, [here])
      else
        var rest := Pass(s1, i - 1, dirty || (step.Fired? && !step.listenerThrew));
        SameShapeTrans(s.watchers, s1.watchers, rest.scope.watchers);
        PassResult(rest.scope, rest.dirty, [here] + rest.trace)
  }

  /** The pass evaluates the oldest watcher first, then each newer one in
      turn. */
  lemma {:induction false} PassVisitsOldestFirst(s: Scope, i: nat, dirty: bool)
    requires i <= |s.watchers|
    ensures forall j :: 0 <= j < |Pass(s, i, dirty).trace| ==>
              Pass(s, i, dirty).trace[j].id == s.watchers[i - 1 - j].id
    decreases i
  {
    if i > 0 {
      var (s1, step) := Visit(s, i - 1);
      if !step.ShortCircuit? {
        var d1 := dirty || (step.Fired? && !step.listenerThrew);
        var rest := Pass(s1, i - 1, d1);
        PassVisitsOldestFirst(s1, i - 1, d1);
        var trace := [Visited(s.watchers[i - 1].id, step)] + rest.trace;
        assert Pass(s, i, dirty).trace == trace;
        forall j | 0 <= j < |trace| ensures trace[j].id == s.watchers[i - 1 - j].id {
          if j > 0 {
            assert trace[j] == rest.trace[j - 1];
            assert rest.trace[j - 1].id == s1.watchers[i - 1 - j].id;
            assert s1.watchers[i - 1 - j].id == s.watchers[i - 1 - j].id;
          }
        }
      }
    }
  }

  /** The pass stops before the newest watcher only at a short circuit. */
  lemma {:induction false} PassStopsOnlyAtShortCircuit(s: Scope, i: nat, dirty: bool)
    requires i <= |s.watchers|
    ensures |Pass(s, i, dirty).trace| < i ==>
              |Pass(s, i, dirty).trace| > 0 && Pass(s, i, dirty).trace[|Pass(s, i, dirty).trace| - 1].step.ShortCircuit?
    decreases i
  {
    if i > 0 {
      var (s1, step) := Visit(s, i - 1);
      if !step.ShortCircuit? {
        var d1 := dirty || (step.Fired? && !step.listenerThrew);
        var rest := Pass(s1, i - 1, d1);
        PassStopsOnlyAtShortCircuit(s1, i - 1, d1);
        var trace := [Visited(s.watchers[i - 1].id, step)] + rest.trace;
        assert Pass(s, i, dirty).trace == trace;
        if |trace| < i {
          assert trace[|trace| - 1] == rest.trace[|rest.trace| - 1];
        }
      }
    }
  }

  /** A short circuit is always the last step of a pass. */
  lemma {:induction false} ShortCircuitEndsPass(s: Scope, i: nat, dirty: bool)
    requires i <= |s.watchers|
    ensures forall j :: 0 <= j < |Pass(s, i, dirty).trace| - 1 ==> !Pass(s, i, dirty).trace[j].step.ShortCircuit?
    decreases i
  {
    if i > 0 {
      var (s1, step) := Visit(s, i - 1);
      if !step.ShortCircuit? {
        var d1 := dirty || (step.Fired? && !step.listenerThrew);
        var rest := Pass(s1, i - 1, d1);
        ShortCircuitEndsPass(s1, i - 1, d1);
        var trace := [Visited(s.watchers[i - 1].id, step)] + rest.trace;
        assert Pass(s, i, dirty).trace == trace;
        forall j | 0 <= j < |trace| - 1 ensures !trace[j].step.ShortCircuit? {
          if j > 0 {
            assert trace[j] == rest.trace[j - 1];
          }
        }
      }
    }
  }

  /** Each recorded step agrees with the watcher as it stood before the pass;
      in particular a watcher never evaluated before always fires unless its
      watch function throws, and then with old value = new value. */
  lemma {:induction false} PassStepsAgree(s: Scope, i: nat, dirty: bool)
    requires i <= |s.watchers|
    ensures forall j :: 0 <= j < |Pass(s, i, dirty).trace| ==>
              StepAgrees(Pass(s, i, dirty).trace[j].step, s.watchers[i - 1 - j])
    decreases i
  {
    if i > 0 {
      var (s1, step) := Visit(s, i - 1);
      assert StepAgrees(step, s.watchers[i - 1]) by {
        if step.WatchThrew? {
          assert s.watchers[i - 1].watchFn(s.bag).Raised?;
        }
        if step.Fired? && step.listenerThrew {
          assert s.watchers[i - 1].listenerFn(step.newValue, step.oldValue, s.bag).outcome.Raised?;
        }
      }
      if !step.ShortCircuit? {
        var d1 := dirty || (step.Fired? && !step.listenerThrew);
        var rest := Pass(s1, i - 1, d1);
        PassStepsAgree(s1, i - 1, d1);
        var trace := [Visited(s.watchers[i - 1].id, step)] + rest.trace;
        assert Pass(s, i, dirty).trace == trace;
        forall j | 0 <= j < |trace| ensures StepAgrees(trace[j].step, s.watchers[i - 1 - j]) {
          if j > 0 {
            assert trace[j] == rest.trace[j - 1];
            assert StepAgrees(rest.trace[j - 1].step, s1.watchers[i - 1 - j]);
            assert s1.watchers[i - 1 - j] == s.watchers[i - 1 - j];
          }
        }
      }
    }
  }

  /** The pass reports dirty exactly when some listener it called returned
      normally: a throwing listener does not count. */
  lemma {:induction false} PassDirtyIff(s: Scope, i: nat, dirty: bool)
    requires i <= |s.watchers|
    ensures Pass(s, i, dirty).dirty <==> dirty || MarksDirty(Pass(s, i, dirty).trace)
    decreases i
  {
    if i > 0 {
      var (s1, step) := Visit(s, i - 1);
      var here := Visited(s.watchers[i - 1].id, step);
      if step.ShortCircuit? {
        assert !MarksDirty([here]);
      } else {
        var d1 := dirty || (step.Fired? && !step.listenerThrew);
        PassDirtyIff(s1, i - 1, d1);
        MarksDirtyCons(here, Pass(s1, i - 1, d1).trace);
      }
    }
  }

  lemma MarksDirtyCons(v: Visited, trace: seq<Visited>)
    ensures MarksDirty([v] + trace) <==> (v.step.Fired? && !v.step.listenerThrew) || MarksDirty(trace)
  {
    var t := [v] + trace;
    if MarksDirty(trace) {
      var j :| 0 <= j < |trace| && trace[j].step.Fired? && !trace[j].step.listenerThrew;
      assert t[j + 1] == trace[j];
    }
    if MarksDirty(t) && !(v.step.Fired? && !v.step.listenerThrew) {
      var j :| 0 <= j < |t| && t[j].step.Fired? && !t[j].step.listenerThrew;
      assert trace[j - 1] == t[j];
    }
    if v.step.Fired? && !v.step.listenerThrew {
      assert t[0] == v;
    }
  }

  /** `$$digestOnce()`: one pass over every watcher; answers whether some
      listener ran to completion. What the pass visits is stated by
      `DigestOnceScansOldestFirst`, kept apart so that unfolding the digest
      loop does not drag it along. */
  function DigestOnce(s: Scope): (r: PassResult)
    ensures SameShape(s.watchers, r.scope.watchers)
    ensures r.scope.phase == s.phase && r.scope.nextId == s.nextId
    ensures |r.trace| <= |s.watchers|
  {
    Pass(s, |s.watchers|, false)
  }

  /** One `$$digestOnce()` pass evaluates the watchers oldest first, stops
      before the newest only at a short circuit, and reports dirty exactly
      when some listener it called returned normally. */
  lemma DigestOnceScansOldestFirst(s: Scope)
    ensures forall j :: 0 <= j < |DigestOnce(s).trace| ==>
              DigestOnce(s).trace[j].id == s.watchers[|s.watchers| - 1 - j].id
    ensures |DigestOnce(s).trace| < |s.watchers| ==>
              |DigestOnce(s).trace| > 0 && DigestOnce(s).trace[|DigestOnce(s).trace| - 1].step.ShortCircuit?
    ensures forall j :: 0 <= j < |DigestOnce(s).trace| - 1 ==> !DigestOnce(s).trace[j].step.ShortCircuit?
    ensures DigestOnce(s).dirty <==> MarksDirty(DigestOnce(s).trace)
  {
    PassVisitsOldestFirst(s, |s.watchers|, false);
    PassStopsOnlyAtShortCircuit(s, |s.watchers|, false);
    ShortCircuitEndsPass(s, |s.watchers|, false);
    PassDirtyIff(s, |s.watchers|, false);
  }

  /** No listener ever adds work to queue `q`. */
  ghost predicate ListenersNeverQueue(ws: seq<Watcher>, q: QueueName) {
    forall j, n, o, b :: 0 <= j < |ws| ==> Tasks(ws[j].listenerFn(n, o, b).queued, q) == []
  }

  lemma SameShapeKeepsNeverQueue(a: seq<Watcher>, b: seq<Watcher>, q: QueueName)
    requires SameShape(a, b)
    requires ListenersNeverQueue(a, q)
    ensures ListenersNeverQueue(b, q)
  {
    forall j, n, o, bag | 0 <= j < |b| ensures Tasks(b[j].listenerFn(n, o, bag).queued, q) == [] {
      assert a[j].listenerFn == b[j].listenerFn;
    }
  }

  /** When no listener adds work to queue `q`, a pass leaves that queue as it
      found it. */
  lemma {:induction false} PassKeepsQueue(s: Scope, i: nat, dirty: bool, q: QueueName)
    requires i <= |s.watchers|
    requires ListenersNeverQueue(s.watchers, q)
    ensures Queue(Pass(s, i, dirty).scope, q) == Queue(s, q)
    decreases i
  {
    if i > 0 {
      var (s1, step) := Visit(s, i - 1);
      VisitPerformsListenerCalls(s, i - 1);
      assert Queue(s1, q) == Queue(s, q);
      if !step.ShortCircuit? {
        var d1 := dirty || (step.Fired? && !step.listenerThrew);
        SameShapeKeepsNeverQueue(s.watchers, s1.watchers, q);
        PassKeepsQueue(s1, i - 1, d1, q);
      }
    }
  }

  /** Some step of the trace called its listener. */
  ghost predicate AnyFired(trace: seq<Visited>) {
    exists j :: 0 <= j < |trace| && trace[j].step.Fired?
  }

  ghost predicate EndsInShortCircuit(trace: seq<Visited>) {
    |trace| > 0 && trace[|trace| - 1].step.ShortCircuit?
  }

  /** No watcher still to be evaluated, at positions below `i`, is the last
      dirty watcher. */
  ghost predicate MarkBehind(s: Scope, i: nat) {
    forall j :: 0 <= j < i && j < |s.watchers| ==> s.lastDirty != Some(s.watchers[j].id)
  }

  /** The last dirty watcher marker is sound: every watcher the pass would
      evaluate after it, at lower positions, is settled. */
  ghost predicate MarkSound(s: Scope) {
    match s.lastDirty
    case None => true
    case Some(id) =>
      && IndexOf(s.watchers, id) >= 0
      && forall j :: 0 <= j < IndexOf(s.watchers, id) ==> Settled(s.watchers[j], s.bag)
  }

  /** When the last dirty watcher is not among the watchers still to be
      evaluated, the pass cannot short-circuit and evaluates all of them. */
  lemma {:induction false} FullPassWhenMarkBehind(s: Scope, i: nat, dirty: bool)
    requires i <= |s.watchers|
    requires UniqueIds(s.watchers)
    requires MarkBehind(s, i)
    ensures |Pass(s, i, dirty).trace| == i
    ensures forall j :: 0 <= j < |Pass(s, i, dirty).trace| ==> !Pass(s, i, dirty).trace[j].step.ShortCircuit?
    decreases i
  {
    if i > 0 {
      var (s1, step) := Visit(s, i - 1);
      assert !step.ShortCircuit?;
      var d1 := dirty || (step.Fired? && !step.listenerThrew);
      SameShapeKeepsIds(s.watchers, s1.watchers);
      assert MarkBehind(s1, i - 1) by {
        forall j | 0 <= j < i - 1 ensures s1.lastDirty != Some(s1.watchers[j].id) {
          assert s.watchers[j].id != s.watchers[i - 1].id;
        }
      }
      var rest := Pass(s1, i - 1, d1);
      FullPassWhenMarkBehind(s1, i - 1, d1);
      var trace := [Visited(s.watchers[i - 1].id, step)] + rest.trace;
      assert Pass(s, i, dirty).trace == trace;
      forall j | 0 <= j < |trace| ensures !trace[j].step.ShortCircuit? {
        if j > 0 {
          assert trace[j] == rest.trace[j - 1];
        }
      }
    }
  }

  /** The first pass of a digest, which starts with no last dirty watcher,
      evaluates every watcher. */
  lemma FirstPassVisitsAll(s: Scope)
    requires UniqueIds(s.watchers)
    requires s.lastDirty == None
    ensures |DigestOnce(s).trace| == |s.watchers|
  {
    FullPassWhenMarkBehind(s, |s.watchers|, false);
  }

  /** A pass that calls no listener changes nothing, and every watcher it
      evaluated is settled; if it short-circuited, it did so at the last
      dirty watcher. */
  lemma {:induction false} QuietPassChangesNothing(s: Scope, i: nat, dirty: bool)
    requires i <= |s.watchers|
    ensures !AnyFired(Pass(s, i, dirty).trace) ==> Pass(s, i, dirty).scope == s
    ensures !AnyFired(Pass(s, i, dirty).trace) ==>
              forall k :: i - |Pass(s, i, dirty).trace| <= k < i ==> Settled(s.watchers[k], s.bag)
    ensures !AnyFired(Pass(s, i, dirty).trace) && EndsInShortCircuit(Pass(s, i, dirty).trace) ==>
              s.lastDirty == Some(s.watchers[i - |Pass(s, i, dirty).trace|].id)
    decreases i
  {
    if i > 0 {
      var (s1, step) := Visit(s, i - 1);
      var here := Visited(s.watchers[i - 1].id, step);
      if step.ShortCircuit? {
        AnyFiredCons(here, []);
        assert [here] + [] == [here];
      } else {
        var d1 := dirty || (step.Fired? && !step.listenerThrew);
        var rest := Pass(s1, i - 1, d1);
        assert Pass(s, i, dirty) == PassResult(rest.scope, rest.dirty, [here] + rest.trace);
        AnyFiredCons(here, rest.trace);
        if !step.Fired? {
          assert s1 == s;
          QuietPassChangesNothing(s1, i - 1, d1);
          if |rest.trace| > 0 {
            EndsInShortCircuitCons(here, rest.trace);
          }
        }
      }
    }
  }

  lemma AnyFiredCons(v: Visited, trace: seq<Visited>)
    ensures AnyFired([v] + trace) <==> v.step.Fired? || AnyFired(trace)
  {
    var t := [v] + trace;
    if AnyFired(trace) {
      var j :| 0 <= j < |trace| && trace[j].step.Fired?;
      assert t[j + 1] == trace[j];
    }
    if AnyFired(t) && !v.step.Fired? {
      var j :| 0 <= j < |t| && t[j].step.Fired?;
      assert trace[j - 1] == t[j];
    }
    if v.step.Fired? {
      assert t[0] == v;
    }
  }

  lemma EndsInShortCircuitCons(v: Visited, trace: seq<Visited>)
    requires |trace| > 0
    ensures EndsInShortCircuit([v] + trace) <==> EndsInShortCircuit(trace)
  {
    assert ([v] + trace)[|trace|] == trace[|trace| - 1];
  }

  /** Once watcher `i - 1` fires, it is the last dirty watcher, so none of the
      watchers still to be evaluated is. */
  lemma FiringMarksBehind(s: Scope, i: nat)
    requires 0 < i <= |s.watchers|
    requires UniqueIds(s.watchers)
    ensures Visit(s, i - 1).1.Fired? ==> MarkBehind(Visit(s, i - 1).0, i - 1)
  {
    var (s1, step) := Visit(s, i - 1);
    if step.Fired? {
      forall j | 0 <= j < i - 1 ensures s1.lastDirty != Some(s1.watchers[j].id) {
        assert s.watchers[j].id != s.watchers[i - 1].id;
      }
    }
  }

  /** A pass that calls a listener never short-circuits afterwards: the last
      dirty watcher is then one the pass has already evaluated. */
  lemma {:induction false} FiringPassRunsToTheEnd(s: Scope, i: nat, dirty: bool)
    requires i <= |s.watchers|
    requires UniqueIds(s.watchers)
    ensures AnyFired(Pass(s, i, dirty).trace) ==> !EndsInShortCircuit(Pass(s, i, dirty).trace)
    decreases i
  {
    if i > 0 {
      var (s1, step) := Visit(s, i - 1);
      var here := Visited(s.watchers[i - 1].id, step);
      if step.ShortCircuit? {
        AnyFiredCons(here, []);
        assert [here] + [] == [here];
      } else {
        var d1 := dirty || (step.Fired? && !step.listenerThrew);
        var rest := Pass(s1, i - 1, d1).trace;
        SameShapeKeepsIds(s.watchers, s1.watchers);
        assert Pass(s, i, dirty).trace == [here] + rest;
        AnyFiredCons(here, rest);
        if |rest| == 0 {
          assert ([here] + rest)[0] == here;
        } else {
          EndsInShortCircuitCons(here, rest);
          FiringMarksBehind(s, i);
          if step.Fired? {
            FullPassWhenMarkBehind(s1, i - 1, d1);
            assert !rest[|rest| - 1].step.ShortCircuit?;
          } else {
            FiringPassRunsToTheEnd(s1, i - 1, d1);
          }
        }
      }
    }
  }

  /** A pass over positions below the last dirty watcher's that fires
      nothing leaves a sound marker: it visits and settles all of them. */
  lemma QuietPassBelowMarkIsSound(s: Scope, i: nat, dirty: bool)
    requires i < |s.watchers|
    requires UniqueIds(s.watchers)
    requires s.lastDirty == Some(s.watchers[i].id)
    ensures !AnyFired(Pass(s, i, dirty).trace) ==> MarkSound(Pass(s, i, dirty).scope)
  {
    assert MarkBehind(s, i) by {
      forall j | 0 <= j < i ensures s.lastDirty != Some(s.watchers[j].id) {
        assert s.watchers[j].id != s.watchers[i].id;
      }
    }
    FullPassWhenMarkBehind(s, i, dirty);
    QuietPassChangesNothing(s, i, dirty);
    IndexOfUnique(s.watchers, i);
  }

  /** After a pass that called some listener, the marker names the last
      watcher that fired, and every watcher evaluated after it is settled. */
  lemma {:induction false} FiringPassLeavesMarkSound(s: Scope, i: nat, dirty: bool)
    requires i <= |s.watchers|
    requires UniqueIds(s.watchers)
    ensures AnyFired(Pass(s, i, dirty).trace) ==> MarkSound(Pass(s, i, dirty).scope)
    decreases i
  {
    if i > 0 {
      var (s1, step) := Visit(s, i - 1);
      var here := Visited(s.watchers[i - 1].id, step);
      if step.ShortCircuit? {
        AnyFiredCons(here, []);
        assert [here] + [] == [here];
      } else {
        var d1 := dirty || (step.Fired? && !step.listenerThrew);
        var rest := Pass(s1, i - 1, d1);
        SameShapeKeepsIds(s.watchers, s1.watchers);
        assert Pass(s, i, dirty) == PassResult(rest.scope, rest.dirty, [here] + rest.trace);
        AnyFiredCons(here, rest.trace);
        FiringPassLeavesMarkSound(s1, i - 1, d1);
        if step.Fired? {
          QuietPassBelowMarkIsSound(s1, i - 1, d1);
        }
      }
    }
  }

  /** A pass keeps the marker sound. */
  lemma PassKeepsMarkSound(s: Scope)
    requires UniqueIds(s.watchers)
    requires MarkSound(s)
    ensures MarkSound(DigestOnce(s).scope)
  {
    FiringPassLeavesMarkSound(s, |s.watchers|, false);
    QuietPassChangesNothing(s, |s.watchers|, false);
  }

  /** When no listener throws, a pass that reports clean called no listener. */
  lemma CleanPassCalledNoListener(s: Scope)
    requires ListenersReturn(s.watchers)
    ensures !DigestOnce(s).dirty ==> !AnyFired(DigestOnce(s).trace)
  {
    var r := DigestOnce(s);
    DigestOnceScansOldestFirst(s);
    PassStepsAgree(s, |s.watchers|, false);
    forall j | 0 <= j < |r.trace| && r.trace[j].step.Fired?
      ensures !r.trace[j].step.listenerThrew
    {
      var w := s.watchers[|s.watchers| - 1 - j];
      assert StepAgrees(r.trace[j].step, w);
      assert forall n, o, b :: w.listenerFn(n, o, b).outcome.Returned?;
    }
  }

  /** The short circuit is safe: when the marker is sound and no listener
      throws, a pass that reports clean leaves the scope as it was, with every
      watcher settled, including those the short circuit skipped. */
  lemma CleanPassSettlesAll(s: Scope)
    requires UniqueIds(s.watchers)
    requires MarkSound(s)
    requires ListenersReturn(s.watchers)
    ensures !DigestOnce(s).dirty ==> DigestOnce(s).scope == s && AllSettled(s)
  {
    var n := |s.watchers|;
    var r := DigestOnce(s);
    CleanPassCalledNoListener(s);
    QuietPassChangesNothing(s, n, false);
    PassStopsOnlyAtShortCircuit(s, n, false);
    if !r.dirty {
      forall k | 0 <= k < n ensures Settled(s.watchers[k], s.bag) {
        if k < n - |r.trace| {
          var id := s.watchers[n - |r.trace|].id;
          IndexOfUnique(s.watchers, n - |r.trace|);
          assert s.lastDirty == Some(id);
        }
      }
    }
  }
}
