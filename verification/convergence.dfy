/** What a digest achieves: with the corrected loop, a digest that ends
    normally leaves no watcher that would fire; the loop as written does too
    as long as no async work is queued, and so do `$digest` and `$apply` as
    written; and a newly registered watcher always fires on its first pass
    (src/scope.js:25-34, 45-68, 70-129). */
module Convergence {
  import opened Values
  import opened ScopeState
  import opened Queues
  import opened Registry
  import opened DigestPass
  import opened DigestCycle

  lemma SameShapeKeepsListeners(a: seq<Watcher>, b: seq<Watcher>)
    requires SameShape(a, b)
    requires ListenersReturn(a)
    ensures ListenersReturn(b)
  {
    forall j, n, o, bag | 0 <= j < |b| ensures b[j].listenerFn(n, o, bag).outcome.Returned? {
      assert a[j].listenerFn == b[j].listenerFn;
    }
  }

  /** What the convergence argument carries from round to round: unique
      identities, a sound marker, and listeners that return normally. */
  ghost predicate Converging(s: Scope) {
    UniqueIds(s.watchers) && MarkSound(s) && ListenersReturn(s.watchers)
  }

  /** A round of the corrected loop keeps the invariants: the drain leaves
      the marker untouched with the scope as it was, or forgets it, and the
      pass keeps it sound. */
  lemma RoundKeepsConverging(s: Scope, d: Scope, fuel: nat)
    requires Drain(s, AsyncQ, fuel, true) == Some(d)
    requires Converging(s)
    ensures Converging(d)
    ensures Converging(DigestOnce(d).scope)
  {
    PassKeepsMarkSound(d);
    SameShapeKeepsIds(d.watchers, DigestOnce(d).scope.watchers);
    SameShapeKeepsListeners(d.watchers, DigestOnce(d).scope.watchers);
  }

  /** One round of the corrected loop, given that the rounds after it settle
      every watcher when they end normally. */
  lemma RoundSettlesAll(s: Scope, d: Scope, ttl: nat, fuel: nat)
    requires Drain(s, AsyncQ, fuel, true) == Some(d)
    requires Converging(s)
    requires ttl > 0 && (DigestOnce(d).dirty || |DigestOnce(d).scope.asyncQueue| > 0) ==>
               (Loop(DigestOnce(d).scope, ttl - 1, fuel, true).exit.Normal? ==>
                  AllSettled(Loop(DigestOnce(d).scope, ttl - 1, fuel, true).scope))
    ensures Loop(s, ttl, fuel, true).exit.Normal? ==> AllSettled(Loop(s, ttl, fuel, true).scope)
  {
    var p := DigestOnce(d);
    if p.dirty || |p.scope.asyncQueue| > 0 {
      if ttl > 0 {
        RoundGoesOn(s, d, ttl, fuel, true);
      } else {
        RoundThrows(s, d, fuel, true);
      }
    } else {
      RoundKeepsConverging(s, d, fuel);
      CleanPassSettlesAll(d);
      RoundEnds(s, d, ttl, fuel, true);
    }
  }

  /** The corrected loop ends normally only when every watcher is settled:
      the pass reported clean and no async work is left, and the marker the
      pass short-circuits at never hides a watcher an async task disturbed. */
  lemma {:induction false} LoopSettlesAll(s: Scope, ttl: nat, fuel: nat)
    requires UniqueIds(s.watchers)
    requires MarkSound(s)
    requires ListenersReturn(s.watchers)
    ensures Loop(s, ttl, fuel, true).exit.Normal? ==> AllSettled(Loop(s, ttl, fuel, true).scope)
    decreases ttl
  {
    var d := Drain(s, AsyncQ, fuel, true);
    if d.None? {
      RoundHangs(s, ttl, fuel, true);
    } else {
      if ttl > 0 {
        RoundKeepsConverging(s, d.value, fuel);
        LoopSettlesAll(DigestOnce(d.value).scope, ttl - 1, fuel);
      }
      RoundSettlesAll(s, d.value, ttl, fuel);
    }
  }

  /** With nothing queued for `$evalAsync` and no listener that calls it, the
      async drain never runs a task, so forgetting the marker after each task
      makes no difference: the loop as written is the corrected loop. When no
      listener calls `$$postDigest` either, the loop leaves that queue alone. */
  lemma {:induction false} LoopWithoutAsyncWork(s: Scope, ttl: nat, fuel: nat)
    requires |s.asyncQueue| == 0
    requires ListenersNeverQueue(s.watchers, AsyncQ)
    ensures Loop(s, ttl, fuel, false) == Loop(s, ttl, fuel, true)
    ensures ListenersNeverQueue(s.watchers, PostDigestQ) ==>
              Loop(s, ttl, fuel, false).scope.postDigestQueue == s.postDigestQueue
    decreases ttl
  {
    assert Drain(s, AsyncQ, fuel, false) == Some(s);
    assert Drain(s, AsyncQ, fuel, true) == Some(s);
    var p := DigestOnce(s);
    PassKeepsQueue(s, |s.watchers|, false, AsyncQ);
    if ListenersNeverQueue(s.watchers, PostDigestQ) {
      PassKeepsQueue(s, |s.watchers|, false, PostDigestQ);
    }
    if p.dirty && ttl > 0 {
      SameShapeKeepsNeverQueue(s.watchers, p.scope.watchers, AsyncQ);
      if ListenersNeverQueue(s.watchers, PostDigestQ) {
        SameShapeKeepsNeverQueue(s.watchers, p.scope.watchers, PostDigestQ);
      }
      LoopWithoutAsyncWork(p.scope, ttl - 1, fuel);
    }
  }

  /** The loop as the source writes it settles every watcher when it ends
      normally, provided no async work is ever queued: then the stale marker
      cannot hide a watcher that an async task disturbed. */
  lemma LoopAsWrittenSettlesAll(s: Scope, ttl: nat, fuel: nat)
    requires UniqueIds(s.watchers)
    requires MarkSound(s)
    requires ListenersReturn(s.watchers)
    requires |s.asyncQueue| == 0
    requires ListenersNeverQueue(s.watchers, AsyncQ)
    ensures Loop(s, ttl, fuel, false).exit.Normal? ==> AllSettled(Loop(s, ttl, fuel, false).scope)
  {
    LoopWithoutAsyncWork(s, ttl, fuel);
    LoopSettlesAll(s, ttl, fuel);
  }

  /** The whole `$digest` as the source writes it, post-digest drain
      included, returns with every watcher settled when nothing is queued and
      no listener queues async or post-digest work. */
  lemma DigestAsWrittenSettlesAll(s: Scope, fuel: nat)
    requires s.phase == NoPhase && !s.applyAsyncPending
    requires |s.asyncQueue| == 0 && |s.postDigestQueue| == 0
    requires UniqueIds(s.watchers)
    requires ListenersReturn(s.watchers)
    requires ListenersNeverQueue(s.watchers, AsyncQ) && ListenersNeverQueue(s.watchers, PostDigestQ)
    ensures DigestAsWritten(s, fuel).exit.Normal? ==> AllSettled(DigestAsWritten(s, fuel).scope)
  {
    var s1 := s.(lastDirty := None, phase := InDigest);
    DigestWithoutPendingFlush(s, fuel, false);
    LoopAsWrittenSettlesAll(s1, Ttl, fuel);
    LoopWithoutAsyncWork(s1, Ttl, fuel);
    var l := Loop(s1, Ttl, fuel, false);
    if l.exit.Normal? {
      assert Drain(ClearPhase(l.scope), PostDigestQ, fuel, false) == Some(ClearPhase(l.scope));
    }
  }

  /** `$apply` as the source writes it returns with every watcher settled
      when the expression makes no queueing call and, as for
      `DigestAsWrittenSettlesAll`, no other deferred work is around. */
  lemma ApplyAsWrittenSettlesAll(s: Scope, t: Task, fuel: nat)
    requires s.phase == NoPhase && !s.applyAsyncPending
    requires |s.asyncQueue| == 0 && |s.postDigestQueue| == 0
    requires UniqueIds(s.watchers)
    requires ListenersReturn(s.watchers)
    requires ListenersNeverQueue(s.watchers, AsyncQ) && ListenersNeverQueue(s.watchers, PostDigestQ)
    requires t.run(s.bag).queued == []
    ensures Apply(s, t, fuel, false).exit.Normal? ==> AllSettled(Apply(s, t, fuel, false).scope)
  {
    var e := ClearPhase(Eval(s.(phase := InApply), t).0);
    assert e == s.(bag := t.run(s.bag).after);
    ApplyEvalsThenDigests(s, t, fuel, false);
    DigestAsWrittenSettlesAll(e, fuel);
  }

  /** The digest enters its loop with no last dirty watcher, so when the loop
      ends normally every watcher is settled; the post-digest queue runs only
      after that. */
  lemma DigestLoopSettlesAll(s: Scope, fuel: nat)
    requires UniqueIds(s.watchers)
    requires ListenersReturn(s.watchers)
    requires s.lastDirty == None
    ensures Loop(s, Ttl, fuel, true).exit.Normal? ==> AllSettled(Loop(s, Ttl, fuel, true).scope)
  {
    LoopSettlesAll(s, Ttl, fuel);
  }

  /** A watcher just registered is evaluated last in the next pass, which
      visits every watcher. It fires unless its watch function throws, with
      the new value handed over as both new and old value; a watch function
      that never throws always fires. */
  lemma NewWatcherFiresOnFirstPass(s: Scope, watchFn: WatchFn, listenerFn: Option<ListenerFn>, valueEq: Value)
    requires WellFormed(s)
    ensures var (t, id) := Watch(s, watchFn, listenerFn, valueEq);
            var r := DigestOnce(t);
            && |r.trace| == |s.watchers| + 1
            && r.trace[|s.watchers|].id == id
            && (r.trace[|s.watchers|].step.Fired? || r.trace[|s.watchers|].step.WatchThrew?)
            && (r.trace[|s.watchers|].step.Fired? ==>
                  r.trace[|s.watchers|].step.oldValue == r.trace[|s.watchers|].step.newValue)
            && ((forall b :: watchFn(b).Returned?) ==> r.trace[|s.watchers|].step.Fired?)
  {
    var (t, id) := Watch(s, watchFn, listenerFn, valueEq);
    var n := |t.watchers|;
    FirstPassVisitsAll(t);
    DigestOnceScansOldestFirst(t);
    PassStepsAgree(t, n, false);
    var r := DigestOnce(t);
    assert StepAgrees(r.trace[n - 1].step, t.watchers[0]);
    if forall b :: watchFn(b).Returned? {
      assert !r.trace[n - 1].step.WatchThrew? by {
        assert forall b :: t.watchers[0].watchFn(b).Returned?;
      }
    }
  }
}
