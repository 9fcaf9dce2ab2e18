/** The digest loop and the entry points built on it: `$digest`, `$apply`,
    the phase guard and the two kinds of timer callback
    (src/scope.js:70-106, 121-152, 179-183). */
module DigestCycle {
  import opened Values
  import opened ScopeState
  import opened Queues
  import opened DigestPass

  /** The number of extra passes `$digest` allows: `ttl` starts at 10 and the
      loop throws when a pass is still dirty with `ttl` already at 0. */
  const Ttl: nat := 10

  /** How a public entry point left the scope and how it ended. */
  datatype Run = Run(scope: Scope, exit: Exit)

  /** The digest loop's scope, how it ended, and how many passes it ran. */
  datatype LoopResult = LoopResult(scope: Scope, exit: Exit, passes: nat)

  function PhaseName(p: Phase): string {
    match p
    case NoPhase => "null"
    case InDigest => "$digest"
    case InApply => "$apply"
  }

  /** The value an entry point throws for a fault. */
  function Message(f: Fault): (m: Value)
    ensures f.TtlExceeded? ==> m == Str("10 digest iterations reached.")
    ensures f.Busy? ==> m.Str? && m.s == PhaseName(f.phase) + " already in progress."
    ensures f.Thrown? ==> m == f.error
  {
    match f
    case Thrown(v) => v
    case Busy(p) => Str(PhaseName(p) + " already in progress.")
    case TtlExceeded => Str("10 digest iterations reached.")
  }

  /** `$beginPhase(phase)`: refuses, with `Busy` of the active phase, when a
      phase is already active, and otherwise enters `p`. */
  function BeginPhase(s: Scope, p: Phase): (r: Option<Scope>)
    ensures r.Some? <==> s.phase == NoPhase
    ensures r.Some? ==> r.value.phase == p && r.value == s.(phase := p)
  {
    if s.phase != NoPhase then None else Some(s.(phase := p))
  }

  /** `$clearPhase()`. */
  function ClearPhase(s: Scope): (r: Scope)
    ensures r.phase == NoPhase && r == s.(phase := NoPhase)
  {
    s.(phase := NoPhase)
  }

  /** Leaving a phase undoes entering it. */
  lemma ClearPhaseUndoesBeginPhase(s: Scope, p: Phase)
    requires s.phase == NoPhase
    ensures BeginPhase(s, p).Some? && ClearPhase(BeginPhase(s, p).value) == s
  {
  }

  /** The `do { ... } while (dirty || asyncQueue.length)` loop of `$digest`.
      Each round drains the async queue, runs one pass, and goes round again
      while the pass was dirty or the queue refilled; a round that would go
      round again with no `ttl` left clears the phase and throws. With
      `resetDirty` the last dirty watcher is forgotten after each async task. */
  function Loop(s: Scope, ttl: nat, fuel: nat, resetDirty: bool): (r: LoopResult)
    ensures r.exit.Normal? || r.exit == Abrupt(TtlExceeded) || r.exit.Hang?
    ensures r.exit.Normal? ==> |r.scope.asyncQueue| == 0 && r.scope.phase == s.phase
    ensures r.exit.Normal? ==> 1 <= r.passes <= ttl + 1
    ensures r.exit.Abrupt? ==> r.passes == ttl + 1 && r.scope.phase == NoPhase
    ensures !r.exit.Hang? ==> SameShape(s.watchers, r.scope.watchers) && r.scope.nextId == s.nextId
    decreases ttl
  {
    match Drain(s, AsyncQ, fuel, resetDirty)
    case None => LoopResult(s, Hang, 0)
    case Some(s1) =>
      var p := DigestOnce(s1);
      if !p.dirty && |p.scope.asyncQueue| == 0 then LoopResult(p.scope, Normal(Undefined), 1)
      else if ttl == 0 then LoopResult(ClearPhase(p.scope), Abrupt(TtlExceeded), 1)
      else
        var r := Loop(p.scope, ttl - 1, fuel, resetDirty);
        SameShapeTrans(s1.watchers, p.scope.watchers, r.scope.watchers);
        r.(passes := r.passes + 1)
  }

  /** A round whose drain leaves `d` and whose pass on `d` finds nothing to
      do and queues nothing ends the loop normally. */
  lemma RoundEnds(s: Scope, d: Scope, ttl: nat, fuel: nat, resetDirty: bool)
    requires Drain(s, AsyncQ, fuel, resetDirty) == Some(d)
    requires !DigestOnce(d).dirty && |DigestOnce(d).scope.asyncQueue| == 0
    ensures Loop(s, ttl, fuel, resetDirty).exit == Normal(Undefined)
    ensures Loop(s, ttl, fuel, resetDirty).scope == DigestOnce(d).scope
  {
  }

  /** A round whose drain does not finish hangs the loop. */
  lemma RoundHangs(s: Scope, ttl: nat, fuel: nat, resetDirty: bool)
    requires Drain(s, AsyncQ, fuel, resetDirty).None?
    ensures Loop(s, ttl, fuel, resetDirty).exit == Hang
  {
  }

  /** A round whose drain leaves `d` and whose pass on `d` is dirty or queues
      async work throws when no `ttl` is left. */
  lemma RoundThrows(s: Scope, d: Scope, fuel: nat, resetDirty: bool)
    requires Drain(s, AsyncQ, fuel, resetDirty) == Some(d)
    requires DigestOnce(d).dirty || |DigestOnce(d).scope.asyncQueue| > 0
    ensures Loop(s, 0, fuel, resetDirty).exit == Abrupt(TtlExceeded)
    ensures Loop(s, 0, fuel, resetDirty).scope == ClearPhase(DigestOnce(d).scope)
  {
  }

  /** A round whose drain leaves `d` and whose pass on `d` is dirty or queues
      async work goes round again while `ttl` lasts. */
  lemma RoundGoesOn(s: Scope, d: Scope, ttl: nat, fuel: nat, resetDirty: bool)
    requires Drain(s, AsyncQ, fuel, resetDirty) == Some(d)
    requires DigestOnce(d).dirty || |DigestOnce(d).scope.asyncQueue| > 0
    requires ttl > 0
    ensures Loop(s, ttl, fuel, resetDirty).exit == Loop(DigestOnce(d).scope, ttl - 1, fuel, resetDirty).exit
    ensures Loop(s, ttl, fuel, resetDirty).scope == Loop(DigestOnce(d).scope, ttl - 1, fuel, resetDirty).scope
  {
  }

  /** Round `j` of a run through the scopes `states`: the async drain
      finishes, and the pass after it is dirty or leaves async work queued,
      and leads to `states(j + 1)`. */
  ghost predicate BusyRound(states: nat -> Scope, j: nat, fuel: nat, resetDirty: bool) {
    match Drain(states(j), AsyncQ, fuel, resetDirty)
    case None => false
    case Some(d) =>
      && (DigestOnce(d).dirty || |DigestOnce(d).scope.asyncQueue| > 0)
      && DigestOnce(d).scope == states(j + 1)
  }

  lemma BusyRoundThrows(states: nat -> Scope, k: nat, fuel: nat, resetDirty: bool)
    requires BusyRound(states, k, fuel, resetDirty)
    ensures Loop(states(k), 0, fuel, resetDirty).exit == Abrupt(TtlExceeded)
    ensures Loop(states(k), 0, fuel, resetDirty).passes == 1
  {
  }

  /** A busy round with TTL left goes on: the loop is the loop from the
      next scope, one pass longer. */
  lemma BusyRoundCarries(states: nat -> Scope, k: nat, ttl: nat, fuel: nat, resetDirty: bool)
    requires BusyRound(states, k, fuel, resetDirty)
    requires ttl > 0
    ensures var r := Loop(states(k + 1), ttl - 1, fuel, resetDirty);
            Loop(states(k), ttl, fuel, resetDirty) == r.(passes := r.passes + 1)
  {
  }

  /** When `ttl + 1` rounds in a row each end with a dirty pass or with async
      work queued again, the loop throws on the last of them, pass `ttl + 1`:
      `states(j)` is the scope before round `j`. */
  lemma {:induction false} BusyRoundsExhaustTtl(states: nat -> Scope, k: nat, ttl: nat, fuel: nat, resetDirty: bool)
    requires forall j: nat :: k <= j <= k + ttl ==> BusyRound(states, j, fuel, resetDirty)
    ensures Loop(states(k), ttl, fuel, resetDirty).exit == Abrupt(TtlExceeded)
    ensures Loop(states(k), ttl, fuel, resetDirty).passes == ttl + 1
    decreases ttl
  {
    if ttl > 0 {
      BusyRoundsExhaustTtl(states, k + 1, ttl - 1, fuel, resetDirty);
      BusyRoundCarries(states, k, ttl, fuel, resetDirty);
    } else {
      BusyRoundThrows(states, k, fuel, resetDirty);
    }
  }

  /** A round that starts with nothing queued and whose pass is dirty. */
  ghost predicate DirtyRound(states: nat -> Scope, j: nat) {
    && |states(j).asyncQueue| == 0
    && DigestOnce(states(j)).dirty
    && DigestOnce(states(j)).scope == states(j + 1)
  }

  lemma DirtyRoundIsBusy(states: nat -> Scope, j: nat, fuel: nat, resetDirty: bool)
    requires DirtyRound(states, j)
    ensures BusyRound(states, j, fuel, resetDirty)
  {
    assert Drain(states(j), AsyncQ, fuel, resetDirty) == Some(states(j));
  }

  /** The part of `$digest` after the phase is entered and the apply-async
      batch is flushed: the loop, then clearing the phase, then one drain of
      the post-digest queue. A loop that throws or hangs leaves the
      post-digest queue as the loop left it, unrun. */
  function Settle(s: Scope, fuel: nat, resetDirty: bool): (r: Run)
    ensures r.exit.Normal? ==> r.exit.value == Undefined && |r.scope.postDigestQueue| == 0
    ensures r.exit.Abrupt? ==> r.exit.fault == TtlExceeded
    ensures !r.exit.Hang? ==> r.scope.phase == NoPhase
    ensures !r.exit.Hang? ==> SameShape(s.watchers, r.scope.watchers) && r.scope.nextId == s.nextId
    ensures !r.exit.Normal? ==> r.scope.postDigestQueue == Loop(s, Ttl, fuel, resetDirty).scope.postDigestQueue
  {
    var l := Loop(s, Ttl, fuel, resetDirty);
    if !l.exit.Normal? then Run(l.scope, l.exit)
    else
      match Drain(ClearPhase(l.scope), PostDigestQ, fuel, false)
      case None => Run(ClearPhase(l.scope), Hang)
      case Some(s3) => Run(s3, Normal(Undefined))
  }

  /** After a loop that ends normally, the post-digest tasks run first-in
      first-out on the property bag the loop left, provided none of them
      calls `$$postDigest` again. */
  lemma SettleRunsPostDigestInOrder(s: Scope, fuel: nat, resetDirty: bool)
    requires Loop(s, Ttl, fuel, resetDirty).exit.Normal?
    requires |Loop(s, Ttl, fuel, resetDirty).scope.postDigestQueue| <= fuel
    requires forall i :: 0 <= i < |Loop(s, Ttl, fuel, resetDirty).scope.postDigestQueue| ==>
               StaysOut(Loop(s, Ttl, fuel, resetDirty).scope.postDigestQueue[i], PostDigestQ)
    ensures Settle(s, fuel, resetDirty).exit == Normal(Undefined)
    ensures Settle(s, fuel, resetDirty).scope.bag ==
              RunAll(Loop(s, Ttl, fuel, resetDirty).scope.bag, Loop(s, Ttl, fuel, resetDirty).scope.postDigestQueue)
  {
    var l := Loop(s, Ttl, fuel, resetDirty).scope;
    DrainRunsInOrder(ClearPhase(l), PostDigestQ, fuel, false);
  }

  /** `$digest()`, with the async drain either forgetting the last dirty
      watcher after each task (`resetDirty`) or not, as the source does. */
  function DigestWith(s: Scope, fuel: nat, resetDirty: bool): (r: Run)
    ensures s.phase != NoPhase ==> r.scope == s.(lastDirty := None) && r.exit == Abrupt(Busy(s.phase))
    ensures s.phase == NoPhase ==> !r.exit.Hang? ==> r.scope.phase == NoPhase
    ensures s.phase == NoPhase ==> r.exit.Normal? || r.exit == Abrupt(TtlExceeded) || r.exit.Hang?
    ensures r.exit.Normal? ==> r.exit.value == Undefined && |r.scope.postDigestQueue| == 0
    ensures !r.exit.Hang? ==> SameShape(s.watchers, r.scope.watchers) && r.scope.nextId == s.nextId
  {
    var s0 := s.(lastDirty := None);
    match BeginPhase(s0, InDigest)
    case None => Run(s0, Abrupt(Busy(s.phase)))
    case Some(s1) =>
      if !s1.applyAsyncPending then Settle(s1, fuel, resetDirty)
      else
        match FlushApplyAsync(s1, fuel)
        case None => Run(s1, Hang)
        case Some(s2) => Settle(s2, fuel, resetDirty)
  }

  /** With no flush pending, a digest enters the `$digest` phase with the
      marker cleared and goes straight to the loop. */
  lemma DigestWithoutPendingFlush(s: Scope, fuel: nat, resetDirty: bool)
    requires s.phase == NoPhase && !s.applyAsyncPending
    ensures DigestWith(s, fuel, resetDirty) == Settle(s.(lastDirty := None, phase := InDigest), fuel, resetDirty)
  {
    assert s.(lastDirty := None).(phase := InDigest) == s.(lastDirty := None, phase := InDigest);
  }

  /** With a flush pending, a digest first runs the whole apply-async batch
      first-in first-out, clears the flush timer, and only then starts the
      loop; this assumes no task of the batch calls `$applyAsync` again. */
  lemma DigestFlushesBatchFirst(s: Scope, fuel: nat, resetDirty: bool)
    requires s.phase == NoPhase && s.applyAsyncPending
    requires |s.applyAsyncQueue| <= fuel
    requires forall i :: 0 <= i < |s.applyAsyncQueue| ==> StaysOut(s.applyAsyncQueue[i], ApplyAsyncQ)
    ensures FlushApplyAsync(s.(lastDirty := None, phase := InDigest), fuel).Some?
    ensures var f := FlushApplyAsync(s.(lastDirty := None, phase := InDigest), fuel).value;
            && f.bag == RunAll(s.bag, s.applyAsyncQueue)
            && |f.applyAsyncQueue| == 0 && !f.applyAsyncPending
            && f.phase == InDigest && f.lastDirty == None && f.watchers == s.watchers
            && DigestWith(s, fuel, resetDirty) == Settle(f, fuel, resetDirty)
  {
    var s1 := s.(lastDirty := None, phase := InDigest);
    assert s.(lastDirty := None).(phase := InDigest) == s1;
    FlushRunsBatchInOrder(s1, fuel);
  }

  /** With no phase active and no apply-async flush pending, a digest is the
      loop from the scope with the marker cleared, followed by the
      post-digest drain. */
  lemma DigestStartsLoop(s: Scope, fuel: nat, resetDirty: bool)
    requires s.phase == NoPhase && !s.applyAsyncPending
    requires Loop(s.(lastDirty := None, phase := InDigest), Ttl, fuel, resetDirty).exit.Normal?
    requires |Loop(s.(lastDirty := None, phase := InDigest), Ttl, fuel, resetDirty).scope.postDigestQueue| == 0
    ensures DigestWith(s, fuel, resetDirty).exit == Normal(Undefined)
    ensures DigestWith(s, fuel, resetDirty).scope == ClearPhase(Loop(s.(lastDirty := None, phase := InDigest), Ttl, fuel, resetDirty).scope)
  {
    assert s.(lastDirty := None).(phase := InDigest) == s.(lastDirty := None, phase := InDigest);
  }

  /** With no phase active and no apply-async flush pending, a digest whose
      loop throws or hangs ends the way the loop does. */
  lemma DigestEndsWithLoop(s: Scope, fuel: nat, resetDirty: bool)
    requires s.phase == NoPhase && !s.applyAsyncPending
    ensures !Loop(s.(lastDirty := None, phase := InDigest), Ttl, fuel, resetDirty).exit.Normal? ==>
              && DigestWith(s, fuel, resetDirty).exit == Loop(s.(lastDirty := None, phase := InDigest), Ttl, fuel, resetDirty).exit
              && DigestWith(s, fuel, resetDirty).scope == Loop(s.(lastDirty := None, phase := InDigest), Ttl, fuel, resetDirty).scope
  {
    assert s.(lastDirty := None).(phase := InDigest) == s.(lastDirty := None, phase := InDigest);
  }

  /** `$digest()` as the source writes it: the last dirty watcher survives the
      async drain, so a pass can stop at it although an async task changed
      what a later watcher sees (see `StaleMarkEndsDigestEarly`). The entry
      points below take `resetDirty`; `false` gives this digest. */
  function DigestAsWritten(s: Scope, fuel: nat): (r: Run)
    ensures s.phase != NoPhase ==> r.scope == s.(lastDirty := None) && r.exit == Abrupt(Busy(s.phase))
    ensures s.phase == NoPhase ==> !r.exit.Hang? ==> r.scope.phase == NoPhase
    ensures s.phase == NoPhase ==> r.exit.Normal? || r.exit == Abrupt(TtlExceeded) || r.exit.Hang?
    ensures r.exit.Normal? ==> r.exit.value == Undefined && |r.scope.postDigestQueue| == 0
    ensures !r.exit.Hang? ==> SameShape(s.watchers, r.scope.watchers) && r.scope.nextId == s.nextId
  {
    DigestWith(s, fuel, false)
  }

  /** `$digest()`, corrected to forget the last dirty watcher after each
      async task (`resetDirty` set to true). */
  function Digest(s: Scope, fuel: nat): (r: Run)
    ensures s.phase != NoPhase ==> r.scope == s.(lastDirty := None) && r.exit == Abrupt(Busy(s.phase))
    ensures s.phase == NoPhase ==> !r.exit.Hang? ==> r.scope.phase == NoPhase
    ensures s.phase == NoPhase ==> r.exit.Normal? || r.exit == Abrupt(TtlExceeded) || r.exit.Hang?
    ensures r.exit.Normal? ==> r.exit.value == Undefined && |r.scope.postDigestQueue| == 0
    ensures !r.exit.Hang? ==> SameShape(s.watchers, r.scope.watchers) && r.scope.nextId == s.nextId
  {
    DigestWith(s, fuel, true)
  }

  /** The `finally` block of `$apply`: clear the phase and digest, whatever
      the body did. A digest that fails replaces the body's result;
      otherwise the body's own result or exception stands. */
  function ApplyFinally(s: Scope, body: Exit, fuel: nat, resetDirty: bool): (r: Run)
    ensures r.scope == DigestWith(ClearPhase(s), fuel, resetDirty).scope
    ensures DigestWith(ClearPhase(s), fuel, resetDirty).exit.Normal? ==> r.exit == body
    ensures !DigestWith(ClearPhase(s), fuel, resetDirty).exit.Normal? ==> r.exit == DigestWith(ClearPhase(s), fuel, resetDirty).exit
    ensures !r.exit.Hang? ==> r.scope.phase == NoPhase
    ensures r.exit.Normal? ==> body.Normal? && r.exit == body
    ensures body.Abrupt? && !r.exit.Hang? ==> r.exit.Abrupt?
    ensures r.exit.Normal? ==> |r.scope.postDigestQueue| == 0
    ensures r.exit.Abrupt? ==> r.exit == body || r.exit == Abrupt(TtlExceeded)
    ensures r.exit.Abrupt? && !r.exit.fault.TtlExceeded? ==> |r.scope.postDigestQueue| == 0
  {
    var d := DigestWith(ClearPhase(s), fuel, resetDirty);
    Run(d.scope, if d.exit.Normal? then body else d.exit)
  }

  /** How the expression of `$apply` ends, as the exit `$apply` reports
      when the digest after it succeeds. */
  function BodyExit(o: Outcome): (e: Exit)
    ensures o.Returned? <==> e.Normal?
    ensures e.Normal? ==> e.value == o.value
    ensures e.Abrupt? ==> e.fault == Thrown(o.error)
  {
    match o
    case Returned(v) => Normal(v)
    case Raised(err) => Abrupt(Thrown(err))
  }

  /** `$apply(expr)`: runs the expression in the `$apply` phase and then
      digests, also when the phase was busy or the expression threw. */
  function Apply(s: Scope, t: Task, fuel: nat, resetDirty: bool): (r: Run)
    ensures !r.exit.Hang? ==> r.scope.phase == NoPhase
    ensures r.exit.Normal? ==> s.phase == NoPhase && t.run(s.bag).outcome == Returned(r.exit.value)
    ensures r.exit.Normal? ==> |r.scope.postDigestQueue| == 0
    ensures r.exit.Abrupt? && !r.exit.fault.TtlExceeded? ==> |r.scope.postDigestQueue| == 0
    ensures s.phase != NoPhase && !r.exit.Hang? ==>
              r.exit == Abrupt(Busy(s.phase)) || r.exit == Abrupt(TtlExceeded)
    ensures s.phase == NoPhase && t.run(s.bag).outcome.Raised? && !r.exit.Hang? ==>
              r.exit == Abrupt(Thrown(t.run(s.bag).outcome.error)) || r.exit == Abrupt(TtlExceeded)
  {
    match BeginPhase(s, InApply)
    case None => ApplyFinally(s, Abrupt(Busy(s.phase)), fuel, resetDirty)
    case Some(s1) =>
      var (s2, o) := Eval(s1, t);
      ApplyFinally(s2, BodyExit(o), fuel, resetDirty)
  }

  /** On an idle scope, `$apply` is `$eval` in the `$apply` phase followed by
      a digest of what the expression left, whether it returned or threw; a
      digest that fails replaces the expression's result. */
  lemma ApplyEvalsThenDigests(s: Scope, t: Task, fuel: nat, resetDirty: bool)
    requires s.phase == NoPhase
    ensures var d := DigestWith(ClearPhase(Eval(s.(phase := InApply), t).0), fuel, resetDirty);
            && Apply(s, t, fuel, resetDirty).scope == d.scope
            && Apply(s, t, fuel, resetDirty).exit == (if d.exit.Normal? then BodyExit(t.run(s.bag).outcome) else d.exit)
  {
  }

  /** `$apply` inside another phase throws busy, but its `finally` block still
      clears that phase and digests the scope. */
  lemma ApplyWhenBusyStillDigests(s: Scope, t: Task, fuel: nat, resetDirty: bool)
    requires s.phase != NoPhase
    ensures var d := DigestWith(s.(phase := NoPhase), fuel, resetDirty);
            && Apply(s, t, fuel, resetDirty).scope == d.scope
            && Apply(s, t, fuel, resetDirty).exit == (if d.exit.Normal? then Abrupt(Busy(s.phase)) else d.exit)
  {
  }

  /** The timer `$evalAsync` sets: digests when the async queue still holds
      work, and otherwise does nothing. */
  function FireDigestTimer(s: Scope, fuel: nat, resetDirty: bool): (r: Run)
    requires s.pendingDigests > 0
    ensures |s.asyncQueue| == 0 ==> r.scope == s.(pendingDigests := s.pendingDigests - 1) && r.exit == Normal(Undefined)
    ensures s.phase == NoPhase && !r.exit.Hang? ==> r.scope.phase == NoPhase
    ensures r.exit.Normal? ==> r.exit.value == Undefined
    ensures |s.asyncQueue| > 0 && r.exit.Normal? ==> |r.scope.postDigestQueue| == 0
    ensures |s.asyncQueue| > 0 ==> r == DigestWith(s.(pendingDigests := s.pendingDigests - 1), fuel, resetDirty)
  {
    if |s.asyncQueue| > 0 then DigestWith(s.(pendingDigests := s.pendingDigests - 1), fuel, resetDirty)
    else Run(s.(pendingDigests := s.pendingDigests - 1), Normal(Undefined))
  }

  /** The timer `$applyAsync` sets: `$apply` of `$$flushApplyAsync`, which
      runs the whole batch and then one digest. */
  function FireApplyTimer(s: Scope, fuel: nat, resetDirty: bool): (r: Run)
    requires s.applyAsyncPending
    ensures !r.exit.Hang? ==> r.scope.phase == NoPhase
    ensures s.phase == NoPhase && r.exit.Normal? ==> r.exit.value == Undefined
    ensures s.phase == NoPhase && r.exit.Normal? ==> |r.scope.postDigestQueue| == 0
  {
    match BeginPhase(s, InApply)
    case None => ApplyFinally(s, Abrupt(Busy(s.phase)), fuel, resetDirty)
    case Some(s1) =>
      match FlushApplyAsync(s1, fuel)
      case None => Run(s1, Hang)
      case Some(s2) => ApplyFinally(s2, Normal(Undefined), fuel, resetDirty)
  }

  /** When the flush timer fires on an idle scope, the batch runs first-in
      first-out inside the `$apply` phase, the flush timer is cleared, and
      then the scope is digested; that digest finds no flush pending. This
      assumes no task of the batch calls `$applyAsync` again. */
  lemma ApplyTimerFlushesThenDigests(s: Scope, fuel: nat, resetDirty: bool)
    requires s.applyAsyncPending && s.phase == NoPhase
    requires |s.applyAsyncQueue| <= fuel
    requires forall i :: 0 <= i < |s.applyAsyncQueue| ==> StaysOut(s.applyAsyncQueue[i], ApplyAsyncQ)
    ensures FlushApplyAsync(s.(phase := InApply), fuel).Some?
    ensures var f := ClearPhase(FlushApplyAsync(s.(phase := InApply), fuel).value);
            && f.bag == RunAll(s.bag, s.applyAsyncQueue)
            && |f.applyAsyncQueue| == 0 && !f.applyAsyncPending && f.phase == NoPhase
            && FireApplyTimer(s, fuel, resetDirty).scope == DigestWith(f, fuel, resetDirty).scope
            && (DigestWith(f, fuel, resetDirty).exit.Normal? ==> FireApplyTimer(s, fuel, resetDirty).exit == Normal(Undefined))
            && (!DigestWith(f, fuel, resetDirty).exit.Normal? ==> FireApplyTimer(s, fuel, resetDirty).exit == DigestWith(f, fuel, resetDirty).exit)
  {
    FlushRunsBatchInOrder(s.(phase := InApply), fuel);
  }

  /** A burst of `$evalAsync` calls on an idle scope with nothing queued sets
      one timer, and when that timer fires it digests the scope with the
      whole burst queued in call order. */
  lemma EvalAsyncTimerDigests(s: Scope, ts: seq<Task>, fuel: nat, resetDirty: bool)
    requires s.phase == NoPhase && |s.asyncQueue| == 0 && |ts| > 0
    ensures EvalAsyncAll(s, ts).pendingDigests == s.pendingDigests + 1
    ensures FireDigestTimer(EvalAsyncAll(s, ts), fuel, resetDirty) == DigestWith(s.(asyncQueue := ts), fuel, resetDirty)
  {
    EvalAsyncCoalesces(s, ts);
    assert EvalAsyncAll(s, ts).(pendingDigests := s.pendingDigests) == s.(asyncQueue := ts);
  }
}
