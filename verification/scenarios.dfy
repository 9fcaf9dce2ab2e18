/** Concrete scopes that show the digest loop's two limits: a pair of
    watchers that keep dirtying each other exhausts the TTL, and, in the
    loop as the source writes it, a stale last dirty watcher ends a digest
    before a watcher disturbed by an async task has fired. */
module Scenarios {
  import opened Values
  import opened ScopeState
  import opened Queues
  import opened DigestPass
  import opened Registry
  import opened DigestCycle

  /** `scope[key]` as a watch function. */
  function WatchKey(key: string): WatchFn {
    (bag: Bag) => Returned(Get(bag, key))
  }

  /** JavaScript `x + 1` on the values these scenarios use. */
  function Inc(v: Value): Value {
    if v.Num? then Num(v.n + 1) else NaN
  }

  /** A listener that does `scope[key]++`. */
  function Increment(key: string): ListenerFn {
    (n: Value, o: Value, bag: Bag) => Effect(bag[key := Inc(Get(bag, key))], [], Returned(Undefined))
  }

  function Idle(bag: Bag, ws: seq<Watcher>, lastDirty: Option<nat>, phase: Phase): Scope {
    Scope(bag, ws, lastDirty, [], [], false, [], phase, 0, |ws|)
  }

  // Two watchers that dirty each other: the oldest (identity 0) watches `a`
  // and increments `b`; the newer (identity 1) watches `b` and increments `a`.

  function PingWatcher(last: Last): Watcher {
    Watcher(0, WatchKey("a"), Increment("b"), false, last)
  }

  function PongWatcher(last: Last): Watcher {
    Watcher(1, WatchKey("b"), Increment("a"), false, last)
  }

  /** Both registered, `a = b = 0`, never digested. */
  function PingPongStart(): Scope {
    Idle(map["a" := Num(0), "b" := Num(0)], [PongWatcher(Initial), PingWatcher(Initial)], None, NoPhase)
  }

  /** Inside the digest, after `k` passes. */
  function PingPongAfter(k: nat): Scope
    requires k >= 1
  {
    Idle(map["a" := Num(k), "b" := Num(k)],
         [PongWatcher(Seen(Num(k))), PingWatcher(Seen(Num(k - 1)))], Some(1), InDigest)
  }

  /** Inside pass `k + 1`, after the oldest watcher fired. */
  function PingPongMidPass(k: nat): Scope {
    Idle(map["a" := Num(k), "b" := Num(k + 1)],
         [PongWatcher(Seen(Num(k))), PingWatcher(Seen(Num(k)))], Some(0), InDigest)
  }

  lemma PingPongFirstVisits()
    ensures Visit(PingPongStart().(phase := InDigest), 1) == (PingPongMidPass(0).(watchers := [PongWatcher(Initial), PingWatcher(Seen(Num(0)))]), Fired(Num(0), Num(0), false))
    ensures Visit(PingPongMidPass(0).(watchers := [PongWatcher(Initial), PingWatcher(Seen(Num(0)))]), 0) == (PingPongAfter(1), Fired(Num(1), Num(1), false))
  {
    var s := PingPongStart().(phase := InDigest);
    assert s.bag["b" := Inc(Get(s.bag, "b"))] == map["a" := Num(0), "b" := Num(1)];
    assert s.watchers[1 := PingWatcher(Seen(Num(0)))] == [PongWatcher(Initial), PingWatcher(Seen(Num(0)))];
    var m := PingPongMidPass(0).(watchers := [PongWatcher(Initial), PingWatcher(Seen(Num(0)))]);
    assert m.bag["a" := Inc(Get(m.bag, "a"))] == map["a" := Num(1), "b" := Num(1)];
    assert m.watchers[0 := PongWatcher(Seen(Num(1)))] == [PongWatcher(Seen(Num(1))), PingWatcher(Seen(Num(0)))];
  }

  lemma PingPongFirstPass()
    ensures DigestOnce(PingPongStart().(phase := InDigest)).scope == PingPongAfter(1)
    ensures DigestOnce(PingPongStart().(phase := InDigest)).dirty
  {
    PingPongFirstVisits();
  }

  lemma PingPongVisitPing(k: nat)
    requires k >= 1
    ensures Visit(PingPongAfter(k), 1) == (PingPongMidPass(k), Fired(Num(k), Num(k - 1), false))
  {
    var s := PingPongAfter(k);
    assert !AreEqual(Num(k), Seen(Num(k - 1)), false);
    assert s.bag["b" := Inc(Get(s.bag, "b"))] == map["a" := Num(k), "b" := Num(k + 1)];
    assert s.watchers[1 := PingWatcher(Seen(Num(k)))] == [PongWatcher(Seen(Num(k))), PingWatcher(Seen(Num(k)))];
  }

  lemma PingPongVisitPong(k: nat)
    ensures Visit(PingPongMidPass(k), 0) == (PingPongAfter(k + 1), Fired(Num(k + 1), Num(k), false))
  {
    var s := PingPongMidPass(k);
    assert !AreEqual(Num(k + 1), Seen(Num(k)), false);
    assert s.bag["a" := Inc(Get(s.bag, "a"))] == map["a" := Num(k + 1), "b" := Num(k + 1)];
    assert s.watchers[0 := PongWatcher(Seen(Num(k + 1)))] == [PongWatcher(Seen(Num(k + 1))), PingWatcher(Seen(Num(k)))];
  }

  lemma PingPongNextPass(k: nat)
    requires k >= 1
    ensures DigestOnce(PingPongAfter(k)).scope == PingPongAfter(k + 1)
    ensures DigestOnce(PingPongAfter(k)).dirty
  {
    PingPongVisitPing(k);
    PingPongVisitPong(k);
    assert Pass(PingPongMidPass(k), 1, true).scope == PingPongAfter(k + 1);
    assert Pass(PingPongAfter(k), 2, false).scope == PingPongAfter(k + 1);
  }

  /** The digest loop on the ping-pong scope throws after eleven passes. */
  lemma PingPongLoopExhaustsTtl(fuel: nat, resetDirty: bool)
    ensures Loop(PingPongStart().(phase := InDigest), Ttl, fuel, resetDirty).exit == Abrupt(TtlExceeded)
    ensures Loop(PingPongStart().(phase := InDigest), Ttl, fuel, resetDirty).passes == 11
  {
    var states := (j: nat) => if j == 0 then PingPongStart().(phase := InDigest) else PingPongAfter(j);
    PingPongFirstPass();
    forall j: nat ensures BusyRound(states, j, fuel, resetDirty) {
      if j > 0 {
        PingPongNextPass(j);
      }
      DirtyRoundIsBusy(states, j, fuel, resetDirty);
    }
    BusyRoundsExhaustTtl(states, 0, Ttl, fuel, resetDirty);
  }

  /** Two watchers that keep dirtying each other make `$digest` throw
      '10 digest iterations reached.' after eleven passes, with the phase
      cleared so that the scope stays usable. */
  lemma PingPongExhaustsTtl(fuel: nat)
    ensures DigestAsWritten(PingPongStart(), fuel).exit == Abrupt(TtlExceeded)
    ensures Message(TtlExceeded) == Str("10 digest iterations reached.")
    ensures DigestAsWritten(PingPongStart(), fuel).scope.phase == NoPhase
    ensures Loop(PingPongStart().(phase := InDigest), Ttl, fuel, false).passes == 11
  {
    PingPongLoopExhaustsTtl(fuel, false);
    assert PingPongStart().(lastDirty := None, phase := InDigest) == PingPongStart().(phase := InDigest);
    DigestEndsWithLoop(PingPongStart(), fuel, false);
  }

  // A stale marker. The oldest watcher (identity 0) watches `a`; when it sees
  // 2 its listener defers `b = 2` with `$evalAsync`. The newer watcher
  // (identity 1) watches `b`. Both last saw 1, and then `a` was set to 2.

  function SetB(): Task {
    Task((bag: Bag) => Effect(bag["b" := Num(2)], [], Returned(Undefined)))
  }

  function DeferSetB(): ListenerFn {
    (n: Value, o: Value, bag: Bag) =>
      Effect(bag, if n == Num(2) then [EvalAsyncCall(SetB())] else [], Returned(Undefined))
  }

  function Deferrer(last: Last): Watcher {
    Watcher(0, WatchKey("a"), DeferSetB(), false, last)
  }

  function Observer(last: Last): Watcher {
    Watcher(1, WatchKey("b"), NoOp(), false, last)
  }

  function StaleStart(): Scope {
    Idle(map["a" := Num(2), "b" := Num(1)], [Observer(Seen(Num(1))), Deferrer(Seen(Num(1)))], None, NoPhase)
  }

  /** After the first pass: the deferrer fired and queued `SetB`. */
  function StaleAfterFirstPass(): Scope {
    Idle(map["a" := Num(2), "b" := Num(1)], [Observer(Seen(Num(1))), Deferrer(Seen(Num(2)))], Some(0), InDigest)
      .(asyncQueue := [SetB()])
  }

  /** After the async drain: `b` is 2. */
  function StaleDrained(lastDirty: Option<nat>): Scope {
    Idle(map["a" := Num(2), "b" := Num(2)], [Observer(Seen(Num(1))), Deferrer(Seen(Num(2)))], lastDirty, InDigest)
  }

  /** The corrected digest after its second pass: the observer fired. */
  function StaleSecondPass(): Scope {
    Idle(map["a" := Num(2), "b" := Num(2)], [Observer(Seen(Num(2))), Deferrer(Seen(Num(2)))], Some(1), InDigest)
  }

  lemma StaleFirstPass()
    ensures DigestOnce(StaleStart().(lastDirty := None, phase := InDigest)).scope == StaleAfterFirstPass()
    ensures DigestOnce(StaleStart().(lastDirty := None, phase := InDigest)).dirty
  {
    var s := StaleStart().(lastDirty := None, phase := InDigest);
    var marked := s.(lastDirty := Some(0), watchers := [Observer(Seen(Num(1))), Deferrer(Seen(Num(2)))]);
    assert s.watchers[1 := Deferrer(Seen(Num(2)))] == marked.watchers;
    assert DeferSetB()(Num(2), Num(1), marked.bag).queued == [EvalAsyncCall(SetB())];
    assert Perform(marked, [EvalAsyncCall(SetB())]) == Perform(EvalAsync(marked, SetB()), []);
    assert EvalAsync(marked, SetB()) == StaleAfterFirstPass();
    assert !AreEqual(Num(2), Seen(Num(1)), false);
    assert Visit(s, 1).1 == Fired(Num(2), Num(1), false);
    assert Visit(s, 1).0 == StaleAfterFirstPass();
    assert Visit(StaleAfterFirstPass(), 0) == (StaleAfterFirstPass(), Clean);
  }

  lemma StaleDrain(fuel: nat, resetDirty: bool)
    requires fuel >= 1
    ensures Drain(StaleAfterFirstPass(), AsyncQ, fuel, resetDirty) == Some(StaleDrained(if resetDirty then None else Some(0)))
  {
    var s := StaleAfterFirstPass();
    var (s1, _) := Eval(WithQueue(s, AsyncQ, []), SetB());
    assert s1 == StaleDrained(Some(0));
  }

  lemma StaleSecondPassAsWritten()
    ensures DigestOnce(StaleDrained(Some(0))).scope == StaleDrained(Some(0))
    ensures !DigestOnce(StaleDrained(Some(0))).dirty
  {
    assert Visit(StaleDrained(Some(0)), 1) == (StaleDrained(Some(0)), ShortCircuit);
  }

  lemma StaleSecondPassCorrected()
    ensures DigestOnce(StaleDrained(None)).scope == StaleSecondPass()
    ensures DigestOnce(StaleDrained(None)).dirty
  {
    var s := StaleDrained(None);
    assert Visit(s, 1) == (s, Clean);
    assert s.watchers[0 := Observer(Seen(Num(2)))] == StaleSecondPass().watchers;
    assert Visit(s, 0) == (StaleSecondPass(), Fired(Num(2), Num(1), false));
  }

  lemma StaleThirdPassCorrected()
    ensures DigestOnce(StaleSecondPass()).scope == StaleSecondPass()
    ensures !DigestOnce(StaleSecondPass()).dirty
  {
    var s := StaleSecondPass();
    assert Visit(s, 1) == (s, Clean);
    assert Visit(s, 0) == (s, ShortCircuit);
  }

  lemma StaleLoopAsWritten(fuel: nat)
    requires fuel >= 1
    ensures Loop(StaleStart().(lastDirty := None, phase := InDigest), Ttl, fuel, false).exit == Normal(Undefined)
    ensures Loop(StaleStart().(lastDirty := None, phase := InDigest), Ttl, fuel, false).scope == StaleDrained(Some(0))
  {
    var s := StaleStart().(lastDirty := None, phase := InDigest);
    StaleFirstPass();
    StaleDrain(fuel, false);
    StaleSecondPassAsWritten();
    assert Drain(s, AsyncQ, fuel, false) == Some(s);
    RoundGoesOn(s, s, Ttl, fuel, false);
    RoundEnds(StaleAfterFirstPass(), StaleDrained(Some(0)), Ttl - 1, fuel, false);
  }

  /** The digest as written returns normally although the observer would
      still fire: `b` is 2 and the observer last saw 1. */
  lemma StaleMarkEndsDigestEarly(fuel: nat)
    requires fuel >= 1
    ensures DigestAsWritten(StaleStart(), fuel).exit == Normal(Undefined)
    ensures DigestAsWritten(StaleStart(), fuel).scope == ClearPhase(StaleDrained(Some(0)))
    ensures !Settled(DigestAsWritten(StaleStart(), fuel).scope.watchers[0], DigestAsWritten(StaleStart(), fuel).scope.bag)
  {
    StaleLoopAsWritten(fuel);
    DigestStartsLoop(StaleStart(), fuel, false);
  }

  /** A task that does nothing. */
  function Noop(): Task {
    Task((bag: Bag) => Effect(bag, [], Returned(Undefined)))
  }

  /** `$apply` digests with the source's `$digest`, so it inherits the stale
      marker: `$apply` of a no-op on the same scope also returns with the
      observer unsettled. */
  lemma StaleMarkEndsApplyEarly(fuel: nat)
    requires fuel >= 1
    ensures Apply(StaleStart(), Noop(), fuel, false).exit == Normal(Undefined)
    ensures !Settled(Apply(StaleStart(), Noop(), fuel, false).scope.watchers[0], Apply(StaleStart(), Noop(), fuel, false).scope.bag)
  {
    assert ClearPhase(Eval(StaleStart().(phase := InApply), Noop()).0) == StaleStart();
    ApplyEvalsThenDigests(StaleStart(), Noop(), fuel, false);
    StaleMarkEndsDigestEarly(fuel);
  }

  lemma CorrectedLoopSettles(fuel: nat)
    requires fuel >= 1
    ensures Loop(StaleStart().(lastDirty := None, phase := InDigest), Ttl, fuel, true).exit == Normal(Undefined)
    ensures Loop(StaleStart().(lastDirty := None, phase := InDigest), Ttl, fuel, true).scope == StaleSecondPass()
  {
    var s := StaleStart().(lastDirty := None, phase := InDigest);
    StaleFirstPass();
    StaleDrain(fuel, true);
    StaleSecondPassCorrected();
    StaleThirdPassCorrected();
    assert Drain(s, AsyncQ, fuel, true) == Some(s);
    RoundGoesOn(s, s, Ttl, fuel, true);
    RoundGoesOn(StaleAfterFirstPass(), StaleDrained(None), Ttl - 1, fuel, true);
    assert Drain(StaleSecondPass(), AsyncQ, fuel, true) == Some(StaleSecondPass());
    RoundEnds(StaleSecondPass(), StaleSecondPass(), Ttl - 2, fuel, true);
  }

  /** After the corrected digest, `a` and `b` are both 2 and both watchers
      last saw 2. */
  lemma StaleSecondPassSettled()
    ensures AllSettled(ClearPhase(StaleSecondPass()))
  {
    var t := ClearPhase(StaleSecondPass());
    assert Settled(t.watchers[0], t.bag) && Settled(t.watchers[1], t.bag);
  }

  /** The corrected digest forgets the marker after the async task, so the
      observer fires in the second pass and the digest ends with every
      watcher settled. */
  lemma CorrectedDigestSettles(fuel: nat)
    requires fuel >= 1
    ensures Digest(StaleStart(), fuel).exit == Normal(Undefined)
    ensures Digest(StaleStart(), fuel).scope == ClearPhase(StaleSecondPass())
    ensures AllSettled(Digest(StaleStart(), fuel).scope)
  {
    CorrectedLoopSettles(fuel);
    DigestStartsLoop(StaleStart(), fuel, true);
    StaleSecondPassSettled();
  }
}
