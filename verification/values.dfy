/** The JavaScript values a watch function can observe, and the two equality
    rules the digest engine chooses between (src/scope.js, `$$areEqual`). */
module Values {

  /** A JavaScript value. NaN is its own constructor rather than a float.
      `Arr` is a heap object: `ref` is its identity and `items` a snapshot of
      its contents when it was observed, so two snapshots of one object that
      was mutated in place share a `ref` but differ in `items`. */
  datatype Value =
    | Undefined
    | Null
    | Bool(b: bool)
    | Num(n: int)
    | NaN
    | Str(s: string)
    | Arr(ref: nat, items: seq<Value>)

  /** `typeof v === 'number'` */
  predicate IsNumber(v: Value) {
    v.Num? || v.NaN?
  }

  /** JavaScript truthiness, the value of `!!v`. */
  predicate Truthy(v: Value) {
    match v
    case Undefined => false
    case Null => false
    case Bool(b) => b
    case Num(n) => n != 0
    case NaN => false
    case Str(s) => s != ""
    case Arr(_, _) => true
  }

  /** Strict equality `===`: primitives by value, NaN equal to nothing, objects
      by identity. */
  predicate Identical(a: Value, b: Value) {
    match (a, b)
    case (NaN, _) => false
    case (Arr(r, _), Arr(q, _)) => r == q
    case _ => a == b
  }

  /** Deep structural equality (lodash `isEqual`): NaN equals NaN, arrays are
      compared element by element and their identity is ignored. */
  predicate DeepEqual(a: Value, b: Value)
    decreases a
  {
    match (a, b)
    case (Arr(_, xs), Arr(_, ys)) =>
      |xs| == |ys| && forall i :: 0 <= i < |xs| ==> DeepEqual(xs[i], ys[i])
    case _ => a == b
  }

  /** An independent reference for deep equality: the value with every object
      identity erased. */
  function Erase(v: Value): Value
    decreases v
  {
    match v
    case Arr(_, xs) => Arr(0, seq(|xs|, i requires 0 <= i < |xs| => Erase(xs[i])))
    case _ => v
  }

  /** What a watcher remembers: the sentinel `initWatchVal` before its first
      evaluation, a value afterwards. The sentinel is a private function
      object, so it is never equal to a watched value. */
  datatype Last = Initial | Seen(v: Value)

  /** `$$areEqual(newValue, oldValue, valueEq)`: deep equality when `valueEq`,
      otherwise identity, with two NaN numbers counting as equal. */
  predicate AreEqual(newValue: Value, last: Last, valueEq: bool)
    ensures last.Initial? ==> !AreEqual(newValue, last, valueEq)
    ensures last.Seen? && newValue.NaN? && last.v.NaN? ==> AreEqual(newValue, last, valueEq)
    ensures last.Seen? && newValue.NaN? != last.v.NaN? ==> !AreEqual(newValue, last, valueEq)
    ensures valueEq && last.Seen? ==> (AreEqual(newValue, last, valueEq) <==> DeepEqual(newValue, last.v))
    ensures !valueEq && last.Seen? && !newValue.Arr? ==>
              (AreEqual(newValue, last, valueEq) <==> newValue == last.v)
    ensures !valueEq && last.Seen? && newValue.Arr? ==>
              (AreEqual(newValue, last, valueEq) <==> last.v.Arr? && last.v.ref == newValue.ref)
  {
    match last
    case Initial => false
    case Seen(prev) =>
      if valueEq then DeepEqual(newValue, prev)
      else Identical(newValue, prev)
           || (IsNumber(newValue) && IsNumber(prev) && newValue.NaN? && prev.NaN?)
  }

  /** Deep equality is exactly equality once identities are erased. */
  lemma {:induction false} DeepEqualIffSameErasure(a: Value, b: Value)
    ensures DeepEqual(a, b) <==> Erase(a) == Erase(b)
    decreases a
  {
    match (a, b)
    case (Arr(_, xs), Arr(_, ys)) =>
      var ex := seq(|xs|, i requires 0 <= i < |xs| => Erase(xs[i]));
      var ey := seq(|ys|, i requires 0 <= i < |ys| => Erase(ys[i]));
      assert Erase(a) == Arr(0, ex) && Erase(b) == Arr(0, ey);
      if |xs| == |ys| {
        forall i | 0 <= i < |xs|
          ensures DeepEqual(xs[i], ys[i]) <==> ex[i] == ey[i]
        {
          DeepEqualIffSameErasure(xs[i], ys[i]);
        }
        if DeepEqual(a, b) {
          assert ex == ey;
        } else {
          var i :| 0 <= i < |xs| && !DeepEqual(xs[i], ys[i]);
          assert ex[i] != ey[i];
        }
      } else {
        assert |ex| != |ey|;
      }
    case (Arr(_, xs), _) =>
    case (_, Arr(_, ys)) =>
    case _ =>
  }

  /** Deep equality is an equivalence relation. */
  lemma DeepEqualIsEquivalence(a: Value, b: Value, c: Value)
    ensures DeepEqual(a, a)
    ensures DeepEqual(a, b) ==> DeepEqual(b, a)
    ensures DeepEqual(a, b) && DeepEqual(b, c) ==> DeepEqual(a, c)
  {
    DeepEqualIffSameErasure(a, a);
    DeepEqualIffSameErasure(a, b);
    DeepEqualIffSameErasure(b, a);
    DeepEqualIffSameErasure(b, c);
    DeepEqualIffSameErasure(a, c);
  }

  /** A value just stored as a watcher's `last` compares equal to itself in
      either mode, so an unchanged watch value never fires the listener again. */
  lemma StoredValueIsUnchanged(v: Value, valueEq: bool)
    ensures AreEqual(v, Seen(v), valueEq)
  {
    DeepEqualIsEquivalence(v, v, v);
  }

  /** An array mutated in place (an element pushed) keeps its identity: the
      reference rule misses the change and the deep rule sees it. */
  lemma InPlacePushSeenOnlyByDeepEquality(r: nat, xs: seq<Value>, x: Value)
    ensures AreEqual(Arr(r, xs + [x]), Seen(Arr(r, xs)), false)
    ensures !AreEqual(Arr(r, xs + [x]), Seen(Arr(r, xs)), true)
  {
  }
}
