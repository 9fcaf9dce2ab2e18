/** The watcher list: `$watch` and the deregistration function it returns
    (src/scope.js:25-43). */
module Registry {
  import opened Values
  import opened ScopeState

  /** `function() {}`, the listener of a watch-only registration. */
  function NoOp(): ListenerFn {
    (n: Value, o: Value, b: Bag) => Effect(b, [], Returned(Undefined))
  }

  /** A reference definition of removal: the watchers whose identity is not
      `id`, in their original order. */
  function Without(ws: seq<Watcher>, id: nat): (r: seq<Watcher>)
    ensures |r| <= |ws|
  {
    if |ws| == 0 then []
    else (if ws[0].id == id then [] else [ws[0]]) + Without(ws[1..], id)
  }

  /** `$watch(watchFn, listenerFn, valueEq)`: registers a watcher at the front
      of the list and answers the identity its deregistration function
      captures. */
  function Watch(s: Scope, watchFn: WatchFn, listenerFn: Option<ListenerFn>, valueEq: Value): (r: (Scope, nat))
    ensures |r.0.watchers| == |s.watchers| + 1
    ensures r.0.watchers[1..] == s.watchers
    ensures r.0.watchers[0].id == r.1
    ensures r.0.watchers[0].watchFn == watchFn
    ensures r.0.watchers[0].last == Initial
    ensures r.0.watchers[0].valueEq == Truthy(valueEq)
    ensures listenerFn.Some? ==> r.0.watchers[0].listenerFn == listenerFn.value
    ensures listenerFn.None? ==> forall n, o, b :: r.0.watchers[0].listenerFn(n, o, b) == Effect(b, [], Returned(Undefined))
    ensures r.0.lastDirty == None
    ensures r.0 == s.(watchers := r.0.watchers, lastDirty := None, nextId := r.0.nextId)
    ensures WellFormed(s) ==> WellFormed(r.0)
    ensures WellFormed(s) ==> forall j :: 0 <= j < |s.watchers| ==> s.watchers[j].id != r.1
  {
    var listener := match listenerFn case Some(f) => f case None => NoOp();
    var w := Watcher(s.nextId, watchFn, listener, Truthy(valueEq), Initial);
    (s.(watchers := [w] + s.watchers, lastDirty := None, nextId := s.nextId + 1), s.nextId)
  }

  /** The function `$watch` returns: removes the watcher with identity `id`
      if it is still registered, and then forgets the last dirty watcher. */
  function Deregister(s: Scope, id: nat): (t: Scope)
    ensures UniqueIds(s.watchers) ==> t.watchers == Without(s.watchers, id)
    ensures IndexOf(s.watchers, id) >= 0 ==> |t.watchers| == |s.watchers| - 1 && t.lastDirty == None
    ensures IndexOf(s.watchers, id) < 0 ==> t == s
    ensures t == s.(watchers := t.watchers, lastDirty := t.lastDirty)
    ensures WellFormed(s) ==> WellFormed(t)
  {
    var k := IndexOf(s.watchers, id);
    if k >= 0 then
      RemovalKeepsOthers(s.watchers, k);
      RemoveFirstIsWithout(s.watchers, id);
      Remove(s, k)
    else
      AbsentIsWithout(s.watchers, id);
      s
  }

  function Remove(s: Scope, k: nat): Scope
    requires k < |s.watchers|
  {
    s.(watchers := s.watchers[..k] + s.watchers[k + 1..], lastDirty := None)
  }

  /** Removing one position keeps the other watchers, in order. */
  lemma RemovalKeepsOthers(ws: seq<Watcher>, k: nat)
    requires k < |ws|
    ensures var r := ws[..k] + ws[k + 1..];
      |r| == |ws| - 1
      && (forall j :: 0 <= j < k ==> r[j] == ws[j])
      && (forall j :: k <= j < |r| ==> r[j] == ws[j + 1])
  {
  }

  lemma {:induction false} AbsentIsWithout(ws: seq<Watcher>, id: nat)
    requires forall j :: 0 <= j < |ws| ==> ws[j].id != id
    ensures Without(ws, id) == ws
  {
    if |ws| > 0 {
      AbsentIsWithout(ws[1..], id);
    }
  }

  /** With unique identities, splicing out the first occurrence is the same
      as filtering out every occurrence. */
  lemma {:induction false} RemoveFirstIsWithout(ws: seq<Watcher>, id: nat)
    requires IndexOf(ws, id) >= 0
    ensures UniqueIds(ws) ==> var k := IndexOf(ws, id); ws[..k] + ws[k + 1..] == Without(ws, id)
  {
    if !UniqueIds(ws) {
      return;
    }
    var k := IndexOf(ws, id);
    if k == 0 {
      assert forall j :: 0 <= j < |ws[1..]| ==> ws[1..][j].id != id by {
        forall j | 0 <= j < |ws[1..]| ensures ws[1..][j].id != id {
          assert ws[1..][j] == ws[j + 1];
        }
      }
      AbsentIsWithout(ws[1..], id);
      assert ws[..0] + ws[1..] == ws[1..];
    } else {
      var tl := ws[1..];
      assert UniqueIds(tl) by {
        forall i, j | 0 <= i < j < |tl| ensures tl[i].id != tl[j].id {
          assert tl[i] == ws[i + 1] && tl[j] == ws[j + 1];
        }
      }
      assert IndexOf(tl, id) == k - 1;
      RemoveFirstIsWithout(tl, id);
      assert ws[..k] + ws[k + 1..] == [ws[0]] + (tl[..k - 1] + tl[k..]);
    }
  }

  /** Calling a deregistration function twice is the same as calling it once. */
  lemma DeregisterIsIdempotent(s: Scope, id: nat)
    requires UniqueIds(s.watchers)
    ensures Deregister(Deregister(s, id), id) == Deregister(s, id)
  {
    var t := Deregister(s, id);
    if IndexOf(s.watchers, id) >= 0 {
      var k := IndexOf(s.watchers, id);
      RemovalKeepsOthers(s.watchers, k);
      assert forall j :: 0 <= j < |t.watchers| ==> t.watchers[j].id != id by {
        forall j | 0 <= j < |t.watchers| ensures t.watchers[j].id != id {
          if j < k {
            assert t.watchers[j] == s.watchers[j];
          } else {
            assert t.watchers[j] == s.watchers[j + 1];
          }
        }
      }
    }
  }

  /** Registering a watcher and then calling its deregistration function gives
      back the original watcher list, and no last dirty watcher. */
  lemma WatchThenDeregister(s: Scope, watchFn: WatchFn, listenerFn: Option<ListenerFn>, valueEq: Value)
    requires WellFormed(s)
    ensures var (t, id) := Watch(s, watchFn, listenerFn, valueEq);
      var u := Deregister(t, id);
      u.watchers == s.watchers && u.lastDirty == None && u.bag == s.bag
  {
    var (t, id) := Watch(s, watchFn, listenerFn, valueEq);
    assert IndexOf(t.watchers, id) == 0;
    assert t.watchers[..0] + t.watchers[1..] == s.watchers;
  }
}
