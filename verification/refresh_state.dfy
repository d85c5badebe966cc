// The in-memory refresh flag shared between the Apollo link and the auth
// context on the mobile client (mobileapp/src/api/refreshTokenState.ts).
// Listeners are compared by identity, so the model names each one by an
// identity number; calling a listener is recorded as a notification.

module RefreshState {

  type Listener = nat

  datatype Notification = Notify(listener: Listener, isRefreshing: bool)

  /// `listeners` without its first occurrence of `l` (`indexOf` then
  /// `splice(index, 1)`); unchanged when `l` is absent.
  function RemoveFirst(listeners: seq<Listener>, l: Listener): (r: seq<Listener>)
    ensures l in listeners ==> multiset(r) == multiset(listeners) - multiset{l}
    ensures l !in listeners ==> r == listeners
  {
    if |listeners| == 0 then []
    else
      assert listeners == [listeners[0]] + listeners[1..];
      if listeners[0] == l then listeners[1..]
      else [listeners[0]] + RemoveFirst(listeners[1..], l)
  }

  /// `refreshTokenStateManager` with its module-level state.
  class RefreshTokenStateManager {
    var isRefreshing: bool
    var listeners: seq<Listener>

    constructor ()
      ensures !isRefreshing && listeners == []
    {
      isRefreshing := false;
      listeners := [];
    }

    /// `set`: stores the flag and calls every listener with it, in
    /// subscription order.
    method Set(refreshing: bool) returns (calls: seq<Notification>)
      modifies this
      ensures isRefreshing == refreshing && listeners == old(listeners)
      ensures Get() == refreshing
      ensures |calls| == |listeners|
      ensures forall i :: 0 <= i < |calls| ==> calls[i] == Notify(listeners[i], refreshing)
    {
      isRefreshing := refreshing;
      calls := [];
      var i := 0;
      while i < |listeners|
        invariant 0 <= i <= |listeners|
        invariant |calls| == i
        invariant forall k :: 0 <= k < i ==> calls[k] == Notify(listeners[k], refreshing)
      {
        calls := calls + [Notify(listeners[i], isRefreshing)];
        i := i + 1;
      }
    }

    /// `subscribe`: appends the listener, even when it is already there.
    method Subscribe(l: Listener)
      modifies this
      ensures listeners == old(listeners) + [l] && isRefreshing == old(isRefreshing)
      ensures Get() == old(Get())
    {
      listeners := listeners + [l];
    }

    /// The function `subscribe` returns: removes the first occurrence.
    method Unsubscribe(l: Listener)
      modifies this
      ensures listeners == RemoveFirst(old(listeners), l) && isRefreshing == old(isRefreshing)
      ensures Get() == old(Get())
    {
      var index := IndexOf(listeners, l);
      if index > -1 {
        SpliceIsRemoveFirst(listeners, l, index);
        listeners := listeners[..index] + listeners[index + 1..];
      }
    }

    /// `get`: the flag last stored by `Set` (see the contracts of `Set`,
    /// `Subscribe` and `Unsubscribe`).
    function Get(): bool
      reads this
    {
      isRefreshing
    }
  }

  /// `Array.prototype.indexOf`: the first position of `l`, or -1.
  method IndexOf(xs: seq<Listener>, l: Listener) returns (index: int)
    ensures -1 <= index < |xs|
    ensures index == -1 <==> l !in xs
    ensures index >= 0 ==> xs[index] == l && l !in xs[..index]
  {
    var i := 0;
    while i < |xs|
      invariant 0 <= i <= |xs|
      invariant l !in xs[..i]
    {
      if xs[i] == l {
        return i;
      }
      assert xs[..i + 1] == xs[..i] + [xs[i]];
      i := i + 1;
    }
    assert xs[..|xs|] == xs;
    return -1;
  }

  // ---------------------------------------------------------------------
  // Properties
  // ---------------------------------------------------------------------

  /// Splicing out the first occurrence is `RemoveFirst`.
  lemma {:induction false} SpliceIsRemoveFirst(xs: seq<Listener>, l: Listener, index: nat)
    requires index < |xs| && xs[index] == l && l !in xs[..index]
    ensures RemoveFirst(xs, l) == xs[..index] + xs[index + 1..]
  {
    if index > 0 {
      var ys := xs[1..];
      assert xs[0] != l by { assert xs[0] == xs[..index][0]; }
      assert ys[..index - 1] == xs[..index][1..];
      SpliceIsRemoveFirst(ys, l, index - 1);
      assert RemoveFirst(xs, l) == [xs[0]] + RemoveFirst(ys, l);
      assert xs[..index] == [xs[0]] + ys[..index - 1];
      assert xs[index + 1..] == ys[index..];
    }
  }

  /// Subscribing and then unsubscribing a listener that was not yet
  /// subscribed restores the list.
  lemma {:induction false} SubscribeUnsubscribe(xs: seq<Listener>, l: Listener)
    requires l !in xs
    ensures RemoveFirst(xs + [l], l) == xs
  {
    if |xs| > 0 {
      var ys := xs + [l];
      assert ys[0] == xs[0] && ys[1..] == xs[1..] + [l];
      SubscribeUnsubscribe(xs[1..], l);
      assert xs == [xs[0]] + xs[1..];
    }
  }

  /// A listener subscribed twice stays subscribed once after one
  /// unsubscribe, and is gone after the second; a third changes nothing.
  lemma DoubleSubscription(xs: seq<Listener>, l: Listener)
    requires l !in xs
    ensures var once := RemoveFirst(xs + [l] + [l], l);
            multiset(once)[l] == 1 &&
            RemoveFirst(once, l) == xs &&
            RemoveFirst(RemoveFirst(once, l), l) == xs
  {
    var once := RemoveFirst(xs + [l] + [l], l);
    assert multiset(xs + [l] + [l])[l] == 2;
    assert (xs + [l] + [l])[..|xs|] == xs;
    SpliceIsRemoveFirst(xs + [l] + [l], l, |xs|);
    assert once == xs + [l];
    SubscribeUnsubscribe(xs, l);
  }
}
