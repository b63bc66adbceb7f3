/** The notification store: a list of toasts, each appended with a default
    duration and an id, and each removed by id when its timer fires.

    The id is `Date.now().toString()`. Distinct clock readings give distinct
    strings, so an id is modelled as the millisecond reading itself, and the
    clock is a parameter. A timer is not run: adding a notification returns the
    timer it arms, and its firing is a separate call to `Expire`. */
module Notifications {
  import opened Common

  datatype NoteType = Success | Error | Info | Warning

  datatype Notification = Notification(id: nat, message: string, kind: NoteType, duration: int)

  /** The `setTimeout` an add arms: after `delay` milliseconds, remove `id`. */
  datatype Timer = Timer(id: nat, delay: int)

  datatype Added = Added(list: seq<Notification>, timer: Timer)

  const DEFAULT_DURATION: int := 10000

  /** `duration || 10000`: a missing or zero duration becomes the default. */
  function Duration(given: Option<int>): (d: int)
    ensures d != 0
    ensures given.None? ==> d == DEFAULT_DURATION
    ensures given.Some? && given.value == 0 ==> d == DEFAULT_DURATION
    ensures given.Some? && given.value != 0 ==> d == given.value
  {
    match given
    case None => DEFAULT_DURATION
    case Some(v) => if v == 0 then DEFAULT_DURATION else v
  }

  /** `findIndex(n => n.id === id)`: the first position holding the id, or -1. */
  function FindIndex(s: seq<Notification>, id: nat): (i: int)
    ensures -1 <= i < |s|
    ensures 0 <= i ==> s[i].id == id
    ensures forall j :: 0 <= j < |s| && (i < 0 || j < i) ==> s[j].id != id
    decreases |s|
  {
    if |s| == 0 then -1
    else if s[0].id == id then 0
    else
      var k := FindIndex(s[1..], id);
      assert forall j :: 1 <= j < |s| ==> s[j] == s[1..][j - 1];
      if k < 0 then -1 else k + 1
  }

  /** `removeNotification`: drops the first notification with the id and keeps
      the others in order; an unknown id changes nothing. */
  function Remove(s: seq<Notification>, id: nat): (r: seq<Notification>)
    ensures FindIndex(s, id) < 0 ==> r == s
    ensures FindIndex(s, id) >= 0 ==> |r| == |s| - 1
    ensures forall k :: 0 <= k < |r| && (FindIndex(s, id) < 0 || k < FindIndex(s, id)) ==> r[k] == s[k]
    ensures forall k :: 0 <= FindIndex(s, id) <= k < |r| ==> r[k] == s[k + 1]
    decreases |s|
  {
    if |s| == 0 then []
    else if s[0].id == id then s[1..]
    else
      var rest := Remove(s[1..], id);
      assert forall k :: 1 <= k < |s| ==> s[1..][k - 1] == s[k];
      [s[0]] + rest
  }

  /** Removing keeps every notification with another id, and brings in none. */
  lemma RemoveKeepsOthers(s: seq<Notification>, id: nat, n: Notification)
    ensures n in Remove(s, id) ==> n in s
    ensures n in s && n.id != id ==> n in Remove(s, id)
  {
    var i := FindIndex(s, id);
    var r := Remove(s, id);
    if i >= 0 {
      if n in r {
        var k :| 0 <= k < |r| && r[k] == n;
        assert k < i ==> s[k] == n;
        assert k >= i ==> s[k + 1] == n;
      }
      if n in s && n.id != id {
        var k :| 0 <= k < |s| && s[k] == n;
        assert k != i;
        assert k < i ==> r[k] == n;
        assert k > i ==> r[k - 1] == n;
      }
    }
  }

  /** `addNotification`: appends one notification with the clock reading as
      its id and arms its timer. */
  function AddNotification(s: seq<Notification>, message: string, kind: NoteType, duration: Option<int>, now: nat): (a: Added)
    ensures |a.list| == |s| + 1 && a.list[..|s|] == s
    ensures a.list[|s|] == Notification(now, message, kind, Duration(duration))
    ensures a.timer == Timer(now, a.list[|s|].duration)
  {
    var n := Notification(now, message, kind, Duration(duration));
    assert (s + [n])[..|s|] == s;
    Added(s + [n], Timer(now, n.duration))
  }

  /** `showSuccess`: a success notification with the message. */
  function ShowSuccess(s: seq<Notification>, message: string, duration: Option<int>, now: nat): (a: Added)
    ensures |a.list| == |s| + 1 && a.list[..|s|] == s
    ensures a.list[|s|].kind == Success && a.list[|s|].message == message
  {
    AddNotification(s, message, Success, duration, now)
  }

  /** `showError`: an error notification with the message. */
  function ShowError(s: seq<Notification>, message: string, duration: Option<int>, now: nat): (a: Added)
    ensures |a.list| == |s| + 1 && a.list[..|s|] == s
    ensures a.list[|s|].kind == Error && a.list[|s|].message == message
  {
    AddNotification(s, message, Error, duration, now)
  }

  /** A timer firing: the removal it was armed with. */
  function Expire(s: seq<Notification>, t: Timer): (r: seq<Notification>)
    ensures |r| <= |s|
    ensures forall n :: n in s && n.id != t.id ==> n in r
  {
    forall n | n in s && n.id != t.id
      ensures n in Remove(s, t.id)
    {
      RemoveKeepsOthers(s, t.id, n);
    }
    Remove(s, t.id)
  }

  /** When the clock reading is new, the timer removes exactly the
      notification it was armed for. */
  lemma AddThenExpire(s: seq<Notification>, message: string, kind: NoteType, duration: Option<int>, now: nat)
    requires FindIndex(s, now) < 0
    ensures var a := AddNotification(s, message, kind, duration, now); Expire(a.list, a.timer) == s
  {
    var a := AddNotification(s, message, kind, duration, now);
    assert a.list == s + [a.list[|s|]];
    assert FindIndex(a.list, now) == |s|;
    assert a.list[..|s|] == s;
  }

  /** Removing an id that occurs in `s` from `s` with one more notification
      appended removes it from `s` and keeps the appended one last. */
  lemma {:induction false} RemoveAppended(s: seq<Notification>, id: nat, n: Notification)
    requires FindIndex(s, id) >= 0
    ensures Remove(s + [n], id) == Remove(s, id) + [n]
    decreases |s|
  {
    assert (s + [n])[0] == s[0];
    assert (s + [n])[1..] == s[1..] + [n];
    if s[0].id != id {
      assert FindIndex(s[1..], id) >= 0;
      RemoveAppended(s[1..], id, n);
    }
  }

  /** As written, when an earlier notification holds the same clock reading,
      the new timer removes that earlier one and leaves the new one. */
  lemma ExpireTakesEarlierTwin(s: seq<Notification>, message: string, kind: NoteType, duration: Option<int>, now: nat)
    requires FindIndex(s, now) >= 0
    ensures var a := AddNotification(s, message, kind, duration, now);
      Expire(a.list, a.timer) == Remove(s, now) + [a.list[|s|]]
  {
    var a := AddNotification(s, message, kind, duration, now);
    assert a.list == s + [a.list[|s|]];
    RemoveAppended(s, now, a.list[|s|]);
  }

  /** Two errors in the same millisecond, the second with a 2000 ms duration:
      after 2000 ms its timer removes the first error, which was due to stay
      for 10000 ms, and the second stays on screen. */
  lemma SameMillisecondCounterexample()
    ensures var first := ShowError([], "a", None, 7);
      var second := ShowError(first.list, "b", Some(2000), 7);
      && second.timer.delay < first.timer.delay
      && Expire(second.list, second.timer) == [Notification(7, "b", Error, 2000)]
  {
    var first := ShowError([], "a", None, 7);
    ExpireTakesEarlierTwin(first.list, "b", Error, Some(2000), 7);
  }

  // ------------------------------------------------------------ fresh ids

  /** The store with an id counter, so that no two notifications share an id. */
  datatype Store = Store(list: seq<Notification>, nextId: nat)

  datatype StoreAdded = StoreAdded(store: Store, timer: Timer)

  /** No two notifications share an id. */
  predicate DistinctIds(s: seq<Notification>) {
    forall i, j :: 0 <= i < j < |s| ==> s[i].id != s[j].id
  }

  /** Every id is below the counter and no two are equal. */
  predicate Valid(st: Store) {
    && DistinctIds(st.list)
    && (forall k :: 0 <= k < |st.list| ==> st.list[k].id < st.nextId)
  }

  /** `addNotification` with the counter's value as the id. */
  function AddFresh(st: Store, message: string, kind: NoteType, duration: Option<int>): (a: StoreAdded)
    ensures |a.store.list| == |st.list| + 1 && a.store.list[..|st.list|] == st.list
    ensures a.store.list[|st.list|] == Notification(a.timer.id, message, kind, Duration(duration))
    ensures a.timer.delay == Duration(duration)
    ensures a.store.nextId > st.nextId
    ensures Valid(st) ==> Valid(a.store)
  {
    var a := AddNotification(st.list, message, kind, duration, st.nextId);
    StoreAdded(Store(a.list, st.nextId + 1), a.timer)
  }

  /** `removeNotification` on the store; the counter is kept. */
  function RemoveFresh(st: Store, id: nat): (r: Store)
    ensures r.nextId == st.nextId
    ensures Valid(st) ==> Valid(r)
    ensures Valid(st) ==> forall k :: 0 <= k < |r.list| ==> r.list[k].id != id
  {
    Store(Remove(st.list, id), st.nextId)
  }

  /** With fresh ids, whatever other notifications are present, the timer
      removes the notification it was armed for and nothing else. */
  lemma FreshTimerRemovesOwn(st: Store, message: string, kind: NoteType, duration: Option<int>)
    requires Valid(st)
    ensures var a := AddFresh(st, message, kind, duration); RemoveFresh(a.store, a.timer.id).list == st.list
  {
    var a := AddFresh(st, message, kind, duration);
    assert FindIndex(st.list, st.nextId) < 0;
    AddThenExpire(st.list, message, kind, duration, st.nextId);
  }
}
