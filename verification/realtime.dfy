/**
 * The live-update client (`static/js/realtime-enhanced.js`), class
 * `EnhancedRealTime`: reconnect back-off, the subscription set, the
 * commentary lists, the connection marker in the page title, the status
 * labels and the score counting animation. The socket and the DOM are
 * left out; whether the socket is connected is a parameter, and what the
 * client sends over it is recorded in `emitted`.
 */
module Realtime {
  import opened Wrappers
  import CacheService

  /** `2^n`. */
  function Pow2(n: nat): (r: nat)
    ensures r >= 1
  {
    if n == 0 then 1 else 2 * Pow2(n - 1)
  }

  /**
   * A subscription object. JavaScript's `Set` compares objects by
   * reference, so each object literal gets its own `ref`.
   */
  datatype Subscription = Subscription(ref: nat, channel: string, matchId: Option<int>)

  /** A message sent over the socket. */
  datatype Emit = Subscribe(channel: string, matchId: Option<int>) | Unsubscribe(channel: string, matchId: Option<int>)

  /** What the client does after losing the connection. */
  datatype Reconnect = Now | After(ms: int) | GiveUp

  /** The delays of reconnects `from`, `from + 1`, ... up to the maximum. */
  function Backoff(delay: int, from: nat, max: nat): (r: seq<int>)
    ensures |r| == if from < max then max - from else 0
    ensures forall k :: 0 <= k < |r| ==> r[k] == delay * Pow2(from + k)
    decreases max - from
  {
    if from >= max then [] else [delay * Pow2(from)] + Backoff(delay, from + 1, max)
  }

  /** The red (disconnected) and green (connected) title markers, each followed by a space. */
  const Red: string := "\U{1F534} "
  const Green: string := "\U{1F7E2} "

  /** JavaScript's `s.replace(p, "")` with a string pattern: only the first occurrence goes. */
  function RemoveFirst(s: string, p: string): string
    requires p != []
    decreases |s|
  {
    if |p| <= |s| && s[..|p|] == p then s[|p|..]
    else if s == [] then []
    else [s[0]] + RemoveFirst(s[1..], p)
  }

  lemma {:induction false} RemoveAbsent(s: string, p: string)
    requires p != [] && !CacheService.Contains(s, p)
    ensures RemoveFirst(s, p) == s
    decreases |s|
  {
    if s != [] {
      RemoveAbsent(s[1..], p);
    }
  }

  /** The title `updateConnectionStatus` sets: both markers stripped once, then the current one prepended. */
  function MarkedTitle(connected: bool, title: string): (r: string)
    ensures |r| >= 2 && r[..2] == (if connected then Green else Red)
  {
    (if connected then Green else Red) + RemoveFirst(RemoveFirst(title, Red), Green)
  }

  /**
   * For a title that carries no marker of its own, a title with one marker
   * in front goes back to that title with the new marker: however often
   * the connection state changes, there is exactly one marker.
   */
  lemma {:induction false} MarkedTitleSingleMarker(base: string, previous: Option<bool>, connected: bool)
    requires !CacheService.Contains(base, Red) && !CacheService.Contains(base, Green)
    ensures var start := if previous.None? then base else (if previous.value then Green else Red) + base;
      MarkedTitle(connected, start) == (if connected then Green else Red) + base
  {
    var m := if connected then Green else Red;
    RemoveAbsent(base, Red);
    RemoveAbsent(base, Green);
    match previous
    case None =>
    case Some(true) =>
      var s := Green + base;
      assert !CacheService.Contains(s, Red) by {
        assert s[1..] == [' '] + base;
        assert !CacheService.Contains([' '] + base, Red) by {
          assert ([' '] + base)[1..] == base;
        }
      }
      RemoveAbsent(s, Red);
      assert s[..|Green|] == Green;
      assert RemoveFirst(s, Green) == base;
    case Some(false) =>
      var s := Red + base;
      assert s[..|Red|] == Red;
      assert RemoveFirst(s, Red) == base;
  }

  /** `getStatusText`: the label of a known status, else the status itself. */
  function StatusText(status: string): (r: string)
    ensures status == "ongoing" ==> r == "Live"
    ensures status !in {"upcoming", "ongoing", "finished", "cancelled", "halftime"} ==> r == status
    ensures r == [] <==> status == []
  {
    match status
    case "upcoming" => "Upcoming"
    case "ongoing" => "Live"
    case "finished" => "Finished"
    case "cancelled" => "Cancelled"
    case "halftime" => "Half Time"
    case _ => status
  }

  /**
   * `animateNumberChange`: the value shown at the start is the element's
   * text as an integer, with an unparsable text (and 0) counting as 0.
   */
  function ShownValue(parsed: Option<int>): int {
    parsed.GetOr(0)
  }

  /**
   * The values `animateNumberChange` writes, one per timer tick, from the
   * shown value to `target`: each differs from the previous one by exactly
   * one in the direction of the target, the last is the target, and there
   * are as many as the distance; nothing is written when they are equal.
   */
  method AnimateNumberChange(parsed: Option<int>, target: int) returns (shown: seq<int>)
    ensures var start := ShownValue(parsed);
      |shown| == (if target >= start then target - start else start - target)
      && (shown != [] ==> shown[|shown| - 1] == target)
      && (forall k :: 0 <= k < |shown| ==> shown[k] == if target > start then start + k + 1 else start - k - 1)
  {
    var start := ShownValue(parsed);
    shown := [];
    if start == target {
      return;
    }
    var current := start;
    var increment := if target > start then 1 else -1;
    while current != target
      invariant current == start + |shown| * increment
      invariant if increment == 1 then start <= current <= target else target <= current <= start
      invariant forall k :: 0 <= k < |shown| ==> shown[k] == start + (k + 1) * increment
      decreases if increment == 1 then target - current else current - target
    {
      current := current + increment;
      shown := shown + [current];
    }
  }

  /** The client's state. */
  class RealtimeClient {
    var reconnectAttempts: nat
    const maxReconnectAttempts: nat
    const reconnectDelay: int
    /** The `subscriptions` set, in insertion order. */
    var subscriptions: seq<Subscription>
    /** The identity the next object literal gets. */
    var nextRef: nat
    var emitted: seq<Emit>
    /** The commentary list of each match container on the page, newest first. */
    var commentary: map<int, seq<string>>
    var title: string

    ghost predicate Valid()
      reads this
    {
      (forall k :: 0 <= k < |subscriptions| ==> subscriptions[k].ref < nextRef)
      && (forall i, j :: 0 <= i < j < |subscriptions| ==> subscriptions[i].ref != subscriptions[j].ref)
      && (forall m :: m in commentary ==> |commentary[m]| <= 50)
    }

    /** The defaults: five reconnect attempts starting at one second. */
    constructor (containers: set<int>, title: string)
      ensures Valid()
      ensures reconnectAttempts == 0 && maxReconnectAttempts == 5 && reconnectDelay == 1000
      ensures subscriptions == [] && emitted == []
      ensures commentary == (map m | m in containers :: []) && this.title == title
    {
      reconnectAttempts := 0;
      maxReconnectAttempts := 5;
      reconnectDelay := 1000;
      subscriptions := [];
      nextRef := 0;
      emitted := [];
      commentary := map m | m in containers :: [];
      this.title := title;
    }

    /**
     * `scheduleReconnect`: once the attempts reach the maximum nothing is
     * scheduled; otherwise the delay doubles with each attempt already made.
     */
    method ScheduleReconnect() returns (delay: Option<int>)
      modifies this
      ensures reconnectAttempts >= old(reconnectAttempts)
      ensures old(reconnectAttempts) >= maxReconnectAttempts ==> delay.None? && reconnectAttempts == old(reconnectAttempts)
      ensures old(reconnectAttempts) < maxReconnectAttempts ==>
        delay == Some(reconnectDelay * Pow2(old(reconnectAttempts))) && reconnectAttempts == old(reconnectAttempts) + 1
      ensures subscriptions == old(subscriptions) && emitted == old(emitted) && commentary == old(commentary)
      ensures title == old(title) && nextRef == old(nextRef)
    {
      if reconnectAttempts >= maxReconnectAttempts {
        return None;
      }
      delay := Some(reconnectDelay * Pow2(reconnectAttempts));
      reconnectAttempts := reconnectAttempts + 1;
    }

    /**
     * A run of failed connections, each scheduling the next reconnect: the
     * delays are the back-off sequence from the current attempt up to the
     * maximum, and the attempts then stay at the maximum.
     */
    method FailRepeatedly(times: nat) returns (delays: seq<int>)
      requires reconnectAttempts <= maxReconnectAttempts
      modifies this
      ensures delays == Backoff(reconnectDelay, old(reconnectAttempts), if old(reconnectAttempts) + times <= maxReconnectAttempts then old(reconnectAttempts) + times else maxReconnectAttempts)
      ensures reconnectAttempts == if old(reconnectAttempts) + times <= maxReconnectAttempts then old(reconnectAttempts) + times else maxReconnectAttempts
      ensures subscriptions == old(subscriptions) && emitted == old(emitted) && commentary == old(commentary)
      ensures title == old(title) && nextRef == old(nextRef)
    {
      delays := [];
      var i := 0;
      while i < times
        invariant 0 <= i <= times
        invariant reconnectAttempts == if old(reconnectAttempts) + i <= maxReconnectAttempts then old(reconnectAttempts) + i else maxReconnectAttempts
        invariant delays == Backoff(reconnectDelay, old(reconnectAttempts), reconnectAttempts)
        invariant subscriptions == old(subscriptions) && emitted == old(emitted) && commentary == old(commentary)
        invariant title == old(title) && nextRef == old(nextRef)
      {
        var d := ScheduleReconnect();
        if d.Some? {
          BackoffSnoc(reconnectDelay, old(reconnectAttempts), reconnectAttempts - 1);
          delays := delays + [d.value];
        }
        i := i + 1;
      }
    }

    /** The socket's `connect` event: the attempt counter starts over and every stored subscription is sent again. */
    method OnConnect()
      modifies this
      ensures reconnectAttempts == 0
      ensures emitted == old(emitted) + Resent(old(subscriptions))
      ensures subscriptions == old(subscriptions) && commentary == old(commentary) && nextRef == old(nextRef)
      ensures title == MarkedTitle(true, old(title))
    {
      reconnectAttempts := 0;
      title := MarkedTitle(true, title);
      var k := 0;
      while k < |subscriptions|
        invariant 0 <= k <= |subscriptions|
        invariant emitted == old(emitted) + Resent(subscriptions[..k])
        invariant reconnectAttempts == 0 && title == MarkedTitle(true, old(title))
        invariant subscriptions == old(subscriptions) && commentary == old(commentary) && nextRef == old(nextRef)
      {
        assert subscriptions[..k + 1] == subscriptions[..k] + [subscriptions[k]];
        ResentSnoc(subscriptions[..k], subscriptions[k]);
        emitted := emitted + [Emit.Subscribe(subscriptions[k].channel, subscriptions[k].matchId)];
        k := k + 1;
      }
      assert subscriptions[..|subscriptions|] == subscriptions;
    }

    /**
     * The socket's `disconnect` and `connect_error` events: the title is
     * marked as disconnected; a disconnect the server initiated reconnects at
     * once, any other schedules a reconnect.
     */
    method OnDisconnect(reason: string) returns (next: Reconnect)
      modifies this
      ensures title == MarkedTitle(false, old(title))
      ensures reason == "io server disconnect" ==> next == Now && reconnectAttempts == old(reconnectAttempts)
      ensures reason != "io server disconnect" && old(reconnectAttempts) >= maxReconnectAttempts ==>
        next == GiveUp && reconnectAttempts == old(reconnectAttempts)
      ensures reason != "io server disconnect" && old(reconnectAttempts) < maxReconnectAttempts ==>
        next == After(reconnectDelay * Pow2(old(reconnectAttempts))) && reconnectAttempts == old(reconnectAttempts) + 1
      ensures subscriptions == old(subscriptions) && emitted == old(emitted) && commentary == old(commentary) && nextRef == old(nextRef)
    {
      title := MarkedTitle(false, title);
      if reason == "io server disconnect" {
        return Now;
      }
      var d := ScheduleReconnect();
      next := if d.Some? then After(d.value) else GiveUp;
    }

    /**
     * `subscribe`: a new subscription object is added to the set whether or
     * not the socket is connected (so subscribing twice to a channel stores
     * it twice); it is sent at once only when connected.
     */
    method Subscribe(channel: string, matchId: Option<int>, connected: bool)
      requires Valid()
      modifies this
      ensures Valid()
      ensures subscriptions == old(subscriptions) + [Subscription(old(nextRef), channel, matchId)]
      ensures emitted == old(emitted) + (if connected then [Emit.Subscribe(channel, matchId)] else [])
      ensures reconnectAttempts == old(reconnectAttempts) && commentary == old(commentary) && title == old(title)
    {
      var s := Subscription(nextRef, channel, matchId);
      nextRef := nextRef + 1;
      if connected {
        emitted := emitted + [Emit.Subscribe(channel, matchId)];
      }
      subscriptions := subscriptions + [s];
    }

    /**
     * `unsubscribe`: the unsubscribe message is sent when connected, but the
     * object handed to the set's `delete` is a new one, equal by reference
     * to no stored subscription, so the set keeps every subscription.
     */
    method Unsubscribe(channel: string, matchId: Option<int>, connected: bool)
      requires Valid()
      modifies this
      ensures Valid()
      ensures subscriptions == old(subscriptions)
      ensures emitted == old(emitted) + (if connected then [Emit.Unsubscribe(channel, matchId)] else [])
      ensures reconnectAttempts == old(reconnectAttempts) && commentary == old(commentary) && title == old(title)
    {
      var probe := Subscription(nextRef, channel, matchId);
      DeleteFreshKeeps(subscriptions, probe);
      nextRef := nextRef + 1;
      if connected {
        emitted := emitted + [Emit.Unsubscribe(channel, matchId)];
      }
      subscriptions := Deleted(subscriptions, probe);
    }

    /**
     * `addLiveCommentary`: nothing happens when the match has no container
     * on the page; otherwise the message goes on top and, when that makes
     * more than 50 items, the oldest one is removed.
     */
    method AddLiveCommentary(matchId: int, message: string)
      requires Valid()
      modifies this
      ensures Valid()
      ensures matchId !in old(commentary) ==> commentary == old(commentary)
      ensures matchId in old(commentary) ==> commentary == old(commentary)[matchId := Capped([message] + old(commentary)[matchId])]
      ensures reconnectAttempts == old(reconnectAttempts) && subscriptions == old(subscriptions)
      ensures emitted == old(emitted) && title == old(title) && nextRef == old(nextRef)
    {
      if matchId !in commentary {
        return;
      }
      var items := [message] + commentary[matchId];
      if |items| > 50 {
        items := items[..|items| - 1];
      }
      commentary := commentary[matchId := items];
    }
  }

  /** The set's `delete`: the element equal to `x` (same reference) is removed, if any. */
  function Deleted(s: seq<Subscription>, x: Subscription): (r: seq<Subscription>)
    ensures forall y :: y in r <==> y in s && y != x
  {
    if s == [] then [] else if s[0] == x then Deleted(s[1..], x) else [s[0]] + Deleted(s[1..], x)
  }

  /** A fresh object is in no set of older objects, so deleting it keeps the set as it was. */
  lemma {:induction false} DeleteFreshKeeps(s: seq<Subscription>, x: Subscription)
    requires forall k :: 0 <= k < |s| ==> s[k].ref < x.ref
    ensures Deleted(s, x) == s
  {
    if s != [] {
      DeleteFreshKeeps(s[1..], x);
    }
  }

  /** The messages `resubscribeToChannels` sends, in set order. */
  function Resent(s: seq<Subscription>): (r: seq<Emit>)
    ensures |r| == |s|
    ensures forall k :: 0 <= k < |s| ==> r[k] == Emit.Subscribe(s[k].channel, s[k].matchId)
  {
    if s == [] then [] else [Emit.Subscribe(s[0].channel, s[0].matchId)] + Resent(s[1..])
  }

  lemma ResentSnoc(s: seq<Subscription>, x: Subscription)
    ensures Resent(s + [x]) == Resent(s) + [Emit.Subscribe(x.channel, x.matchId)]
  {
  }

  /** The commentary list after an insertion: at most one item is dropped, the oldest. */
  function Capped(items: seq<string>): (r: seq<string>)
    ensures |items| <= 51 ==> |r| <= 50
    ensures |r| == if |items| > 50 then |items| - 1 else |items|
    ensures r == items[..|r|]
  {
    if |items| > 50 then items[..|items| - 1] else items
  }

  lemma {:induction false} BackoffSnoc(delay: int, from: nat, upto: nat)
    requires from <= upto
    ensures Backoff(delay, from, upto + 1) == Backoff(delay, from, upto) + [delay * Pow2(upto)]
  {
  }

  /**
   * With the defaults, five failures in a row wait 1, 2, 4, 8 and 16
   * seconds, and a sixth schedules nothing.
   */
  lemma DefaultBackoff()
    ensures Backoff(1000, 0, 5) == [1000, 2000, 4000, 8000, 16000]
  {
    assert Pow2(4) == 16 by {
      assert Pow2(1) == 2 && Pow2(2) == 4 && Pow2(3) == 8;
    }
  }

  /** An unsubscribe right after a subscribe to the same channel leaves the subscription in the set. */
  method SubscribeThenUnsubscribe(channel: string) returns (c: RealtimeClient)
    ensures |c.subscriptions| == 1 && c.subscriptions[0].channel == channel
  {
    c := new RealtimeClient({}, "Football");
    c.Subscribe(channel, None, true);
    c.Unsubscribe(channel, None, true);
  }
}
