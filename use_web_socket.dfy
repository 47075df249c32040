/**
 * `useWebSocket`: the map from URL id to STOMP subscription kept in `subscriptionsRef`, and the
 * `onConnect` loop that subscribes each id to its click topic. The STOMP client is reduced to
 * what the loop relies on: a connection count, an active flag and a `subscribe` that returns a
 * fresh handle and records the topic it was asked for.
 */
module UseWebSocket {
  import opened Topics

  /** A `StompSubscription`: its handle, its topic, the client that made it and its callback. */
  datatype Subscription = Subscription(handle: nat, topic: string, connection: nat, handler: nat)

  /**
   * The ids the loop subscribes, in order: each id of `ids` that is neither in `seen` nor
   * earlier in `ids`.
   */
  function NewIds(ids: seq<nat>, seen: set<nat>): seq<nat>
  {
    if ids == [] then []
    else
      var prefix := ids[..|ids| - 1];
      var last := ids[|ids| - 1];
      if last in seen || last in prefix then NewIds(prefix, seen) else NewIds(prefix, seen) + [last]
  }

  /** The subscribed ids are distinct, and are exactly the ids not already seen. */
  lemma {:induction false} NewIdsAreFresh(ids: seq<nat>, seen: set<nat>)
    ensures forall i, j :: 0 <= i < j < |NewIds(ids, seen)| ==> NewIds(ids, seen)[i] != NewIds(ids, seen)[j]
    ensures forall id :: id in NewIds(ids, seen) <==> id in ids && id !in seen
  {
    if ids != [] {
      var prefix := ids[..|ids| - 1];
      NewIdsAreFresh(prefix, seen);
      assert ids == prefix + [ids[|ids| - 1]];
    }
  }

  /** Duplicate ids lead to one subscription per distinct id not subscribed before. */
  lemma {:induction false} NewIdsCount(ids: seq<nat>, seen: set<nat>)
    ensures |NewIds(ids, seen)| == |(set id | id in ids) - seen|
  {
    if ids == [] {
      assert (set id | id in ids) == {};
    } else {
      var prefix := ids[..|ids| - 1];
      var last := ids[|ids| - 1];
      NewIdsCount(prefix, seen);
      assert ids == prefix + [last];
      var before := (set id | id in prefix) - seen;
      if last in seen || last in prefix {
        assert (set id | id in ids) - seen == before;
      } else {
        assert (set id | id in ids) - seen == before + {last};
        assert last !in before;
      }
    }
  }

  /** The topics the ids are subscribed under. */
  function TopicsOf(ids: seq<nat>): (r: seq<string>)
    ensures |r| == |ids|
    ensures forall k :: 0 <= k < |ids| ==> r[k] == ClickTopic(ids[k])
  {
    seq(|ids|, k requires 0 <= k < |ids| => ClickTopic(ids[k]))
  }

  /** How one more id of the loop changes the ids seen so far and the ids subscribed. */
  lemma LoopStep(ids: seq<nat>, k: nat, seen: set<nat>)
    requires k < |ids|
    ensures ids[k] in seen || ids[k] in ids[..k] ==> NewIds(ids[..k + 1], seen) == NewIds(ids[..k], seen)
    ensures !(ids[k] in seen || ids[k] in ids[..k]) ==>
      TopicsOf(NewIds(ids[..k + 1], seen)) == TopicsOf(NewIds(ids[..k], seen)) + [ClickTopic(ids[k])]
  {
    assert ids[..k + 1][..k] == ids[..k];
    assert ids[..k + 1] == ids[..k] + [ids[k]];
  }

  /** The hook's state across renders; `subscriptions` is `subscriptionsRef.current`. */
  class WebSocketSession {
    var subscriptions: map<nat, Subscription>
    /** How many clients the effect has created; the newest one is the current client. */
    var connection: nat
    /** Whether the current client is activated and not yet deactivated. */
    var active: bool
    /** The handle the STOMP client gives the next subscription. */
    var nextHandle: nat
    /** Every topic passed to `client.subscribe`, in order. */
    var subscribeCalls: seq<string>
    /** Every subscription `client.subscribe` has returned, in order, on whichever client. */
    ghost var issued: seq<Subscription>

    /**
     * Handles are numbered in issue order, no subscription belongs to a client not yet created,
     * and each entry of the map is a subscription issued for its id's topic.
     */
    ghost predicate Valid()
      reads this
    {
      && nextHandle == |issued|
      && (forall k :: 0 <= k < |issued| ==> issued[k].handle == k && issued[k].connection <= connection)
      && (forall id :: id in subscriptions ==> subscriptions[id] in issued && subscriptions[id].topic == ClickTopic(id))
    }

    /** The first render: an empty map and no client yet. */
    constructor ()
      ensures Valid()
      ensures subscriptions == map[] && connection == 0 && !active && nextHandle == 0
      ensures subscribeCalls == [] && issued == []
    {
      subscriptions, connection, active, nextHandle, subscribeCalls := map[], 0, false, 0, [];
      issued := [];
    }

    /** Whether frames published to `id`'s topic reach a callback: subscribed on the current, active client. */
    predicate Live(id: nat)
      reads this
    {
      active && id in subscriptions && subscriptions[id].connection == connection
    }

    /**
     * `client.subscribe(topic, callback)` on the current client: a handle no earlier
     * subscription has, in particular none held in the map; the map itself is left to the caller.
     */
    method Subscribe(topic: string, handler: nat) returns (s: Subscription)
      requires Valid()
      modifies this
      ensures Valid()
      ensures s == Subscription(old(nextHandle), topic, connection, handler)
      ensures forall k :: 0 <= k < |old(issued)| ==> old(issued)[k].handle != s.handle
      ensures forall id :: id in subscriptions ==> subscriptions[id].handle != s.handle
      ensures issued == old(issued) + [s]
      ensures nextHandle == old(nextHandle) + 1 && subscribeCalls == old(subscribeCalls) + [topic]
      ensures subscriptions == old(subscriptions) && connection == old(connection) && active == old(active)
    {
      s := Subscription(nextHandle, topic, connection, handler);
      nextHandle := nextHandle + 1;
      subscribeCalls := subscribeCalls + [topic];
      issued := issued + [s];
    }

    /**
     * The effect body: a new client is created and activated. The map in the ref is kept as
     * it is.
     */
    method RunEffect()
      requires Valid()
      modifies this
      ensures Valid() && issued == old(issued)
      ensures connection == old(connection) + 1 && active
      ensures subscriptions == old(subscriptions) && subscribeCalls == old(subscribeCalls)
    {
      connection := connection + 1;
      active := true;
    }

    /** The effect's cleanup: the client is deactivated; the map is not touched. */
    method Cleanup()
      requires Valid()
      modifies this
      ensures Valid() && issued == old(issued)
      ensures !active
      ensures subscriptions == old(subscriptions) && connection == old(connection)
      ensures subscribeCalls == old(subscribeCalls)
    {
      active := false;
    }

    /**
     * `onConnect`: each id not yet in the map is subscribed to its click topic with the
     * callback of the current effect and recorded; an id already in the map is skipped and its
     * entry kept. Nothing is removed.
     */
    method OnConnect(urlIds: seq<nat>, handler: nat)
      requires Valid()
      modifies this
      ensures Valid() && old(issued) <= issued
      ensures subscriptions.Keys == old(subscriptions).Keys + (set id | id in urlIds)
      ensures forall id :: id in old(subscriptions) ==> subscriptions[id] == old(subscriptions)[id]
      ensures forall id :: id in subscriptions && id !in old(subscriptions) ==>
        subscriptions[id].topic == ClickTopic(id) && subscriptions[id].connection == connection
        && subscriptions[id].handler == handler
      ensures subscribeCalls == old(subscribeCalls) + TopicsOf(NewIds(urlIds, old(subscriptions).Keys))
      ensures connection == old(connection) && active == old(active)
    {
      ghost var seen := subscriptions.Keys;
      for k := 0 to |urlIds|
        invariant subscriptions.Keys == seen + (set id | id in urlIds[..k])
        invariant forall id :: id in old(subscriptions) ==> subscriptions[id] == old(subscriptions)[id]
        invariant forall id :: id in subscriptions && id !in old(subscriptions) ==>
          subscriptions[id].topic == ClickTopic(id) && subscriptions[id].connection == connection
          && subscriptions[id].handler == handler
        invariant subscribeCalls == old(subscribeCalls) + TopicsOf(NewIds(urlIds[..k], seen))
        invariant connection == old(connection) && active == old(active)
        invariant Valid() && old(issued) <= issued
      {
        var id := urlIds[k];
        LoopStep(urlIds, k, seen);
        if id !in subscriptions {
          var s := Subscribe(ClickTopic(id), handler);
          subscriptions := subscriptions[id := s];
        }
      }
      assert urlIds[..|urlIds|] == urlIds;
    }

    /** The cleanup the evident intent calls for: deactivate and forget the old client's subscriptions. */
    method CleanupClearing()
      requires Valid()
      modifies this
      ensures Valid() && issued == old(issued)
      ensures !active && subscriptions == map[]
      ensures connection == old(connection) && subscribeCalls == old(subscribeCalls)
    {
      active := false;
      subscriptions := map[];
    }

    /**
     * The hook's frame delivery: a frame for a live id goes to the callback that was passed to
     * `client.subscribe` for that id's topic on the current client.
     */
    function Deliver(id: nat): (handler: nat)
      requires Valid() && Live(id)
      reads this
      ensures exists k :: 0 <= k < |issued| && issued[k] == Subscription(k, ClickTopic(id), connection, handler)
    {
      subscriptions[id].handler
    }
  }

  /**
   * The hook as written, across one re-run of its effect (any render of `UrlList` builds a new
   * `urlIds` array): the id subscribed on the first client is skipped on the second, so no
   * frame for it reaches the page any more.
   */
  method StaleAfterRerun() returns (live: bool, subscribed: nat)
    ensures !live && subscribed == 1
  {
    var session := new WebSocketSession();
    session.RunEffect();
    session.OnConnect([7], 0);
    assert session.Live(7);
    session.Cleanup();
    session.RunEffect();
    session.OnConnect([7], 1);
    live := session.Live(7);
    subscribed := |session.subscribeCalls|;
  }

  /** With the clearing cleanup, the same re-run subscribes the id again on the new client. */
  method RerunWithClearing() returns (live: bool, subscribed: nat)
    ensures live && subscribed == 2
  {
    var session := new WebSocketSession();
    session.RunEffect();
    session.OnConnect([7], 0);
    session.CleanupClearing();
    session.RunEffect();
    session.OnConnect([7], 1);
    live := session.Live(7);
    subscribed := |session.subscribeCalls|;
  }

  /** With the clearing cleanup, every id is live after any re-run connects, for any ids. */
  method RerunWithClearingKeepsAllLive(session: WebSocketSession, urlIds: seq<nat>, handler: nat)
    requires session.Valid()
    modifies session
    ensures session.Valid()
    ensures forall id :: id in urlIds ==> session.Live(id) && session.Deliver(id) == handler
  {
    session.CleanupClearing();
    session.RunEffect();
    session.OnConnect(urlIds, handler);
  }
}
