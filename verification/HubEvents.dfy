// What a list of events means for one client of the hub, without its mailbox: which broadcasts it is
// due, how many of them fit, and whether it is still open after them (dev/websockets/hub.go).
module HubEvents {
  import opened Subscriptions
  import opened Mailboxes
  import opened Hubs

  ghost function DueOf(e: Event, subs: set<string>): seq<string> {
    if e.Message? && ("*" in subs || exists x :: x in e.tags && x in subs) then [e.payload] else []
  }

  // The payloads of the broadcasts in these events that match the subscriptions.
  ghost function Due(events: seq<Event>, subs: set<string>): seq<string> {
    if events == [] then [] else Due(events[..|events| - 1], subs) + DueOf(events[|events| - 1], subs)
  }

  // A client is registered by event r and unregistered by event u, or not at all if u is past the end.
  ghost predicate ServedIn(events: seq<Event>, c: Client, r: nat, u: nat) {
    && r < u <= |events| && events[r] == Register(c)
    && (forall k :: 0 <= k < r ==> events[k] != Register(c))
    && (forall k :: r < k < u ==> events[k] != Unregister(c))
    && (u < |events| ==> events[u] == Unregister(c))
  }

  // The client as it comes from Serve: not registered, its queue open and empty.
  ghost predicate Fresh(t: Track) {
    !t.registered && t.box.open && t.box.queue == []
  }

  lemma {:induction false} BeforeRegistration(events: seq<Event>, c: Client, t: Track, k: nat)
    requires k <= |events| && Fresh(t) && forall m :: 0 <= m < k ==> events[m] != Register(c)
    ensures Follow(events[..k], c, t) == t
  {
    if k > 0 {
      BeforeRegistration(events, c, t, k - 1);
      assert events[..k][..k - 1] == events[..k - 1];
    }
  }

  ghost predicate HoldsDue(t: Track, due: seq<string>, subs: set<string>) {
    && t.registered && Subscribed(t.box.table) == subs
    && t.box.open == (|due| <= 8192)
    && t.box.queue == if |due| <= 8192 then due else due[..8192]
  }

  lemma FollowOneHolds(e: Event, c: Client, t: Track, due: seq<string>, subs: set<string>)
    requires HoldsDue(t, due, subs) && e != Unregister(c)
    ensures HoldsDue(FollowOne(e, c, t), due + DueOf(e, subs), subs)
  {
    if e.Message? && t.box.open {
      OfferNeverSkips(t.box, e.tags, e.payload);
    }
  }

  lemma {:induction false} WhileRegistered(events: seq<Event>, c: Client, t: Track, r: nat, k: nat)
    requires r < k <= |events| && Fresh(t) && events[r] == Register(c)
    requires forall m :: 0 <= m < r ==> events[m] != Register(c)
    requires forall m :: r < m < k ==> events[m] != Unregister(c)
    ensures HoldsDue(Follow(events[..k], c, t), Due(events[r + 1..k], Subscribed(t.box.table)), Subscribed(t.box.table))
    decreases k
  {
    assert events[..k][..k - 1] == events[..k - 1];
    if k == r + 1 {
      BeforeRegistration(events, c, t, r);
      assert events[r + 1..k] == [];
    } else {
      WhileRegistered(events, c, t, r, k - 1);
      var subs := Subscribed(t.box.table);
      FollowOneHolds(events[k - 1], c, Follow(events[..k - 1], c, t), Due(events[r + 1..k - 1], subs), subs);
      assert events[r + 1..k][..k - 1 - (r + 1)] == events[r + 1..k - 1];
    }
  }

  // An unregistered client is closed, and keeps the queue it had.
  lemma {:induction false} Unregistered(events: seq<Event>, c: Client, t: Track, u: nat, k: nat)
    requires u < k <= |events| && events[u] == Unregister(c) && Follow(events[..u], c, t).registered
    ensures Follow(events[..k], c, t).registered
    ensures Follow(events[..k], c, t).box == Follow(events[..u], c, t).box.(open := false)
    decreases k
  {
    assert events[..k][..k - 1] == events[..k - 1];
    if k > u + 1 {
      Unregistered(events, c, t, u, k - 1);
    }
  }

  // After any events, a client holds the broadcasts that it wanted between its registration and its
  // unregistration, in order, as far as 8192 reach; and it is still open if and only if it was not
  // unregistered and there were no more.
  lemma FollowExactly(events: seq<Event>, c: Client, t: Track, r: nat, u: nat)
    requires ServedIn(events, c, r, u) && Fresh(t)
    ensures var due, box := Due(events[r + 1..u], Subscribed(t.box.table)), Follow(events, c, t).box;
      && box.queue == (if |due| <= 8192 then due else due[..8192])
      && box.open == (u == |events| && |due| <= 8192)
  {
    WhileRegistered(events, c, t, r, u);
    assert events[..|events|] == events;
    if u < |events| {
      Unregistered(events, c, t, u, |events|);
    }
  }

  // A client that is never registered gets nothing.
  lemma NeverRegistered(events: seq<Event>, c: Client, t: Track)
    requires Fresh(t) && Register(c) !in events
    ensures Follow(events, c, t) == t
  {
    BeforeRegistration(events, c, t, |events|);
    assert events[..|events|] == events;
  }
}
