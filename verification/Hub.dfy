// The hub and its clients as the objects of dev/websockets: a client map that shrinks while it is
// ranged over, bounded queues, closing, and the event loop. Module HubProtocol interleaves them.
module Hubs {
  import opened Text
  import opened Subscriptions
  import opened Frames
  import opened Mailboxes

  class Client {
    const hub: Hub
    const hasRecv: bool
    var subscriptions: Table
    var recvClosed: bool
    var send: seq<string>
    var sendClosed: bool
    ghost var closes: nat

    ghost function View(): Mailbox<string>
      reads this
    {
      Mailbox(subscriptions, send, !sendClosed)
    }

    // The client Serve makes before it registers it.
    constructor (hub: Hub, hasRecv: bool, names: seq<string>)
      ensures this.hub == hub && this.hasRecv == hasRecv && closes == 0 && !recvClosed
      ensures View() == Mailbox(Set(map[], ["errors", "broadcast"] + names), [], true)
    {
      this.hub := hub;
      this.hasRecv := hasRecv;
      subscriptions := map[];
      recvClosed, send, sendClosed, closes := false, [], false, 0;
      new;
      Subscribe(["errors", "broadcast"] + names);
    }

    // Closing a channel twice would panic.
    method Close()
      requires !sendClosed && !recvClosed
      modifies hub`clients, `recvClosed, `sendClosed, `closes
      ensures hub.clients == old(hub.clients) - {this}
      ensures View() == old(View()).(open := false)
      ensures recvClosed == hasRecv && closes == old(closes) + 1
    {
      hub.clients := hub.clients - {this};
      if hasRecv {
        recvClosed := true;
      }
      sendClosed := true;
      closes := closes + 1;
    }

    method Subscribe(names: seq<string>)
      modifies `subscriptions
      ensures subscriptions == Set(old(subscriptions), names)
      ensures Subscribed(subscriptions) == Subscribed(old(subscriptions)) + (set n | n in names)
    {
      for k := 0 to |names|
        invariant Set(subscriptions, names[k..]) == Set(old(subscriptions), names)
      {
        assert names[k..][0] == names[k] && names[k..][1..] == names[k + 1..];
        subscriptions := subscriptions[names[k] := true];
      }
      SetIsUnion(old(subscriptions), names);
    }

    method Unsubscribe(names: seq<string>)
      modifies `subscriptions
      ensures subscriptions == Del(old(subscriptions), names)
      ensures Subscribed(subscriptions) == Subscribed(old(subscriptions)) - (set n | n in names)
    {
      for k := 0 to |names|
        invariant Del(subscriptions, names[k..]) == Del(old(subscriptions), names)
      {
        assert names[k..][0] == names[k] && names[k..][1..] == names[k + 1..];
        subscriptions := subscriptions - {names[k]};
      }
      DelIsDifference(old(subscriptions), names);
    }

    // Even asking changes the table.
    method IsSubscribed(names: seq<string>) returns (answer: bool)
      modifies `subscriptions
      ensures (answer, subscriptions) == Query(old(subscriptions), names)
      ensures answer <==> Wants(Subscribed(old(subscriptions)), names)
      ensures Subscribed(subscriptions) == Subscribed(old(subscriptions))
    {
      QueryIsMembership(subscriptions, names);
      var (wildcard, table) := GetOrInsert(subscriptions, WILDCARD);
      subscriptions := table;
      if wildcard {
        return true;
      }
      for k := 0 to |names|
        invariant AnyOf(subscriptions, names[k..]) == Query(old(subscriptions), names)
      {
        assert names[k..][0] == names[k] && names[k..][1..] == names[k + 1..];
        var (value, t) := GetOrInsert(subscriptions, names[k]);
        subscriptions := t;
        if value {
          return true;
        }
      }
      return false;
    }

    // What broadcast does with one client.
    method Receive(payload: string, tags: seq<string>)
      requires !sendClosed && !recvClosed
      modifies hub`clients, this
      ensures View() == Offer(old(View()), tags, payload)
      ensures hub.clients == if sendClosed then old(hub.clients) - {this} else old(hub.clients)
      ensures closes == old(closes) + (if sendClosed then 1 else 0) && (!sendClosed ==> !recvClosed)
    {
      var wanted := IsSubscribed(tags);
      if wanted {
        if |send| < CAPACITY {
          send := send + [payload];
        } else {
          Close();
        }
      }
    }

    // The part of writePump between taking a message and closing the frame's writer.
    method NextFrame() returns (frame: string)
      requires send != []
      modifies `send
      ensures frame == Join(old(send), '\n') && send == []
      ensures (forall m :: m in old(send) ==> '\n' !in m) ==> Pieces(frame) == old(send)
    {
      ghost var queued := send;
      frame := send[0];
      send := send[1..];
      var n := |send|;
      for i := 0 to n
        invariant send == queued[i + 1..]
        invariant frame == Join(queued[..i + 1], NEWLINE)
      {
        JoinAppend(queued[..i + 1], queued[i + 1]);
        assert queued[..i + 1] + [queued[i + 1]] == queued[..i + 2];
        frame := frame + [NEWLINE] + send[0];
        send := send[1..];
      }
      assert queued[..n + 1] == queued;
      FrameRoundTrip(queued);
    }
  }

  // What the event loop can receive.
  datatype Event = Register(client: Client) | Unregister(client: Client) | Message(payload: string, tags: seq<string>)

  // One client through a list of events: whether it is registered, and its mailbox.
  datatype Track = Track(registered: bool, box: Mailbox<string>)

  ghost function FollowOne(e: Event, c: Client, u: Track): Track {
    match e
    case Register(d) => if d == c then u.(registered := true) else u
    case Unregister(d) => if d == c && u.registered then u.(box := u.box.(open := false)) else u
    case Message(payload, tags) => if u.registered && u.box.open then u.(box := Offer(u.box, tags, payload)) else u
  }

  ghost function Follow(events: seq<Event>, c: Client, t: Track): Track {
    if events == [] then t
    else FollowOne(events[|events| - 1], c, Follow(events[..|events| - 1], c, t))
  }

  ghost function Newcomers(events: seq<Event>): set<Client> {
    set k | 0 <= k < |events| && events[k].Register? :: events[k].client
  }

  class Hub {
    var clients: set<Client>
    ghost var registered: set<Client>

    ghost predicate Valid()
      reads this, registered
    {
      && clients <= registered
      && (forall c :: c in registered ==> c.hub == this && c.sendClosed == (c !in clients))
      && (forall c :: c in registered ==> c.closes == (if c in clients then 0 else 1))
      && (forall c :: c in clients ==> !c.recvClosed)
    }

    constructor ()
      ensures Valid() && clients == {} && registered == {}
    {
      clients, registered := {}, {};
    }

    // broadcast: ranges over the map, in any order, while clients drop out of it.
    method Deliver(payload: string, tags: seq<string>)
      requires Valid()
      modifies `clients, clients
      ensures Valid()
      ensures forall c :: c in old(clients) ==> c.View() == Offer(old(c.View()), tags, payload)
      ensures forall c :: c in clients <==> c in old(clients) && !c.sendClosed
    {
      ghost var all := clients;
      var todo := clients;
      while todo != {}
        invariant Valid()
        invariant todo <= clients <= all
        invariant forall c :: c in todo ==> c.View() == old(c.View())
        invariant forall c :: c in all - todo ==> c.View() == Offer(old(c.View()), tags, payload)
        decreases todo
      {
        var c :| c in todo;
        todo := todo - {c};
        c.Receive(payload, tags);
      }
    }

    // Broadcast: what it hands to the event loop.
    method Broadcast(data: string, tags: seq<string>) returns (e: Event)
      ensures e == Message(Normalize(data), tags) && '\n' !in e.payload
    {
      var message := TrimSpace(ReplaceAll(data, NEWLINE, ' '));
      ghost var lead, tail := PayloadOf(data);
      e := Message(message, tags);
    }

    method Shutdown()
      requires Valid()
      modifies `clients, clients
      ensures Valid() && clients == {}
      ensures forall c :: c in old(clients) ==> c.View() == old(c.View()).(open := false)
    {
      ghost var all := clients;
      var todo := clients;
      while todo != {}
        invariant Valid()
        invariant todo == clients <= all
        invariant forall c :: c in todo ==> c.View() == old(c.View())
        invariant forall c :: c in all - todo ==> c.View() == old(c.View()).(open := false)
        decreases todo
      {
        var c :| c in todo;
        todo := todo - {c};
        c.Close();
      }
    }

    // One turn of the event loop; `pool` holds the clients that are or will be registered.
    method Handle(e: Event, ghost pool: set<Client>)
      requires Valid() && registered <= pool && (e.Register? ==> e.client in pool - registered)
      requires forall c :: c in pool - registered ==> Unused(c)
      modifies `clients, `registered, pool
      ensures Valid() && registered == old(registered) + (if e.Register? then {e.client} else {})
      ensures forall c :: c in pool - registered ==> Unused(c)
      ensures forall c :: c in pool ==>
        Track(c in registered, c.View()) == FollowOne(e, c, Track(c in old(registered), old(c.View())))
    {
      match e {
        case Register(c) =>
          clients := clients + {c};
          registered := registered + {c};
        case Unregister(c) =>
          if c in clients {
            c.Close();
          }
        case Message(payload, tags) =>
          Deliver(payload, tags);
      }
    }

    ghost predicate Unused(c: Client)
      reads c
    {
      c.hub == this && !c.sendClosed && !c.recvClosed && c.closes == 0
    }

    // Run: the events received before the stop, then the shutdown. Every client is registered at
    // most once. Each ends closed exactly once, with the queue the events gave it.
    method Run(events: seq<Event>)
      requires Valid() && clients == {} && registered == {}
      requires forall c :: c in Newcomers(events) ==> Unused(c)
      requires forall i, j :: 0 <= i < j < |events| && events[i].Register? && events[j].Register? ==>
        events[i].client != events[j].client
      modifies this, Newcomers(events)
      ensures Valid() && clients == {} && registered == Newcomers(events)
      ensures forall c :: c in registered ==>
        c.closes == 1 && c.View() == Follow(events, c, Track(false, old(c.View()))).box.(open := false)
    {
      var stop := false;
      var i := 0;
      while !stop
        invariant 0 <= i <= |events| && (stop ==> i == |events|)
        invariant Valid() && registered == Newcomers(events[..i])
        invariant registered <= Newcomers(events)
        invariant forall c :: c in Newcomers(events) - registered ==> Unused(c)
        invariant forall c :: c in Newcomers(events) ==>
          Track(c in registered, c.View()) == Follow(events[..i], c, Track(false, old(c.View())))
        decreases |events| - i, !stop
      {
        if i == |events| {
          stop := true;
        } else {
          assert events[..i + 1][..i] == events[..i];
          assert events[i].Register? ==> events[i].client !in Newcomers(events[..i]);
          Handle(events[i], Newcomers(events));
          i := i + 1;
        }
      }
      assert events[..i] == events;
      Shutdown();
    }
  }
}
