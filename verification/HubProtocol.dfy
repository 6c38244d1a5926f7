// Every interleaving of the hub's event loop with the writers of its clients, subscription
// changes and replies (dev/websockets/hub.go, dev/websockets/client.go).
module HubProtocol {
  import opened Text
  import opened Subscriptions
  import opened Frames
  import opened Mailboxes

  type Id = nat

  datatype Message = Message(payload: string, tags: seq<string>)

  // What a queue holds: payloads of broadcasts, and replies put there by Client.Send.
  datatype Item = FromHub(payload: string) | Reply(payload: string)

  // writePump: in its select; building a frame, before or after it has read the queue length; or
  // returned.
  datatype Left = Uncounted | Count(n: nat)
  datatype Writer = Waiting | Framing(parts: seq<Item>, left: Left) | Exited

  // A client and its history: the broadcasts the hub had taken when it was registered, its
  // subscriptions at each visit of the hub since, everything enqueued, dequeued and framed, and
  // how often it was closed.
  datatype Peer = Peer(box: Mailbox<Item>, since: nat, seen: seq<set<string>>,
                       sent: seq<Item>, taken: seq<Item>,
                       framed: seq<seq<Item>>, frames: seq<string>, writer: Writer, closes: nat)

  datatype Phase = Serving | Delivering(todo: set<Id>) | Closing | Stopped

  // `clients` is the hub's map; peers are numbered in the order of registration.
  datatype State = State(phase: Phase, clients: set<Id>, peers: seq<Peer>, log: seq<Message>)

  const INIT := State(Serving, {}, [], [])

  const BASIC: seq<string> := ["errors", "broadcast"]

  datatype WriterStep =
    | TakesFirst | LosesFirst | CountsQueue | TakesNext | Flushes | FailsToFlush | SeesClose | PingFails

  datatype Step =
    | Register(subscriptions: seq<string>)
    | Unregister(c: Id)
    | TakeBroadcast(data: string, tags: seq<string>)
    | Visit(c: Id)
    | EndBroadcast
    | Stop
    | CloseOne(c: Id)
    | Finish
    | Change(c: Id, op: Op)
    | Send(c: Id, data: string)
    | Write(c: Id, w: WriterStep)

  function NewPeer(subscriptions: seq<string>, since: nat): Peer {
    Peer(Mailbox(Set(map[], BASIC + subscriptions), [], true), since, [], [], [], [], [], Waiting, 0)
  }

  // Client.close
  function Close(p: Peer): Peer {
    p.(box := p.box.(open := false), closes := p.closes + 1)
  }

  // The hub's visit to one client during a broadcast.
  function Visited(p: Peer, m: Message): Peer {
    var b := Offer(p.box, m.tags, FromHub(m.payload));
    if !b.open then Close(p.(box := b))
    else p.(box := b, seen := p.seen + [Subscribed(p.box.table)],
            sent := if |b.queue| > |p.box.queue| then p.sent + [FromHub(m.payload)] else p.sent)
  }

  // Client.Send, with room in the queue.
  function Replied(p: Peer, data: string): Peer {
    p.(box := p.box.(queue := p.box.queue + [Reply(data)]), sent := p.sent + [Reply(data)])
  }

  function Payloads(items: seq<Item>): (r: seq<string>)
    ensures |r| == |items|
    ensures forall k :: 0 <= k < |items| ==> r[k] == items[k].payload
  {
    seq(|items|, k requires 0 <= k < |items| => items[k].payload)
  }

  predicate WriterEnabled(p: Peer, w: WriterStep) {
    match w
    case TakesFirst => p.writer.Waiting? && p.box.queue != []
    case LosesFirst => p.writer.Waiting? && p.box.queue != []
    case CountsQueue => p.writer.Framing? && p.writer.left.Uncounted?
    case TakesNext => p.writer.Framing? && p.writer.left.Count? && p.writer.left.n > 0 && p.box.queue != []
    case Flushes => p.writer.Framing? && p.writer.left == Count(0)
    case FailsToFlush => p.writer.Framing? && p.writer.left == Count(0)
    case SeesClose => p.writer.Waiting? && p.box.queue == [] && !p.box.open
    case PingFails => p.writer.Waiting?
  }

  function WriterApply(p: Peer, w: WriterStep): Peer
    requires WriterEnabled(p, w)
  {
    match w
    case TakesFirst =>
      p.(box := p.box.(queue := p.box.queue[1..]), taken := p.taken + [p.box.queue[0]],
         writer := Framing([p.box.queue[0]], Uncounted))
    case LosesFirst =>
      p.(box := p.box.(queue := p.box.queue[1..]), taken := p.taken + [p.box.queue[0]], writer := Exited)
    case CountsQueue => p.(writer := p.writer.(left := Count(|p.box.queue|)))
    case TakesNext =>
      p.(box := p.box.(queue := p.box.queue[1..]), taken := p.taken + [p.box.queue[0]],
         writer := Framing(p.writer.parts + [p.box.queue[0]], Count(p.writer.left.n - 1)))
    case Flushes =>
      p.(framed := p.framed + [p.writer.parts],
         frames := p.frames + [Join(Payloads(p.writer.parts), NEWLINE)], writer := Waiting)
    case FailsToFlush => p.(writer := Exited)
    case SeesClose => p.(writer := Exited)
    case PingFails => p.(writer := Exited)
  }

  predicate Enabled(s: State, step: Step) {
    match step
    case Register(_) => s.phase.Serving?
    case Unregister(c) => s.phase.Serving? && c < |s.peers|
    case TakeBroadcast(_, _) => s.phase.Serving?
    case Visit(c) => s.phase.Delivering? && c in s.phase.todo && c < |s.peers| && s.log != []
    case EndBroadcast => s.phase.Delivering? && s.phase.todo == {}
    case Stop => s.phase.Serving?
    case CloseOne(c) => s.phase.Closing? && c in s.clients && c < |s.peers|
    case Finish => s.phase.Closing? && s.clients == {}
    case Change(c, _) => c < |s.peers|
    case Send(c, _) => c < |s.peers| && s.peers[c].box.open
    case Write(c, w) => c < |s.peers| && WriterEnabled(s.peers[c], w)
  }

  // A client that is closed leaves the map.
  function WithPeer(s: State, c: Id, p: Peer): State
    requires c < |s.peers|
  {
    s.(peers := s.peers[c := p], clients := if p.box.open then s.clients else s.clients - {c})
  }

  function Apply(s: State, step: Step): State
    requires Enabled(s, step)
  {
    match step
    case Register(subs) =>
      s.(peers := s.peers + [NewPeer(subs, |s.log|)], clients := s.clients + {|s.peers|})
    case Unregister(c) => if c in s.clients then WithPeer(s, c, Close(s.peers[c])) else s
    case TakeBroadcast(data, tags) =>
      s.(log := s.log + [Message(Normalize(data), tags)], phase := Delivering(s.clients))
    case Visit(c) =>
      WithPeer(s, c, Visited(s.peers[c], s.log[|s.log| - 1])).(phase := Delivering(s.phase.todo - {c}))
    case EndBroadcast => s.(phase := Serving)
    case Stop => s.(phase := Closing)
    case CloseOne(c) => WithPeer(s, c, Close(s.peers[c]))
    case Finish => s.(phase := Stopped)
    case Change(c, op) =>
      var p := s.peers[c];
      s.(peers := s.peers[c := p.(box := p.box.(table := ApplyOp(p.box.table, op)))])
    case Send(c, data) =>
      var p := s.peers[c];
      if |p.box.queue| < CAPACITY then
        s.(peers := s.peers[c := Replied(p, data)])
      else s
    case Write(c, w) => s.(peers := s.peers[c := WriterApply(s.peers[c], w)])
  }

  // ---------------------------------------------------------------- what a client should get

  // Of these broadcasts, those whose tags matched the subscriptions of the time.
  function Matching(log: seq<Message>, seen: seq<set<string>>): seq<string>
    requires |log| == |seen|
  {
    if log == [] then []
    else
      var n := |log| - 1;
      Matching(log[..n], seen[..n]) + (if Wants(seen[n], log[n].tags) then [log[n].payload] else [])
  }

  // The broadcasts among the items of a queue history.
  function Broadcasts(items: seq<Item>): seq<string> {
    if items == [] then []
    else
      var n := |items| - 1;
      Broadcasts(items[..n]) + (if items[n].FromHub? then [items[n].payload] else [])
  }

  function Flatten(groups: seq<seq<Item>>): seq<Item> {
    if groups == [] then [] else Flatten(groups[..|groups| - 1]) + groups[|groups| - 1]
  }

  function Current(p: Peer): seq<Item> {
    if p.writer.Framing? then p.writer.parts else []
  }

  // The hub's side of the invariant of one client.
  predicate HubSide(p: Peer, mapped: bool, pending: bool, log: seq<Message>) {
    && p.box.open == mapped
    && p.closes == (if mapped then 0 else 1)
    && p.since + |p.seen| <= |log|
    && (mapped ==> p.since + |p.seen| + (if pending then 1 else 0) == |log|)
    && Broadcasts(p.sent) == Matching(log[p.since..p.since + |p.seen|], p.seen)
  }

  // The writer's side.
  predicate WriterSide(p: Peer) {
    && |p.box.queue| <= CAPACITY
    && p.taken + p.box.queue == p.sent
    && |p.frames| == |p.framed|
    && (forall k :: 0 <= k < |p.frames| ==> p.framed[k] != [] && p.frames[k] == Join(Payloads(p.framed[k]), NEWLINE))
    && (!p.writer.Exited? ==> Flatten(p.framed) + Current(p) == p.taken)
    && Flatten(p.framed) <= p.taken
    && (p.writer.Framing? ==> p.writer.parts != [] && (p.writer.left.Count? ==> p.writer.left.n <= |p.box.queue|))
  }

  // No broadcast payload holds a newline.
  predicate NoNewlines(log: seq<Message>) {
    forall k :: 0 <= k < |log| ==> NEWLINE !in log[k].payload
  }

  predicate CleanHistory(sent: seq<Item>) {
    forall k :: 0 <= k < |sent| && sent[k].FromHub? ==> NEWLINE !in sent[k].payload
  }

  predicate Pending(s: State, c: Id) {
    s.phase.Delivering? && c in s.phase.todo
  }

  predicate PeerOk(s: State, c: Id)
    requires c < |s.peers|
  {
    && HubSide(s.peers[c], c in s.clients, Pending(s, c), s.log)
    && WriterSide(s.peers[c])
    && CleanHistory(s.peers[c].sent)
  }

  ghost predicate Inv(s: State) {
    && (forall c :: c in s.clients ==> c < |s.peers|)
    && (s.phase.Delivering? ==> s.phase.todo <= s.clients && s.log != [])
    && (s.phase.Stopped? ==> s.clients == {})
    && NoNewlines(s.log)
    && forall c :: 0 <= c < |s.peers| ==> PeerOk(s, c)
  }

  // ---------------------------------------------------------------- each step keeps it

  lemma BroadcastsAppend(items: seq<Item>, x: Item)
    ensures Broadcasts(items + [x]) == Broadcasts(items) + (if x.FromHub? then [x.payload] else [])
  {
  }

  lemma MatchingSnoc(log: seq<Message>, seen: seq<set<string>>, m: Message, subs: set<string>)
    requires |log| == |seen|
    ensures Matching(log + [m], seen + [subs])
         == Matching(log, seen) + (if Wants(subs, m.tags) then [m.payload] else [])
  {
  }

  // The hub's books after a visit that left the client open.
  lemma VisitedHubSide(p: Peer, log: seq<Message>, q: Peer)
    requires log != [] && HubSide(p, true, true, log)
    requires var m, subs := log[|log| - 1], Subscribed(p.box.table);
      q.box.open && q.closes == p.closes && q.since == p.since && q.seen == p.seen + [subs]
      && q.sent == p.sent + (if Wants(subs, m.tags) then [FromHub(m.payload)] else [])
    ensures HubSide(q, true, false, log)
  {
    var m, n := log[|log| - 1], |p.seen|;
    WindowGrows(log, p.since, n);
    MatchingSnoc(log[p.since..p.since + n], p.seen, m, Subscribed(p.box.table));
    if Wants(Subscribed(p.box.table), m.tags) {
      BroadcastsAppend(p.sent, FromHub(m.payload));
    } else {
      assert q.sent == p.sent;
    }
  }

  lemma WindowGrows(log: seq<Message>, since: nat, n: nat)
    requires since + n + 1 == |log|
    ensures log[since..since + n + 1] == log[since..since + n] + [log[|log| - 1]]
  {
  }

  // What a visit does to a client, told without the query and the offer it is made of.
  predicate VisitResult(p: Peer, m: Message, q: Peer) {
    var subs, item := Subscribed(p.box.table), FromHub(m.payload);
    && q.since == p.since && q.taken == p.taken && q.framed == p.framed && q.frames == p.frames && q.writer == p.writer
    && if Wants(subs, m.tags) && |p.box.queue| >= CAPACITY then
         !q.box.open && q.closes == p.closes + 1 && q.box.queue == p.box.queue && q.seen == p.seen && q.sent == p.sent
       else
         && q.box.open && q.closes == p.closes && q.seen == p.seen + [subs]
         && (if Wants(subs, m.tags) then q.box.queue == p.box.queue + [item] && q.sent == p.sent + [item]
             else q.box.queue == p.box.queue && q.sent == p.sent)
  }

  lemma VisitedResult(p: Peer, m: Message)
    requires p.box.open && |p.box.queue| <= CAPACITY
    ensures VisitResult(p, m, Visited(p, m))
  {
    OfferNeverSkips(p.box, m.tags, FromHub(m.payload));
  }

  lemma VisitKeeps(p: Peer, log: seq<Message>, q: Peer)
    requires log != [] && HubSide(p, true, true, log) && WriterSide(p) && CleanHistory(p.sent) && NoNewlines(log)
    requires VisitResult(p, log[|log| - 1], q)
    ensures HubSide(q, q.box.open, false, log) && WriterSide(q) && CleanHistory(q.sent)
  {
    var item := FromHub(log[|log| - 1].payload);
    if q.box.open {
      assert p.sent + [] == p.sent;
      VisitedHubSide(p, log, q);
      assert p.taken + (p.box.queue + [item]) == (p.taken + p.box.queue) + [item];
    }
  }

  // The writer takes the oldest item of its queue, into a frame or to be lost.
  lemma TakesKeep(p: Peer, q: Peer)
    requires WriterSide(p) && p.box.queue != []
    requires var x := p.box.queue[0];
      && q == p.(box := p.box.(queue := p.box.queue[1..]), taken := p.taken + [x], writer := q.writer)
      && match q.writer
         case Waiting => false
         case Exited => true
         case Framing(parts, left) =>
           !p.writer.Exited? && parts == Current(p) + [x] && (left.Count? ==> left.n <= |p.box.queue| - 1)
    ensures WriterSide(q)
  {
  }

  lemma FlushKeeps(p: Peer)
    requires WriterSide(p) && WriterEnabled(p, Flushes)
    ensures WriterSide(WriterApply(p, Flushes))
  {
  }

  lemma WriterKeeps(p: Peer, w: WriterStep)
    requires WriterSide(p) && WriterEnabled(p, w)
    ensures WriterSide(WriterApply(p, w))
    ensures var q := WriterApply(p, w);
      q.sent == p.sent && q.box.open == p.box.open && q.since == p.since && q.seen == p.seen && q.closes == p.closes
  {
    match w {
      case TakesFirst =>
        assert [] + [p.box.queue[0]] == [p.box.queue[0]];
        TakesKeep(p, WriterApply(p, w));
      case LosesFirst => TakesKeep(p, WriterApply(p, w));
      case TakesNext => TakesKeep(p, WriterApply(p, w));
      case Flushes => FlushKeeps(p);
      case _ =>
    }
  }

  lemma LogGrows(p: Peer, mapped: bool, log: seq<Message>, m: Message)
    requires HubSide(p, mapped, false, log)
    ensures HubSide(p, mapped, mapped, log + [m])
  {
    assert (log + [m])[p.since..p.since + |p.seen|] == log[p.since..p.since + |p.seen|];
  }

  lemma TakeBroadcastKeeps(s: State, data: string, tags: seq<string>)
    requires Inv(s) && Enabled(s, TakeBroadcast(data, tags))
    ensures Inv(Apply(s, TakeBroadcast(data, tags)))
  {
    var m := Message(Normalize(data), tags);
    var lead, tail := PayloadOf(data);
    var t := Apply(s, TakeBroadcast(data, tags));
    forall c | 0 <= c < |t.peers| ensures PeerOk(t, c) {
      assert PeerOk(s, c);
      LogGrows(s.peers[c], c in s.clients, s.log, m);
    }
  }

  // Steps of one client, its hub side included.
  lemma OnePeerKeeps(s: State, c: Id, q: Peer, phase: Phase)
    requires Inv(s) && c < |s.peers|
    requires phase == s.phase || (s.phase.Delivering? && c in s.phase.todo && phase == Delivering(s.phase.todo - {c}))
    requires !q.box.open ==> !(phase.Delivering? && c in phase.todo)
    requires q.box.open ==> c in s.clients
    requires HubSide(q, q.box.open, phase.Delivering? && c in phase.todo, s.log)
    requires WriterSide(q) && CleanHistory(q.sent)
    ensures Inv(WithPeer(s, c, q).(phase := phase))
  {
    var t := WithPeer(s, c, q).(phase := phase);
    forall d | 0 <= d < |t.peers| ensures PeerOk(t, d) {
      assert PeerOk(s, d);
    }
  }

  lemma RegisterKeeps(s: State, subs: seq<string>)
    requires Inv(s) && Enabled(s, Register(subs))
    ensures Inv(Apply(s, Register(subs)))
  {
    var t := Apply(s, Register(subs));
    forall d | 0 <= d < |t.peers| ensures PeerOk(t, d) {
      if d < |s.peers| {
        assert PeerOk(s, d);
      }
    }
  }

  lemma CloseKeeps(s: State, c: Id)
    requires Inv(s) && c in s.clients && (s.phase.Serving? || s.phase.Closing?)
    ensures Inv(WithPeer(s, c, Close(s.peers[c])))
  {
    assert PeerOk(s, c);
    OnePeerKeeps(s, c, Close(s.peers[c]), s.phase);
  }

  lemma VisitStepKeeps(s: State, c: Id)
    requires Inv(s) && Enabled(s, Visit(c))
    ensures Inv(Apply(s, Visit(c)))
  {
    assert PeerOk(s, c);
    var m := s.log[|s.log| - 1];
    VisitedResult(s.peers[c], m);
    VisitResultKeeps(s, c, Visited(s.peers[c], m));
  }

  lemma VisitResultKeeps(s: State, c: Id, q: Peer)
    requires Inv(s) && Enabled(s, Visit(c)) && VisitResult(s.peers[c], s.log[|s.log| - 1], q)
    ensures Inv(WithPeer(s, c, q).(phase := Delivering(s.phase.todo - {c})))
  {
    assert PeerOk(s, c);
    VisitKeeps(s.peers[c], s.log, q);
    OnePeerKeeps(s, c, q, Delivering(s.phase.todo - {c}));
  }

  lemma ChangeKeeps(s: State, c: Id, op: Op)
    requires Inv(s) && Enabled(s, Change(c, op))
    ensures Inv(Apply(s, Change(c, op)))
  {
    assert PeerOk(s, c);
    var p := s.peers[c];
    var q := p.(box := p.box.(table := ApplyOp(p.box.table, op)));
    OnePeerKeeps(s, c, q, s.phase);
    assert WithPeer(s, c, q).(phase := s.phase) == Apply(s, Change(c, op));
  }

  lemma ReplyKeeps(p: Peer, mapped: bool, pending: bool, log: seq<Message>, data: string)
    requires HubSide(p, mapped, pending, log) && WriterSide(p) && CleanHistory(p.sent) && |p.box.queue| < CAPACITY
    ensures var q := Replied(p, data); HubSide(q, mapped, pending, log) && WriterSide(q) && CleanHistory(q.sent)
  {
    var q := Replied(p, data);
    BroadcastsAppend(p.sent, Reply(data));
    assert q.taken + q.box.queue == (p.taken + p.box.queue) + [Reply(data)];
  }

  lemma SendKeeps(s: State, c: Id, data: string)
    requires Inv(s) && Enabled(s, Send(c, data)) && |s.peers[c].box.queue| < CAPACITY
    ensures Inv(Apply(s, Send(c, data)))
  {
    assert PeerOk(s, c);
    var q := Replied(s.peers[c], data);
    ReplyKeeps(s.peers[c], c in s.clients, Pending(s, c), s.log, data);
    OnePeerKeeps(s, c, q, s.phase);
    assert WithPeer(s, c, q).(phase := s.phase) == Apply(s, Send(c, data));
  }

  lemma WriteKeeps(s: State, c: Id, w: WriterStep)
    requires Inv(s) && Enabled(s, Write(c, w))
    ensures Inv(Apply(s, Write(c, w)))
  {
    assert PeerOk(s, c);
    WriterKeeps(s.peers[c], w);
    WrittenKeeps(s, c, WriterApply(s.peers[c], w));
  }

  lemma WrittenKeeps(s: State, c: Id, q: Peer)
    requires Inv(s) && c < |s.peers| && WriterSide(q)
    requires var p := s.peers[c];
      q.sent == p.sent && q.box.open == p.box.open && q.since == p.since && q.seen == p.seen && q.closes == p.closes
    ensures Inv(s.(peers := s.peers[c := q]))
  {
    assert PeerOk(s, c);
    OnePeerKeeps(s, c, q, s.phase);
    assert WithPeer(s, c, q).(phase := s.phase) == s.(peers := s.peers[c := q]);
  }

  lemma PhaseKeeps(s: State, phase: Phase)
    requires Inv(s)
    requires s.phase.Serving? || s.phase.Closing? || s.phase == Delivering({})
    requires phase.Serving? || phase.Closing? || (phase.Stopped? && s.clients == {})
    ensures Inv(s.(phase := phase))
  {
    var t := s.(phase := phase);
    forall d | 0 <= d < |t.peers| ensures PeerOk(t, d) {
      assert PeerOk(s, d);
    }
  }

  lemma StepKeeps(s: State, step: Step)
    requires Inv(s) && Enabled(s, step)
    ensures Inv(Apply(s, step))
  {
    match step {
      case Register(subs) => RegisterKeeps(s, subs);
      case Unregister(c) =>
        if c in s.clients {
          CloseKeeps(s, c);
        }
      case TakeBroadcast(data, tags) => TakeBroadcastKeeps(s, data, tags);
      case Visit(c) => VisitStepKeeps(s, c);
      case EndBroadcast => PhaseKeeps(s, Serving);
      case Stop => PhaseKeeps(s, Closing);
      case CloseOne(c) => CloseKeeps(s, c);
      case Finish => PhaseKeeps(s, Stopped);
      case Change(c, op) => ChangeKeeps(s, c, op);
      case Send(c, data) =>
        if |s.peers[c].box.queue| < CAPACITY {
          SendKeeps(s, c, data);
        }
      case Write(c, w) => WriteKeeps(s, c, w);
    }
  }
}
