// The life of one client over whole runs of the hub, told by the steps of the run: what it is
// subscribed to, what closes it, what its replies and frames are, and that the event loop and the
// writer always get on (dev/websockets/hub.go, dev/websockets/client.go).
module ClientRuns {
  import opened Text
  import opened Subscriptions
  import opened Mailboxes
  import opened Frames
  import opened HubProtocol
  import opened HubRuns

  // ---------------------------------------------------------------- leaving

  // Once a client is unregistered, or closed by the shutdown, it is out of the map, has been closed
  // once, and nothing is enqueued for it any more.
  lemma LeavesForGood(states: seq<State>, steps: seq<Step>, a: nat, b: nat, c: Id)
    requires Behaviour(states, steps) && a < b < |states|
    requires steps[a] == Unregister(c) || steps[a] == CloseOne(c)
    ensures c < |states[a].peers| && c < |states[b].peers| && c !in states[b].clients
    ensures states[b].peers[c].closes == 1 && !states[b].peers[c].box.open
    ensures states[b].peers[c].sent == states[a].peers[c].sent && states[b].peers[c].seen == states[a].peers[c].seen
  {
    ClosedIsFinal(states, steps, a + 1, b, c);
    Conservation(states, steps, b);
  }

  // Step k closes the client: its readers or the shutdown say so, or a broadcast that it wants finds
  // 8192 messages waiting.
  ghost predicate Closes(states: seq<State>, steps: seq<Step>, k: nat, c: Id)
    requires k < |steps| && |states| == |steps| + 1
  {
    || steps[k] == Unregister(c) || steps[k] == CloseOne(c)
    || (&& steps[k] == Visit(c) && c < |states[k].peers| && states[k].log != []
        && var p, m := states[k].peers[c], states[k].log[|states[k].log| - 1];
        && |p.box.queue| >= 8192
        && ("*" in Subscribed(p.box.table) || exists n :: n in m.tags && n in Subscribed(p.box.table)))
  }

  lemma StepCloses(states: seq<State>, steps: seq<Step>, k: nat, c: Id)
    requires Behaviour(states, steps) && k < |steps| && c < |states[k].peers| && c in states[k].clients
    ensures c !in states[k + 1].clients <==> Closes(states, steps, k, c)
  {
    RunKeeps(states, steps, k);
    assert PeerOk(states[k], c);
    if steps[k].Visit? {
      var p, m := states[k].peers[steps[k].c], states[k].log[|states[k].log| - 1];
      assert PeerOk(states[k], steps[k].c);
      OfferNeverSkips(p.box, m.tags, FromHub(m.payload));
    }
  }

  ghost predicate WasClosed(states: seq<State>, steps: seq<Step>, k: nat, c: Id)
    requires k <= |steps| && |states| == |steps| + 1
  {
    exists a :: 0 <= a < k && Closes(states, steps, a, c)
  }

  lemma WasClosedNext(states: seq<State>, steps: seq<Step>, k: nat, c: Id)
    requires |states| == |steps| + 1 && k < |steps|
    ensures WasClosed(states, steps, k + 1, c) <==> WasClosed(states, steps, k, c) || Closes(states, steps, k, c)
  {
    if WasClosed(states, steps, k + 1, c) && !Closes(states, steps, k, c) {
      var a :| 0 <= a < k + 1 && Closes(states, steps, a, c);
      assert a < k;
    }
  }

  lemma {:induction false} NotYetClosed(states: seq<State>, steps: seq<Step>, k: nat, c: Id)
    requires Behaviour(states, steps) && k <= |steps| && c >= |states[k].peers|
    ensures !WasClosed(states, steps, k, c)
  {
    if k > 0 {
      RunLater(states, steps, k - 1, k);
      RunKeeps(states, steps, k - 1);
      NotYetClosed(states, steps, k - 1, c);
      WasClosedNext(states, steps, k - 1, c);
    }
  }

  // A registered client is out of the map if and only if one of these happened to it.
  lemma {:induction false} ClosedExactly(states: seq<State>, steps: seq<Step>, k: nat, c: Id)
    requires Behaviour(states, steps) && k <= |steps| && c < |states[k].peers|
    ensures c !in states[k].clients <==> WasClosed(states, steps, k, c)
  {
    if k > 0 {
      WasClosedNext(states, steps, k - 1, c);
      RunKeeps(states, steps, k - 1);
      if c < |states[k - 1].peers| {
        ClosedExactly(states, steps, k - 1, c);
        if c in states[k - 1].clients {
          StepCloses(states, steps, k - 1, c);
        } else {
          ClosedStays(states[k - 1], steps[k - 1], c);
        }
      } else {
        NotYetClosed(states, steps, k - 1, c);
      }
    }
  }

  // ---------------------------------------------------------------- what a client is offered

  // The broadcasts taken before step k.
  function Taken(steps: seq<Step>, k: nat): seq<Message>
    requires k <= |steps|
  {
    if k == 0 then []
    else
      var step := steps[k - 1];
      Taken(steps, k - 1) + (if step.TakeBroadcast? then [Message(Normalize(step.data), step.tags)] else [])
  }

  lemma {:induction false} LogIsTaken(states: seq<State>, steps: seq<Step>, k: nat)
    requires Behaviour(states, steps) && k <= |steps|
    ensures states[k].log == Taken(steps, k)
  {
    if k > 0 {
      LogIsTaken(states, steps, k - 1);
    }
  }

  // The subscription changes of the client in the steps from a up to b.
  function Changes(steps: seq<Step>, a: nat, b: nat, c: Id): seq<Op>
    requires a <= b <= |steps|
    decreases b
  {
    if a == b then []
    else
      Changes(steps, a, b - 1, c)
      + (if steps[b - 1].Change? && steps[b - 1].c == c then [steps[b - 1].op] else [])
  }

  lemma StepSubscribed(s: State, step: Step, c: Id)
    requires Enabled(s, step) && c < |s.peers|
    ensures var subs, after := Subscribed(s.peers[c].box.table), Subscribed(Apply(s, step).peers[c].box.table);
      after == if step.Change? && step.c == c then Meant(subs, [step.op]) else subs
  {
    match step {
      case Visit(d) => QueryIsMembership(s.peers[d].box.table, s.log[|s.log| - 1].tags);
      case Change(d, op) => if d == c { OneChange(s.peers[c].box.table, op); }
      case _ =>
    }
  }

  lemma OneChange(t: Table, op: Op)
    ensures Subscribed(ApplyOp(t, op)) == Meant(Subscribed(t), [op])
  {
    assert ApplyAll(t, [op][..0]) == t;
    assert ApplyAll(t, [op]) == ApplyOp(t, op);
    AnswersRefineSet(t, [op], []);
  }

  lemma MeantNext(subs: set<string>, ops: seq<Op>, op: Op)
    ensures Meant(subs, ops + [op]) == Meant(Meant(subs, ops), [op])
  {
    assert (ops + [op])[..|ops|] == ops;
    assert [op][..0] == [];
    assert Meant(Meant(subs, ops), [op][..0]) == Meant(subs, ops);
  }

  lemma {:induction false} SubscribedSince(states: seq<State>, steps: seq<Step>, a: nat, b: nat, c: Id)
    requires Behaviour(states, steps) && a <= b < |states| && c < |states[a].peers|
    ensures c < |states[b].peers|
    ensures Subscribed(states[b].peers[c].box.table)
         == Meant(Subscribed(states[a].peers[c].box.table), Changes(steps, a, b, c))
    decreases b
  {
    if a < b {
      SubscribedSince(states, steps, a, b - 1, c);
      StepLater(states[b - 1], steps[b - 1]);
      StepSubscribed(states[b - 1], steps[b - 1], c);
      if steps[b - 1].Change? && steps[b - 1].c == c {
        MeantNext(Subscribed(states[a].peers[c].box.table), Changes(steps, a, b - 1, c), steps[b - 1].op);
      } else {
        assert Changes(steps, a, b, c) == Changes(steps, a, b - 1, c);
      }
    }
  }

  // A client is subscribed to what it was served with and has changed since, whatever it was asked.
  lemma SubscriptionsFollowChanges(states: seq<State>, steps: seq<Step>, a: nat, b: nat)
    requires Behaviour(states, steps) && a < b < |states| && steps[a].Register?
    ensures var c := |states[a].peers|;
      && c < |states[b].peers|
      && Subscribed(states[b].peers[c].box.table)
         == Meant((set n | n in ["errors", "broadcast"] + steps[a].subscriptions), Changes(steps, a + 1, b, c))
  {
    SetIsUnion(map[], ["errors", "broadcast"] + steps[a].subscriptions);
    SubscribedSince(states, steps, a + 1, b, |states[a].peers|);
  }

  // The subscriptions a broadcast was matched against are those at the hub's visit.
  ghost predicate SeenAt(states: seq<State>, steps: seq<Step>, a: nat, b: nat, m: nat)
    requires a < b <= |steps| && |states| == |steps| + 1 && steps[a].Register?
    requires |states[a].peers| < |states[b].peers| && m < |states[b].peers[|states[a].peers|].seen|
  {
    var c := |states[a].peers|;
    exists k :: a < k < b && steps[k] == Visit(c) && c < |states[k].peers| && |states[k].peers[c].seen| == m
      && states[b].peers[c].seen[m]
         == Meant((set n | n in ["errors", "broadcast"] + steps[a].subscriptions), Changes(steps, a + 1, k, c))
  }

  lemma StepSeen(s: State, step: Step, c: Id)
    requires Inv(s) && Enabled(s, step) && c < |s.peers|
    ensures var p, q := s.peers[c], Apply(s, step).peers[c];
      q.seen == p.seen || (step == Visit(c) && q.seen == p.seen + [Subscribed(p.box.table)])
  {
    if step.Write? && step.c == c {
      assert PeerOk(s, c);
      WriterKeeps(s.peers[c], step.w);
    }
  }

  lemma {:induction false} SeenIsMeant(states: seq<State>, steps: seq<Step>, a: nat, b: nat, m: nat)
    requires Behaviour(states, steps) && a < b < |states| && steps[a].Register?
    requires |states[a].peers| < |states[b].peers| && m < |states[b].peers[|states[a].peers|].seen|
    ensures SeenAt(states, steps, a, b, m)
    decreases b
  {
    var c := |states[a].peers|;
    if b > a + 1 {
      SubscriptionsFollowChanges(states, steps, a, b - 1);
      RunKeeps(states, steps, b - 1);
      StepSeen(states[b - 1], steps[b - 1], c);
      if m < |states[b - 1].peers[c].seen| {
        SeenIsMeant(states, steps, a, b - 1, m);
        var k :| a < k < b - 1 && steps[k] == Visit(c) && c < |states[k].peers| && |states[k].peers[c].seen| == m
          && states[b - 1].peers[c].seen[m]
             == Meant((set n | n in ["errors", "broadcast"] + steps[a].subscriptions), Changes(steps, a + 1, k, c));
        assert states[b].peers[c].seen[m] == states[b - 1].peers[c].seen[m];
      } else {
        assert steps[b - 1] == Visit(c);
      }
    }
  }

  function PayloadsOf(log: seq<Message>): seq<string> {
    if log == [] then [] else PayloadsOf(log[..|log| - 1]) + [log[|log| - 1].payload]
  }

  lemma {:induction false} WildcardWantsAll(log: seq<Message>, subs: set<string>)
    requires "*" in subs
    ensures Wanted(log, subs) == PayloadsOf(log)
  {
    if log != [] {
      WildcardWantsAll(log[..|log| - 1], subs);
    }
  }

  // A client served with "*", as this server does it, is sent every broadcast since its registration,
  // up to its close, whatever the tags.
  lemma WildcardGetsEverything(states: seq<State>, steps: seq<Step>, a: nat, b: nat)
    requires Behaviour(states, steps) && a < b < |states| && steps[a].Register? && "*" in steps[a].subscriptions
    requires SubscriptionsFixed(steps, |states[a].peers|)
    ensures var c, from := |states[a].peers|, |states[a].log|;
      && c < |states[b].peers| && from <= |states[b].log|
      && Broadcasts(states[b].peers[c].sent) == PayloadsOf(Offered(states, steps, a, b))
      && Offered(states, steps, a, b) <= states[b].log[from..]
      && (c in states[b].clients && states[b].phase.Serving? ==>
            Broadcasts(states[b].peers[c].sent) == PayloadsOf(states[b].log[from..]))
  {
    GapFree(states, steps, a, b);
    FixedSubscriptionsGetFilter(states, steps, a, b);
    WildcardWantsAll(Offered(states, steps, a, b), set n | n in BASIC + steps[a].subscriptions);
  }

  // ---------------------------------------------------------------- replies

  function Replies(items: seq<Item>): seq<string> {
    if items == [] then []
    else Replies(items[..|items| - 1]) + (if items[|items| - 1].Reply? then [items[|items| - 1].payload] else [])
  }

  // The replies for which there was room.
  ghost function Accepted(states: seq<State>, steps: seq<Step>, k: nat, c: Id): seq<string>
    requires k <= |steps| && |states| == |steps| + 1
  {
    if k == 0 then []
    else
      Accepted(states, steps, k - 1, c)
      + (if steps[k - 1].Send? && steps[k - 1].c == c && c < |states[k - 1].peers|
            && |states[k - 1].peers[c].box.queue| < 8192
         then [steps[k - 1].data] else [])
  }

  lemma RepliesAppend(items: seq<Item>, x: Item)
    ensures Replies(items + [x]) == Replies(items) + (if x.Reply? then [x.payload] else [])
  {
  }

  lemma StepReplies(s: State, step: Step, c: Id)
    requires Inv(s) && Enabled(s, step) && c < |s.peers|
    ensures Replies(Apply(s, step).peers[c].sent)
         == Replies(s.peers[c].sent) + (if step.Send? && step.c == c && |s.peers[c].box.queue| < 8192
                                        then [step.data] else [])
  {
    assert PeerOk(s, c);
    match step {
      case Visit(d) =>
        if d == c {
          RepliesAppend(s.peers[c].sent, FromHub(s.log[|s.log| - 1].payload));
        }
      case Send(d, data) => RepliesAppend(s.peers[c].sent, Reply(data));
      case Write(d, w) => if d == c { WriterKeeps(s.peers[c], w); }
      case _ =>
    }
  }

  lemma NewPeerRepliedNone(s: State, step: Step, c: Id)
    requires Enabled(s, step) && |s.peers| <= c < |Apply(s, step).peers|
    ensures Replies(Apply(s, step).peers[c].sent) == []
  {
  }

  lemma {:induction false} NoneAcceptedYet(states: seq<State>, steps: seq<Step>, k: nat, c: Id)
    requires Behaviour(states, steps) && k <= |steps| && c >= |states[k].peers|
    ensures Accepted(states, steps, k, c) == []
  {
    if k > 0 {
      StepLater(states[k - 1], steps[k - 1]);
      NoneAcceptedYet(states, steps, k - 1, c);
    }
  }

  // A client is sent exactly the replies for which there was room, in their order.
  lemma {:induction false} RepliesExactly(states: seq<State>, steps: seq<Step>, k: nat, c: Id)
    requires Behaviour(states, steps) && k <= |steps| && c < |states[k].peers|
    ensures Replies(states[k].peers[c].sent) == Accepted(states, steps, k, c)
  {
    if k > 0 {
      RunKeeps(states, steps, k - 1);
      if c < |states[k - 1].peers| {
        RepliesExactly(states, steps, k - 1, c);
        StepReplies(states[k - 1], steps[k - 1], c);
      } else {
        NoneAcceptedYet(states, steps, k - 1, c);
        NewPeerRepliedNone(states[k - 1], steps[k - 1], c);
      }
    }
  }

  // ---------------------------------------------------------------- frames

  // The writer is building a frame that will hold what it held and all that was queued when it
  // counted: of that, it has added all but n.
  ghost predicate Packing(p: Peer, held: seq<Item>, queued: seq<Item>, frames: seq<string>) {
    && p.writer.Framing? && p.writer.left.Count? && p.writer.left.n <= |queued| && p.frames == frames
    && var n := p.writer.left.n;
    && p.writer.parts == held + queued[..|queued| - n]
    && queued[|queued| - n..] <= p.box.queue
  }

  lemma CountPacks(p: Peer)
    requires WriterEnabled(p, CountsQueue)
    ensures Packing(WriterApply(p, CountsQueue), Current(p), p.box.queue, p.frames)
  {
    assert p.box.queue[..0] == [] && Current(p) + [] == Current(p);
  }

  lemma TakesNextPacks(p: Peer, held: seq<Item>, queued: seq<Item>, frames: seq<string>)
    requires Packing(p, held, queued, frames) && WriterEnabled(p, TakesNext)
    ensures Packing(WriterApply(p, TakesNext), held, queued, frames)
  {
    var n := p.writer.left.n;
    var rest := queued[|queued| - n..];
    assert rest[0] == p.box.queue[0];
    assert queued[..|queued| - n] + [queued[|queued| - n]] == queued[..|queued| - (n - 1)];
    assert rest[1..] == queued[|queued| - (n - 1)..];
    assert held + queued[..|queued| - n] + [rest[0]] == held + (queued[..|queued| - n] + [rest[0]]);
  }

  lemma StepPacks(s: State, step: Step, c: Id, held: seq<Item>, queued: seq<Item>, frames: seq<string>)
    requires Enabled(s, step) && c < |s.peers| && Packing(s.peers[c], held, queued, frames)
    requires !(step.Write? && step.c == c && (step.w.Flushes? || step.w.FailsToFlush?))
    ensures Packing(Apply(s, step).peers[c], held, queued, frames)
  {
    if step.Write? && step.c == c {
      TakesNextPacks(s.peers[c], held, queued, frames);
    }
  }

  // A frame holds the message taken first and everything that was queued when the queue was counted,
  // no more and no less.
  lemma {:induction false} CountedIsPacked(states: seq<State>, steps: seq<Step>, a: nat, b: nat, c: Id)
    requires Behaviour(states, steps) && a < b <= |steps| && steps[a] == Write(c, CountsQueue)
    requires forall k :: a < k < b && steps[k].Write? && steps[k].c == c ==>
               !steps[k].w.Flushes? && !steps[k].w.FailsToFlush?
    ensures c < |states[a].peers| && c < |states[b].peers|
    ensures var p := states[a].peers[c]; Packing(states[b].peers[c], Current(p), p.box.queue, p.frames)
    decreases b
  {
    if b > a + 1 {
      CountedIsPacked(states, steps, a, b - 1, c);
      var p := states[a].peers[c];
      StepPacks(states[b - 1], steps[b - 1], c, Current(p), p.box.queue, p.frames);
    } else {
      CountPacks(states[a].peers[c]);
    }
  }

  lemma FrameIsPacked(states: seq<State>, steps: seq<Step>, a: nat, b: nat, c: Id)
    requires Behaviour(states, steps) && a < b < |steps|
    requires steps[a] == Write(c, CountsQueue) && steps[b] == Write(c, Flushes)
    requires forall k :: a < k < b && steps[k].Write? && steps[k].c == c ==>
               !steps[k].w.Flushes? && !steps[k].w.FailsToFlush?
    ensures c < |states[a].peers| && c < |states[b + 1].peers|
    ensures var p := states[a].peers[c];
      && p.writer.Framing?
      && states[b + 1].peers[c].frames == p.frames + [Join(Payloads(p.writer.parts + p.box.queue), '\n')]
  {
    CountedIsPacked(states, steps, a, b, c);
    var p := states[a].peers[c];
    assert p.box.queue[..|p.box.queue|] == p.box.queue;
  }

  // A frame is begun with the oldest message of the queue.
  lemma FrameBegins(states: seq<State>, steps: seq<Step>, k: nat, c: Id)
    requires Behaviour(states, steps) && k < |steps| && steps[k] == Write(c, TakesFirst)
    ensures c < |states[k].peers| && states[k].peers[c].box.queue != []
    ensures var p := states[k].peers[c];
      Current(states[k + 1].peers[c]) == p.box.queue[..1] && states[k + 1].peers[c].box.queue == p.box.queue[1..]
  {
  }

  // A writer that has returned does nothing more.
  lemma {:induction false} ExitedIsFinal(states: seq<State>, steps: seq<Step>, a: nat, b: nat, c: Id)
    requires Behaviour(states, steps) && a < b < |states| && steps[a].Write? && steps[a].c == c
    requires steps[a].w.LosesFirst? || steps[a].w.FailsToFlush? || steps[a].w.SeesClose? || steps[a].w.PingFails?
    ensures c < |states[a].peers| && c < |states[b].peers|
    ensures states[b].peers[c].writer.Exited? && states[b].peers[c].frames == states[a].peers[c].frames
    ensures b < |steps| ==> !(steps[b].Write? && steps[b].c == c)
    decreases b
  {
    if b > a + 1 {
      ExitedIsFinal(states, steps, a, b - 1, c);
    }
  }

  // A writer that ends because its channel is closed has framed everything that was ever enqueued
  // for the client: a close loses nothing.
  lemma CloseDrains(states: seq<State>, steps: seq<Step>, k: nat, c: Id)
    requires Behaviour(states, steps) && k < |steps| && steps[k] == Write(c, SeesClose)
    ensures c < |states[k].peers| && c !in states[k].clients
    ensures var p := states[k].peers[c];
      Flatten(p.framed) == p.sent && (CleanReplies(p.sent) ==> AllPieces(p.frames) == Payloads(p.sent))
  {
    RunKeeps(states, steps, k);
    assert PeerOk(states[k], c);
    var p := states[k].peers[c];
    assert p.taken + [] == p.taken && Flatten(p.framed) + [] == Flatten(p.framed);
    if CleanReplies(p.sent) {
      FramedIsSent(p);
    }
  }

  // The last step of the client's writer before step k, -1 if there was none.
  function LastWrite(steps: seq<Step>, k: nat, c: Id): (a: int)
    requires k <= |steps|
    ensures -1 <= a < k && (a >= 0 ==> steps[a].Write? && steps[a].c == c)
    ensures forall m :: a < m < k ==> !(steps[m].Write? && steps[m].c == c)
  {
    if k == 0 then -1 else if steps[k - 1].Write? && steps[k - 1].c == c then k - 1 else LastWrite(steps, k - 1, c)
  }

  // The last time it counted its queue, and how many messages it has added to its frame since.
  function LastCount(steps: seq<Step>, k: nat, c: Id): (a: int)
    requires k <= |steps|
    ensures -1 <= a < k && (a >= 0 ==> steps[a] == Write(c, CountsQueue))
  {
    if k == 0 then -1 else if steps[k - 1] == Write(c, CountsQueue) then k - 1 else LastCount(steps, k - 1, c)
  }

  function Added(steps: seq<Step>, k: nat, c: Id): nat
    requires k <= |steps|
  {
    if k == 0 || steps[k - 1] == Write(c, CountsQueue) then 0
    else Added(steps, k - 1, c) + (if steps[k - 1] == Write(c, TakesNext) then 1 else 0)
  }

  // Where the writer is: in its select, before counting, or filling its frame.
  predicate Selects(steps: seq<Step>, k: nat, c: Id)
    requires k <= |steps|
  {
    var a := LastWrite(steps, k, c); a == -1 || steps[a].w.Flushes?
  }

  predicate Begins(steps: seq<Step>, k: nat, c: Id)
    requires k <= |steps|
  {
    var a := LastWrite(steps, k, c); a >= 0 && steps[a].w.TakesFirst?
  }

  predicate Fills(steps: seq<Step>, k: nat, c: Id)
    requires k <= |steps|
  {
    var a := LastWrite(steps, k, c); a >= 0 && (steps[a].w.CountsQueue? || steps[a].w.TakesNext?)
  }

  ghost predicate Stands(p: Peer, selects: bool, begins: bool, fills: bool) {
    && (p.writer.Waiting? <==> selects)
    && (p.writer.Framing? && p.writer.left.Uncounted? <==> begins)
    && (p.writer.Framing? && p.writer.left.Count? <==> fills)
  }

  lemma WriterMoves(p: Peer, w: WriterStep)
    requires WriterEnabled(p, w)
    ensures Stands(WriterApply(p, w), w.Flushes?, w.TakesFirst?, w.CountsQueue? || w.TakesNext?)
  {
  }

  lemma StepKeepsWriter(s: State, step: Step, c: Id)
    requires Enabled(s, step) && c < |s.peers| && !(step.Write? && step.c == c)
    ensures Apply(s, step).peers[c].writer == s.peers[c].writer
  {
  }

  lemma NewWriterWaits(s: State, step: Step, c: Id)
    requires Enabled(s, step) && |s.peers| <= c < |Apply(s, step).peers|
    ensures Apply(s, step).peers[c].writer.Waiting? && !step.Write?
  {
  }

  lemma {:induction false} NoWritesYet(states: seq<State>, steps: seq<Step>, k: nat, c: Id)
    requires Behaviour(states, steps) && k <= |steps| && c >= |states[k].peers|
    ensures LastWrite(steps, k, c) == -1
  {
    if k > 0 {
      StepLater(states[k - 1], steps[k - 1]);
      NoWritesYet(states, steps, k - 1, c);
    }
  }

  lemma {:induction false} WriterStands(states: seq<State>, steps: seq<Step>, k: nat, c: Id)
    requires Behaviour(states, steps) && k <= |steps| && c < |states[k].peers|
    ensures Stands(states[k].peers[c], Selects(steps, k, c), Begins(steps, k, c), Fills(steps, k, c))
  {
    if k > 0 {
      if c >= |states[k - 1].peers| {
        NoWritesYet(states, steps, k - 1, c);
        NewWriterWaits(states[k - 1], steps[k - 1], c);
      } else if steps[k - 1].Write? && steps[k - 1].c == c {
        WriterMoves(states[k - 1].peers[c], steps[k - 1].w);
      } else {
        WriterStands(states, steps, k - 1, c);
        StepKeepsWriter(states[k - 1], steps[k - 1], c);
      }
    }
  }

  lemma WriterCounts(p: Peer, w: WriterStep)
    requires WriterEnabled(p, w) && (w.CountsQueue? || w.TakesNext?)
    ensures var q := WriterApply(p, w).writer;
      && q.Framing? && q.left.Count?
      && (w.CountsQueue? ==> q.left.n == |p.box.queue|)
      && (w.TakesNext? ==> p.writer.Framing? && p.writer.left.Count? && q.left.n == p.writer.left.n - 1)
  {
  }

  lemma {:induction false} LeftExactly(states: seq<State>, steps: seq<Step>, k: nat, c: Id)
    requires Behaviour(states, steps) && k <= |steps| && c < |states[k].peers| && Fills(steps, k, c)
    ensures LastCount(steps, k, c) >= 0 && c < |states[LastCount(steps, k, c)].peers|
    ensures var w := states[k].peers[c].writer;
      && w.Framing? && w.left.Count?
      && w.left.n + Added(steps, k, c) == |states[LastCount(steps, k, c)].peers[c].box.queue|
  {
    WriterStands(states, steps, k, c);
    if c >= |states[k - 1].peers| {
      NoWritesYet(states, steps, k - 1, c);
      NewWriterWaits(states[k - 1], steps[k - 1], c);
    } else if steps[k - 1].Write? && steps[k - 1].c == c {
      WriterCounts(states[k - 1].peers[c], steps[k - 1].w);
      if steps[k - 1].w.TakesNext? {
        WriterStands(states, steps, k - 1, c);
        LeftExactly(states, steps, k - 1, c);
      }
    } else {
      StepKeepsWriter(states[k - 1], steps[k - 1], c);
      LeftExactly(states, steps, k - 1, c);
    }
  }

  // What the writer can do next: in its select, take or lose the oldest message, see the channel
  // closed once the queue is empty, or fail to ping; then count, add as many as were counted, and
  // send the frame or fail to.
  ghost predicate NextOfWriter(states: seq<State>, steps: seq<Step>, k: nat, c: Id, w: WriterStep)
    requires k <= |steps| && |states| == |steps| + 1 && c < |states[k].peers|
  {
    var a, queue := LastCount(steps, k, c), states[k].peers[c].box.queue;
    match w
    case TakesFirst => Selects(steps, k, c) && queue != []
    case LosesFirst => Selects(steps, k, c) && queue != []
    case SeesClose => Selects(steps, k, c) && queue == [] && c !in states[k].clients
    case PingFails => Selects(steps, k, c)
    case CountsQueue => Begins(steps, k, c)
    case TakesNext =>
      Fills(steps, k, c) && a >= 0 && c < |states[a].peers| && Added(steps, k, c) < |states[a].peers[c].box.queue|
    case _ =>
      Fills(steps, k, c) && a >= 0 && c < |states[a].peers| && Added(steps, k, c) == |states[a].peers[c].box.queue|
  }

  // In every run, a step of a writer is possible if and only if its program has it next.
  lemma WriterProgram(states: seq<State>, steps: seq<Step>, k: nat, c: Id, w: WriterStep)
    requires Behaviour(states, steps) && k <= |steps| && c < |states[k].peers|
    ensures Enabled(states[k], Write(c, w)) <==> NextOfWriter(states, steps, k, c, w)
  {
    WriterStands(states, steps, k, c);
    RunKeeps(states, steps, k);
    assert PeerOk(states[k], c);
    if Fills(steps, k, c) {
      LeftExactly(states, steps, k, c);
    }
  }

  // A writer that has not returned can get on exactly when it is building a frame, has a message
  // to take, or is to see its channel closed.
  lemma WriterCanMove(states: seq<State>, steps: seq<Step>, k: nat, c: Id)
    requires Behaviour(states, steps) && k < |states| && c < |states[k].peers| && !states[k].peers[c].writer.Exited?
    ensures var p := states[k].peers[c];
      (exists w: WriterStep :: w != PingFails && WriterEnabled(p, w))
      <==> p.writer.Framing? || p.box.queue != [] || c !in states[k].clients
  {
    RunKeeps(states, steps, k);
    assert PeerOk(states[k], c);
    var p := states[k].peers[c];
    if p.writer.Framing? {
      WriterNeverStarves(states, steps, k, c);
      var w :| WriterEnabled(p, w);
    } else if p.box.queue != [] {
      assert WriterEnabled(p, TakesFirst);
    } else if c !in states[k].clients {
      assert WriterEnabled(p, SeesClose);
    }
  }

  // ---------------------------------------------------------------- the event loop

  // The steps the loop itself takes.
  predicate LoopStep(step: Step) {
    !step.Change? && !step.Send? && !step.Write?
  }

  // The last step of the loop before step k, and the last broadcast it took; -1 if there was none.
  function LastOfLoop(steps: seq<Step>, k: nat): (a: int)
    requires k <= |steps|
    ensures -1 <= a < k && (a >= 0 ==> LoopStep(steps[a])) && forall m :: a < m < k ==> !LoopStep(steps[m])
  {
    if k == 0 then -1 else if LoopStep(steps[k - 1]) then k - 1 else LastOfLoop(steps, k - 1)
  }

  function LastTaken(steps: seq<Step>, k: nat): (a: int)
    requires k <= |steps|
    ensures -1 <= a < k && (a >= 0 ==> steps[a].TakeBroadcast?) && forall m :: a < m < k ==> !steps[m].TakeBroadcast?
  {
    if k == 0 then -1 else if steps[k - 1].TakeBroadcast? then k - 1 else LastTaken(steps, k - 1)
  }

  // What the loop is at, by the last step it took.
  predicate AtSelect(steps: seq<Step>, k: nat)
    requires k <= |steps|
  {
    var a := LastOfLoop(steps, k);
    a == -1 || steps[a].Register? || steps[a].Unregister? || steps[a].EndBroadcast?
  }

  predicate AtBroadcast(steps: seq<Step>, k: nat)
    requires k <= |steps|
  {
    var a := LastOfLoop(steps, k); a >= 0 && (steps[a].TakeBroadcast? || steps[a].Visit?)
  }

  predicate AtShutdown(steps: seq<Step>, k: nat)
    requires k <= |steps|
  {
    var a := LastOfLoop(steps, k); a >= 0 && (steps[a].Stop? || steps[a].CloseOne?)
  }

  lemma {:induction false} PhaseExactly(states: seq<State>, steps: seq<Step>, k: nat)
    requires Behaviour(states, steps) && k <= |steps|
    ensures states[k].phase.Serving? <==> AtSelect(steps, k)
    ensures states[k].phase.Delivering? <==> AtBroadcast(steps, k)
    ensures states[k].phase.Closing? <==> AtShutdown(steps, k)
  {
    if k > 0 {
      PhaseExactly(states, steps, k - 1);
    }
  }

  // Clients still to be visited by the broadcast being delivered: those mapped when it was taken.
  ghost predicate Unvisited(states: seq<State>, steps: seq<Step>, k: nat, c: Id)
    requires k <= |steps| && |states| == |steps| + 1
  {
    var a := LastTaken(steps, k);
    a >= 0 && c in states[a].clients && forall m :: a < m < k ==> steps[m] != Visit(c)
  }

  lemma {:induction false} TodoExactly(states: seq<State>, steps: seq<Step>, k: nat, c: Id)
    requires Behaviour(states, steps) && k <= |steps| && states[k].phase.Delivering?
    ensures c in states[k].phase.todo <==> Unvisited(states, steps, k, c)
  {
    if k > 0 && !steps[k - 1].TakeBroadcast? {
      TodoExactly(states, steps, k - 1, c);
      assert LastTaken(steps, k) == LastTaken(steps, k - 1);
    }
  }

  // What the loop can do next: in its select, take whatever comes; in a broadcast, visit each client
  // that was mapped when it was taken, once, and then end it; in the shutdown, close those that are
  // mapped, and then end.
  ghost predicate NextOfLoop(states: seq<State>, steps: seq<Step>, k: nat, step: Step)
    requires k <= |steps| && |states| == |steps| + 1
  {
    match step
    case Register(_) => AtSelect(steps, k)
    case Unregister(c) => AtSelect(steps, k) && c < |states[k].peers|
    case TakeBroadcast(_, _) => AtSelect(steps, k)
    case Stop => AtSelect(steps, k)
    case Visit(c) => AtBroadcast(steps, k) && Unvisited(states, steps, k, c)
    case EndBroadcast => AtBroadcast(steps, k) && forall c :: !Unvisited(states, steps, k, c)
    case CloseOne(c) => AtShutdown(steps, k) && c in states[k].clients
    case Finish => AtShutdown(steps, k) && states[k].clients == {}
    case _ => false
  }

  // In every run, a step of the loop is possible if and only if its program has it next.
  lemma LoopProgram(states: seq<State>, steps: seq<Step>, k: nat, step: Step)
    requires Behaviour(states, steps) && k <= |steps| && LoopStep(step)
    ensures Enabled(states[k], step) <==> NextOfLoop(states, steps, k, step)
  {
    PhaseExactly(states, steps, k);
    RunKeeps(states, steps, k);
    if states[k].phase.Delivering? {
      forall c ensures c in states[k].phase.todo <==> Unvisited(states, steps, k, c) {
        TodoExactly(states, steps, k, c);
      }
    }
  }

  // ---------------------------------------------------------------- the loop gets on

  lemma Take(states: seq<State>, steps: seq<Step>, step: Step)
    requires Behaviour(states, steps) && Enabled(states[|steps|], step)
    ensures Behaviour(states + [Apply(states[|steps|], step)], steps + [step])
  {
  }

  // A client can change its subscriptions at any time, and one that is open can be sent a reply.
  lemma ClientsAreFree(states: seq<State>, steps: seq<Step>, k: nat, c: Id, data: string, op: Op)
    requires Behaviour(states, steps) && k < |states| && c < |states[k].peers|
    ensures Enabled(states[k], Change(c, op)) && (Enabled(states[k], Send(c, data)) <==> c in states[k].clients)
  {
    Conservation(states, steps, k);
  }

  // A delivery can always be finished, by visits alone.
  lemma {:induction false} DeliveryCanEnd(states: seq<State>, steps: seq<Step>)
    returns (states': seq<State>, steps': seq<Step>)
    requires Behaviour(states, steps) && states[|steps|].phase.Delivering?
    ensures Behaviour(states', steps') && states <= states' && steps <= steps'
    ensures states'[|steps'|].phase.Serving?
    ensures forall k :: |steps| <= k < |steps'| ==> steps'[k].Visit? || steps'[k].EndBroadcast?
    decreases |states[|steps|].phase.todo|
  {
    var s := states[|steps|];
    RunKeeps(states, steps, |steps|);
    if s.phase.todo == {} {
      Take(states, steps, EndBroadcast);
      states', steps' := states + [Apply(s, EndBroadcast)], steps + [EndBroadcast];
    } else {
      var c :| c in s.phase.todo;
      assert PeerOk(s, c);
      Take(states, steps, Visit(c));
      states', steps' := DeliveryCanEnd(states + [Apply(s, Visit(c))], steps + [Visit(c)]);
    }
  }

  // Once stopped the loop can always come to its end, with every client closed, by closing alone.
  lemma {:induction false} ShutdownCanEnd(states: seq<State>, steps: seq<Step>)
    returns (states': seq<State>, steps': seq<Step>)
    requires Behaviour(states, steps) && states[|steps|].phase.Closing?
    ensures Behaviour(states', steps') && states <= states' && steps <= steps'
    ensures states'[|steps'|].phase.Stopped? && states'[|steps'|].clients == {}
    ensures forall k :: |steps| <= k < |steps'| ==> steps'[k].CloseOne? || steps'[k].Finish?
    decreases |states[|steps|].clients|
  {
    var s := states[|steps|];
    RunKeeps(states, steps, |steps|);
    if s.clients == {} {
      Take(states, steps, Finish);
      states', steps' := states + [Apply(s, Finish)], steps + [Finish];
    } else {
      var c :| c in s.clients;
      Take(states, steps, CloseOne(c));
      states', steps' := ShutdownCanEnd(states + [Apply(s, CloseOne(c))], steps + [CloseOne(c)]);
    }
  }
}
