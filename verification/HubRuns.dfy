// What the hub keeps over whole runs: gap-free delivery, conservation of clients, and frames that
// split back into exactly the messages delivered.
module HubRuns {
  import opened Text
  import opened Subscriptions
  import opened Frames
  import opened HubProtocol

  ghost predicate Behaviour(states: seq<State>, steps: seq<Step>) {
    && |states| == |steps| + 1
    && states[0] == INIT
    && forall k :: 0 <= k < |steps| ==> Enabled(states[k], steps[k]) && states[k + 1] == Apply(states[k], steps[k])
  }

  // What no step undoes: the log, the numbering of the clients and their histories only grow.
  predicate PeerLater(p: Peer, q: Peer) {
    q.since == p.since && p.seen <= q.seen && p.sent <= q.sent && p.frames <= q.frames && p.closes <= q.closes
  }

  ghost predicate Later(s: State, t: State) {
    && s.log <= t.log && |s.peers| <= |t.peers|
    && forall c :: 0 <= c < |s.peers| ==> PeerLater(s.peers[c], t.peers[c])
  }

  lemma LaterTrans(s: State, t: State, u: State)
    requires Later(s, t) && Later(t, u)
    ensures Later(s, u)
  {
  }

  lemma VisitedLater(p: Peer, m: Message)
    ensures PeerLater(p, Visited(p, m))
  {
  }

  lemma WriterLater(p: Peer, w: WriterStep)
    requires WriterEnabled(p, w)
    ensures PeerLater(p, WriterApply(p, w))
  {
  }

  lemma StepLater(s: State, step: Step)
    requires Enabled(s, step)
    ensures Later(s, Apply(s, step))
  {
    match step {
      case Visit(c) => VisitedLater(s.peers[c], s.log[|s.log| - 1]);
      case Write(c, w) => WriterLater(s.peers[c], w);
      case _ =>
    }
  }

  lemma {:induction false} RunKeeps(states: seq<State>, steps: seq<Step>, k: nat)
    requires Behaviour(states, steps) && k < |states|
    ensures Inv(states[k])
  {
    if k > 0 {
      RunKeeps(states, steps, k - 1);
      StepKeeps(states[k - 1], steps[k - 1]);
    }
  }

  lemma {:induction false} RunLater(states: seq<State>, steps: seq<Step>, a: nat, b: nat)
    requires Behaviour(states, steps) && a <= b < |states|
    ensures Later(states[a], states[b])
    decreases b
  {
    if a < b {
      RunLater(states, steps, a, b - 1);
      StepLater(states[b - 1], steps[b - 1]);
      LaterTrans(states[a], states[b - 1], states[b]);
    }
  }

  // ---------------------------------------------------------------- gap-free delivery

  // The broadcasts the hub has offered a client since it was registered in step a.
  ghost function Offered(states: seq<State>, steps: seq<Step>, a: nat, b: nat): seq<Message>
    requires Behaviour(states, steps) && a < b < |states| && steps[a].Register?
  {
    var c, from := |states[a].peers|, |states[a].log|;
    if c < |states[b].peers| && from + |states[b].peers[c].seen| <= |states[b].log|
    then states[b].log[from..from + |states[b].peers[c].seen|] else []
  }

  // For the client registered in step a, the broadcasts enqueued by the time of step b are the
  // ones, in order and from its registration on, whose tags matched its subscriptions when the hub
  // came to it. While it is open none of them is missing but one still being delivered; when it is
  // closed they stop at some broadcast and nothing is ever enqueued again.
  lemma GapFree(states: seq<State>, steps: seq<Step>, a: nat, b: nat)
    requires Behaviour(states, steps) && a < b < |states| && steps[a].Register?
    ensures var c, from := |states[a].peers|, |states[a].log|;
      && c < |states[b].peers| && from <= |states[b].log|
      && var p := states[b].peers[c];
      && |Offered(states, steps, a, b)| == |p.seen|
      && Broadcasts(p.sent) == Matching(Offered(states, steps, a, b), p.seen)
      && Offered(states, steps, a, b) <= states[b].log[from..]
      && (c in states[b].clients && !Pending(states[b], c) ==> Offered(states, steps, a, b) == states[b].log[from..])
      && (c in states[b].clients && Pending(states[b], c) ==>
           from < |states[b].log| && Offered(states, steps, a, b) == states[b].log[from..|states[b].log| - 1])
  {
    RegisteredSince(states, steps, a, b);
    RunKeeps(states, steps, b);
    GapFreeAt(states[b], |states[a].peers|);
  }

  lemma RegisteredSince(states: seq<State>, steps: seq<Step>, a: nat, b: nat)
    requires Behaviour(states, steps) && a < b < |states| && steps[a].Register?
    ensures |states[a].peers| < |states[b].peers| && |states[a].log| <= |states[b].log|
    ensures states[b].peers[|states[a].peers|].since == |states[a].log|
  {
    RunLater(states, steps, a, a + 1);
    RunLater(states, steps, a + 1, b);
    var c := |states[a].peers|;
    assert states[a + 1].peers[c].since == |states[a].log|;
  }

  lemma GapFreeAt(s: State, c: Id)
    requires Inv(s) && c < |s.peers|
    ensures var p, log := s.peers[c], s.log;
      && p.since + |p.seen| <= |log|
      && var offered := log[p.since..p.since + |p.seen|];
      && Broadcasts(p.sent) == Matching(offered, p.seen)
      && offered <= log[p.since..]
      && (c in s.clients && !Pending(s, c) ==> offered == log[p.since..])
      && (c in s.clients && Pending(s, c) ==> p.since < |log| && offered == log[p.since..|log| - 1])
  {
    assert PeerOk(s, c);
  }

  // A closed client's history is final.
  lemma ClosedIsFinal(states: seq<State>, steps: seq<Step>, a: nat, b: nat, c: Id)
    requires Behaviour(states, steps) && a <= b < |states|
    requires c < |states[a].peers| && c !in states[a].clients
    ensures c < |states[b].peers| && c !in states[b].clients
    ensures states[b].peers[c].sent == states[a].peers[c].sent && states[b].peers[c].seen == states[a].peers[c].seen
    decreases b
  {
    if a < b {
      ClosedIsFinal(states, steps, a, b - 1, c);
      RunKeeps(states, steps, b - 1);
      ClosedStays(states[b - 1], steps[b - 1], c);
    }
  }

  lemma ClosedStays(s: State, step: Step, c: Id)
    requires Inv(s) && Enabled(s, step) && c < |s.peers| && c !in s.clients
    ensures var t := Apply(s, step);
      c < |t.peers| && c !in t.clients && t.peers[c].sent == s.peers[c].sent && t.peers[c].seen == s.peers[c].seen
  {
    assert PeerOk(s, c);
    if step.Write? && step.c == c {
      WriterKeeps(s.peers[c], step.w);
    }
  }

  // The broadcasts a fixed set of subscriptions selects.
  function Wanted(log: seq<Message>, subs: set<string>): seq<string> {
    if log == [] then []
    else
      var n := |log| - 1;
      Wanted(log[..n], subs) + (if Wants(subs, log[n].tags) then [log[n].payload] else [])
  }

  lemma {:induction false} MatchingFixed(log: seq<Message>, seen: seq<set<string>>, subs: set<string>)
    requires |log| == |seen| && forall k :: 0 <= k < |seen| ==> seen[k] == subs
    ensures Matching(log, seen) == Wanted(log, subs)
  {
    if log != [] {
      MatchingFixed(log[..|log| - 1], seen[..|log| - 1], subs);
    }
  }

  ghost predicate SubscriptionsFixed(steps: seq<Step>, c: Id) {
    forall k :: 0 <= k < |steps| && steps[k].Change? && steps[k].c == c ==> steps[k].op.Ask?
  }

  lemma {:induction false} SeenFixed(states: seq<State>, steps: seq<Step>, a: nat, b: nat)
    requires Behaviour(states, steps) && a < b < |states| && steps[a].Register?
    requires SubscriptionsFixed(steps, |states[a].peers|)
    ensures var c, subs := |states[a].peers|, set n | n in BASIC + steps[a].subscriptions;
      && c < |states[b].peers| && Subscribed(states[b].peers[c].box.table) == subs
      && forall k :: 0 <= k < |states[b].peers[c].seen| ==> states[b].peers[c].seen[k] == subs
    decreases b
  {
    var c := |states[a].peers|;
    if b == a + 1 {
      SetIsUnion(map[], BASIC + steps[a].subscriptions);
    } else {
      SeenFixed(states, steps, a, b - 1);
      StaysFixed(states[b - 1], steps[b - 1], c, set n | n in BASIC + steps[a].subscriptions);
    }
  }

  lemma StaysFixed(s: State, step: Step, c: Id, subs: set<string>)
    requires Enabled(s, step) && c < |s.peers| && Subscribed(s.peers[c].box.table) == subs
    requires step.Change? && step.c == c ==> step.op.Ask?
    requires forall k :: 0 <= k < |s.peers[c].seen| ==> s.peers[c].seen[k] == subs
    ensures var t := Apply(s, step);
      c < |t.peers| && Subscribed(t.peers[c].box.table) == subs
      && forall k :: 0 <= k < |t.peers[c].seen| ==> t.peers[c].seen[k] == subs
  {
    match step {
      case Visit(d) => QueryIsMembership(s.peers[d].box.table, s.log[|s.log| - 1].tags);
      case Change(d, op) => if d == c { QueryIsMembership(s.peers[d].box.table, op.names); }
      case _ =>
    }
  }

  // Served clients never change their subscriptions: what they get is a plain filter of the log.
  lemma FixedSubscriptionsGetFilter(states: seq<State>, steps: seq<Step>, a: nat, b: nat)
    requires Behaviour(states, steps) && a < b < |states| && steps[a].Register?
    requires SubscriptionsFixed(steps, |states[a].peers|)
    ensures var c, subs := |states[a].peers|, set n | n in BASIC + steps[a].subscriptions;
      && c < |states[b].peers|
      && Broadcasts(states[b].peers[c].sent) == Wanted(Offered(states, steps, a, b), subs)
  {
    GapFree(states, steps, a, b);
    SeenFixed(states, steps, a, b);
    var c := |states[a].peers|;
    MatchingFixed(Offered(states, steps, a, b), states[b].peers[c].seen,
                  set n | n in BASIC + steps[a].subscriptions);
  }

  // ---------------------------------------------------------------- conservation

  // The clients ever registered are the mapped ones and the closed ones, never both; a mapped one
  // has not been closed and any other exactly once; once the hub has shut down, all have.
  lemma Conservation(states: seq<State>, steps: seq<Step>, k: nat)
    requires Behaviour(states, steps) && k < |states|
    ensures var s := states[k];
      && (forall c :: c in s.clients ==> c < |s.peers|)
      && (forall c :: 0 <= c < |s.peers| ==> s.peers[c].box.open == (c in s.clients))
      && (forall c :: 0 <= c < |s.peers| ==> s.peers[c].closes == if c in s.clients then 0 else 1)
      && (s.phase.Stopped? ==> s.clients == {} && forall c :: 0 <= c < |s.peers| ==> s.peers[c].closes == 1)
  {
    RunKeeps(states, steps, k);
    var s := states[k];
    forall c | 0 <= c < |s.peers|
      ensures s.peers[c].box.open == (c in s.clients)
      ensures s.peers[c].closes == if c in s.clients then 0 else 1
    {
      assert PeerOk(s, c);
    }
  }

  // ---------------------------------------------------------------- frames

  // The writer never waits in the middle of a frame, even after its queue has been closed.
  lemma WriterNeverStarves(states: seq<State>, steps: seq<Step>, k: nat, c: Id)
    requires Behaviour(states, steps) && k < |states| && c < |states[k].peers|
    requires states[k].peers[c].writer.Framing?
    ensures exists w :: WriterEnabled(states[k].peers[c], w)
    ensures var p := states[k].peers[c];
      p.writer.left.Count? && p.writer.left.n > 0 ==> Enabled(states[k], Write(c, TakesNext))
  {
    RunKeeps(states, steps, k);
    assert PeerOk(states[k], c);
    var p := states[k].peers[c];
    var w := if p.writer.left.Uncounted? then CountsQueue else if p.writer.left.n > 0 then TakesNext else Flushes;
    assert WriterEnabled(p, w);
  }

  predicate NewlineFree(items: seq<Item>) {
    forall k :: 0 <= k < |items| ==> NEWLINE !in items[k].payload
  }

  lemma PayloadsConcat(x: seq<Item>, y: seq<Item>)
    ensures Payloads(x + y) == Payloads(x) + Payloads(y)
  {
  }

  lemma {:induction false} FramesSplitBack(framed: seq<seq<Item>>, frames: seq<string>)
    requires |frames| == |framed| && NewlineFree(Flatten(framed))
    requires forall k :: 0 <= k < |frames| ==> framed[k] != [] && frames[k] == Join(Payloads(framed[k]), NEWLINE)
    ensures AllPieces(frames) == Payloads(Flatten(framed))
  {
    if frames != [] {
      var n := |frames| - 1;
      var front, group := Flatten(framed[..n]), framed[n];
      assert Flatten(framed) == front + group;
      assert forall k :: 0 <= k < |front| ==> front[k] == (front + group)[k];
      assert forall k :: 0 <= k < |group| ==> group[k] == (front + group)[|front| + k];
      FramesSplitBack(framed[..n], frames[..n]);
      FrameRoundTrip(Payloads(group));
      PayloadsConcat(front, group);
    }
  }

  // Over all frames of a client whose replies have no newline, the pieces the page splits them
  // into are the dequeued messages in order, less those of a frame still being built; a writer
  // that gave up leaves a prefix.
  lemma PiecesAreDequeued(states: seq<State>, steps: seq<Step>, k: nat, c: Id)
    requires Behaviour(states, steps) && k < |states| && c < |states[k].peers|
    requires NewlineFree(states[k].peers[c].taken)
    ensures var p := states[k].peers[c];
      && AllPieces(p.frames) <= Payloads(p.taken)
      && (!p.writer.Exited? ==> AllPieces(p.frames) + Payloads(Current(p)) == Payloads(p.taken))
  {
    RunKeeps(states, steps, k);
    assert PeerOk(states[k], c);
    var p := states[k].peers[c];
    var done := Flatten(p.framed);
    assert forall j :: 0 <= j < |done| ==> done[j] == p.taken[j];
    FramesSplitBack(p.framed, p.frames);
    PayloadsConcat(done, Current(p));
    assert p.taken == done + p.taken[|done|..];
    PayloadsConcat(done, p.taken[|done|..]);
  }

  lemma ConcatAssoc(x: seq<string>, y: seq<string>, z: seq<string>)
    ensures x + (y + z) == x + y + z
  {
  }

  lemma {:induction false} BroadcastsConcat(x: seq<Item>, y: seq<Item>)
    ensures Broadcasts(x + y) == Broadcasts(x) + Broadcasts(y)
  {
    if y == [] {
      assert x + y == x;
    } else {
      var n := |y| - 1;
      BroadcastsConcat(x, y[..n]);
      assert (x + y)[..|x| + n] == x + y[..n];
      ConcatAssoc(Broadcasts(x), Broadcasts(y[..n]), if y[n].FromHub? then [y[n].payload] else []);
    }
  }

  lemma {:induction false} BroadcastsOnly(items: seq<Item>)
    requires forall x :: x in items ==> x.FromHub?
    ensures Broadcasts(items) == Payloads(items)
  {
    if items != [] {
      var n := |items| - 1;
      BroadcastsOnly(items[..n]);
      assert items == items[..n] + [items[n]];
      PayloadsConcat(items[..n], [items[n]]);
    }
  }

  // No reply sent to a client has a newline.
  predicate CleanReplies(items: seq<Item>) {
    forall x :: x in items && x.Reply? ==> NEWLINE !in x.payload
  }

  // From the hub's input to the page: for a client whose replies have no newline, the pieces of its
  // frames are the payloads of the items framed, the broadcasts among these are a prefix of the
  // matching broadcasts since its registration, and all of them once its queue is drained and its
  // writer is waiting.
  lemma DeliveryEndToEnd(states: seq<State>, steps: seq<Step>, a: nat, b: nat)
    requires Behaviour(states, steps) && a < b < |states| && steps[a].Register?
    requires |states[a].peers| < |states[b].peers|
    requires CleanReplies(states[b].peers[|states[a].peers|].sent)
    ensures var p := states[b].peers[|states[a].peers|];
      var framed := Flatten(p.framed);
      && |Offered(states, steps, a, b)| == |p.seen|
      && AllPieces(p.frames) == Payloads(framed) && framed <= p.sent
      && Broadcasts(framed) <= Matching(Offered(states, steps, a, b), p.seen)
      && (p.writer.Waiting? && p.box.queue == [] ==>
          Broadcasts(framed) == Matching(Offered(states, steps, a, b), p.seen))
  {
    var c := |states[a].peers|;
    GapFree(states, steps, a, b);
    RunKeeps(states, steps, b);
    assert PeerOk(states[b], c);
    FramedIsSent(states[b].peers[c]);
  }

  lemma FramedIsSent(p: Peer)
    requires WriterSide(p) && CleanHistory(p.sent) && CleanReplies(p.sent)
    ensures var framed := Flatten(p.framed);
      && AllPieces(p.frames) == Payloads(framed) && framed <= p.sent
      && Broadcasts(framed) <= Broadcasts(p.sent)
      && (p.writer.Waiting? && p.box.queue == [] ==> framed == p.sent)
  {
    var framed := Flatten(p.framed);
    assert forall k :: 0 <= k < |framed| ==> framed[k] == p.taken[k] == p.sent[k];
    assert framed <= p.sent;
    FramesSplitBack(p.framed, p.frames);
    var rest := p.sent[|framed|..];
    assert p.sent == framed + rest;
    BroadcastsConcat(framed, rest);
  }

  // A client that was sent no replies gets nothing but its broadcasts.
  lemma BroadcastsEndToEnd(states: seq<State>, steps: seq<Step>, a: nat, b: nat)
    requires Behaviour(states, steps) && a < b < |states| && steps[a].Register?
    requires |states[a].peers| < |states[b].peers|
    requires forall x :: x in states[b].peers[|states[a].peers|].sent ==> x.FromHub?
    ensures var p := states[b].peers[|states[a].peers|];
      && |Offered(states, steps, a, b)| == |p.seen|
      && AllPieces(p.frames) <= Matching(Offered(states, steps, a, b), p.seen)
      && (p.writer.Waiting? && p.box.queue == [] ==>
          AllPieces(p.frames) == Matching(Offered(states, steps, a, b), p.seen))
  {
    DeliveryEndToEnd(states, steps, a, b);
    BroadcastsOnly(Flatten(states[b].peers[|states[a].peers|].framed));
  }

  // ---------------------------------------------------------------- the replies of this server

  // The one text the server passes to Client.Send.
  const REPLY := "Incoming websocket messages unsupported"

  ghost predicate SendsReplyOnly(steps: seq<Step>) {
    forall k :: 0 <= k < |steps| && steps[k].Send? ==> steps[k].data == REPLY
  }

  predicate AllReply(items: seq<Item>) {
    forall x :: x in items && x.Reply? ==> x.payload == REPLY
  }

  lemma StepSendsReply(s: State, step: Step, c: Id)
    requires Enabled(s, step) && (step.Send? ==> step.data == REPLY)
    requires c < |s.peers| ==> AllReply(s.peers[c].sent)
    requires c < |Apply(s, step).peers|
    ensures AllReply(Apply(s, step).peers[c].sent)
  {
  }

  lemma {:induction false} RunSendsReply(states: seq<State>, steps: seq<Step>, k: nat, c: Id)
    requires Behaviour(states, steps) && SendsReplyOnly(steps) && k < |states| && c < |states[k].peers|
    ensures AllReply(states[k].peers[c].sent)
  {
    if k > 0 {
      if c < |states[k - 1].peers| {
        RunSendsReply(states, steps, k - 1, c);
      }
      StepSendsReply(states[k - 1], steps[k - 1], c);
    }
  }

  lemma ReplyIsClean(items: seq<Item>)
    requires AllReply(items)
    ensures CleanReplies(items)
  {
    assert NEWLINE !in REPLY;
  }

  lemma CleanFrame(p: Peer, f: nat)
    requires WriterSide(p) && CleanHistory(p.sent) && CleanReplies(p.sent) && f < |p.frames|
    ensures Pieces(p.frames[f]) == Payloads(p.framed[f])
  {
    var group := p.framed[f];
    forall x | x in group ensures NEWLINE !in x.payload {
      FramedInFlatten(p.framed, f, x);
      assert x in p.taken;
      assert x in p.sent;
    }
    FrameRoundTrip(Payloads(group));
  }

  // With the replies of this server, every frame of every client in every run splits back into
  // exactly the messages it was built from.
  lemma FramesAlwaysSplitBack(states: seq<State>, steps: seq<Step>, k: nat, c: Id, f: nat)
    requires Behaviour(states, steps) && SendsReplyOnly(steps) && k < |states| && c < |states[k].peers|
    requires f < |states[k].peers[c].frames|
    ensures CleanReplies(states[k].peers[c].sent)
    ensures var p := states[k].peers[c]; f < |p.framed| && Pieces(p.frames[f]) == Payloads(p.framed[f])
  {
    RunSendsReply(states, steps, k, c);
    ReplyIsClean(states[k].peers[c].sent);
    RunKeeps(states, steps, k);
    assert PeerOk(states[k], c);
    CleanFrame(states[k].peers[c], f);
  }

  lemma {:induction false} FramedInFlatten(groups: seq<seq<Item>>, f: nat, x: Item)
    requires f < |groups| && x in groups[f]
    ensures x in Flatten(groups)
  {
    if f < |groups| - 1 {
      FramedInFlatten(groups[..|groups| - 1], f, x);
    }
  }
}
