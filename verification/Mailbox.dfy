// The hub's view of one client (dev/websockets): its subscriptions, its bounded queue, and whether
// that queue is still open.
module Mailboxes {
  import opened Subscriptions

  // maxMessageSize * 4
  const CAPACITY: nat := 8192

  datatype Mailbox<T> = Mailbox(table: Table, queue: seq<T>, open: bool)

  // One client's share of a broadcast: skipped if not subscribed, enqueued if there is room, and
  // otherwise closed; the query leaves its mark on the table.
  function Offer<T>(b: Mailbox<T>, tags: seq<string>, item: T): Mailbox<T> {
    var (wanted, table) := Query(b.table, tags);
    if !wanted then b.(table := table)
    else if |b.queue| < CAPACITY then b.(table := table, queue := b.queue + [item])
    else b.(table := table, open := false)
  }

  // A message is never skipped: a client that wants it gets it as its newest, or has 8192 waiting
  // and is closed.
  lemma OfferNeverSkips<T>(b: Mailbox<T>, tags: seq<string>, item: T)
    requires b.open && |b.queue| <= 8192
    ensures var o := Offer(b, tags, item);
            var wanted := "*" in Subscribed(b.table) || exists n :: n in tags && n in Subscribed(b.table);
      && Subscribed(o.table) == Subscribed(b.table)
      && o.open == (!wanted || |b.queue| < 8192)
      && o.queue == b.queue + (if wanted && |b.queue| < 8192 then [item] else [])
      && (Wants(Subscribed(b.table), tags) <==> wanted)
  {
    QueryIsMembership(b.table, tags);
  }
}
