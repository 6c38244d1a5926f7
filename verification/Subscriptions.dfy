// A client's subscriptions (dev/websockets/client.go): a map to booleans, changed even by queries.
module Subscriptions {

  type Table = map<string, bool>

  const WILDCARD := "*"

  // The tags that are subscribed.
  function Subscribed(t: Table): set<string> {
    set n | n in t && t[n]
  }

  // "wildcard or some tag is subscribed"
  predicate Wants(subs: set<string>, tags: seq<string>) {
    WILDCARD in subs || exists n :: n in tags && n in subs
  }

  // hashmap.GetOrInsert(name, false): the value found or false, and the table after.
  function GetOrInsert(t: Table, name: string): (bool, Table) {
    if name in t then (t[name], t) else (false, t[name := false])
  }

  function AnyOf(t: Table, names: seq<string>): (bool, Table)
    decreases |names|
  {
    if names == [] then (false, t)
    else
      var (value, t') := GetOrInsert(t, names[0]);
      if value then (true, t') else AnyOf(t', names[1..])
  }

  // IsSubscribed: the answer and the table it leaves.
  function Query(t: Table, names: seq<string>): (bool, Table) {
    var (wildcard, t') := GetOrInsert(t, WILDCARD);
    if wildcard then (true, t') else AnyOf(t', names)
  }

  function Set(t: Table, names: seq<string>): Table
    decreases |names|
  {
    if names == [] then t else Set(t[names[0] := true], names[1..])
  }

  function Del(t: Table, names: seq<string>): Table
    decreases |names|
  {
    if names == [] then t else Del(t - {names[0]}, names[1..])
  }

  lemma GetOrInsertKeeps(t: Table, name: string)
    ensures GetOrInsert(t, name).0 <==> name in Subscribed(t)
    ensures Subscribed(GetOrInsert(t, name).1) == Subscribed(t)
  {
  }

  lemma {:induction false} AnyOfIsMembership(t: Table, names: seq<string>)
    ensures AnyOf(t, names).0 <==> exists n :: n in names && n in Subscribed(t)
    ensures Subscribed(AnyOf(t, names).1) == Subscribed(t)
    decreases |names|
  {
    if names != [] {
      GetOrInsertKeeps(t, names[0]);
      var (value, t') := GetOrInsert(t, names[0]);
      AnyOfIsMembership(t', names[1..]);
      assert forall n :: n in names <==> n == names[0] || n in names[1..];
    }
  }

  // A query answers set membership, and the `false` entries it inserts change no subscription.
  lemma QueryIsMembership(t: Table, names: seq<string>)
    ensures Query(t, names).0 <==> "*" in Subscribed(t) || exists n :: n in names && n in Subscribed(t)
    ensures Query(t, names).0 <==> Wants(Subscribed(t), names)
    ensures Subscribed(Query(t, names).1) == Subscribed(t)
  {
    GetOrInsertKeeps(t, WILDCARD);
    AnyOfIsMembership(GetOrInsert(t, WILDCARD).1, names);
  }

  lemma {:induction false} AnyOfInserts(t: Table, names: seq<string>, k: nat)
    requires k <= |names| && forall m :: 0 <= m < k ==> names[m] !in Subscribed(t)
    requires k < |names| ==> names[k] in Subscribed(t)
    ensures AnyOf(t, names).1 == map n | n in t.Keys + (set m | m in names[..k]) :: n in t && t[n]
    decreases |names|
  {
    if k > 0 {
      var t' := GetOrInsert(t, names[0]).1;
      GetOrInsertKeeps(t, names[0]);
      AnyOfInserts(t', names[1..], k - 1);
      assert forall n :: n in names[..k] <==> n == names[0] || n in names[1..][..k - 1];
    } else if names != [] {
      assert names[0] in Subscribed(t);
    }
  }

  // A query leaves the names it asked about in the table, as not subscribed if they are not: "*", and
  // unless that is subscribed, the tags up to the first subscribed one, which is names[k].
  lemma QueryInserts(t: Table, names: seq<string>, k: nat)
    requires k <= |names| && forall m :: 0 <= m < k ==> names[m] !in Subscribed(t)
    requires k < |names| ==> names[k] in Subscribed(t)
    ensures var asked := if "*" in Subscribed(t) then {} else set m | m in names[..k];
      Query(t, names).1 == map n | n in t.Keys + {"*"} + asked :: n in t && t[n]
  {
    GetOrInsertKeeps(t, "*");
    AnyOfInserts(GetOrInsert(t, "*").1, names, k);
  }

  lemma {:induction false} SetExactly(t: Table, names: seq<string>)
    ensures Set(t, names) == map n | n in t.Keys + (set m | m in names) :: n in names || t[n]
    decreases |names|
  {
    if names != [] {
      SetExactly(t[names[0] := true], names[1..]);
      assert forall n :: n in names <==> n == names[0] || n in names[1..];
    }
  }

  lemma {:induction false} DelExactly(t: Table, names: seq<string>)
    ensures Del(t, names) == map n | n in t && n !in names :: t[n]
    decreases |names|
  {
    if names != [] {
      DelExactly(t - {names[0]}, names[1..]);
      assert forall n :: n in names <==> n == names[0] || n in names[1..];
    }
  }

  lemma {:induction false} SetIsUnion(t: Table, names: seq<string>)
    ensures Subscribed(Set(t, names)) == Subscribed(t) + (set n | n in names)
    decreases |names|
  {
    if names != [] {
      SetIsUnion(t[names[0] := true], names[1..]);
      assert forall n :: n in names <==> n == names[0] || n in names[1..];
    }
  }

  lemma {:induction false} DelIsDifference(t: Table, names: seq<string>)
    ensures Subscribed(Del(t, names)) == Subscribed(t) - (set n | n in names)
    decreases |names|
  {
    if names != [] {
      DelIsDifference(t - {names[0]}, names[1..]);
      assert forall n :: n in names <==> n == names[0] || n in names[1..];
    }
  }

  // ---------------------------------------------------------------- any mix of operations

  datatype Op = Subscribe(names: seq<string>) | Unsubscribe(names: seq<string>) | Ask(names: seq<string>)

  function ApplyOp(t: Table, op: Op): Table {
    match op
    case Subscribe(names) => Set(t, names)
    case Unsubscribe(names) => Del(t, names)
    case Ask(names) => Query(t, names).1
  }

  function ApplyAll(t: Table, ops: seq<Op>): Table {
    if ops == [] then t else ApplyOp(ApplyAll(t, ops[..|ops| - 1]), ops[|ops| - 1])
  }

  // The set the client means to hold: queries do not appear in it.
  function Meant(subs: set<string>, ops: seq<Op>): set<string> {
    if ops == [] then subs
    else
      var before := Meant(subs, ops[..|ops| - 1]);
      match ops[|ops| - 1]
      case Subscribe(names) => before + set n | n in names
      case Unsubscribe(names) => before - set n | n in names
      case Ask(_) => before
  }

  // Over any mix of subscribing, unsubscribing and asking, every answer is that of the plain set.
  lemma {:induction false} AnswersRefineSet(t: Table, ops: seq<Op>, names: seq<string>)
    ensures Subscribed(ApplyAll(t, ops)) == Meant(Subscribed(t), ops)
    ensures var meant := Meant(Subscribed(t), ops);
      Query(ApplyAll(t, ops), names).0 <==> "*" in meant || exists n :: n in names && n in meant
  {
    if ops != [] {
      AnswersRefineSet(t, ops[..|ops| - 1], names);
      var before := ApplyAll(t, ops[..|ops| - 1]);
      match ops[|ops| - 1] {
        case Subscribe(ns) => SetIsUnion(before, ns);
        case Unsubscribe(ns) => DelIsDifference(before, ns);
        case Ask(ns) => QueryIsMembership(before, ns);
      }
    }
    QueryIsMembership(ApplyAll(t, ops), names);
  }
}
