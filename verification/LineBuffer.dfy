// linebuffer: a ring of the newest lines, overwritten in place.
module LineBuffers {
  import opened Options

  const DEFAULT_SIZE: nat := 1024

  // What the buffer promises to keep of a history: its last `size` lines.
  function Retained(history: seq<string>, size: nat): seq<string> {
    if |history| <= size then history else history[|history| - size..]
  }

  // A callback given to Do: its answer to each call may depend on everything it has been shown.
  type Callback = seq<string> -> Option<int>

  // `calls` is what a walk over `kept` shows a callback, and `err` what the walk returns:
  // everything if no call fails, otherwise everything up to and including the first failure.
  ghost predicate WalkOf(kept: seq<string>, x: Callback, calls: seq<string>, err: Option<int>) {
    && |calls| <= |kept| && calls == kept[..|calls|]
    && (forall k :: 0 < k < |calls| ==> x(kept[..k]).None?)
    && (err.None? ==> calls == kept && forall k :: 0 < k <= |kept| ==> x(kept[..k]).None?)
    && (err.Some? ==> calls != [] && x(calls) == err)
  }

  // The two outcomes of a walk are determined by the kept lines and the callback.
  lemma WalkUnique(kept: seq<string>, x: Callback, c: seq<string>, e: Option<int>,
                   c': seq<string>, e': Option<int>)
    requires WalkOf(kept, x, c, e) && WalkOf(kept, x, c', e')
    ensures c == c' && e == e'
  {
    if |c| < |c'| {
      assert false;
    } else if |c'| < |c| {
      assert false;
    }
  }

  // An io.Writer: what each Write reports, given everything written up to and including it.
  datatype Written = Written(n: nat, err: Option<int>)
  type Writer = seq<string> -> Written

  // What one write is to a walk: it fails when the writer does, and otherwise counts.
  function Writes(w: Writer): Callback {
    (s: seq<string>) => w(s).err
  }

  function Counts(w: Writer): seq<string> -> nat {
    (s: seq<string>) => w(s).n
  }

  // The sum of what each of these calls is worth.
  function Tally(worth: seq<string> -> nat, calls: seq<string>): nat {
    if calls == [] then 0 else Tally(worth, calls[..|calls| - 1]) + worth(calls)
  }

  function TotalLength(lines: seq<string>): nat {
    if lines == [] then 0 else TotalLength(lines[..|lines| - 1]) + |lines[|lines| - 1]|
  }

  // A writer that reports full length whenever it succeeds.
  ghost predicate FullWrites(w: Writer) {
    forall s: seq<string> :: s != [] && w(s).err.None? ==> w(s).n == |s[|s| - 1]|
  }

  lemma {:induction false} CountsAddUp(w: Writer, lines: seq<string>)
    requires FullWrites(w)
    requires forall k :: 0 < k <= |lines| ==> w(lines[..k]).err.None?
    ensures Tally(Counts(w), lines) == TotalLength(lines)
  {
    if lines != [] {
      assert lines[..|lines|] == lines;
      var shorter := lines[..|lines| - 1];
      forall k | 0 < k <= |shorter| ensures w(shorter[..k]).err.None? {
        assert shorter[..k] == lines[..k];
      }
      CountsAddUp(w, shorter);
    }
  }

  // The state of the ring after a history: growing until full, then rotated by `cur`.
  ghost predicate Holds(size: nat, cur: nat, lines: seq<string>, history: seq<string>) {
    if size == 0 then cur == 0 && lines == [] && history == []
    else if |history| < size then cur == 0 && lines == history
    else
      && |lines| == size
      && cur == |history| % size
      && Retained(history, size) == lines[cur..] + lines[..cur]
  }

  // Once full, slot i holds the newest line whose index in the history is congruent to i.
  lemma SlotHoldsNewest(size: nat, cur: nat, lines: seq<string>, history: seq<string>, i: nat)
    requires Holds(size, cur, lines, history)
    requires 0 < size <= |history| && i < size
    ensures |lines| == size
    ensures exists k :: 0 <= k < |history| && k % size == i && lines[i] == history[k]
                        && forall j :: k < j < |history| ==> j % size != i
  {
    var n := |history|;
    var back := if i >= cur then i - cur else i - cur + size;
    var k := n - size + back;
    assert Retained(history, size)[back] == (lines[cur..] + lines[..cur])[back] == lines[i];
    CongruentIndex(n, size, cur, i, back);
    forall j | k < j < n ensures j % size != i {
      NotCongruent(k, j, size);
    }
  }

  lemma CongruentIndex(n: nat, size: nat, cur: nat, i: nat, back: nat)
    requires 0 < size <= n && cur == n % size && i < size
    requires back == if i >= cur then i - cur else i - cur + size
    ensures (n - size + back) % size == i
  {
    var q := n / size;
    assert n == q * size + cur;
    if i >= cur {
      assert n - size + back == (q - 1) * size + i;
      ModOf(q - 1, size, i);
    } else {
      ModOf(q, size, i);
    }
  }

  lemma MultipleAtLeast(d: int, size: nat)
    requires d >= 1
    ensures d * size >= size
  {
  }

  // Quotient and remainder are unique.
  lemma ModOf(q: int, size: nat, r: nat)
    requires r < size && 0 <= q * size + r
    ensures (q * size + r) % size == r
  {
    var x := q * size + r;
    var d := x / size;
    assert x == d * size + x % size;
    if q > d {
      assert (q - d) * size == q * size - d * size;
      MultipleAtLeast(q - d, size);
    } else if d > q {
      assert (d - q) * size == d * size - q * size;
      MultipleAtLeast(d - q, size);
    }
  }

  lemma NotCongruent(k: nat, j: nat, size: nat)
    requires 0 < size && k < j < k + size
    ensures j % size != k % size
  {
    if j % size == k % size {
      var d := j / size - k / size;
      assert j - k == d * size by {
        assert d * size == (j / size) * size - (k / size) * size;
      }
      if d >= 1 {
        MultipleAtLeast(d, size);
      } else {
        assert (1 - d) * size == size - d * size;
        MultipleAtLeast(1 - d, size);
      }
    }
  }

  // Overwriting the oldest slot of a full ring and stepping the cursor is appending to the history.
  lemma OverwriteRefinesAppend(size: nat, cur: nat, lines: seq<string>, history: seq<string>, line: string)
    requires 0 < size <= |history| && Holds(size, cur, lines, history)
    ensures Holds(size, if cur + 1 == |lines| then 0 else cur + 1, lines[cur := line], history + [line])
  {
    NextCursor(|history|, size);
    RetainedAppend(history, size, line);
    RotateOverwrite(lines, cur, line);
  }

  lemma RetainedAppend(history: seq<string>, size: nat, line: string)
    requires 0 < size <= |history|
    ensures Retained(history, size) != []
    ensures Retained(history + [line], size) == Retained(history, size)[1..] + [line]
  {
  }

  lemma RotateOverwrite(lines: seq<string>, cur: nat, line: string)
    requires cur < |lines|
    ensures var next, after := (if cur + 1 == |lines| then 0 else cur + 1), lines[cur := line];
            after[next..] + after[..next] == (lines[cur..] + lines[..cur])[1..] + [line]
  {
  }

  // A ring that is not full yet only grows.
  lemma GrowRefinesAppend(size: nat, lines: seq<string>, history: seq<string>, line: string)
    requires |history| < size && Holds(size, 0, lines, history)
    ensures Holds(size, 0, lines + [line], history + [line])
  {
  }

  lemma NextCursor(n: nat, size: nat)
    requires 0 < size
    ensures (n + 1) % size == if n % size + 1 == size then 0 else n % size + 1
  {
    var q := n / size;
    if n % size + 1 == size {
      assert n + 1 == (q + 1) * size + 0;
      ModOf(q + 1, size, 0);
    } else {
      assert n + 1 == q * size + (n % size + 1);
      ModOf(q, size, n % size + 1);
    }
  }

  lemma NextShown(kept: seq<string>, i: nat)
    requires i < |kept|
    ensures kept[..i + 1] == kept[..i] + [kept[i]]
  {
  }

  // The calls of a walk that succeeded.
  function Succeeded(calls: seq<string>, err: Option<int>): seq<string> {
    if err.None? || calls == [] then calls else calls[..|calls| - 1]
  }

  // A function value with a variable it captures: `tot` grows by what each successful call is worth.
  class Closure {
    const answer: Callback
    const worth: seq<string> -> nat
    var calls: seq<string>
    var tot: nat

    constructor (answer: Callback, worth: seq<string> -> nat)
      ensures this.answer == answer && this.worth == worth && Unused()
    {
      this.answer := answer;
      this.worth := worth;
      calls, tot := [], 0;
    }

    ghost predicate Unused()
      reads this
    {
      calls == [] && tot == 0
    }

    method Call(line: string) returns (err: Option<int>)
      requires tot == Tally(worth, calls)
      modifies this
      ensures calls == old(calls) + [line] && err == answer(calls)
      ensures tot == Tally(worth, Succeeded(calls, err))
    {
      calls := calls + [line];
      assert calls[..|calls| - 1] == old(calls);
      err := answer(calls);
      if err.Some? {
        return;
      }
      tot := tot + worth(calls);
    }
  }

  // None of the first n calls of a walk over `kept` fails.
  ghost predicate Quiet(answer: Callback, kept: seq<string>, n: nat)
    requires n <= |kept|
  {
    forall k :: 0 < k <= n ==> answer(kept[..k]).None?
  }

  method ShowOne(line: string, x: Closure, ghost kept: seq<string>) returns (err: Option<int>)
    requires |x.calls| < |kept| && x.calls == kept[..|x.calls|] && kept[|x.calls|] == line
    requires Quiet(x.answer, kept, |x.calls|) && x.tot == Tally(x.worth, x.calls)
    modifies x
    ensures |x.calls| == old(|x.calls|) + 1 <= |kept| && x.calls == kept[..|x.calls|]
    ensures err == x.answer(x.calls) && x.tot == Tally(x.worth, Succeeded(x.calls, err))
    ensures Quiet(x.answer, kept, if err.None? then |x.calls| else |x.calls| - 1)
  {
    NextShown(kept, |x.calls|);
    err := x.Call(line);
  }

  // One loop of Do: shows the slots lo..hi, after what has been shown already, until the callback
  // fails. The lines to be shown in all are `kept`.
  method ShowSlots(lines: seq<string>, lo: nat, hi: nat, x: Closure, ghost kept: seq<string>)
    returns (err: Option<int>)
    requires lo <= hi <= |lines| && |x.calls| + hi - lo <= |kept| && x.calls == kept[..|x.calls|]
    requires forall j :: lo <= j < hi ==> kept[|x.calls| + j - lo] == lines[j]
    requires Quiet(x.answer, kept, |x.calls|) && x.tot == Tally(x.worth, x.calls)
    modifies x
    ensures |x.calls| <= |kept| && x.calls == kept[..|x.calls|]
    ensures x.tot == Tally(x.worth, Succeeded(x.calls, err))
    ensures err.None? ==> |x.calls| == old(|x.calls|) + hi - lo && Quiet(x.answer, kept, |x.calls|)
    ensures err.Some? ==> x.calls != [] && x.answer(x.calls) == err && Quiet(x.answer, kept, |x.calls| - 1)
  {
    err := None;
    ghost var shown := |x.calls|;
    var i := lo;
    while i < hi
      invariant lo <= i <= hi && |x.calls| == shown + i - lo
      invariant x.calls == kept[..|x.calls|]
      invariant Quiet(x.answer, kept, |x.calls|) && x.tot == Tally(x.worth, x.calls)
    {
      err := ShowOne(lines[i], x, kept);
      if err.Some? {
        return;
      }
      i := i + 1;
    }
    err := None;
  }

  class LineBuffer {
    var Size: nat
    var cur: nat
    var lines: seq<string>
    ghost var history: seq<string>

    ghost predicate Valid()
      reads this
    {
      Holds(Size, cur, lines, history)
    }

    constructor (size: nat)
      ensures Valid() && Size == size && history == []
    {
      Size := size;
      cur := 0;
      lines := [];
      history := [];
    }

    method Append(line: string)
      requires Valid()
      modifies this
      ensures Valid()
      ensures history == old(history) + [line]
      ensures Size == if old(Size) == 0 then 1024 else old(Size)
      ensures old(|lines|) == Size ==> lines == old(lines[cur := line])
    {
      if Size == 0 {
        Size := DEFAULT_SIZE;
      }
      if |lines| < Size {
        GrowRefinesAppend(Size, lines, history, line);
        lines := lines + [line];
      } else {
        OverwriteRefinesAppend(Size, cur, lines, history, line);
        lines := lines[cur := line];
        cur := cur + 1;
        if cur == |lines| {
          cur := 0;
        }
      }
      history := history + [line];
    }

    // Shows the callback the retained lines, oldest first, until it fails.
    method Do(x: Closure) returns (err: Option<int>)
      requires Valid() && x.Unused()
      modifies x
      ensures WalkOf(Retained(history, Size), x.answer, x.calls, err)
      ensures x.tot == Tally(x.worth, Succeeded(x.calls, err))
    {
      ghost var kept := Retained(history, Size);
      if |lines| < Size {
        err := ShowSlots(lines, 0, |lines|, x, kept);
        return;
      }
      assert kept == lines[cur..] + lines[..cur];
      err := ShowSlots(lines, cur, Size, x, kept);
      if err.Some? {
        return;
      }
      err := ShowSlots(lines, 0, cur, x, kept);
    }

    // Writes the retained lines; `tot` adds up the counts of the writes that succeeded.
    method WriteTo(w: Writer) returns (tot: nat, err: Option<int>, written: seq<string>)
      requires Valid()
      ensures WalkOf(Retained(history, Size), (s: seq<string>) => w(s).err, written, err)
      ensures tot == Tally((s: seq<string>) => w(s).n, Succeeded(written, err))
      ensures FullWrites(w) ==> tot == TotalLength(Succeeded(written, err))
    {
      var write := new Closure(Writes(w), Counts(w));
      err := Do(write);
      tot, written := write.tot, write.calls;
      if FullWrites(w) {
        SucceededWrites(Retained(history, Size), w, written, err);
        CountsAddUp(w, Succeeded(written, err));
      }
    }
  }

  lemma SucceededWrites(kept: seq<string>, w: Writer, calls: seq<string>, err: Option<int>)
    requires WalkOf(kept, Writes(w), calls, err)
    ensures var succeeded := Succeeded(calls, err);
            forall k :: 0 < k <= |succeeded| ==> w(succeeded[..k]).err.None?
  {
    var succeeded := Succeeded(calls, err);
    forall k | 0 < k <= |succeeded| ensures w(succeeded[..k]).err.None? {
      assert succeeded[..k] == kept[..k];
      assert calls[..|calls|] == calls;
      assert k < |calls| ==> Writes(w)(kept[..k]).None?;
    }
  }

  // A buffer fed any history, then walked by a callback that never fails, shows the newest lines in
  // order: all of them, or as many as its size says, which is 1024 for one that was not given.
  method FillAndWalk(size: nat, input: seq<string>) returns (shown: seq<string>)
    ensures var n := if size == 0 then 1024 else size;
      |shown| == (if |input| <= n then |input| else n) && shown == input[|input| - |shown|..]
  {
    var lb := new LineBuffer(size);
    for i := 0 to |input|
      invariant lb.Valid() && lb.history == input[..i]
      invariant lb.Size == if i > 0 && size == 0 then 1024 else size
      invariant fresh(lb)
    {
      lb.Append(input[i]);
    }
    assert input[..|input|] == input;
    var show := new Closure(_ => None, _ => 0);
    var err := lb.Do(show);
    shown := show.calls;
  }
}
