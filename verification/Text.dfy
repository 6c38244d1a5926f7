// Strings as the server cuts them up: suffix tests, single-character counts and searches,
// and the split/join pair used for host labels and for websocket frames.
module Text {

  predicate HasSuffix(s: string, t: string) {
    |t| <= |s| && s[|s| - |t|..] == t
  }

  lemma SuffixOfConcat(a: string, t: string)
    ensures HasSuffix(a + t, t)
    ensures (a + t)[..|a|] == a
  {
  }

  // Two suffixes of one string are nested: the shorter is a suffix of the longer.
  lemma SuffixesNest(s: string, t: string, u: string)
    requires HasSuffix(s, t) && HasSuffix(s, u) && |t| <= |u|
    ensures HasSuffix(u, t)
  {
  }

  lemma SuffixTrans(s: string, t: string, u: string)
    requires HasSuffix(s, t) && HasSuffix(t, u)
    ensures HasSuffix(s, u)
  {
  }

  lemma SuffixMember(s: string, c: char, t: string)
    ensures HasSuffix(s, [c] + t) ==> c in s
  {
    if HasSuffix(s, [c] + t) {
      assert s[|s| - |t| - 1] == ([c] + t)[0];
    }
  }

  // Number of occurrences of one character (strings.Count with a one-byte separator).
  function Count(s: string, c: char): nat {
    if s == [] then 0 else (if s[0] == c then 1 else 0) + Count(s[1..], c)
  }

  lemma {:induction false} CountConcat(a: string, b: string, c: char)
    ensures Count(a + b, c) == Count(a, c) + Count(b, c)
  {
    if a == [] {
      assert a + b == b;
    } else {
      assert (a + b)[1..] == a[1..] + b;
      CountConcat(a[1..], b, c);
    }
  }

  // strings.IndexByte: the first position of c, or -1.
  function IndexByte(s: string, c: char): (i: int)
    ensures -1 <= i < |s|
    ensures i == -1 <==> c !in s
    ensures i != -1 ==> s[i] == c && c !in s[..i]
  {
    if s == [] then -1
    else if s[0] == c then 0
    else
      var k := IndexByte(s[1..], c);
      if k == -1 then -1 else
        assert s[..k + 1] == [s[0]] + s[1..][..k];
        k + 1
  }

  // strings.LastIndexByte: the last position of c, or -1.
  function LastIndexByte(s: string, c: char): (i: int)
    ensures -1 <= i < |s|
    ensures i == -1 <==> c !in s
    ensures i != -1 ==> s[i] == c && c !in s[i + 1..]
  {
    if s == [] then -1
    else if s[|s| - 1] == c then |s| - 1
    else
      var k := LastIndexByte(s[..|s| - 1], c);
      assert s == s[..|s| - 1] + [s[|s| - 1]];
      assert k != -1 ==> s[k + 1..] == s[..|s| - 1][k + 1..] + [s[|s| - 1]];
      k
  }

  // strings.Replace of every occurrence of one character.
  function ReplaceAll(s: string, from: char, to: char): (r: string)
    ensures |r| == |s|
    ensures forall i :: 0 <= i < |s| ==> r[i] == if s[i] == from then to else s[i]
  {
    seq(|s|, i requires 0 <= i < |s| => if s[i] == from then to else s[i])
  }

  // strings.Split with a one-character separator.
  function Split(s: string, sep: char): (parts: seq<string>)
    ensures parts != []
    ensures forall p :: p in parts ==> sep !in p
  {
    if s == [] then [[]]
    else
      var rest := Split(s[1..], sep);
      Cons(s[0], rest, sep)
  }

  // strings.Join with a one-character separator.
  function Join(parts: seq<string>, sep: char): string {
    if parts == [] then []
    else if |parts| == 1 then parts[0]
    else parts[0] + [sep] + Join(parts[1..], sep)
  }

  // There is one piece more than there are separators.
  lemma {:induction false} PiecesCount(s: string, sep: char)
    ensures |Split(s, sep)| == Count(s, sep) + 1
  {
    if s != [] {
      PiecesCount(s[1..], sep);
    }
  }

  // Replacing a separator is joining the pieces with another.
  lemma {:induction false} ReplaceIsSplitJoin(s: string, from: char, to: char)
    ensures ReplaceAll(s, from, to) == Join(Split(s, from), to)
  {
    if s == [] {
      assert ReplaceAll(s, from, to) == [];
    } else {
      var rest := Split(s[1..], from);
      ReplaceIsSplitJoin(s[1..], from, to);
      assert ReplaceAll(s, from, to) == [if s[0] == from then to else s[0]] + ReplaceAll(s[1..], from, to);
      if s[0] == from {
        assert Split(s, from)[1..] == rest;
      } else {
        assert Split(s, from)[1..] == rest[1..];
        if |rest| > 1 {
          assert [s[0]] + rest[0] + [to] + Join(rest[1..], to) == [s[0]] + (rest[0] + [to] + Join(rest[1..], to));
        }
      }
    }
  }

  // Joining undoes splitting, for every string.
  lemma {:induction false} JoinSplit(s: string, sep: char)
    ensures Join(Split(s, sep), sep) == s
  {
    if s != [] {
      var rest := Split(s[1..], sep);
      JoinSplit(s[1..], sep);
      if s[0] == sep {
        assert Split(s, sep)[1..] == rest;
      } else {
        assert Split(s, sep)[1..] == rest[1..];
        if |rest| > 1 {
          assert [s[0]] + rest[0] + [sep] + Join(rest[1..], sep)
              == [s[0]] + (rest[0] + [sep] + Join(rest[1..], sep));
        }
      }
    }
  }

  lemma {:induction false} JoinCut(parts: seq<string>, k: nat, sep: char)
    requires 0 < k < |parts|
    ensures Join(parts, sep) == Join(parts[..k], sep) + [sep] + Join(parts[k..], sep)
  {
    if k == 1 {
      assert parts[..1] == [parts[0]];
    } else {
      JoinCut(parts[1..], k - 1, sep);
      assert parts[1..][..k - 1] == parts[..k][1..] && parts[1..][k - 1..] == parts[k..];
      var front := Join(parts[..k][1..], sep);
      assert parts[0] + [sep] + (front + [sep] + Join(parts[k..], sep))
          == parts[0] + [sep] + front + [sep] + Join(parts[k..], sep);
    }
  }

  lemma {:induction false} SplitWithout(s: string, sep: char)
    requires sep !in s
    ensures Split(s, sep) == [s]
  {
    if s != [] {
      SplitWithout(s[1..], sep);
      assert [s[0]] + s[1..] == s;
    }
  }

  // A separator cuts a string into the pieces of its two sides.
  lemma {:induction false} SplitConcat(a: string, b: string, sep: char)
    ensures Split(a + [sep] + b, sep) == Split(a, sep) + Split(b, sep)
  {
    if a == [] {
      assert ([] + [sep] + b)[1..] == b;
    } else {
      SplitConcat(a[1..], b, sep);
      SplitHead(a[0], a[1..] + [sep] + b, sep);
      assert [a[0]] + (a[1..] + [sep] + b) == a + [sep] + b;
      SplitHead(a[0], a[1..], sep);
      assert [a[0]] + a[1..] == a;
      ConsPieces(a[0], Split(a[1..], sep), Split(b, sep), sep);
    }
  }

  // The step of Split, as a function of the pieces of the tail.
  function Cons(c: char, rest: seq<string>, sep: char): seq<string>
    requires rest != []
  {
    if c == sep then [[]] + rest else [[c] + rest[0]] + rest[1..]
  }

  lemma SplitHead(c: char, tail: string, sep: char)
    ensures Split([c] + tail, sep) == Cons(c, Split(tail, sep), sep)
  {
  }

  lemma ConsPieces(c: char, x: seq<string>, y: seq<string>, sep: char)
    requires x != []
    ensures Cons(c, x + y, sep) == Cons(c, x, sep) + y
  {
  }

  // Splitting undoes joining for separator-free parts, however many there are.
  lemma {:induction false} SplitJoin(parts: seq<string>, sep: char)
    requires parts != []
    requires forall p :: p in parts ==> sep !in p
    ensures Split(Join(parts, sep), sep) == parts
  {
    SplitWithout(parts[0], sep);
    if |parts| == 1 {
      assert parts == [parts[0]];
    } else {
      SplitConcat(parts[0], Join(parts[1..], sep), sep);
      SplitJoin(parts[1..], sep);
      assert parts == [parts[0]] + parts[1..];
    }
  }

  // ... and it undoes joining for no other list of parts.
  lemma SplitJoinExactly(parts: seq<string>, sep: char)
    ensures Split(Join(parts, sep), sep) == parts <==>
            parts != [] && forall p :: p in parts ==> sep !in p
  {
    if parts != [] && forall p :: p in parts ==> sep !in p {
      SplitJoin(parts, sep);
    } else if parts == [] {
      assert Split(Join(parts, sep), sep) != [];
    } else {
      var p :| p in parts && sep in p;
      assert p !in Split(Join(parts, sep), sep);
    }
  }
}
