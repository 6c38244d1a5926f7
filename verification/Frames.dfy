// Payloads on the wire: what Broadcast makes of its data, and the frames writePump packs several
// payloads into (dev/websockets/hub.go, dev/websockets/client.go).
module Frames {
  import opened Text

  const NEWLINE := '\n'

  // unicode.IsSpace
  predicate IsSpace(c: char) {
    || '\t' <= c <= '\r' || c == ' '
    || c == '\U{0085}' || c == '\U{00A0}' || c == '\U{1680}'
    || '\U{2000}' <= c <= '\U{200A}'
    || c == '\U{2028}' || c == '\U{2029}' || c == '\U{202F}' || c == '\U{205F}' || c == '\U{3000}'
  }

  // The code points with the White_Space property of Unicode.
  const WHITE_SPACE := {
    '\U{9}', '\U{A}', '\U{B}', '\U{C}', '\U{D}', '\U{20}', '\U{85}', '\U{A0}', '\U{1680}',
    '\U{2000}', '\U{2001}', '\U{2002}', '\U{2003}', '\U{2004}', '\U{2005}', '\U{2006}', '\U{2007}',
    '\U{2008}', '\U{2009}', '\U{200A}', '\U{2028}', '\U{2029}', '\U{202F}', '\U{205F}', '\U{3000}'
  }

  lemma SpacesExactly(c: char)
    ensures IsSpace(c) <==> c in WHITE_SPACE
  {
  }

  predicate AllSpace(s: string) {
    forall c :: c in s ==> IsSpace(c)
  }

  function TrimLeft(s: string): string {
    if s != "" && IsSpace(s[0]) then TrimLeft(s[1..]) else s
  }

  function TrimRight(s: string): string {
    if s != "" && IsSpace(s[|s| - 1]) then TrimRight(s[..|s| - 1]) else s
  }

  function TrimSpace(s: string): string {
    TrimRight(TrimLeft(s))
  }

  // The payload Broadcast sends for some data.
  function Normalize(data: string): string {
    TrimSpace(ReplaceAll(data, NEWLINE, ' '))
  }

  lemma {:induction false} TrimLeftCuts(s: string) returns (lead: string)
    ensures s == lead + TrimLeft(s) && AllSpace(lead)
    ensures TrimLeft(s) != "" ==> !IsSpace(TrimLeft(s)[0])
  {
    lead := "";
    if s != "" && IsSpace(s[0]) {
      var rest := TrimLeftCuts(s[1..]);
      lead := [s[0]] + rest;
      assert s == [s[0]] + s[1..];
    }
  }

  lemma {:induction false} TrimRightCuts(s: string) returns (tail: string)
    ensures s == TrimRight(s) + tail && AllSpace(tail)
    ensures TrimRight(s) != "" ==> !IsSpace(TrimRight(s)[|TrimRight(s)| - 1])
  {
    tail := "";
    if s != "" && IsSpace(s[|s| - 1]) {
      var rest := TrimRightCuts(s[..|s| - 1]);
      tail := rest + [s[|s| - 1]];
      assert s == s[..|s| - 1] + [s[|s| - 1]];
    }
  }

  // The payload has no newline, is the data with newlines turned into spaces less white space at
  // its ends, and has none left there.
  lemma PayloadOf(data: string) returns (lead: string, tail: string)
    ensures '\n' !in Normalize(data)
    ensures var spaced := lead + Normalize(data) + tail;
      |spaced| == |data| && forall k :: 0 <= k < |data| ==> spaced[k] == if data[k] == '\n' then ' ' else data[k]
    ensures forall c :: c in lead || c in tail ==> c in WHITE_SPACE
    ensures var p := Normalize(data); p != "" ==> p[0] !in WHITE_SPACE && p[|p| - 1] !in WHITE_SPACE
  {
    var spaced := ReplaceAll(data, NEWLINE, ' ');
    lead, tail := TrimCuts(spaced);
    MiddleKeepsOut(lead, Normalize(data), tail, NEWLINE);
    forall c ensures IsSpace(c) <==> c in WHITE_SPACE {
      SpacesExactly(c);
    }
  }

  lemma TrimCuts(s: string) returns (lead: string, tail: string)
    ensures s == lead + TrimSpace(s) + tail && AllSpace(lead) && AllSpace(tail)
    ensures var p := TrimSpace(s); p != "" ==> !IsSpace(p[0]) && !IsSpace(p[|p| - 1])
  {
    lead := TrimLeftCuts(s);
    var left := TrimLeft(s);
    tail := TrimRightCuts(left);
    assert lead + (TrimRight(left) + tail) == lead + TrimRight(left) + tail;
    assert TrimRight(left) != "" ==> TrimRight(left)[0] == left[0];
  }

  lemma MiddleKeepsOut(a: string, b: string, c: string, x: char)
    requires x !in a + b + c
    ensures x !in b
  {
  }

  // ---------------------------------------------------------------- frames

  // What the client page does with the data of one frame.
  function Pieces(frame: string): seq<string> {
    Split(frame, NEWLINE)
  }

  // Splitting a frame gives back the messages it was built from exactly when none has a newline.
  lemma FrameRoundTrip(messages: seq<string>)
    requires messages != []
    ensures Pieces(Join(messages, '\n')) == messages <==> forall m :: m in messages ==> '\n' !in m
  {
    SplitJoinExactly(messages, NEWLINE);
  }

  function AllPieces(frames: seq<string>): seq<string> {
    if frames == [] then [] else AllPieces(frames[..|frames| - 1]) + Pieces(frames[|frames| - 1])
  }

  // Appending to the frame under construction is appending to its list of messages.
  lemma {:induction false} JoinAppend(messages: seq<string>, m: string)
    requires messages != []
    ensures Join(messages + [m], NEWLINE) == Join(messages, NEWLINE) + [NEWLINE] + m
  {
    if |messages| == 1 {
      assert (messages + [m])[1..] == [m];
    } else {
      JoinAppend(messages[1..], m);
      assert (messages + [m])[1..] == messages[1..] + [m];
      assert messages[0] + [NEWLINE] + (Join(messages[1..], NEWLINE) + [NEWLINE] + m)
          == messages[0] + [NEWLINE] + Join(messages[1..], NEWLINE) + [NEWLINE] + m;
    }
  }
}
