// internal/adapter/stream.go:59-117: the frame reader cuts the byte stream at
// blank lines, as section 9.2.5 of the WHATWG HTML Living Standard does, with
// LF or CRLF line ends.
module StreamReader {
  import opened Basics

  // The position after the line that starts at i.
  function LineEnd(s: string, i: nat): (end: nat)
    requires i <= |s|
    ensures i <= end <= |s|
    ensures i < |s| ==> i < end
    ensures end < |s| ==> end > 0 && s[end - 1] == '\n'
    ensures forall k :: i <= k < end - 1 ==> s[k] != '\n'
    decreases |s| - i
  {
    if i == |s| then i else if s[i] == '\n' then i + 1 else LineEnd(s, i + 1)
  }

  // A line that is empty without its line end.
  predicate Blank(line: string) {
    line == "" || line == "\n" || line == "\r\n" || line == "\r"
  }

  // The end of the first blank line at or after i.
  function FrameEnd(s: string, i: nat): (end: Option<nat>)
    requires i <= |s|
    ensures end.Some? ==> i < end.value <= |s|
    decreases |s| - i
  {
    if i == |s| then None
    else
      var end := LineEnd(s, i);
      if Blank(s[i..end]) then Some(end) else FrameEnd(s, end)
  }

  function Frames(s: string, i: nat): seq<string>
    requires i <= |s|
    decreases |s| - i
  {
    var end := FrameEnd(s, i);
    if end.None? then [] else [s[i..end.value]] + Frames(s, end.value)
  }

  function Tail(s: string, i: nat): string
    requires i <= |s|
    decreases |s| - i
  {
    var end := FrameEnd(s, i);
    if end.None? then s[i..] else Tail(s, end.value)
  }

  function Flatten(frames: seq<string>): string {
    if frames == [] then "" else frames[0] + Flatten(frames[1..])
  }

  // The frames and the unfinished tail are the input, byte for byte.
  lemma {:induction false} FramesPartitionInput(s: string, i: nat)
    requires i <= |s|
    ensures Flatten(Frames(s, i)) + Tail(s, i) == s[i..]
    decreases |s| - i
  {
    hide FrameEnd, Blank;
    var end := FrameEnd(s, i);
    if end.Some? {
      FramesPartitionInput(s, end.value);
      assert s[i..] == s[i..end.value] + s[end.value..];
      assert Frames(s, i)[1..] == Frames(s, end.value);
    }
  }

  // Line ends of a piece of s that ends at a line end of s.
  lemma {:induction false} LineEndOfSlice(s: string, i: nat, j: nat, k: nat)
    requires i <= j <= k <= |s| && LineEnd(s, j) <= k
    ensures LineEnd(s[i..k], j - i) == LineEnd(s, j) - i
    decreases k - j
  {
    if j < k && s[j] != '\n' { LineEndOfSlice(s, i, j + 1, k); }
  }

  // The first line of a piece of s that ends at a line end of s.
  lemma FirstLineOfSlice(s: string, i: nat, j: nat, k: nat)
    requires i <= j < k <= |s| && LineEnd(s, j) <= k
    ensures LineEnd(s[i..k], j - i) == LineEnd(s, j) - i
    ensures s[i..k][j - i..LineEnd(s, j) - i] == s[j..LineEnd(s, j)]
  {
    LineEndOfSlice(s, i, j, k);
    SliceOfSlice(s, i, k, j, LineEnd(s, j));
  }

  lemma SliceOfSlice(s: string, i: nat, k: nat, j: nat, end: nat)
    requires i <= j <= end <= k <= |s|
    ensures s[i..k][j - i..end - i] == s[j..end]
  {
    var inner, direct := s[i..k][j - i..end - i], s[j..end];
    assert |inner| == |direct|;
    assert forall x :: 0 <= x < |direct| ==> inner[x] == direct[x];
  }

  // A frame ends at its own first blank line.
  lemma {:induction false} FrameEndsOnce(s: string, i: nat, j: nat, end: nat)
    requires i <= j <= |s| && FrameEnd(s, j) == Some(end)
    ensures FrameEnd(s[i..end], j - i) == Some(end - i)
    decreases |s| - j
  {
    hide LineEnd, Blank;
    var line := LineEnd(s, j);
    NextLine(s, j);
    FirstLineOfSlice(s, i, j, end);
    NextLine(s[i..end], j - i);
    if !Blank(s[j..line]) { FrameEndsOnce(s, i, line, end); }
  }

  lemma {:induction false} EachFrameIsOne(s: string, i: nat)
    requires i <= |s|
    ensures forall k :: 0 <= k < |Frames(s, i)| ==> FrameEnd(Frames(s, i)[k], 0) == Some(|Frames(s, i)[k]|)
    ensures FrameEnd(Tail(s, i), 0).None?
    decreases |s| - i
  {
    hide FrameEnd, LineEnd, Blank;
    var end := FrameEnd(s, i);
    if end.Some? {
      FrameEndsOnce(s, i, i, end.value);
      EachFrameIsOne(s, end.value);
      NextFrame(s, i, end.value);
    } else {
      NoFrameInTail(s, i, i);
    }
  }

  lemma {:induction false} NoFrameInTail(s: string, i: nat, j: nat)
    requires i <= j <= |s| && FrameEnd(s, j).None?
    ensures FrameEnd(s[i..], j - i).None?
    decreases |s| - j
  {
    hide LineEnd, Blank;
    if j < |s| {
      var line := LineEnd(s, j);
      NextLine(s, j);
      assert s[i..|s|] == s[i..];
      FirstLineOfSlice(s, i, j, |s|);
      NoFrameInTail(s, i, line);
      NextLine(s[i..], j - i);
    } else {
      assert |s[i..]| == j - i;
    }
  }

  lemma NextLine(s: string, at: nat)
    requires at < |s|
    ensures FrameEnd(s, at) == if Blank(s[at..LineEnd(s, at)]) then Some(LineEnd(s, at)) else FrameEnd(s, LineEnd(s, at))
    ensures LineEnd(s, at) > at
  {
  }

  lemma NextFrame(s: string, start: nat, end: nat)
    requires start <= end <= |s| && FrameEnd(s, start) == Some(end)
    ensures Frames(s, start) == [s[start..end]] + Frames(s, end) && Tail(s, start) == Tail(s, end)
  {
  }

  lemma NoFrame(s: string, start: nat)
    requires start <= |s| && FrameEnd(s, start) == FrameEnd(s, |s|)
    ensures Frames(s, start) == [] && Tail(s, start) == s[start..]
  {
  }

  lemma OversizedFrame(s: string, start: nat, at: nat, frames: seq<string>, eventBytes: nat)
    requires start <= at < |s| && LineEnd(s, at) - start > eventBytes
    requires FrameEnd(s, start) == FrameEnd(s, at)
    requires Frames(s, 0) == frames + Frames(s, start) && Tail(s, 0) == Tail(s, start)
    ensures (exists k :: 0 <= k < |Frames(s, 0)| && |Frames(s, 0)[k]| > eventBytes) || |Tail(s, 0)| > eventBytes
  {
    var end := FrameEnd(s, start);
    if end.Some? {
      assert Frames(s, 0)[|frames|] == s[start..end.value];
      assert end.value >= LineEnd(s, at);
    }
  }
}
