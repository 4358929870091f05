// internal/adapter/stream.go:19-49 with parseSSEFrame (translate.go:1496-1512):
// when does a piece of an event stream tell a client that its turn is over?
module StreamSignals {
  import opened Basics
  import opened Text
  import StreamReader

  datatype Protocol = OpenAI | Anthropic

  // What the check reads of a data field, if it decodes at all: the type, the
  // stop reason of the delta and the finish reasons of the choices.
  datatype Json = Json(kind: string, stopReason: string, finishReasons: seq<string>)

  datatype Client = Client(protocol: Protocol, decode: string -> Option<Json>)

  // ----- The data of one frame -----

  function LineBreak(s: string): (n: nat)
    ensures n <= |s| && (n < |s| ==> s[n] == '\n')
  {
    if s == "" || s[0] == '\n' then 0 else LineBreak(s[1..]) + 1
  }

  function Lines(s: string): seq<string> {
    var n := LineBreak(s);
    if n == |s| then [s] else [s[..n]] + Lines(s[n + 1..])
  }

  lemma {:induction false} LineBreakAt(line: string, rest: string)
    requires forall i :: 0 <= i < |line| ==> line[i] != '\n'
    ensures LineBreak(line + "\n" + rest) == |line|
  {
    if line != "" {
      LineBreakAt(line[1..], rest);
      assert (line + "\n" + rest)[1..] == line[1..] + "\n" + rest;
    }
  }

  lemma LinesOf(line: string, rest: string)
    requires forall i :: 0 <= i < |line| ==> line[i] != '\n'
    ensures Lines(line + "\n" + rest) == [line] + Lines(rest)
  {
    LineBreakAt(line, rest);
    var s := line + "\n" + rest;
    assert s[..|line|] == line && s[|line| + 1..] == rest;
  }

  function WithoutReturn(line: string): string {
    if line != "" && line[|line| - 1] == '\r' then line[..|line| - 1] else line
  }

  predicate IsData(line: string) {
    "data:" <= WithoutReturn(line)
  }

  function DataOf(lines: seq<string>): seq<string> {
    if lines == [] then []
    else (if IsData(lines[0]) then [TrimSpace(WithoutReturn(lines[0])[5..])] else []) + DataOf(lines[1..])
  }

  lemma DataOfFirst(line: string, lines: seq<string>)
    ensures DataOf([line] + lines) == (if IsData(line) then [TrimSpace(WithoutReturn(line)[5..])] else []) + DataOf(lines)
  {
    assert ([line] + lines)[1..] == lines;
  }

  function Joined(parts: seq<string>): string {
    if parts == [] then "" else if |parts| == 1 then parts[0] else parts[0] + "\n" + Joined(parts[1..])
  }

  function Data(frame: string): string {
    Joined(DataOf(Lines(frame)))
  }

  // ----- The signal -----

  predicate Completes(protocol: Protocol, v: Json) {
    match protocol
    case Anthropic => v.kind == "message_stop" || (v.kind == "message_delta" && v.stopReason != "")
    case OpenAI => exists k :: 0 <= k < |v.finishReasons| && v.finishReasons[k] != ""
  }

  // An empty data field is no JSON.
  predicate DataSignals(c: Client, data: string) {
    || (c.protocol == OpenAI && data == "[DONE]")
    || (data != "" && c.decode(data).Some? && Completes(c.protocol, c.decode(data).value))
  }

  predicate FrameSignals(c: Client, frame: string) {
    DataSignals(c, Data(frame))
  }

  function Normalize(s: string): string {
    if |s| < 2 then s
    else if s[0] == '\r' && s[1] == '\n' then "\n" + Normalize(s[2..])
    else [s[0]] + Normalize(s[1..])
  }

  // Where the first empty line begins.
  function Gap(t: string): (i: Option<nat>)
    ensures i.Some? ==> i.value + 2 <= |t| && t[i.value] == '\n' && t[i.value + 1] == '\n'
  {
    if |t| < 2 then None
    else if t[0] == '\n' && t[1] == '\n' then Some(0)
    else
      var i := Gap(t[1..]);
      if i.None? then None else Some(i.value + 1)
  }

  // Some piece between empty lines signals, the unfinished last one included.
  predicate HasSignal(c: Client, t: string)
    decreases |t|
  {
    var i := Gap(t);
    if i.None? then FrameSignals(c, t) else FrameSignals(c, t[..i.value]) || HasSignal(c, t[i.value + 2..])
  }

  // Some finished piece signals: a client acts on a frame at its empty line.
  predicate HasFinishedSignal(c: Client, t: string)
    decreases |t|
  {
    var i := Gap(t);
    i.Some? && (FrameSignals(c, t[..i.value]) || HasFinishedSignal(c, t[i.value + 2..]))
  }

  // What the gate asks of a chunk, and what a client has been told by one.
  predicate Signals(c: Client, text: string) {
    HasSignal(c, Normalize(text))
  }

  predicate Told(c: Client, text: string) {
    HasFinishedSignal(c, Normalize(text))
  }

  // The loop over the pieces.
  method StreamSignalsCompletion(c: Client, frames: string) returns (signals: bool)
    ensures signals == Signals(c, frames)
  {
    hide FrameSignals, Normalize;
    var rest := Normalize(frames);
    var i := Gap(rest);
    while i.Some?
      invariant i == Gap(rest) && HasSignal(c, rest) == Signals(c, frames)
      decreases |rest|
    {
      if FrameSignals(c, rest[..i.value]) {
        return true;
      }
      rest := rest[i.value + 2..];
      i := Gap(rest);
    }
    signals := FrameSignals(c, rest);
  }

  // ----- Pieces side by side -----

  // Whole frames: nothing after an empty line, except perhaps one line end more.
  predicate Closed(t: string) {
    t == "" || t == "\n" || (|t| >= 2 && t[|t| - 2] == '\n' && t[|t| - 1] == '\n')
  }

  predicate Terminated(text: string) {
    Closed(Normalize(text)) && (text != "" ==> text[|text| - 1] != '\r')
  }

  lemma {:induction false} GapConcat(x: string, y: string)
    ensures Gap(x).Some? ==> Gap(x + y) == Gap(x)
  {
    if |x| >= 2 && !(x[0] == '\n' && x[1] == '\n') {
      GapConcat(x[1..], y);
      assert (x + y)[1..] == x[1..] + y;
    }
  }

  lemma LinesAfterNewline(s: string)
    ensures Lines("\n" + s) == [""] + Lines(s)
  {
    assert ("\n" + s)[1..] == s && ("\n" + s)[..0] == "";
    assert LineBreak("\n" + s) == 0;
  }

  lemma NewlineIsNoSignal(c: Client, s: string)
    ensures FrameSignals(c, "\n" + s) == FrameSignals(c, s)
  {
    LinesAfterNewline(s);
    hide Lines;
    assert ([""] + Lines(s))[1..] == Lines(s);
    assert !IsData("");
    assert [] + DataOf(Lines(s)) == DataOf(Lines(s));
  }

  lemma NothingSignals(c: Client)
    ensures !FrameSignals(c, "") && !HasSignal(c, "") && !HasSignal(c, "\n")
  {
    assert Lines("") == [""] && [""][1..] == [];
    assert !IsData("");
    NewlineIsNoSignal(c, "");
    assert "\n" + "" == "\n";
  }

  lemma GapAfterNewline(s: string)
    requires s == "" || s[0] != '\n'
    ensures Gap("\n" + s) == if Gap(s).Some? then Some(Gap(s).value + 1) else None
  {
    assert ("\n" + s)[1..] == s;
  }

  lemma SkipBeforeText(c: Client, s: string)
    requires s == "" || s[0] != '\n'
    ensures HasSignal(c, "\n" + s) == HasSignal(c, s)
  {
    GapAfterNewline(s);
    hide FrameSignals;
    var t, i := "\n" + s, Gap(s);
    if i.Some? {
      assert t[..i.value + 1] == "\n" + s[..i.value] && t[i.value + 3..] == s[i.value + 2..];
      NewlineIsNoSignal(c, s[..i.value]);
    } else {
      NewlineIsNoSignal(c, s);
    }
  }

  lemma TwoNewlines(c: Client, rest: string)
    ensures HasSignal(c, "\n\n" + rest) == HasSignal(c, rest)
  {
    NothingSignals(c);
    hide FrameSignals;
    var t := "\n\n" + rest;
    assert Gap(t) == Some(0) && t[..0] == "" && t[2..] == rest;
  }

  // One line end more in front changes nothing.
  lemma {:induction false} SkipNewline(c: Client, s: string)
    ensures HasSignal(c, "\n" + s) == HasSignal(c, s)
    decreases |s|
  {
    hide HasSignal;
    if s != "" && s[0] == '\n' {
      TwoNewlines(c, s[1..]);
      SkipNewline(c, s[1..]);
      assert s == "\n" + s[1..] && "\n" + s == "\n\n" + s[1..];
    } else {
      SkipBeforeText(c, s);
    }
  }

  lemma {:induction false} ClosedHasGap(x: string)
    requires |x| >= 2 && x[|x| - 2] == '\n' && x[|x| - 1] == '\n'
    ensures Gap(x).Some? && Closed(x[Gap(x).value + 2..])
  {
    if x[0] == '\n' && x[1] == '\n' {
      var rest := x[2..];
      if |rest| >= 2 { assert rest[|rest| - 2] == '\n' && rest[|rest| - 1] == '\n'; }
      if |rest| == 1 { assert rest == [x[2]]; }
    } else {
      ClosedHasGap(x[1..]);
      assert x[1..][Gap(x[1..]).value + 2..] == x[Gap(x).value + 2..];
    }
  }

  lemma {:induction false} SignalOfParts(c: Client, x: string, y: string)
    requires Closed(x)
    ensures HasSignal(c, x + y) == (HasSignal(c, x) || HasSignal(c, y))
    decreases |x|
  {
    NothingSignals(c);
    if x == "" {
      assert x + y == y;
    } else if x == "\n" {
      SkipNewline(c, y);
    } else {
      ClosedHasGap(x);
      GapConcat(x, y);
      var i := Gap(x).value;
      assert (x + y)[..i] == x[..i] && (x + y)[i + 2..] == x[i + 2..] + y;
      SignalOfParts(c, x[i + 2..], y);
    }
  }

  lemma NormalizeStep(s: string)
    requires |s| >= 2
    ensures Normalize(s) == if s[0] == '\r' && s[1] == '\n' then "\n" + Normalize(s[2..]) else [s[0]] + Normalize(s[1..])
  {
  }

  lemma NormalizeShort(s: string)
    requires |s| < 2
    ensures Normalize(s) == s
  {
  }

  // Text may be cut anywhere but inside a CRLF line end.
  lemma {:induction false} NormalizeConcat(a: string, b: string)
    requires a != "" && a[|a| - 1] == '\r' ==> b == "" || b[0] != '\n'
    ensures Normalize(a + b) == Normalize(a) + Normalize(b)
  {
    hide Normalize;
    if |a| < 2 {
      NormalizeShort(a);
      NormalizeFirst(a, b);
    } else {
      NormalizeStep(a);
      NormalizeStep(a + b);
      var n := if a[0] == '\r' && a[1] == '\n' then 2 else 1;
      SplitLater(a, b, n);
      NormalizeConcat(a[n..], b);
      Associative(if n == 2 then "\n" else [a[0]], Normalize(a[n..]), Normalize(b));
    }
  }

  lemma Associative(x: string, y: string, z: string)
    ensures x + (y + z) == x + y + z
  {
  }

  lemma SplitLater(a: string, b: string, n: nat)
    requires n <= |a| && |a| >= 2
    ensures (a + b)[n..] == a[n..] + b && (a + b)[0] == a[0] && (a + b)[1] == a[1]
    ensures n < |a| ==> a[n..][|a| - n - 1] == a[|a| - 1]
  {
  }

  lemma NormalizeFirst(a: string, b: string)
    requires |a| < 2 && (a != "" && a[0] == '\r' ==> b == "" || b[0] != '\n')
    ensures Normalize(a + b) == a + Normalize(b)
  {
    if a == "" {
      assert a + b == b;
    } else if b == "" {
      assert a + b == a;
    } else {
      assert (a + b)[1..] == b;
    }
  }

  lemma SignalsConcat(c: Client, a: string, b: string)
    requires Terminated(a)
    ensures Signals(c, a + b) == (Signals(c, a) || Signals(c, b))
  {
    NormalizeConcat(a, b);
    SignalOfParts(c, Normalize(a), Normalize(b));
  }

  // ----- Chunks of a stream -----

  function Concat(chunks: seq<string>): string {
    if chunks == [] then "" else Concat(chunks[..|chunks| - 1]) + chunks[|chunks| - 1]
  }

  ghost predicate AllTerminated(chunks: seq<string>) {
    forall k :: 0 <= k < |chunks| ==> Terminated(chunks[k])
  }

  // Every chunk but perhaps the last one ends with an empty line.
  ghost predicate Framed(chunks: seq<string>) {
    chunks != [] ==> AllTerminated(chunks[..|chunks| - 1])
  }

  lemma TerminatedPair(a: string, b: string)
    requires Terminated(a) && Terminated(b)
    ensures Terminated(a + b)
  {
    NormalizeConcat(a, b);
    hide Normalize;
    var x, y := Normalize(a), Normalize(b);
    if y == "" { assert x + y == x; }
    if b == "" { assert a + b == a; }
  }

  lemma {:induction false} ConcatIsTerminated(chunks: seq<string>)
    requires AllTerminated(chunks)
    ensures Terminated(Concat(chunks))
  {
    hide Terminated;
    if chunks == [] {
      EmptyIsTerminated();
    } else {
      var front := chunks[..|chunks| - 1];
      assert forall k :: 0 <= k < |front| ==> front[k] == chunks[k];
      ConcatIsTerminated(front);
      TerminatedPair(Concat(front), chunks[|chunks| - 1]);
    }
  }

  lemma EmptyIsTerminated()
    ensures Terminated("")
  {
  }

  // A stream signals exactly when one of its chunks does.
  lemma {:induction false} SignalOfChunks(c: Client, chunks: seq<string>)
    requires Framed(chunks)
    ensures Signals(c, Concat(chunks)) <==> exists k :: 0 <= k < |chunks| && Signals(c, chunks[k])
  {
    hide Signals, Terminated;
    if chunks == [] {
      EmptyStreamIsSilent(c);
    } else {
      var n := |chunks| - 1;
      var front := chunks[..n];
      assert forall k :: 0 <= k < n ==> front[k] == chunks[k];
      SignalOfChunks(c, front);
      ConcatIsTerminated(front);
      SignalsConcat(c, Concat(front), chunks[n]);
      if k :| 0 <= k < n && Signals(c, front[k]) { assert Signals(c, chunks[k]); }
      if k :| 0 <= k < |chunks| && Signals(c, chunks[k]) { assert k == n || Signals(c, front[k]); }
    }
  }

  lemma EmptyStreamIsSilent(c: Client)
    ensures !Signals(c, "") && !Told(c, "")
  {
    NothingSignals(c);
  }

  // ----- What a client is told by a prefix -----

  lemma {:induction false} FinishedIsSignal(c: Client, t: string)
    ensures HasFinishedSignal(c, t) ==> HasSignal(c, t)
    decreases |t|
  {
    var i := Gap(t);
    if i.Some? {
      FinishedIsSignal(c, t[i.value + 2..]);
    }
  }

  lemma {:induction false} FinishedPrefix(c: Client, x: string, y: string)
    ensures HasFinishedSignal(c, x) ==> HasFinishedSignal(c, x + y)
    decreases |x|
  {
    GapConcat(x, y);
    var i := Gap(x);
    if i.Some? {
      assert (x + y)[..i.value] == x[..i.value] && (x + y)[i.value + 2..] == x[i.value + 2..] + y;
      FinishedPrefix(c, x[i.value + 2..], y);
    }
  }

  lemma {:induction false} GapWithReturn(x: string)
    ensures Gap(x + "\r") == Gap(x)
  {
    if |x| >= 2 && !(x[0] == '\n' && x[1] == '\n') {
      GapWithReturn(x[1..]);
      assert (x + "\r")[1..] == x[1..] + "\r";
    } else if |x| == 1 {
      assert (x + "\r")[1..] == "\r";
    }
  }

  lemma {:induction false} FinishedWithReturn(c: Client, x: string)
    ensures HasFinishedSignal(c, x + "\r") == HasFinishedSignal(c, x)
    decreases |x|
  {
    GapWithReturn(x);
    var i := Gap(x);
    if i.Some? {
      assert (x + "\r")[..i.value] == x[..i.value] && (x + "\r")[i.value + 2..] == x[i.value + 2..] + "\r";
      FinishedWithReturn(c, x[i.value + 2..]);
    }
  }

  // A client is told nothing by a prefix that the whole does not signal.
  lemma ToldByPrefix(c: Client, text: string, n: nat)
    requires n <= |text|
    ensures Told(c, text[..n]) ==> Signals(c, text)
  {
    var head, tail := text[..n], text[n..];
    assert head + tail == text;
    FinishedIsSignal(c, Normalize(text));
    if head != "" && head[n - 1] == '\r' {
      var front := head[..n - 1];
      NormalizeReturn(front);
      assert front + "\r" == head;
      FinishedWithReturn(c, Normalize(front));
      assert front + ("\r" + tail) == text;
      NormalizedPrefix(c, front, "\r" + tail);
    } else {
      NormalizedPrefix(c, head, tail);
    }
  }

  // A trailing carriage return of the front may belong to a line end that follows.
  lemma {:induction false} NormalizeReturn(front: string)
    ensures Normalize(front + "\r") == Normalize(front) + "\r"
  {
    var s := front + "\r";
    if front == "" {
    } else if |front| == 1 {
      assert s[1..] == "\r";
    } else if front[0] == '\r' && front[1] == '\n' {
      assert s[2..] == front[2..] + "\r";
      NormalizeReturn(front[2..]);
    } else {
      assert s[1..] == front[1..] + "\r";
      NormalizeReturn(front[1..]);
    }
  }

  lemma NormalizedPrefix(c: Client, a: string, b: string)
    requires a != "" && a[|a| - 1] == '\r' ==> b == "" || b[0] != '\n'
    ensures HasFinishedSignal(c, Normalize(a)) ==> HasFinishedSignal(c, Normalize(a + b))
  {
    NormalizeConcat(a, b);
    FinishedPrefix(c, Normalize(a), Normalize(b));
  }

  // ----- Frames of the reader -----

  // A frame that the reader cuts at a line feed is terminated.
  lemma FrameIsTerminated(f: string)
    requires f != "" && StreamReader.FrameEnd(f, 0) == Some(|f|) && f[|f| - 1] == '\n'
    ensures Terminated(f)
  {
    hide Normalize, StreamReader.FrameEnd;
    var j := BlankLine(f, 0, |f|);
    var front, blank := f[..j], f[j..];
    assert front + blank == f;
    NormalizeConcat(front, blank);
    NormalizedBlank();
    if j > 0 {
      NormalizedLineEnd(front);
    } else {
      assert front == "" && "" + blank == blank;
    }
  }

  lemma NormalizedBlank()
    ensures Normalize("\n") == "\n" && Normalize("\r\n") == "\n" && Normalize("") == ""
  {
    assert "\r\n"[2..] == "";
  }

  lemma {:induction false} BlankLine(s: string, i: nat, end: nat) returns (j: nat)
    requires i <= |s| && StreamReader.FrameEnd(s, i) == Some(end) && (i == 0 || s[i - 1] == '\n')
    requires end == |s| && s[end - 1] == '\n'
    ensures i <= j < end && (j == 0 || s[j - 1] == '\n') && (s[j..] == "\n" || s[j..] == "\r\n")
    decreases |s| - i
  {
    var line := StreamReader.LineEnd(s, i);
    if StreamReader.Blank(s[i..line]) {
      j := i;
      assert s[i..line] == s[i..];
      assert s[i..][|s| - i - 1] == '\n';
    } else {
      assert line < |s|;
      j := BlankLine(s, line, end);
    }
  }

  lemma {:induction false} NormalizedLineEnd(s: string)
    requires s != "" && s[|s| - 1] == '\n'
    ensures Normalize(s) != "" && Normalize(s)[|Normalize(s)| - 1] == '\n'
  {
    if |s| == 2 && s[0] == '\r' {
      assert s[2..] == "";
    } else if |s| >= 2 {
      NormalizedLineEnd(if s[0] == '\r' && s[1] == '\n' then s[2..] else s[1..]);
    }
  }
}
