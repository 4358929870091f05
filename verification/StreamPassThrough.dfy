// A stream between a client and an upstream of one protocol, from the bytes read
// to the bytes received: the reader (internal/adapter/stream.go:59-254), the
// completion check (21-49) and the session around them.
module StreamPassThrough {
  import opened Basics
  import opened Text
  import opened StreamSignals
  import opened StreamUpstream
  import R = StreamReader
  import D = StreamDelivery

  // ----- The check and the reader see the same data -----

  function Trimmed(parts: seq<string>): seq<string> {
    seq(|parts|, k requires 0 <= k < |parts| => TrimSpace(parts[k]))
  }

  lemma {:induction false} TrimLeftPush(s: string, c: char)
    requires IsSpace(c)
    ensures TrimLeft(s + [c]) == if TrimLeft(s) == "" then "" else TrimLeft(s) + [c]
  {
    if s == "" {
      assert [c][1..] == "" && "" + [c] == [c];
    } else {
      assert (s + [c])[1..] == s[1..] + [c];
      TrimLeftPush(s[1..], c);
    }
  }

  // White space at the end of a line is trimmed with the rest.
  lemma TrimPush(s: string, c: char)
    requires IsSpace(c)
    ensures TrimSpace(s + [c]) == TrimSpace(s)
  {
    TrimLeftPush(s, c);
    var t := TrimLeft(s);
    if t != "" { assert (t + [c])[..|t|] == t; }
  }

  lemma TrimValue(s: string)
    ensures TrimSpace(FieldValue(s)) == TrimSpace(s)
  {
  }

  // A carriage return at the end of a line matters to neither.
  lemma ReturnIsTrimmed(line: string)
    ensures IsData(WithoutReturn(line)) == IsData(line)
    ensures IsData(line) ==>
              TrimSpace(WithoutReturn(WithoutReturn(line))[5..]) == TrimSpace(WithoutReturn(line)[5..])
  {
    var l := WithoutReturn(line);
    if "data:" <= l {
      assert l[4] == "data:"[4];
      if l[|l| - 1] == '\r' {
        assert l == l[..|l| - 1] + "\r";
        assert l[5..] == l[..|l| - 1][5..] + "\r";
        TrimPush(l[..|l| - 1][5..], '\r');
      }
    }
  }

  lemma {:induction false} DataIsTrimmed(lines: seq<string>)
    ensures DataOf(lines) == Trimmed(RawData(lines))
  {
    if lines != [] {
      var n := |lines| - 1;
      DataIsTrimmed(lines[..n]);
      DataOfPush(lines[..n], lines[n]);
      assert lines == lines[..n] + [lines[n]];
      if IsData(lines[n]) { TrimValue(WithoutReturn(lines[n])[5..]); }
    }
  }

  lemma {:induction false} DataOfPush(lines: seq<string>, line: string)
    ensures DataOf(lines + [line]) == DataOf(lines) + if IsData(line) then [TrimSpace(WithoutReturn(line)[5..])] else []
  {
    hide TrimSpace, WithoutReturn, IsData;
    if lines == [] {
      assert [] + [line] == [line] && [line][1..] == [];
    } else {
      assert (lines + [line])[1..] == lines[1..] + [line];
      DataOfPush(lines[1..], line);
    }
  }

  // ----- Lines before and after line ends are made uniform -----

  lemma {:induction false} LastLine(s: string)
    requires forall i :: 0 <= i < |s| ==> s[i] != '\n'
    ensures Normalize(s) == s && LineBreak(s) == |s| && Gap(s).None?
  {
    if s != "" {
      LastLine(s[1..]);
    }
  }

  lemma {:induction false} LineIsNormalized(line: string)
    requires forall i :: 0 <= i < |line| ==> line[i] != '\n'
    ensures Normalize(line + "\n") == WithoutReturn(line) + "\n"
  {
    var s := line + "\n";
    if |line| == 1 {
      if line[0] == '\r' { assert s[2..] == ""; } else { assert s[1..] == "\n"; }
    } else if line != "" {
      assert s[1..] == line[1..] + "\n";
      LineIsNormalized(line[1..]);
    }
  }

  // The first line of a text, and the rest.
  lemma NormalizedLine(line: string, rest: string)
    requires forall i :: 0 <= i < |line| ==> line[i] != '\n'
    ensures Normalize(line + "\n" + rest) == WithoutReturn(line) + "\n" + Normalize(rest)
  {
    LineIsNormalized(line);
    NormalizeConcat(line + "\n", rest);
  }

  lemma {:induction false} LineBreakIsFirst(s: string)
    ensures forall i :: 0 <= i < LineBreak(s) ==> s[i] != '\n'
  {
    if s != "" && s[0] != '\n' {
      LineBreakIsFirst(s[1..]);
      assert forall i :: 1 <= i < |s| ==> s[i] == s[1..][i - 1];
    }
  }

  lemma {:induction false} DataAfterNormalize(s: string)
    ensures DataOf(Lines(Normalize(s))) == DataOf(Lines(s))
    decreases |s|
  {
    hide Normalize, LineBreak;
    LineBreakIsFirst(s);
    var n := LineBreak(s);
    if n == |s| {
      LastLine(s);
    } else {
      var line, rest := s[..n], s[n + 1..];
      assert s == line + "\n" + rest;
      DataAfterNormalize(rest);
      NormalizedLine(line, rest);
      LinesOf(line, rest);
      LinesOf(WithoutReturn(line), Normalize(rest));
      ReturnIsTrimmed(line);
      hide Lines;
      DataOfFirst(line, Lines(rest));
      DataOfFirst(WithoutReturn(line), Lines(Normalize(rest)));
    }
  }

  // ----- A frame of the reader is one frame to the check -----

  lemma {:induction false} GapAfterLine(line: string, rest: string)
    requires line != "" && forall i :: 0 <= i < |line| ==> line[i] != '\n'
    ensures Gap(line + "\n" + rest)
            == if rest != "" && rest[0] == '\n' then Some(|line|)
               else if Gap(rest).Some? then Some(|line| + 1 + Gap(rest).value) else None
  {
    var s := line + "\n" + rest;
    if |line| == 1 {
      assert s[1..] == "\n" + rest;
      if rest != "" && rest[0] == '\n' {
        assert Gap("\n" + rest) == Some(0);
      } else {
        GapAfterNewline(rest);
      }
    } else {
      assert s[1..] == line[1..] + "\n" + rest;
      GapAfterLine(line[1..], rest);
    }
  }

  lemma BlankNormalized(s: string)
    requires s == "\n" || s == "\r\n" || s == "\r"
    ensures |Normalize(s)| == 1 && Gap(Normalize(s)).None? && (s != "\r" ==> Normalize(s) == "\n")
  {
    NormalizedBlank();
  }

  lemma NormalizeHead(s: string)
    requires Normalize(s) != "" && Normalize(s)[0] == '\n'
    ensures s[0] == '\n' || (|s| >= 2 && s[0] == '\r' && s[1] == '\n')
  {
  }

  // A line that begins with its line end is the last one of its frame.
  lemma BlankEnds(s: string, j: nat)
    requires j < |s| && R.FrameEnd(s, j) == Some(|s|)
    requires s[j] == '\n' || (j + 1 < |s| && s[j] == '\r' && s[j + 1] == '\n')
    ensures s[j..] == "\n" || s[j..] == "\r\n"
  {
    var end := R.LineEnd(s, j);
    if s[j] == '\n' {
      assert end == j + 1 && s[j..end] == "\n";
    } else {
      assert R.LineEnd(s, j + 1) == j + 2;
      assert end == j + 2 && s[j..end] == "\r\n";
    }
    R.NextLine(s, j);
    assert end == |s| && s[j..end] == s[j..];
  }

  // If there is an empty line in it, it is at the end.
  lemma {:induction false} GapIsLast(s: string, j: nat)
    requires j < |s| && R.FrameEnd(s, j) == Some(|s|)
    ensures var t := Normalize(s[j..]); Gap(t).Some? ==> Gap(t).value + 2 == |t|
    decreases |s| - j
  {
    hide Normalize, R.FrameEnd, Gap;
    var end := R.LineEnd(s, j);
    R.NextLine(s, j);
    if R.Blank(s[j..end]) {
      assert s[j..end] == s[j..] && |s[j..]| > 0;
      BlankNormalized(s[j..]);
    } else {
      EndsBefore(s, end);
      var line, rest := s[j..end - 1], s[end..];
      assert s[j..end] == line + "\n" && s[j..] == line + "\n" + rest;
      BlankLine(line);
      NormalizedLine(line, rest);
      GapIsLast(s, end);
      GapAfterLine(WithoutReturn(line), Normalize(rest));
      if Normalize(rest) != "" && Normalize(rest)[0] == '\n' {
        NormalizeHead(rest);
        BlankEnds(s, end);
        BlankNormalized(rest);
      }
    }
  }

  lemma BlankLine(line: string)
    ensures WithoutReturn(line) == "" ==> R.Blank(line + "\n")
  {
    if |line| == 1 && line[0] == '\r' { assert line + "\n" == "\r\n"; }
  }

  lemma EndsBefore(s: string, j: nat)
    requires j <= |s| && R.FrameEnd(s, j).Some?
    ensures j < |s|
  {
  }

  lemma {:induction false} LinesPush(x: string)
    ensures Lines(x + "\n") == Lines(x) + [""]
    decreases |x|
  {
    LineBreakIsFirst(x);
    var n := LineBreak(x);
    if n == |x| {
      LinesOf(x, "");
      assert x + "\n" + "" == x + "\n";
      assert Lines("") == [""];
    } else {
      var line, rest := x[..n], x[n + 1..];
      assert x == line + "\n" + rest && x + "\n" == line + "\n" + (rest + "\n");
      LinesPush(rest);
      LinesOf(line, rest);
      LinesOf(line, rest + "\n");
    }
  }

  lemma EmptyLinesHoldNoData(x: string)
    ensures DataOf(Lines(x + "\n\n")) == DataOf(Lines(x))
  {
    LinesPush(x);
    LinesPush(x + "\n");
    hide Lines;
    assert x + "\n\n" == (x + "\n") + "\n";
    DataOfPush(Lines(x), "");
    DataOfPush(Lines(x + "\n"), "");
    assert !IsData("");
  }

  lemma OneFrameSignals(c: Client, t: string)
    requires Gap(t).Some? ==> Gap(t).value + 2 == |t|
    ensures HasSignal(c, t) == DataSignals(c, Joined(DataOf(Lines(t))))
  {
    var i := Gap(t);
    hide DataSignals, Joined, DataOf, Lines;
    if i.Some? {
      assert t == t[..i.value] + "\n\n" && t[i.value + 2..] == "";
      EmptyLinesHoldNoData(t[..i.value]);
      NothingSignals(c);
    }
  }

  // The check decides on a frame of the reader by the data the reader saw, each
  // line of it trimmed.
  lemma FrameOfReader(c: Client, f: string)
    requires R.FrameEnd(f, 0) == Some(|f|)
    ensures Signals(c, f) == DataSignals(c, Joined(Trimmed(RawData(Lines(f)))))
  {
    hide Normalize, R.FrameEnd, DataSignals, HasSignal, Joined, Trimmed, RawData, Lines, DataOf, Gap;
    EndsBefore(f, 0);
    assert f[0..] == f;
    GapIsLast(f, 0);
    DataAfterNormalize(f);
    DataIsTrimmed(Lines(f));
    OneFrameSignals(c, Normalize(f));
  }

  // ----- What the reader knows of a frame, the check knows too -----

  // JSON does not depend on white space at the edges of lines: what the reader
  // takes for a chunk, a message delta or a message stop, the check does too.
  ghost predicate ReadsAlike(u: Upstream, c: Client) {
    && c.protocol == u.protocol
    && forall parts: seq<string> :: parts != [] && u.fields(Joined(parts)).Some? && Matters(u.protocol, u.fields(Joined(parts)).value) ==>
         Joined(Trimmed(parts)) != "" && c.decode(Joined(Trimmed(parts))).Some?
         && SameFields(u.protocol, u.fields(Joined(parts)).value, c.decode(Joined(Trimmed(parts))).value)
  }

  predicate Matters(protocol: Protocol, f: Fields) {
    match protocol
    case OpenAI => f.choices.Some?
    case Anthropic => f.kind == "message_stop" || (f.kind == "message_delta" && f.stopReason.Some?)
  }

  ghost predicate SameFields(protocol: Protocol, f: Fields, v: Json)
    requires Matters(protocol, f)
  {
    match protocol
    case OpenAI =>
      |v.finishReasons| == |f.choices.value|
      && forall k :: 0 <= k < |v.finishReasons| ==> v.finishReasons[k] == f.choices.value[k].finishReason
    case Anthropic => v.kind == f.kind && (f.kind == "message_delta" ==> v.stopReason == f.stopReason.value)
  }

  lemma OnePart(parts: seq<string>)
    requires parts != []
    ensures parts == [Joined(parts)] || '\n' in Joined(parts)
  {
    if |parts| > 1 {
      assert Joined(parts)[|parts[0]|] == '\n';
    }
  }

  lemma DoneIsTrimmed(parts: seq<string>)
    requires Joined(parts) == "[DONE]" && parts != []
    ensures Joined(Trimmed(parts)) == "[DONE]"
  {
    OnePart(parts);
    TrimKeeps("[DONE]");
    assert '\n' !in "[DONE]";
    assert Trimmed(parts) == ["[DONE]"];
  }

  // The frame that ends a turn signals.
  lemma FinalDataSignals(u: Upstream, c: Client, event: string, parts: seq<string>, p: Progress)
    requires ReadsAlike(u, c) && parts != [] && JudgeData(u, event, Joined(parts), p).Final?
    ensures DataSignals(c, Joined(Trimmed(parts)))
  {
    hide Joined, Trimmed;
    if u.protocol == OpenAI {
      DoneIsTrimmed(parts);
    } else {
      assert SameFields(u.protocol, u.fields(Joined(parts)).value, c.decode(Joined(Trimmed(parts))).value);
    }
  }

  lemma FinalSignals(u: Upstream, c: Client, f: string, p: Progress)
    requires ReadsAlike(u, c) && R.FrameEnd(f, 0) == Some(|f|) && Judge(u, f, p).Final?
    ensures Signals(c, f)
  {
    FrameOfReader(c, f);
    hide *;
    JudgedByData(u, f, p);
    FinalDataSignals(u, c, EventOf(Lines(f)), RawData(Lines(f)), p);
  }

  lemma JudgedByData(u: Upstream, f: string, p: Progress)
    requires Judge(u, f, p).Final? || (Judge(u, f, p).Emit? && Judge(u, f, p).progress != p)
    ensures RawData(Lines(f)) != [] && JudgeData(u, EventOf(Lines(f)), Joined(RawData(Lines(f))), p) == Judge(u, f, p)
  {
    hide Lines, RawData, EventOf, Joined, JudgeData;
  }

  // And so does the one that brings the finish or stop reason.
  lemma FinishDataSignals(u: Upstream, c: Client, event: string, parts: seq<string>, p: Progress)
    requires ReadsAlike(u, c) && parts != []
    requires var v := JudgeData(u, event, Joined(parts), p); v.Emit? && v.progress.finished && !p.finished
    ensures DataSignals(c, Joined(Trimmed(parts)))
  {
    hide Joined, Trimmed;
    var fields, v := u.fields(Joined(parts)).value, c.decode(Joined(Trimmed(parts))).value;
    assert SameFields(u.protocol, fields, v);
    if u.protocol == OpenAI {
      var k :| 0 <= k < |fields.choices.value| && fields.choices.value[k].index == 0 && fields.choices.value[k].finishReason != "";
      assert v.finishReasons[k] != "";
    }
  }

  lemma FinishSignals(u: Upstream, c: Client, f: string, p: Progress)
    requires ReadsAlike(u, c) && R.FrameEnd(f, 0) == Some(|f|)
    requires Judge(u, f, p).Emit? && Judge(u, f, p).progress.finished && !p.finished
    ensures Signals(c, f)
  {
    FrameOfReader(c, f);
    hide *;
    JudgedByData(u, f, p);
    FinishDataSignals(u, c, EventOf(Lines(f)), RawData(Lines(f)), p);
  }

  // ----- The whole stream -----

  lemma {:induction false} ReadIsPrefix(u: Upstream, frames: seq<string>, p: Progress)
    ensures var r := Read(u, frames, p);
            && !r.end.OverLimit?
            && (if r.end.Terminal? then r.emitted + [r.end.frame] <= frames else r.emitted <= frames)
  {
    hide Judge, Read;
    if frames == [] {
      ReadNothing(u, p);
    } else {
      var rest := frames[1..];
      assert frames == [frames[0]] + rest;
      ReadOn(u, frames[0], rest, p);
      var verdict := Judge(u, frames[0], p);
      if verdict.Emit? {
        ReadIsPrefix(u, rest, verdict.progress);
        PrefixPush(frames[0], Read(u, rest, verdict.progress), rest);
      }
    }
  }

  lemma PrefixPush(frame: string, r: Reading, rest: seq<string>)
    requires if r.end.Terminal? then r.emitted + [r.end.frame] <= rest else r.emitted <= rest
    ensures if r.end.Terminal? then [frame] + r.emitted + [r.end.frame] <= [frame] + rest else [frame] + r.emitted <= [frame] + rest
  {
    if r.end.Terminal? {
      assert [frame] + r.emitted + [r.end.frame] == [frame] + (r.emitted + [r.end.frame]);
    }
  }

  ghost predicate ReaderFrames(frames: seq<string>) {
    forall k :: 0 <= k < |frames| ==> R.FrameEnd(frames[k], 0) == Some(|frames[k]|)
  }

  // A stream that is read to its end has a frame that signals before the one
  // that ends it, and that one signals as well.
  lemma {:induction false} EndIsSignalled(u: Upstream, c: Client, frames: seq<string>, p: Progress)
    requires ReadsAlike(u, c) && ReaderFrames(frames) && Read(u, frames, p).end.Terminal?
    ensures var r := Read(u, frames, p);
            && Signals(c, r.end.frame)
            && (p.finished || exists k :: 0 <= k < |r.emitted| && Signals(c, r.emitted[k]))
  {
    hide Judge, Signals, ReadsAlike, R.FrameEnd;
    var verdict := Judge(u, frames[0], p);
    if verdict.Final? {
      FinalSignals(u, c, frames[0], p);
      FinalIsFinished(u, frames[0], p);
    } else {
      EndIsSignalled(u, c, frames[1..], verdict.progress);
      var rest, r := Read(u, frames[1..], verdict.progress), Read(u, frames, p);
      assert r.emitted == [frames[0]] + rest.emitted && r.end == rest.end;
      if verdict.progress.finished && !p.finished {
        FinishSignals(u, c, frames[0], p);
        assert Signals(c, r.emitted[0]);
      }
      if k :| 0 <= k < |rest.emitted| && Signals(c, rest.emitted[k]) {
        assert r.emitted[k + 1] == rest.emitted[k];
      }
    }
  }

  lemma FinalIsFinished(u: Upstream, f: string, p: Progress)
    requires Judge(u, f, p).Final?
    ensures p.started && p.finished
  {
  }

  // ----- From the bytes read to the bytes received -----

  function ReadError(end: End): Option<string> {
    match end
    case Terminal(_) => None
    case Rejected(code) => Some(code)
    case OverLimit(code) => Some(code)
  }

  function TerminalPiece(end: End): D.Piece {
    D.Piece(if end.Terminal? then end.frame else "")
  }

  function Session(r: Reading, env: D.Env, auditOk: bool): seq<D.Action> {
    D.Session(D.Pieces(r.emitted), ReadError(r.end), TerminalPiece(r.end), env, auditOk)
  }

  lemma EmittedAreFramed(s: string, emitted: seq<string>)
    requires emitted <= R.Frames(s, 0)
    ensures D.WellFramed(D.Pieces(emitted))
    ensures emitted != R.Frames(s, 0) ==> D.PiecesTerminated(D.Pieces(emitted))
  {
    var frames := R.Frames(s, 0);
    D.ReaderFramesAreFramed(s);
    hide R.Frames, Terminated;
    if emitted != frames {
      forall k | 0 <= k < |emitted| ensures Terminated(emitted[k]) {
        assert D.Pieces(frames)[..|frames| - 1][k] == D.Piece(frames[k]) && emitted[k] == frames[k];
      }
    }
  }

  // Unless the input ends in a bare carriage return, every frame is whole.
  lemma {:induction false} FramesEndInNewline(s: string, i: nat)
    requires i <= |s| && (s != "" ==> s[|s| - 1] != '\r')
    ensures forall k :: 0 <= k < |R.Frames(s, i)| ==>
              var f := R.Frames(s, i)[k]; f != "" && f[|f| - 1] == '\n'
    decreases |s| - i
  {
    var end := R.FrameEnd(s, i);
    if end.Some? {
      FrameEndsInNewline(s, i);
      FramesEndInNewline(s, end.value);
    }
  }

  lemma {:induction false} FrameEndsInNewline(s: string, i: nat)
    requires i <= |s| && R.FrameEnd(s, i).Some? && (s != "" ==> s[|s| - 1] != '\r')
    ensures s[R.FrameEnd(s, i).value - 1] == '\n'
    decreases |s| - i
  {
    if i < |s| {
      var line := R.LineEnd(s, i);
      if !R.Blank(s[i..line]) {
        FrameEndsInNewline(s, line);
      } else {
        assert s[i..line][line - i - 1] == s[line - 1];
      }
    }
  }

  lemma AllFramesAreWhole(s: string, emitted: seq<string>)
    requires emitted <= R.Frames(s, 0) && (s != "" ==> s[|s| - 1] != '\r')
    ensures D.PiecesTerminated(D.Pieces(emitted))
  {
    FramesEndInNewline(s, 0);
    R.EachFrameIsOne(s, 0);
    hide R.Frames, Terminated;
    forall k | 0 <= k < |emitted| ensures Terminated(emitted[k]) {
      FrameIsTerminated(R.Frames(s, 0)[k]);
    }
  }

  // However much of an input was read, and however that ended: nothing received
  // before the audit row was committed tells the client that its turn is over.
  // Nor does the error after a failed commit, after whole frames.
  lemma InputIsHeldBeforeAudit(s: string, r: Reading, env: D.Env, auditOk: bool, k: nat, n: nat)
    requires r.emitted <= R.Frames(s, 0) && k <= |Session(r, env, auditOk)|
    requires D.AuditCommitted !in Session(r, env, auditOk)[..k]
    requires n <= |D.Received(Session(r, env, auditOk)[..k])|
    requires D.SentError(env.errorReply) in Session(r, env, auditOk)[..k] ==>
               !Signals(env.client, env.errorReply) && (s != "" ==> s[|s| - 1] != '\r')
    ensures !Told(env.client, D.Received(Session(r, env, auditOk)[..k])[..n])
  {
    var pieces := D.Pieces(r.emitted);
    EmittedAreFramed(s, r.emitted);
    hide R.Frames, Signals, Told, D.WellFramed, D.PiecesTerminated, D.Received, D.PassAll;
    if k > |D.PassAll(pieces, env).0.sunk| + 1 {
      ReplyIsLast(pieces, ReadError(r.end), TerminalPiece(r.end), env, auditOk, k);
      AllFramesAreWhole(s, r.emitted);
    }
    D.CompletionAfterAudit(pieces, ReadError(r.end), TerminalPiece(r.end), env, auditOk, k, n);
  }

  lemma ReplyIsLast(pieces: seq<D.Piece>, readError: Option<string>, terminal: D.Piece, env: D.Env, auditOk: bool, k: nat)
    requires k <= |D.Session(pieces, readError, terminal, env, auditOk)|
    requires D.AuditCommitted !in D.Session(pieces, readError, terminal, env, auditOk)[..k]
    requires k > |D.PassAll(pieces, env).0.sunk| + 1
    ensures D.SentError(env.errorReply) in D.Session(pieces, readError, terminal, env, auditOk)[..k]
  {
    hide D.PassAll;
    var log := D.Session(pieces, readError, terminal, env, auditOk);
    var m := |D.PassAll(pieces, env).0.sunk|;
    assert |log| == m + 2 && k == m + 2;
    assert log[..k][m] == if auditOk then D.AuditCommitted else D.AuditFailed;
    assert log[..k][m + 1] == D.SentError(env.errorReply);
  }

  lemma {:induction false} BytesOfFrames(frames: seq<string>)
    ensures D.BytesOf(D.Pieces(frames)) == Concat(frames)
  {
    if frames != [] {
      var n := |frames| - 1;
      BytesOfFrames(frames[..n]);
      assert D.Pieces(frames)[..n] == D.Pieces(frames[..n]);
    }
  }

  lemma {:induction false} FlattenIsConcat(frames: seq<string>)
    ensures R.Flatten(frames) == Concat(frames)
  {
    if frames != [] {
      FlattenIsConcat(frames[1..]);
      ConcatFront(frames[0], frames[1..]);
      assert frames == [frames[0]] + frames[1..];
    }
  }

  lemma {:induction false} ConcatFront(frame: string, rest: seq<string>)
    ensures Concat([frame] + rest) == frame + Concat(rest)
  {
    var all := [frame] + rest;
    if rest == [] {
      assert all[..0] == [] && Concat(all) == "" + frame == frame + "";
    } else {
      assert all[..|all| - 1] == [frame] + rest[..|rest| - 1];
      ConcatFront(frame, rest[..|rest| - 1]);
    }
  }

  lemma PrefixOfSum(a: string, b: string, n: nat)
    requires n <= |a|
    ensures (a + b)[..n] == a[..n]
  {
  }

  // The frames in front of a frame, and the frame, are a piece of the input.
  lemma FramesAreInput(s: string, frames: seq<string>)
    requires frames <= R.Frames(s, 0)
    ensures |Concat(frames)| <= |s| && Concat(frames) == s[..|Concat(frames)|]
  {
    var all := R.Frames(s, 0);
    R.FramesPartitionInput(s, 0);
    FlattenIsConcat(all);
    D.ConcatPrefix(all, |frames|);
    hide Concat, R.Frames, R.Tail, R.Flatten;
    assert all[..|frames|] == frames;
    assert s[0..] == s;
    PrefixOfSum(Concat(all), R.Tail(s, 0), |Concat(frames)|);
  }

  lemma {:induction false} FirstSignal(frames: seq<string>, c: Client, k: nat) returns (j: nat)
    requires k < |frames| && Signals(c, frames[k])
    ensures j <= k && Signals(c, frames[j]) && D.Silent(D.Pieces(frames)[..j], c)
  {
    hide Signals;
    j := k;
    if !D.Silent(D.Pieces(frames)[..k], c) {
      var i :| 0 <= i < k && Signals(c, frames[i]);
      j := FirstSignal(frames, c, i);
    }
  }

  // A stream that was read to its end and passed the gate: the first frame that
  // signals comes before the final one; the client had all frames in front of it
  // live, and after the commit it has the input up to the end of the final frame,
  // byte for byte, and has been told.
  lemma InputIsDelivered(u: Upstream, s: string, env: D.Env) returns (j: nat)
    requires ReadsAlike(u, env.client)
    requires var r := Read(u, R.Frames(s, 0), START);
             r.end.Terminal? && D.Attempt(D.Pieces(r.emitted), ReadError(r.end), TerminalPiece(r.end), env).1.Ok?
    ensures var r := Read(u, R.Frames(s, 0), START);
            var received := D.Received(Session(r, env, true));
            && j < |r.emitted| && Signals(env.client, r.emitted[j])
            && (forall k :: 0 <= k < j ==> !Signals(env.client, r.emitted[k]))
            && Concat(D.PassAll(D.Pieces(r.emitted), env).0.sunk) == Concat(r.emitted[..j])
            && received == Concat(r.emitted + [r.end.frame])
            && |received| <= |s| && received == s[..|received|] && Signals(env.client, received)
  {
    var frames := R.Frames(s, 0);
    ReadIsPrefix(u, frames, START);
    R.EachFrameIsOne(s, 0);
    EndIsSignalled(u, env.client, frames, START);
    hide *;
    var r := Read(u, frames, START);
    var k :| 0 <= k < |r.emitted| && Signals(env.client, r.emitted[k]);
    AttemptPasses(D.Pieces(r.emitted), ReadError(r.end), TerminalPiece(r.end), env);
    j := LiveToFirstSignal(r.emitted, env, k);
    InputIsReceived(s, r, env);
  }

  lemma AttemptPasses(pieces: seq<D.Piece>, readError: Option<string>, terminal: D.Piece, env: D.Env)
    requires D.Attempt(pieces, readError, terminal, env).1.Ok?
    ensures D.PassAll(pieces, env).1.None?
  {
    hide D.PassAll;
  }

  lemma LiveToFirstSignal(emitted: seq<string>, env: D.Env, k: nat) returns (j: nat)
    requires k < |emitted| && Signals(env.client, emitted[k]) && D.PassAll(D.Pieces(emitted), env).1.None?
    ensures j <= k && Signals(env.client, emitted[j]) && forall i :: 0 <= i < j ==> !Signals(env.client, emitted[i])
    ensures Concat(D.PassAll(D.Pieces(emitted), env).0.sunk) == Concat(emitted[..j])
  {
    j := FirstSignal(emitted, env.client, k);
    var pieces := D.Pieces(emitted);
    SilentFrames(emitted, j, env.client);
    assert pieces[j] == D.Piece(emitted[j]) && pieces[..j] == D.Pieces(emitted[..j]);
    hide Signals, D.PassAll, D.BytesOf, D.Silent, D.Pieces, Concat;
    D.HeldFromFirstSignal(pieces, env, j);
    BytesOfFrames(emitted[..j]);
  }

  lemma InputIsReceived(s: string, r: Reading, env: D.Env)
    requires r.end.Terminal? && r.emitted + [r.end.frame] <= R.Frames(s, 0) && Signals(env.client, r.end.frame)
    requires D.Attempt(D.Pieces(r.emitted), ReadError(r.end), TerminalPiece(r.end), env).1.Ok?
    ensures var received := D.Received(Session(r, env, true));
            && received == Concat(r.emitted + [r.end.frame])
            && |received| <= |s| && received == s[..|received|] && Signals(env.client, received)
  {
    hide R.Frames, Signals, D.Attempt, D.Session, D.Received, D.PiecesTerminated, D.BytesOf, D.Pieces, Concat;
    EmittedAreFramed(s, r.emitted);
    D.CompletionIsDelivered(D.Pieces(r.emitted), TerminalPiece(r.end), env);
    BytesOfFrames(r.emitted);
    D.ConcatPush(r.emitted, r.end.frame);
    FramesAreInput(s, r.emitted + [r.end.frame]);
  }

  lemma SilentFrames(frames: seq<string>, j: nat, c: Client)
    requires j <= |frames| && D.Silent(D.Pieces(frames)[..j], c)
    ensures forall k :: 0 <= k < j ==> !Signals(c, frames[k])
  {
    hide Signals;
    forall k | 0 <= k < j ensures !Signals(c, frames[k]) {
      assert D.Pieces(frames)[..j][k] == D.Piece(frames[k]);
    }
  }
}
