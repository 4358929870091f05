// internal/adapter/client.go: the frame closure of doAttempt holds completion
// signals back, callWithKeyCandidates commits the audit row, and only then does
// internal/gateway/gateway.go:726-736 send the held bytes.
module StreamDelivery {
  import opened Basics
  import opened StreamSignals
  import StreamReader

  // A frame after translation and response model renaming, or the error there.
  datatype Piece = Piece(bytes: string) | Untranslatable(code: string)

  // The client and its protocol, the stream limit, whether the k-th write to the
  // client succeeds, and the error event a failed stream ends with.
  datatype Env = Env(client: Client, limit: nat, sinkOk: nat -> bool, errorReply: string)

  // Frames passed to the sink, and bytes held back.
  datatype Gate = Gate(sunk: seq<string>, completion: string)

  const CLOSED := Gate([], "")

  const TOO_LARGE := "upstream_response_too_large"
  const WRITE_ERROR := "downstream_write_error"

  function BytesOf(pieces: seq<Piece>): string {
    if pieces == [] then ""
    else
      var last := pieces[|pieces| - 1];
      BytesOf(pieces[..|pieces| - 1]) + if last.Piece? then last.bytes else ""
  }

  // ----- One frame through the gate -----

  function Pass(g: Gate, piece: Piece, env: Env): (Gate, Option<string>) {
    if piece.Untranslatable? then (g, Some(piece.code))
    else if piece.bytes == "" then (g, None)
    else if g.completion != "" || Signals(env.client, piece.bytes) then
      if |g.completion| + |piece.bytes| > env.limit then (g, Some(TOO_LARGE))
      else (g.(completion := g.completion + piece.bytes), None)
    else (g.(sunk := g.sunk + [piece.bytes]), if env.sinkOk(|g.sunk|) then None else Some(WRITE_ERROR))
  }

  function PassAll(pieces: seq<Piece>, env: Env): (Gate, Option<string>) {
    if pieces == [] then (CLOSED, None)
    else
      var before := PassAll(pieces[..|pieces| - 1], env);
      if before.1.Some? then before else Pass(before.0, pieces[|pieces| - 1], env)
  }

  // doAttempt: the reader's frames, its own outcome, and the terminal.
  function Attempt(pieces: seq<Piece>, readError: Option<string>, terminal: Piece, env: Env): (Gate, Result<string, string>) {
    var passed := PassAll(pieces, env);
    if passed.1.Some? then (passed.0, Err(passed.1.value))
    else if readError.Some? then (passed.0, Err(readError.value))
    else if terminal.Untranslatable? then (passed.0, Err(terminal.code))
    else if |passed.0.completion| + |terminal.bytes| > env.limit then (passed.0, Err(TOO_LARGE))
    else (passed.0, Ok(passed.0.completion + terminal.bytes))
  }

  // ----- What the client and the ledger see, in order -----

  datatype Action = Sunk(frame: string) | AuditCommitted | AuditFailed | Sent(data: string) | SentError(reply: string)

  function SunkActions(frames: seq<string>): seq<Action> {
    seq(|frames|, k requires 0 <= k < |frames| => Sunk(frames[k]))
  }

  // The attempt, then the audit append, then the reply: a lost audit row
  // replaces the response by an error.
  function Session(pieces: seq<Piece>, readError: Option<string>, terminal: Piece, env: Env, auditOk: bool): seq<Action> {
    var attempt := Attempt(pieces, readError, terminal, env);
    SunkActions(attempt.0.sunk)
    + [if auditOk then AuditCommitted else AuditFailed]
    + [if auditOk && attempt.1.Ok? then Sent(attempt.1.value) else SentError(env.errorReply)]
  }

  // ----- Nothing is lost, nothing signals early -----

  ghost predicate Faithful(g: Gate, pieces: seq<Piece>, env: Env, failed: bool) {
    && (forall k :: 0 <= k < |g.sunk| ==> g.sunk[k] != "" && !Signals(env.client, g.sunk[k]))
    && Concat(g.sunk) + g.completion <= BytesOf(pieces)
    && (!failed ==> Concat(g.sunk) + g.completion == BytesOf(pieces))
    && |g.completion| <= if g.completion == "" then 0 else env.limit
  }

  lemma ConcatPush(frames: seq<string>, frame: string)
    ensures Concat(frames + [frame]) == Concat(frames) + frame
  {
    assert (frames + [frame])[..|frames|] == frames;
  }

  lemma BytesPush(pieces: seq<Piece>, piece: Piece)
    ensures BytesOf(pieces + [piece]) == BytesOf(pieces) + if piece.Piece? then piece.bytes else ""
  {
    assert (pieces + [piece])[..|pieces|] == pieces;
  }

  lemma SinkKeepsFaithful(g: Gate, pieces: seq<Piece>, piece: Piece, env: Env, failed: bool)
    requires Faithful(g, pieces, env, false) && g.completion == ""
    requires piece.Piece? && piece.bytes != "" && !Signals(env.client, piece.bytes)
    ensures Faithful(g.(sunk := g.sunk + [piece.bytes]), pieces + [piece], env, failed)
  {
    BytesPush(pieces, piece);
    ConcatPush(g.sunk, piece.bytes);
    hide Concat, BytesOf, Signals;
    assert Concat(g.sunk) + "" == Concat(g.sunk);
    assert (Concat(g.sunk) + piece.bytes) + "" == Concat(g.sunk) + piece.bytes;
  }

  lemma HoldKeepsFaithful(g: Gate, pieces: seq<Piece>, piece: Piece, env: Env)
    requires Faithful(g, pieces, env, false) && piece.Piece? && |g.completion| + |piece.bytes| <= env.limit && piece.bytes != ""
    ensures Faithful(g.(completion := g.completion + piece.bytes), pieces + [piece], env, false)
  {
    BytesPush(pieces, piece);
    hide Concat, BytesOf, Signals;
    assert Concat(g.sunk) + (g.completion + piece.bytes) == (Concat(g.sunk) + g.completion) + piece.bytes;
  }

  lemma StopKeepsFaithful(g: Gate, pieces: seq<Piece>, piece: Piece, env: Env, failed: bool)
    requires Faithful(g, pieces, env, false) && (failed || (piece.Piece? && piece.bytes == ""))
    ensures Faithful(g, pieces + [piece], env, failed)
  {
    BytesPush(pieces, piece);
    hide Concat, BytesOf, Signals;
    assert BytesOf(pieces) + "" == BytesOf(pieces);
  }

  lemma PassKeepsFaithful(g: Gate, pieces: seq<Piece>, piece: Piece, env: Env)
    requires Faithful(g, pieces, env, false)
    ensures Faithful(Pass(g, piece, env).0, pieces + [piece], env, Pass(g, piece, env).1.Some?)
  {
    hide Faithful, Signals;
    var next, error := Pass(g, piece, env).0, Pass(g, piece, env).1;
    if next == g {
      if error.Some? || piece.bytes == "" {
        StopKeepsFaithful(g, pieces, piece, env, error.Some?);
      } else {
        ChangesGate(g, piece, env);
      }
    } else if next.sunk == g.sunk {
      HoldKeepsFaithful(g, pieces, piece, env);
    } else {
      SinkKeepsFaithful(g, pieces, piece, env, error.Some?);
    }
  }

  lemma ChangesGate(g: Gate, piece: Piece, env: Env)
    requires piece.Piece? && piece.bytes != "" && Pass(g, piece, env).1.None?
    ensures Pass(g, piece, env).0 != g
  {
    hide Signals;
    assert |g.completion + piece.bytes| > |g.completion|;
    assert |g.sunk + [piece.bytes]| > |g.sunk|;
  }

  lemma {:induction false} PassAllIsFaithful(pieces: seq<Piece>, env: Env)
    ensures Faithful(PassAll(pieces, env).0, pieces, env, PassAll(pieces, env).1.Some?)
  {
    if pieces != [] {
      var n := |pieces| - 1;
      assert pieces == pieces[..n] + [pieces[n]];
      PassAllIsFaithful(pieces[..n], env);
      var before := PassAll(pieces[..n], env);
      if before.1.None? {
        PassKeepsFaithful(before.0, pieces[..n], pieces[n], env);
      } else {
        assert BytesOf(pieces[..n]) <= BytesOf(pieces);
      }
    }
  }

  // On success the sunk frames followed by the returned bytes are all frames
  // followed by the terminal; on failure the client has a prefix of them.
  lemma NothingLost(pieces: seq<Piece>, readError: Option<string>, terminal: Piece, env: Env)
    ensures var attempt := Attempt(pieces, readError, terminal, env);
            && (attempt.1.Ok? ==> terminal.Piece? && Concat(attempt.0.sunk) + attempt.1.value == BytesOf(pieces) + terminal.bytes)
            && (attempt.1.Ok? ==> |attempt.1.value| <= env.limit)
            && Concat(attempt.0.sunk) <= BytesOf(pieces)
  {
    PassAllIsFaithful(pieces, env);
    hide PassAll, Signals, Concat, BytesOf;
    var g := PassAll(pieces, env).0;
    if terminal.Piece? {
      assert Concat(g.sunk) + (g.completion + terminal.bytes) == (Concat(g.sunk) + g.completion) + terminal.bytes;
    }
  }

  // ----- No early completion -----

  // What the client has received.
  function Received(log: seq<Action>): string {
    if log == [] then ""
    else
      var last := log[|log| - 1];
      Received(log[..|log| - 1])
      + match last
        case Sunk(frame) => frame
        case Sent(data) => data
        case SentError(reply) => reply
        case _ => ""
  }

  ghost predicate PiecesTerminated(pieces: seq<Piece>) {
    forall k :: 0 <= k < |pieces| && pieces[k].Piece? ==> Terminated(pieces[k].bytes)
  }

  // Every piece but perhaps the last one consists of whole frames.
  ghost predicate WellFramed(pieces: seq<Piece>) {
    pieces != [] ==> PiecesTerminated(pieces[..|pieces| - 1])
  }

  lemma {:induction false} SunkIsTerminated(pieces: seq<Piece>, env: Env)
    requires PiecesTerminated(pieces)
    ensures AllTerminated(PassAll(pieces, env).0.sunk)
  {
    hide Terminated, Signals;
    if pieces != [] {
      var n := |pieces| - 1;
      assert forall k :: 0 <= k < n ==> pieces[..n][k] == pieces[k];
      SunkIsTerminated(pieces[..n], env);
    }
  }

  lemma SunkIsFramed(pieces: seq<Piece>, env: Env)
    requires WellFramed(pieces)
    ensures Framed(PassAll(pieces, env).0.sunk)
  {
    hide Terminated, Signals;
    if pieces != [] {
      var n := |pieces| - 1;
      SunkIsTerminated(pieces[..n], env);
      var before, after := PassAll(pieces[..n], env).0.sunk, PassAll(pieces, env).0.sunk;
      assert after == before || after[..|after| - 1] == before;
      assert forall k :: 0 <= k < |after| - 1 ==> after[k] == before[k];
    }
  }

  lemma {:induction false} ReceivedSunk(frames: seq<string>)
    ensures Received(SunkActions(frames)) == Concat(frames)
  {
    if frames != [] {
      var n := |frames| - 1;
      ReceivedSunk(frames[..n]);
      assert SunkActions(frames)[..n] == SunkActions(frames[..n]);
    }
  }

  lemma {:induction false} ConcatPrefix(frames: seq<string>, k: nat)
    requires k <= |frames|
    ensures |Concat(frames[..k])| <= |Concat(frames)| && Concat(frames)[..|Concat(frames[..k])|] == Concat(frames[..k])
    decreases |frames|
  {
    if k < |frames| {
      ConcatPrefix(frames[..|frames| - 1], k);
      assert frames[..|frames| - 1][..k] == frames[..k];
    } else {
      assert frames[..k] == frames;
    }
  }

  // Live bytes signal nothing, as a whole and in every prefix.
  lemma SunkTellsNothing(pieces: seq<Piece>, env: Env, n: nat)
    requires WellFramed(pieces) && n <= |Concat(PassAll(pieces, env).0.sunk)|
    ensures !Told(env.client, Concat(PassAll(pieces, env).0.sunk)[..n])
  {
    PassAllIsFaithful(pieces, env);
    SunkIsFramed(pieces, env);
    hide Signals, Told, Terminated;
    var sunk := PassAll(pieces, env).0.sunk;
    SignalOfChunks(env.client, sunk);
    ToldByPrefix(env.client, Concat(sunk), n);
  }

  lemma FailedTellsNothing(pieces: seq<Piece>, env: Env, n: nat)
    requires PiecesTerminated(pieces) && !Signals(env.client, env.errorReply)
    requires n <= |Concat(PassAll(pieces, env).0.sunk) + env.errorReply|
    ensures !Told(env.client, (Concat(PassAll(pieces, env).0.sunk) + env.errorReply)[..n])
  {
    PassAllIsFaithful(pieces, env);
    SunkIsTerminated(pieces, env);
    hide Signals, Told, Terminated;
    var sunk := PassAll(pieces, env).0.sunk;
    ConcatIsTerminated(sunk);
    assert sunk != [] ==> AllTerminated(sunk[..|sunk| - 1]);
    SignalOfChunks(env.client, sunk);
    SignalsConcat(env.client, Concat(sunk), env.errorReply);
    ToldByPrefix(env.client, Concat(sunk) + env.errorReply, n);
  }

  // The log until it shows a committed audit row.
  lemma BeforeAudit(pieces: seq<Piece>, readError: Option<string>, terminal: Piece, env: Env, auditOk: bool, k: nat)
    requires k <= |Session(pieces, readError, terminal, env, auditOk)|
    requires AuditCommitted !in Session(pieces, readError, terminal, env, auditOk)[..k]
    ensures var log := Session(pieces, readError, terminal, env, auditOk);
            var sunk := PassAll(pieces, env).0.sunk;
            if k <= |sunk| then Received(log[..k]) == Concat(sunk[..k])
            else if k == |sunk| + 1 then Received(log[..k]) == Concat(sunk)
            else !auditOk && k == |log| && Received(log[..k]) == Concat(sunk) + env.errorReply
  {
    hide PassAll;
    var log := Session(pieces, readError, terminal, env, auditOk);
    var sunk := PassAll(pieces, env).0.sunk;
    var n := |sunk|;
    assert Attempt(pieces, readError, terminal, env).0.sunk == sunk;
    if k <= n {
      assert log[..k] == SunkActions(sunk[..k]);
      ReceivedSunk(sunk[..k]);
    } else {
      assert log[..k][n] == if auditOk then AuditCommitted else AuditFailed;
      assert log[..n] == SunkActions(sunk);
      ReceivedSunk(sunk);
      assert log[..n + 1][..n] == log[..n] && log[..n + 1][n] == AuditFailed;
      assert Received(log[..n + 1]) == Concat(sunk) + "";
      if k == n + 2 {
        assert log[..k] == log && log[..k - 1] == log[..n + 1];
      }
    }
  }

  // Nothing a client received before the audit row was committed, nor any
  // prefix of it, tells the client that its turn is over; and if that commit
  // failed, neither does the error that follows.
  lemma CompletionAfterAudit(pieces: seq<Piece>, readError: Option<string>, terminal: Piece, env: Env, auditOk: bool, k: nat, n: nat)
    requires k <= |Session(pieces, readError, terminal, env, auditOk)|
    requires AuditCommitted !in Session(pieces, readError, terminal, env, auditOk)[..k]
    requires n <= |Received(Session(pieces, readError, terminal, env, auditOk)[..k])|
    requires if k <= |PassAll(pieces, env).0.sunk| + 1 then WellFramed(pieces)
             else PiecesTerminated(pieces) && !Signals(env.client, env.errorReply)
    ensures !Told(env.client, Received(Session(pieces, readError, terminal, env, auditOk)[..k])[..n])
  {
    BeforeAudit(pieces, readError, terminal, env, auditOk, k);
    hide PassAll, Session, Signals, Told;
    var sunk := PassAll(pieces, env).0.sunk;
    var received := Received(Session(pieces, readError, terminal, env, auditOk)[..k]);
    if k <= |sunk| + 1 {
      var m := if k <= |sunk| then k else |sunk|;
      ConcatPrefix(sunk, m);
      assert sunk[..|sunk|] == sunk;
      assert received == Concat(sunk[..m]);
      assert received[..n] == Concat(sunk)[..n];
      SunkTellsNothing(pieces, env, n);
    } else {
      FailedTellsNothing(pieces, env, n);
    }
  }

  lemma {:induction false} BytesAreTerminated(pieces: seq<Piece>)
    requires PiecesTerminated(pieces)
    ensures Terminated(BytesOf(pieces))
  {
    hide Terminated;
    EmptyIsTerminated();
    if pieces != [] {
      var n := |pieces| - 1;
      assert forall k :: 0 <= k < n ==> pieces[..n][k] == pieces[k];
      BytesAreTerminated(pieces[..n]);
      TerminatedPair(BytesOf(pieces[..n]), if pieces[n].Piece? then pieces[n].bytes else "");
    }
  }

  lemma ReceivedReply(sunk: seq<string>, data: string)
    ensures Received(SunkActions(sunk) + [AuditCommitted] + [Sent(data)]) == Concat(sunk) + data
  {
    ReceivedSunk(sunk);
    hide SunkActions, Concat;
    var log := SunkActions(sunk) + [AuditCommitted] + [Sent(data)];
    var n := |SunkActions(sunk)|;
    assert log[..n + 1] == SunkActions(sunk) + [AuditCommitted];
    assert log[..n + 1][..n] == SunkActions(sunk) && log[..n + 1][n] == AuditCommitted;
    assert Received(log[..n + 1]) == Concat(sunk) + "";
  }

  // After the commit the client has everything, the signal of the terminal included.
  lemma CompletionIsDelivered(pieces: seq<Piece>, terminal: Piece, env: Env)
    requires PiecesTerminated(pieces) && Attempt(pieces, None, terminal, env).1.Ok?
    requires terminal.Piece? && Signals(env.client, terminal.bytes)
    ensures var log := Session(pieces, None, terminal, env, true);
            Received(log) == BytesOf(pieces) + terminal.bytes && Signals(env.client, Received(log))
  {
    NothingLost(pieces, None, terminal, env);
    BytesAreTerminated(pieces);
    hide Attempt, Signals, Terminated, Received, BytesOf, PiecesTerminated;
    var attempt := Attempt(pieces, None, terminal, env);
    ReceivedReply(attempt.0.sunk, attempt.1.value);
    SignalsConcat(env.client, BytesOf(pieces), terminal.bytes);
  }

  // ----- Where holding begins -----

  predicate Silent(pieces: seq<Piece>, c: Client) {
    forall k :: 0 <= k < |pieces| && pieces[k].Piece? ==> !Signals(c, pieces[k].bytes)
  }

  lemma SilentPassIsLive(g: Gate, piece: Piece, env: Env)
    requires g.completion == "" && (piece.Piece? ==> !Signals(env.client, piece.bytes))
    ensures var (after, error) := Pass(g, piece, env);
            after.completion == ""
            && (error.None? ==> piece.Piece? && Concat(after.sunk) == Concat(g.sunk) + piece.bytes)
  {
    if piece.Piece? {
      ConcatPush(g.sunk, piece.bytes);
      if piece.bytes == "" { assert Concat(g.sunk) + "" == Concat(g.sunk); }
    }
    hide Concat, Signals;
  }

  // Until the first signal everything is sent live and nothing is held.
  lemma {:induction false} LiveWhileSilent(pieces: seq<Piece>, env: Env)
    requires Silent(pieces, env.client)
    ensures PassAll(pieces, env).0.completion == ""
    ensures PassAll(pieces, env).1.None? ==> Concat(PassAll(pieces, env).0.sunk) == BytesOf(pieces)
  {
    hide Signals, Pass, Concat;
    if pieces == [] {
      NothingSunk();
    } else {
      var n := |pieces| - 1;
      assert forall k :: 0 <= k < n ==> pieces[..n][k] == pieces[k];
      LiveWhileSilent(pieces[..n], env);
      SilentPassIsLive(PassAll(pieces[..n], env).0, pieces[n], env);
    }
  }

  lemma NothingSunk()
    ensures Concat([]) == ""
  {
  }

  // From the first signal on everything is held.
  lemma {:induction false} HeldFromFirstSignal(pieces: seq<Piece>, env: Env, j: nat)
    requires j < |pieces| && pieces[j].Piece? && Signals(env.client, pieces[j].bytes) && Silent(pieces[..j], env.client)
    requires PassAll(pieces, env).1.None?
    ensures Concat(PassAll(pieces, env).0.sunk) == BytesOf(pieces[..j])
    ensures PassAll(pieces, env).0.completion != ""
    decreases |pieces|
  {
    hide Signals;
    var n := |pieces| - 1;
    if j == n {
      LiveWhileSilent(pieces[..j], env);
      EmptyStreamIsSilent(env.client);
    } else {
      assert pieces[..n][..j] == pieces[..j] && pieces[..n][j] == pieces[j];
      HeldFromFirstSignal(pieces[..n], env, j);
    }
  }

  // ----- Frames that are passed through untranslated -----

  function Pieces(frames: seq<string>): seq<Piece> {
    seq(|frames|, k requires 0 <= k < |frames| => Piece(frames[k]))
  }

  lemma {:induction false} FramesEndLines(s: string, i: nat, k: nat)
    requires i <= |s| && k < |StreamReader.Frames(s, i)| - 1
    ensures var f := StreamReader.Frames(s, i)[k]; f != "" && f[|f| - 1] == '\n'
    decreases |s| - i
  {
    var end := StreamReader.FrameEnd(s, i).value;
    FrameEndsLine(s, i);
    if k > 0 {
      FramesEndLines(s, end, k - 1);
    } else {
      assert StreamReader.Frames(s, end) != [];
      assert end < |s|;
    }
  }

  lemma {:induction false} FrameEndsLine(s: string, i: nat)
    requires i <= |s|
    ensures var end := StreamReader.FrameEnd(s, i); end.Some? && end.value < |s| ==> s[end.value - 1] == '\n'
    decreases |s| - i
  {
    if i < |s| {
      var line := StreamReader.LineEnd(s, i);
      if !StreamReader.Blank(s[i..line]) { FrameEndsLine(s, line); }
    }
  }

  // The reader's frames are whole, all but perhaps the last of a cut stream.
  lemma ReaderFramesAreFramed(s: string)
    ensures WellFramed(Pieces(StreamReader.Frames(s, 0)))
  {
    var frames := StreamReader.Frames(s, 0);
    StreamReader.EachFrameIsOne(s, 0);
    hide StreamReader.FrameEnd, StreamReader.Frames, Terminated;
    forall k | 0 <= k < |frames| - 1 ensures Terminated(frames[k]) {
      FramesEndLines(s, 0, k);
      FrameIsTerminated(frames[k]);
    }
  }

  // ----- The objects -----

  class StreamCall {
    const env: Env
    var completion: string
    var delivered: bool
    var log: seq<Action>
    ghost var sunk: seq<string>

    ghost predicate Streaming()
      reads this
    {
      log == SunkActions(sunk) && delivered == (sunk != [])
    }

    constructor (env: Env)
      ensures Streaming() && this.env == env && completion == "" && sunk == []
    {
      this.env := env;
      completion, delivered, log, sunk := "", false, [], [];
      new;
      assert log == SunkActions(sunk);
    }

    // The closure given to the frame reader.
    method OnFrame(piece: Piece) returns (error: Option<string>)
      requires Streaming()
      modifies this
      ensures Streaming() && (Gate(sunk, completion), error) == Pass(old(Gate(sunk, completion)), piece, env)
    {
      if piece.Untranslatable? {
        return Some(piece.code);
      }
      var frame := piece.bytes;
      if |frame| == 0 {
        return None;
      }
      var signals := |completion| > 0;
      if !signals {
        signals := StreamSignalsCompletion(env.client, frame);
      }
      if signals {
        if |completion| + |frame| > env.limit {
          return Some(TOO_LARGE);
        }
        completion := completion + frame;
        return None;
      }
      delivered := true;
      var ok := env.sinkOk(|log|);
      log := log + [Sunk(frame)];
      sunk := sunk + [frame];
      assert log == SunkActions(sunk);
      error := if ok then None else Some(WRITE_ERROR);
    }

    method DoAttempt(pieces: seq<Piece>, readError: Option<string>, terminal: Piece) returns (r: Result<string, string>)
      requires Streaming() && sunk == [] && completion == ""
      modifies this
      ensures Streaming() && r == Attempt(pieces, readError, terminal, env).1 && sunk == Attempt(pieces, readError, terminal, env).0.sunk
    {
      assert pieces[..0] == [];
      for k := 0 to |pieces|
        invariant Streaming() && PassAll(pieces[..k], env) == (Gate(sunk, completion), None)
      {
        assert pieces[..k + 1][..k] == pieces[..k];
        var error := OnFrame(pieces[k]);
        if error.Some? {
          FirstErrorIsFinal(pieces, k + 1, env);
          return Err(error.value);
        }
      }
      assert pieces[..|pieces|] == pieces;
      if readError.Some? {
        return Err(readError.value);
      }
      if terminal.Untranslatable? {
        return Err(terminal.code);
      }
      if |completion| + |terminal.bytes| > env.limit {
        return Err(TOO_LARGE);
      }
      r := Ok(completion + terminal.bytes);
    }

    // The attempt, the deferred audit append and the gateway's reply.
    method Serve(pieces: seq<Piece>, readError: Option<string>, terminal: Piece, auditOk: bool)
      requires Streaming() && sunk == [] && completion == ""
      modifies this
      ensures log == Session(pieces, readError, terminal, env, auditOk)
    {
      var r := DoAttempt(pieces, readError, terminal);
      if auditOk {
        log := log + [AuditCommitted];
      } else {
        log := log + [AuditFailed];
        r := Err("audit_failed_do_not_retry_blindly");
      }
      if r.Ok? {
        log := log + [Sent(r.value)];
      } else {
        log := log + [SentError(env.errorReply)];
      }
    }
  }

  lemma {:induction false} FirstErrorIsFinal(pieces: seq<Piece>, k: nat, env: Env)
    requires k <= |pieces| && PassAll(pieces[..k], env).1.Some?
    ensures PassAll(pieces, env) == PassAll(pieces[..k], env)
    decreases |pieces|
  {
    if k < |pieces| {
      assert pieces[..|pieces| - 1][..k] == pieces[..k];
      FirstErrorIsFinal(pieces[..|pieces| - 1], k, env);
    } else {
      assert pieces[..k] == pieces;
    }
  }
}
