// How a stream may end (internal/adapter/client.go:261-284 and 655-722): only a
// stream that was read to its end, translated and written without an error, and
// whose audit row was committed, is ever told to be finished.
module StreamOutcome {
  import opened Basics
  import opened StreamSignals
  import opened StreamDelivery
  import P = StreamPassThrough
  import U = StreamUpstream

  // ----- Errors of the gate -----

  // The first piece that stops the gate, and why, told from the pieces before it.
  ghost predicate Stops(pieces: seq<Piece>, k: nat, code: string, env: Env)
    requires k < |pieces|
  {
    var g := PassAll(pieces[..k], env).0;
    if pieces[k].Untranslatable? then code == pieces[k].code
    else
      && pieces[k].bytes != ""
      && if g.completion != "" || Signals(env.client, pieces[k].bytes)
         then code == TOO_LARGE && |g.completion| + |pieces[k].bytes| > env.limit
         else code == WRITE_ERROR && !env.sinkOk(|g.sunk|)
  }

  lemma {:induction false} GateErrorHasCause(pieces: seq<Piece>, env: Env) returns (k: nat)
    requires PassAll(pieces, env).1.Some?
    ensures k < |pieces| && PassAll(pieces[..k], env).1.None? && Stops(pieces, k, PassAll(pieces, env).1.value, env)
  {
    hide Signals;
    var n := |pieces| - 1;
    if PassAll(pieces[..n], env).1.Some? {
      k := GateErrorHasCause(pieces[..n], env);
      assert pieces[..n][..k] == pieces[..k] && pieces[..n][k] == pieces[k];
      PrefixStops(pieces, n, k, PassAll(pieces, env).1.value, env);
    } else {
      k := n;
    }
  }

  lemma PrefixStops(pieces: seq<Piece>, n: nat, k: nat, code: string, env: Env)
    requires k < n <= |pieces| && Stops(pieces[..n], k, code, env)
    ensures Stops(pieces, k, code, env)
  {
    hide Signals, PassAll;
    assert pieces[..n][..k] == pieces[..k];
  }

  // Without an error every piece was translated, every write went through and
  // what is held is within the limit.
  lemma {:induction false} GatePassedAll(pieces: seq<Piece>, env: Env)
    requires PassAll(pieces, env).1.None?
    ensures forall k :: 0 <= k < |pieces| ==> pieces[k].Piece?
    ensures forall k :: 0 <= k < |PassAll(pieces, env).0.sunk| ==> env.sinkOk(k)
    ensures PassAll(pieces, env).0.completion == "" || |PassAll(pieces, env).0.completion| <= env.limit
  {
    hide Signals;
    if pieces != [] {
      var n := |pieces| - 1;
      GatePassedAll(pieces[..n], env);
      assert forall k :: 0 <= k < n ==> pieces[..n][k] == pieces[k];
    }
  }

  // ----- The end of an attempt -----

  // Bytes are returned exactly when nothing went wrong anywhere.
  lemma AttemptSucceedsIff(pieces: seq<Piece>, readError: Option<string>, terminal: Piece, env: Env)
    ensures var attempt := Attempt(pieces, readError, terminal, env);
            var held := |PassAll(pieces, env).0.completion|;
            && (attempt.1.Ok? <==>
                  PassAll(pieces, env).1.None? && readError.None? && terminal.Piece? && held + |terminal.bytes| <= env.limit)
            && (attempt.1.Err? ==>
                  || PassAll(pieces, env).1 == Some(attempt.1.error)
                  || readError == Some(attempt.1.error)
                  || (terminal.Untranslatable? && attempt.1.error == terminal.code)
                  || (attempt.1.error == TOO_LARGE && terminal.Piece? && held + |terminal.bytes| > env.limit))
  {
    hide PassAll;
  }

  // Held bytes are sent exactly when the attempt succeeded and the audit row was
  // committed; everything else ends in the error reply.
  lemma SentOnlyWhenFinished(pieces: seq<Piece>, readError: Option<string>, terminal: Piece, env: Env, auditOk: bool)
    ensures var log := Session(pieces, readError, terminal, env, auditOk);
            && ((exists data :: Sent(data) in log) <==>
                  auditOk && PassAll(pieces, env).1.None? && readError.None? && terminal.Piece?
                  && |PassAll(pieces, env).0.completion| + |terminal.bytes| <= env.limit)
            && (SentError(env.errorReply) in log <==> !exists data :: Sent(data) in log)
            && (AuditCommitted in log <==> auditOk)
  {
    AttemptSucceedsIff(pieces, readError, terminal, env);
    hide Attempt, PassAll;
    var log := Session(pieces, readError, terminal, env, auditOk);
    var attempt := Attempt(pieces, readError, terminal, env);
    var n := |attempt.0.sunk|;
    assert log[n] == if auditOk then AuditCommitted else AuditFailed;
    if auditOk && attempt.1.Ok? {
      assert log[n + 1] == Sent(attempt.1.value);
    } else {
      assert log[n + 1] == SentError(env.errorReply);
    }
    assert forall k :: 0 <= k < n ==> log[k].Sunk?;
  }

  // The first n bytes received complete the turn.
  ghost predicate ToldBy(c: Client, log: seq<Action>, n: nat) {
    n <= |Received(log)| && Told(c, Received(log)[..n])
  }

  // Whatever a client received of a stream that failed anywhere, or whose audit
  // row was not committed, does not tell it that its turn is over.
  lemma ToldOnlyWhenFinished(pieces: seq<Piece>, readError: Option<string>, terminal: Piece, env: Env, auditOk: bool, n: nat)
    requires PiecesTerminated(pieces) && !Signals(env.client, env.errorReply)
    requires ToldBy(env.client, Session(pieces, readError, terminal, env, auditOk), n)
    ensures auditOk && Attempt(pieces, readError, terminal, env).1.Ok?
    ensures readError.None? && terminal.Piece? && forall k :: 0 <= k < |pieces| ==> pieces[k].Piece?
  {
    AttemptSucceedsIff(pieces, readError, terminal, env);
    var log := Session(pieces, readError, terminal, env, auditOk);
    var attempt := Attempt(pieces, readError, terminal, env);
    var sunk := PassAll(pieces, env).0.sunk;
    assert attempt.0.sunk == sunk;
    if auditOk && attempt.1.Ok? {
      GatePassedAll(pieces, env);
    } else {
      hide PassAll, Signals, Told, Attempt;
      ReceivedError(sunk, if auditOk then AuditCommitted else AuditFailed, env.errorReply);
      FailedTellsNothing(pieces, env, n);
    }
  }

  lemma ReceivedError(sunk: seq<string>, audit: Action, reply: string)
    requires audit == AuditCommitted || audit == AuditFailed
    ensures Received(SunkActions(sunk) + [audit] + [SentError(reply)]) == Concat(sunk) + reply
  {
    ReceivedSunk(sunk);
    hide SunkActions, Concat;
    var log := SunkActions(sunk) + [audit] + [SentError(reply)];
    var n := |SunkActions(sunk)|;
    assert log[..n + 1] == SunkActions(sunk) + [audit];
    assert log[..n + 1][..n] == SunkActions(sunk) && log[..n + 1][n] == audit;
    assert Received(log[..n + 1]) == Concat(sunk) + "";
  }

  // Of an untranslated stream: a client that was told had its upstream read to
  // the final frame.
  lemma ToldOnlyWhenRead(s: string, r: U.Reading, env: Env, auditOk: bool, n: nat)
    requires r.emitted <= P.R.Frames(s, 0) && (s != "" ==> s[|s| - 1] != '\r') && !Signals(env.client, env.errorReply)
    requires ToldBy(env.client, P.Session(r, env, auditOk), n)
    ensures r.end.Terminal? && auditOk
  {
    P.AllFramesAreWhole(s, r.emitted);
    SessionOfReading(r, env, auditOk);
    hide *;
    ToldOnlyWhenFinished(Pieces(r.emitted), P.ReadError(r.end), P.TerminalPiece(r.end), env, auditOk, n);
  }

  lemma SessionOfReading(r: U.Reading, env: Env, auditOk: bool)
    ensures P.Session(r, env, auditOk) == Session(Pieces(r.emitted), P.ReadError(r.end), P.TerminalPiece(r.end), env, auditOk)
    ensures P.ReadError(r.end).None? <==> r.end.Terminal?
  {
    hide Session;
  }
}
