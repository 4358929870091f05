// The text a translator writes (internal/adapter/translate.go:1206-1216 and
// 1489-1494), and which of its frames the completion gate holds back. JSON
// encoders and the decoder of the check are parameters that agree.
module StreamRendering {
  import opened Basics
  import opened Text
  import opened StreamMessages
  import opened StreamSignals
  import D = StreamDelivery
  import Forward = OpenAIStreamTranslator
  import Back = AnthropicStreamTranslator
  import RoundTrip = StreamRoundTrip

  // ----- Decoded frames that complete a turn -----

  function Kind(e: Event): string {
    match e
    case MessageStart(_, _) => "message_start"
    case BlockStart(_, _) => "content_block_start"
    case BlockStop(_) => "content_block_stop"
    case MessageDelta(_, _) => "message_delta"
    case MessageStop => "message_stop"
    case Ping => "ping"
    case _ => "content_block_delta"
  }

  function StopReason(e: Event): string {
    if e.MessageDelta? then Coalesce(e.stopReason, "") else ""
  }

  predicate EventSignals(e: Event) {
    e.MessageStop? || (e.MessageDelta? && StopReason(e) != "")
  }

  predicate EventsSignal(events: seq<Event>) {
    exists k :: 0 <= k < |events| && EventSignals(events[k])
  }

  predicate ChunkSignals(chunk: Chunk) {
    exists k :: 0 <= k < |chunk.choices| && Coalesce(chunk.choices[k].finishReason, "") != ""
  }

  predicate ChunksSignal(chunks: seq<Chunk>) {
    exists k :: 0 <= k < |chunks| && ChunkSignals(chunks[k])
  }

  // ----- Text -----

  predicate OneLine(s: string) {
    && s != "" && !IsSpace(s[0]) && !IsSpace(s[|s| - 1])
    && forall i :: 0 <= i < |s| ==> s[i] != '\n' && s[i] != '\r'
  }

  function Finishes(choices: seq<Choice>): seq<string> {
    seq(|choices|, k requires 0 <= k < |choices| => Coalesce(choices[k].finishReason, ""))
  }

  ghost predicate EncodesEvents(c: Client, json: Event -> string) {
    c.protocol == Anthropic
    && forall e :: OneLine(json(e)) && c.decode(json(e)).Some?
                   && c.decode(json(e)).value.kind == Kind(e) && c.decode(json(e)).value.stopReason == StopReason(e)
  }

  ghost predicate EncodesChunks(c: Client, json: Chunk -> string) {
    c.protocol == OpenAI
    && forall x :: OneLine(json(x)) && json(x) != "[DONE]" && c.decode(json(x)).Some?
                   && c.decode(json(x)).value.finishReasons == Finishes(x.choices)
  }

  function DataText(data: string): string {
    "data: " + data + "\n\n"
  }

  function EventText(kind: string, data: string): string {
    "event: " + kind + "\n" + DataText(data)
  }

  function EventTexts(events: seq<Event>, json: Event -> string): seq<string> {
    seq(|events|, k requires 0 <= k < |events| => EventText(Kind(events[k]), json(events[k])))
  }

  function ChunkTexts(chunks: seq<Chunk>, json: Chunk -> string): seq<string> {
    seq(|chunks|, k requires 0 <= k < |chunks| => DataText(json(chunks[k])))
  }

  const DONE := "data: [DONE]\n\n"

  // ----- One frame of text -----

  lemma {:induction false} NoReturnToNormalize(s: string)
    requires forall i :: 0 <= i < |s| ==> s[i] != '\r'
    ensures Normalize(s) == s
  {
    if |s| >= 2 {
      NoReturnToNormalize(s[1..]);
    }
  }

  lemma {:induction false} GapAtEnd(f: string)
    requires f != "" && f[|f| - 1] != '\n' && forall i :: 0 <= i < |f| - 1 ==> f[i] != '\n' || f[i + 1] != '\n'
    ensures Gap(f + "\n\n") == Some(|f|)
  {
    var t := f + "\n\n";
    if |f| == 1 {
      assert t[1..] == "\n\n";
    } else {
      GapAtEnd(f[1..]);
      assert t[1..] == f[1..] + "\n\n";
    }
  }

  lemma WholeFrame(c: Client, f: string)
    requires f != "" && f[|f| - 1] != '\n' && forall i :: 0 <= i < |f| - 1 ==> f[i] != '\n' || f[i + 1] != '\n'
    requires forall i :: 0 <= i < |f| ==> f[i] != '\r'
    ensures Terminated(f + "\n\n") && Signals(c, f + "\n\n") == FrameSignals(c, f)
  {
    var t := f + "\n\n";
    NoReturnToNormalize(t);
    GapAtEnd(f);
    assert t[..|f|] == f && t[|f| + 2..] == "";
    NothingSignals(c);
  }

  lemma {:induction false} OneLineIsLines(s: string)
    requires forall i :: 0 <= i < |s| ==> s[i] != '\n'
    ensures LineBreak(s) == |s| && Lines(s) == [s]
  {
    if s != "" {
      OneLineIsLines(s[1..]);
    }
  }

  lemma DataLine(data: string)
    requires OneLine(data)
    ensures Data("data: " + data) == data
  {
    var line := "data: " + data;
    OneLineIsLines(line);
    TrimKeeps(data);
    assert WithoutReturn(line) == line;
    assert line[..5] == "data:" && line[5..] == " " + data;
    var lines, nothing: seq<string> := [line], [];
    assert lines[1..] == nothing;
    assert DataOf([line]) == [data] + DataOf(nothing);
  }

  lemma EventLine(kind: string, data: string)
    requires OneLine(data) && OneLine(kind)
    ensures Data("event: " + kind + "\n" + ("data: " + data)) == data
  {
    var head, line := "event: " + kind, "data: " + data;
    DataLine(data);
    LinesOf(head, line);
    EventIsNoData(kind);
    hide Lines, DataOf, IsData, WithoutReturn, OneLine;
    DataOfFirst(head, Lines(line));
    assert [] + DataOf(Lines(line)) == DataOf(Lines(line));
  }

  lemma EventIsNoData(kind: string)
    requires OneLine(kind)
    ensures !IsData("event: " + kind) && forall i :: 0 <= i < |"event: " + kind| ==> ("event: " + kind)[i] != '\n'
  {
    assert WithoutReturn("event: " + kind)[0] == 'e';
  }

  lemma DataTextSignal(c: Client, data: string)
    requires OneLine(data)
    ensures Terminated(DataText(data)) && Signals(c, DataText(data)) == DataSignals(c, data)
  {
    hide Signals, Terminated, FrameSignals;
    var f := "data: " + data;
    DataLine(data);
    hide Data;
    assert forall i :: 0 <= i < 6 ==> f[i] == "data: "[i] && f[i] != '\n' && f[i] != '\r';
    assert forall i :: 6 <= i < |f| ==> f[i] == data[i - 6];
    WholeFrame(c, f);
    FrameData(c, f);
    assert DataText(data) == f + "\n\n";
  }

  lemma FrameData(c: Client, f: string)
    ensures FrameSignals(c, f) == DataSignals(c, Data(f))
  {
  }

  lemma EventTextSignal(c: Client, kind: string, data: string)
    requires OneLine(data) && OneLine(kind)
    ensures Terminated(EventText(kind, data)) && Signals(c, EventText(kind, data)) == DataSignals(c, data)
  {
    hide Signals, Terminated, FrameSignals;
    var head, line := "event: " + kind, "data: " + data;
    var f := head + "\n" + line;
    assert forall i :: 0 <= i < |head| ==> f[i] == head[i] && f[i] != '\n' && f[i] != '\r';
    assert forall i :: 0 <= i < |line| ==> line[i] != '\n' && line[i] != '\r';
    assert forall i :: |head| < i < |f| ==> f[i] == line[i - |head| - 1];
    EventLine(kind, data);
    WholeFrame(c, f);
    FrameData(c, f);
    assert EventText(kind, data) == f + "\n\n";
  }

  // ----- Rendered streams signal as their decoded frames do -----

  lemma KindIsOneLine(e: Event)
    ensures OneLine(Kind(e))
  {
  }

  lemma EventTextSignals(c: Client, json: Event -> string, e: Event)
    requires EncodesEvents(c, json)
    ensures Terminated(EventText(Kind(e), json(e))) && Signals(c, EventText(Kind(e), json(e))) == EventSignals(e)
  {
    hide Signals, Terminated, EventText;
    KindIsOneLine(e);
    EventTextSignal(c, Kind(e), json(e));
  }

  lemma RenderedEvents(c: Client, json: Event -> string, events: seq<Event>)
    requires EncodesEvents(c, json)
    ensures AllTerminated(EventTexts(events, json))
    ensures Signals(c, Concat(EventTexts(events, json))) <==> EventsSignal(events)
  {
    var texts := EventTexts(events, json);
    hide Signals, Terminated, EventText, EventSignals, EncodesEvents, Kind;
    forall k | 0 <= k < |events| ensures Terminated(texts[k]) && Signals(c, texts[k]) == EventSignals(events[k]) {
      EventTextSignals(c, json, events[k]);
    }
    SignalOfChunks(c, texts);
    if EventsSignal(events) {
      var k :| 0 <= k < |events| && EventSignals(events[k]);
      assert Signals(c, texts[k]);
    }
  }

  lemma ChunkTextSignals(c: Client, json: Chunk -> string, x: Chunk)
    requires EncodesChunks(c, json)
    ensures Terminated(DataText(json(x))) && Signals(c, DataText(json(x))) == ChunkSignals(x)
  {
    hide Signals, Terminated;
    DataTextSignal(c, json(x));
    var reasons := Finishes(x.choices);
    assert c.decode(json(x)).value.finishReasons == reasons;
    forall k | 0 <= k < |x.choices| ensures reasons[k] == Coalesce(x.choices[k].finishReason, "") {}
    if ChunkSignals(x) {
      var k :| 0 <= k < |x.choices| && Coalesce(x.choices[k].finishReason, "") != "";
      assert reasons[k] != "";
    }
  }

  lemma RenderedChunks(c: Client, json: Chunk -> string, chunks: seq<Chunk>)
    requires EncodesChunks(c, json)
    ensures AllTerminated(ChunkTexts(chunks, json))
    ensures Signals(c, Concat(ChunkTexts(chunks, json))) <==> ChunksSignal(chunks)
  {
    var texts := ChunkTexts(chunks, json);
    hide Signals, Terminated, DataText, ChunkSignals, EncodesChunks;
    forall k | 0 <= k < |chunks| ensures Terminated(texts[k]) && Signals(c, texts[k]) == ChunkSignals(chunks[k]) {
      ChunkTextSignals(c, json, chunks[k]);
    }
    SignalOfChunks(c, texts);
    if ChunksSignal(chunks) {
      var k :| 0 <= k < |chunks| && ChunkSignals(chunks[k]);
      assert Signals(c, texts[k]);
    }
  }

  lemma DoneSignals(c: Client)
    requires c.protocol == OpenAI
    ensures Terminated(DONE) && Signals(c, DONE)
  {
    DataTextSignal(c, "[DONE]");
    assert DONE == DataText("[DONE]");
  }

  // ----- Which frames of the translators signal -----

  // For an Anthropic client no translated frame signals, even one with a finish
  // reason: it becomes a stop reason only in the terminal, which always signals.
  lemma OnlyTerminalSignals(t: Forward.Translator, chunk: Chunk)
    ensures Forward.Frame(t, chunk).Ok? ==> !EventsSignal(Forward.Frame(t, chunk).value.1)
    ensures Forward.Terminal(t).Ok? ==> EventsSignal(Forward.Terminal(t).value)
  {
    if Forward.Frame(t, chunk).Ok? {
      RoundTrip.FedIsPlain(t.cursor, ChoicesFragments(chunk.choices));
    }
    if Forward.Terminal(t).Ok? {
      var events := Forward.Terminal(t).value;
      assert events[|events| - 1] == MessageStop;
    }
  }

  // For an OpenAI client the frame of a message delta signals, stop reason or
  // not, because every accepted one gets a finish reason; no other frame does.
  lemma OnlyMessageDeltaSignals(t: Back.Translator, e: Event)
    requires Back.Frame(t, e).Ok?
    ensures ChunksSignal(Back.Frame(t, e).value.1) <==> e.MessageDelta?
  {
    var out := Back.Frame(t, e).value.1;
    if e.MessageDelta? {
      assert out[0].choices[0].finishReason == Some(Back.TranslateStopReason(e.stopReason).value);
      assert ChunkSignals(out[0]);
    }
  }

  // ----- The translators behind the gate -----

  function OpenAIPieces(t: Forward.Translator, chunks: seq<Chunk>, json: Event -> string): seq<D.Piece>
    decreases |chunks|
  {
    if chunks == [] then []
    else
      var out := Forward.Frame(t, chunks[0]);
      if out.Err? then [D.Untranslatable(out.error)]
      else [D.Piece(Concat(EventTexts(out.value.1, json)))] + OpenAIPieces(out.value.0, chunks[1..], json)
  }

  function AnthropicPieces(t: Back.Translator, events: seq<Event>, json: Chunk -> string): seq<D.Piece>
    decreases |events|
  {
    if events == [] then []
    else
      var out := Back.Frame(t, events[0]);
      if out.Err? then [D.Untranslatable(out.error)]
      else [D.Piece(Concat(ChunkTexts(out.value.1, json)))] + AnthropicPieces(out.value.0, events[1..], json)
  }

  lemma {:induction false} OpenAIPiecesAreSilent(t: Forward.Translator, chunks: seq<Chunk>, c: Client, json: Event -> string)
    requires EncodesEvents(c, json)
    ensures D.PiecesTerminated(OpenAIPieces(t, chunks, json)) && D.Silent(OpenAIPieces(t, chunks, json), c)
    decreases |chunks|
  {
    hide Signals, Terminated, EncodesEvents, Forward.Frame;
    if chunks != [] && Forward.Frame(t, chunks[0]).Ok? {
      var out := Forward.Frame(t, chunks[0]).value;
      OnlyTerminalSignals(t, chunks[0]);
      RenderedEvents(c, json, out.1);
      ConcatIsTerminated(EventTexts(out.1, json));
      OpenAIPiecesAreSilent(out.0, chunks[1..], c, json);
    }
  }

  // Translated for an Anthropic client, a whole stream is sent live; the terminal
  // alone waits for the audit row.
  lemma AnthropicClientIsServedLive(model: string, chunks: seq<Chunk>, env: D.Env, json: Event -> string)
    requires EncodesEvents(env.client, json)
    ensures var pieces := OpenAIPieces(Forward.New(model), chunks, json);
            && D.PiecesTerminated(pieces) && D.PassAll(pieces, env).0.completion == ""
            && (D.PassAll(pieces, env).1.None? ==> Concat(D.PassAll(pieces, env).0.sunk) == D.BytesOf(pieces))
  {
    OpenAIPiecesAreSilent(Forward.New(model), chunks, env.client, json);
    D.LiveWhileSilent(OpenAIPieces(Forward.New(model), chunks, json), env);
  }

  ghost predicate SignalsAtDelta(pieces: seq<D.Piece>, events: seq<Event>, c: Client) {
    |pieces| <= |events|
    && forall k :: 0 <= k < |pieces| && pieces[k].Piece? ==> (Signals(c, pieces[k].bytes) <==> events[k].MessageDelta?)
  }

  lemma OneMorePiece(first: string, e: Event, pieces: seq<D.Piece>, events: seq<Event>, c: Client)
    requires SignalsAtDelta(pieces, events, c) && (Signals(c, first) <==> e.MessageDelta?)
    ensures SignalsAtDelta([D.Piece(first)] + pieces, [e] + events, c)
  {
    hide Signals;
  }

  lemma {:induction false} AnthropicPieceSignals(t: Back.Translator, events: seq<Event>, c: Client, json: Chunk -> string)
    requires EncodesChunks(c, json)
    ensures D.PiecesTerminated(AnthropicPieces(t, events, json)) && SignalsAtDelta(AnthropicPieces(t, events, json), events, c)
    decreases |events|
  {
    hide Signals, Terminated, EncodesChunks, Back.Frame;
    if events != [] && Back.Frame(t, events[0]).Ok? {
      var out := Back.Frame(t, events[0]).value;
      OnlyMessageDeltaSignals(t, events[0]);
      RenderedChunks(c, json, out.1);
      ConcatIsTerminated(ChunkTexts(out.1, json));
      AnthropicPieceSignals(out.0, events[1..], c, json);
      hide SignalsAtDelta, ChunkTexts, Concat, ChunksSignal;
      OneMorePiece(Concat(ChunkTexts(out.1, json)), events[0], AnthropicPieces(out.0, events[1..], json), events[1..], c);
      assert events == [events[0]] + events[1..];
    }
  }

  // Translated for an OpenAI client, a stream is live up to its first message
  // delta and held from there.
  lemma OpenAIClientIsHeldFromStop(model: string, events: seq<Event>, env: D.Env, json: Chunk -> string, j: nat)
    requires EncodesChunks(env.client, json) && j < |events| && events[j].MessageDelta?
    requires forall k :: 0 <= k < j ==> !events[k].MessageDelta?
    requires var pieces := AnthropicPieces(Back.New(model), events, json);
             D.PassAll(pieces, env).1.None? && j < |pieces| && pieces[j].Piece?
    ensures var pieces := AnthropicPieces(Back.New(model), events, json);
            && D.PiecesTerminated(pieces) && D.PassAll(pieces, env).0.completion != ""
            && Concat(D.PassAll(pieces, env).0.sunk) == D.BytesOf(pieces[..j])
  {
    hide Signals, Terminated, D.PassAll, D.BytesOf, AnthropicPieces;
    var pieces := AnthropicPieces(Back.New(model), events, json);
    AnthropicPieceSignals(Back.New(model), events, env.client, json);
    assert forall k :: 0 <= k < j ==> pieces[..j][k] == pieces[k];
    D.HeldFromFirstSignal(pieces, env, j);
  }
}
