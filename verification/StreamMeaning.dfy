// What the translators do to the parts of a message, told from the chunks and
// events themselves (internal/adapter/translate.go:924-982 and 1080-1449).
module StreamMeaning {
  import opened Basics
  import opened StreamMessages
  import Forward = OpenAIStreamTranslator
  import Back = AnthropicStreamTranslator
  import RoundTrip = StreamRoundTrip

  // ----- The finish reason of chunks -----

  predicate Gives(c: Choice, reason: string) {
    c.index == 0 && c.finishReason == Some(reason) && reason != ""
  }

  ghost predicate SomeGives(cs: seq<Choice>) {
    exists i, reason :: 0 <= i < |cs| && Gives(cs[i], reason)
  }

  // The reason that counts is the last one that the first choice gives.
  ghost predicate LastGives(cs: seq<Choice>, i: nat, reason: string) {
    i < |cs| && Gives(cs[i], reason) && forall j, other :: i < j < |cs| ==> !Gives(cs[j], other)
  }

  lemma {:induction false} ChoicesFinishIsLast(cs: seq<Choice>) returns (i: nat)
    ensures ChoicesFinish(cs).Some? ==> LastGives(cs, i, ChoicesFinish(cs).value)
    ensures ChoicesFinish(cs).None? ==> !SomeGives(cs)
  {
    i := 0;
    if cs != [] {
      var n := |cs| - 1;
      var c := cs[n];
      if c.index == 0 && c.finishReason.Some? && c.finishReason.value != "" {
        i := n;
        assert Gives(c, c.finishReason.value);
      } else {
        i := ChoicesFinishIsLast(cs[..n]);
        assert forall j :: 0 <= j < n ==> cs[..n][j] == cs[j];
        assert forall reason :: !Gives(cs[n], reason);
        if SomeGives(cs) {
          var k, reason :| 0 <= k < |cs| && Gives(cs[k], reason);
          assert Gives(cs[..n][k], reason);
        }
      }
    }
  }

  lemma {:induction false} FinishIsLast(chunks: seq<Chunk>) returns (k: nat, i: nat)
    ensures ChunksFinish(chunks).Some? ==>
              k < |chunks| && LastGives(chunks[k].choices, i, ChunksFinish(chunks).value)
              && forall j :: k < j < |chunks| ==> !SomeGives(chunks[j].choices)
    ensures ChunksFinish(chunks).None? ==> forall j :: 0 <= j < |chunks| ==> !SomeGives(chunks[j].choices)
  {
    hide LastGives, SomeGives, ChoicesFinish;
    k, i := 0, 0;
    if chunks != [] {
      var n := |chunks| - 1;
      var last := ChoicesFinishIsLast(chunks[n].choices);
      if ChoicesFinish(chunks[n].choices).Some? {
        k, i := n, last;
      } else {
        k, i := FinishIsLast(chunks[..n]);
        assert forall j :: 0 <= j < n ==> chunks[..n][j] == chunks[j];
      }
    }
  }

  // ----- Stop reasons, to events -----

  // The one message delta is the second last event, and says in the words of the
  // other protocol why the first choice finished.
  lemma StopReasonOfEvents(model: string, chunks: seq<Chunk>)
    requires Forward.Translate(model, chunks).Ok?
    ensures var events := Forward.Translate(model, chunks).value;
            var n, finish := |events| - 2, ChunksFinish(chunks);
            && n >= 1 && events[n].MessageDelta? && events[n].stopReason.Some? && events[n + 1] == MessageStop
            && (forall k :: 0 <= k < |events| ==> (events[k].MessageDelta? <==> k == n) && (events[k].MessageStop? <==> k == n + 1))
            && (events[n].stopReason.value == "tool_use" <==> finish == Some("tool_calls"))
            && (events[n].stopReason.value == "max_tokens" <==> finish == Some("length"))
            && (events[n].stopReason.value == "end_turn" <==> finish == Some("stop"))
            && events[n].stopReason.value in {"tool_use", "max_tokens", "end_turn"}
            && events[n].stopSequence == None
  {
    Forward.TranslatedShape(model, chunks);
    Forward.AcceptedIff(model, chunks);
    RoundTrip.FeedAllArrival(ChunksFragments(chunks));
    hide Forward.Translate, Forward.FeedAll, ChunksFinish, ChunksFragments, Forward.Named, Forward.Reasons, RoundTrip.AllPlain;
    var events := Forward.Translate(model, chunks).value;
    var fed := Forward.FeedAll(Forward.START, ChunksFragments(chunks)).value;
    DeltaOfShape(events, fed.0, fed.1, Forward.TranslateStopReason(ChunksFinish(chunks)).value);
  }

  lemma DeltaOfShape(events: seq<Event>, s: Forward.Cursor, body: seq<Event>, stop: string)
    requires Forward.Shape(events, s, body, stop) && RoundTrip.AllPlain(body)
    ensures var n := |events| - 2;
            && n >= 1 && events[n] == MessageDelta(Some(stop), None) && events[n + 1] == MessageStop
            && forall k :: 0 <= k < |events| ==> (events[k].MessageDelta? <==> k == n) && (events[k].MessageStop? <==> k == n + 1)
  {
    var tail := Forward.StopActive(s);
    var n := |events| - 2;
    assert |events| == 1 + |body| + |tail| + 2;
    forall k | 0 <= k < |events| ensures events[k].MessageDelta? <==> k == n ensures events[k].MessageStop? <==> k == n + 1 {
      if k > 0 {
        assert events[k] == events[1..][k - 1];
        if k - 1 < |body| { assert RoundTrip.Plain(body[k - 1]); }
      }
    }
  }

  // ----- Stop reasons, to chunks -----

  predicate Represented(reason: Option<string>) {
    reason == None || reason.value in {"", "end_turn", "stop_sequence", "refusal", "max_tokens", "tool_use"}
  }

  ghost predicate IsLastDelta(events: seq<Event>, k: nat) {
    k < |events| && events[k].MessageDelta? && forall j :: k < j < |events| ==> !events[j].MessageDelta?
  }

  // The finish reason of the chunks is that of the last message delta.
  lemma {:induction false} FinishOfEvents(model: string, events: seq<Event>, k: nat)
    requires Back.Frames(Back.New(model), events).Ok? && IsLastDelta(events, k)
    ensures var finish, reason := ChunksFinish(Back.Frames(Back.New(model), events).value.1), events[k].stopReason;
            && Represented(reason)
            && (finish == Some("tool_calls") <==> reason == Some("tool_use"))
            && (finish == Some("length") <==> reason == Some("max_tokens"))
            && (finish == Some("stop") <==> reason == None || reason.value in {"", "end_turn", "stop_sequence", "refusal"})
    decreases |events|
  {
    hide ChunksFinish, Back.Frame, ChunksFragments;
    var n := |events| - 1;
    var before := Back.Frames(Back.New(model), events[..n]).value;
    Back.FrameContributes(before.0, before.1, events[n]);
    DeltaFrame(before.0, events[n]);
    if k < n {
      assert IsLastDelta(events[..n], k);
      FinishOfEvents(model, events[..n], k);
    }
  }

  lemma DeltaFrame(t: Back.Translator, e: Event)
    ensures e.MessageDelta? ==> (Back.Frame(t, e).Ok? <==> Represented(e.stopReason))
    ensures e.MessageDelta? && Represented(e.stopReason) ==> Back.TranslateStopReason(e.stopReason).Ok?
  {
  }

  // ----- Text and tools of chunks -----

  function ChoiceText(c: Choice): string {
    if c.index == 0 then Coalesce(c.content, "") + c.refusal else ""
  }

  function ChoicesText(cs: seq<Choice>): string {
    if cs == [] then "" else ChoicesText(cs[..|cs| - 1]) + ChoiceText(cs[|cs| - 1])
  }

  // What a client shows of a stream: content and refusals of the first choice.
  function ShownText(chunks: seq<Chunk>): string {
    if chunks == [] then "" else ShownText(chunks[..|chunks| - 1]) + ChoicesText(chunks[|chunks| - 1].choices)
  }

  function TextIn(fs: seq<Fragment>): string {
    if fs == [] then ""
    else
      var last := fs[|fs| - 1];
      TextIn(fs[..|fs| - 1]) + if last.Text? then last.text else ""
  }

  lemma {:induction false} TextInConcat(xs: seq<Fragment>, ys: seq<Fragment>)
    ensures TextIn(xs + ys) == TextIn(xs) + TextIn(ys)
  {
    if ys == [] {
      assert xs + ys == xs;
    } else {
      var n := |ys| - 1;
      assert (xs + ys)[..|xs| + n] == xs + ys[..n];
      TextInConcat(xs, ys[..n]);
    }
  }

  lemma {:induction false} CallsAreSilent(calls: seq<ToolFragment>)
    ensures TextIn(CallFragments(calls)) == ""
  {
    if calls != [] {
      var n := |calls| - 1;
      CallsAreSilent(calls[..n]);
      assert CallFragments(calls)[..n] == CallFragments(calls[..n]);
    }
  }

  lemma ChoiceTextIs(c: Choice)
    ensures TextIn(ChoiceFragments(c)) == ChoiceText(c)
  {
    CallsAreSilent(c.toolCalls);
    TextInConcat(TextFragments(c), CallFragments(c.toolCalls));
    var content := if c.content.Some? && c.content.value != "" then [Text(c.content.value)] else [];
    var refusal := if c.refusal != "" then [Text(c.refusal)] else [];
    TextInConcat(content, refusal);
    TextOfOne(content);
    TextOfOne(refusal);
  }

  lemma TextOfOne(fs: seq<Fragment>)
    requires |fs| <= 1
    ensures TextIn(fs) == if fs != [] && fs[0].Text? then fs[0].text else ""
  {
    if fs != [] { assert fs[..0] == []; }
  }

  lemma {:induction false} ChoicesTextIs(cs: seq<Choice>)
    ensures TextIn(ChoicesFragments(cs)) == ChoicesText(cs)
  {
    hide ChoiceFragments, ChoiceText;
    if cs != [] {
      var n := |cs| - 1;
      ChoicesTextIs(cs[..n]);
      ChoiceTextIs(cs[n]);
      TextInConcat(ChoicesFragments(cs[..n]), ChoiceFragments(cs[n]));
    }
  }

  lemma {:induction false} ShownTextIs(chunks: seq<Chunk>)
    ensures TextIn(ChunksFragments(chunks)) == ShownText(chunks)
  {
    hide ChoicesFragments, ChoicesText;
    if chunks != [] {
      var n := |chunks| - 1;
      ShownTextIs(chunks[..n]);
      ChoicesTextIs(chunks[n].choices);
      TextInConcat(ChunksFragments(chunks[..n]), ChoicesFragments(chunks[n].choices));
    }
  }

  lemma {:induction false} AssembledText(fs: seq<Fragment>)
    ensures Assemble(fs).text == TextIn(fs)
  {
    if fs != [] {
      AssembledText(fs[..|fs| - 1]);
      RoundTrip.AbsorbText(Assemble(fs[..|fs| - 1]), fs[|fs| - 1]);
    }
  }

  // All argument fragments of one call, in order.
  function ArgumentsIn(fs: seq<Fragment>, index: int): string {
    if fs == [] then ""
    else
      var last := fs[|fs| - 1];
      ArgumentsIn(fs[..|fs| - 1], index) + if last.Call? && last.call.index == index then last.call.arguments else ""
  }

  ghost predicate Slots(a: Assembled) {
    && (forall i :: i in a.slot ==> 0 <= a.slot[i] < |a.tools|)
    && (forall i, j :: i in a.slot && j in a.slot && a.slot[i] == a.slot[j] ==> i == j)
  }

  ghost predicate ToolOf(a: Assembled, fs: seq<Fragment>, k: nat)
    requires k < |fs| && fs[k].Call?
  {
    var c := fs[k].call;
    && c.index in a.slot && 0 <= a.slot[c.index] < |a.tools|
    && a.tools[a.slot[c.index]] == Tool(c.id, c.name, ArgumentsIn(fs, c.index))
  }

  // There is one tool for each call.
  lemma {:induction false} AssembledSlots(fs: seq<Fragment>)
    ensures Slots(Assemble(fs)) && Assemble(fs).slot.Keys == Forward.Indices(fs)
    ensures |Assemble(fs).tools| == |Forward.Indices(fs)|
    ensures forall index :: index !in Assemble(fs).slot ==> ArgumentsIn(fs, index) == ""
  {
    hide Forward.Indices;
    if fs == [] {
      NoCalls();
    } else {
      AssembledSlots(fs[..|fs| - 1]);
      Forward.IndicesGrow(fs);
    }
  }

  // It has the id and name of the call's first fragment, and all its arguments.
  lemma {:induction false} AssembledTools(fs: seq<Fragment>)
    ensures Slots(Assemble(fs)) && Assemble(fs).slot.Keys == Forward.Indices(fs)
    ensures |Assemble(fs).tools| == |Forward.Indices(fs)|
    ensures forall k :: 0 <= k < |fs| && Forward.FirstOfCall(fs, k) ==> ToolOf(Assemble(fs), fs, k)
  {
    AssembledSlots(fs);
    if fs != [] {
      var n := |fs| - 1;
      AssembledSlots(fs[..n]);
      AssembledTools(fs[..n]);
      Forward.FirstOfNewCall(fs);
      assert forall k :: 0 <= k < |fs| && Forward.FirstOfCall(fs, k) ==> fs[k].Call?;
      hide Forward.Indices, Forward.FirstOfCall, ToolOf, Slots, Assemble, ArgumentsIn;
      forall k | 0 <= k < |fs| && Forward.FirstOfCall(fs, k) ensures ToolOf(Assemble(fs), fs, k) {
        if k < n {
          AnotherFragment(fs, k);
        } else {
          NewTool(fs);
        }
      }
    }
  }

  lemma SlotsGrow(fs: seq<Fragment>)
    requires fs != [] && Slots(Assemble(fs[..|fs| - 1]))
    ensures var a, b, last := Assemble(fs[..|fs| - 1]), Assemble(fs), fs[|fs| - 1];
            && (forall i :: i in a.slot ==> i in b.slot && b.slot[i] == a.slot[i])
            && (last.Call? && last.call.index !in a.slot ==> last.call.index in b.slot && b.slot[last.call.index] == |a.tools|)
  {
  }

  // Tools stand in the order in which their calls first appeared.
  lemma {:induction false} ToolsInOrder(fs: seq<Fragment>, j: nat, k: nat)
    requires j < k < |fs| && Forward.FirstOfCall(fs, j) && Forward.FirstOfCall(fs, k)
    ensures ToolOf(Assemble(fs), fs, j) && ToolOf(Assemble(fs), fs, k)
    ensures Assemble(fs).slot[fs[j].call.index] < Assemble(fs).slot[fs[k].call.index]
    decreases |fs|
  {
    AssembledTools(fs);
    EarlierSlot(fs, j, k);
    hide Assemble, ToolOf, Forward.Indices;
  }

  lemma {:induction false} EarlierSlot(fs: seq<Fragment>, j: nat, k: nat)
    requires j < k < |fs| && Forward.FirstOfCall(fs, j) && Forward.FirstOfCall(fs, k)
    ensures var slot := Assemble(fs).slot;
            fs[j].call.index in slot && fs[k].call.index in slot && slot[fs[j].call.index] < slot[fs[k].call.index]
    decreases |fs|
  {
    hide Assemble, Forward.Indices, ArgumentsIn;
    var n := |fs| - 1;
    AssembledTools(fs[..n]);
    SlotsGrow(fs);
    Forward.FirstOfNewCall(fs);
    if k < n {
      EarlierSlot(fs[..n], j, k);
    } else {
      assert Forward.FirstOfCall(fs[..n], j);
      assert ToolOf(Assemble(fs[..n]), fs[..n], j);
    }
    hide ToolOf, Forward.FirstOfCall;
  }

  lemma NoCalls()
    ensures Forward.Indices([]) == {}
  {
  }

  lemma AnotherFragment(fs: seq<Fragment>, k: nat)
    requires fs != [] && k < |fs| - 1 && fs[k].Call? && Slots(Assemble(fs[..|fs| - 1]))
    requires ToolOf(Assemble(fs[..|fs| - 1]), fs[..|fs| - 1], k)
    ensures ToolOf(Assemble(fs), fs, k)
  {
    var a, last := Assemble(fs[..|fs| - 1]), fs[|fs| - 1];
    assert fs[..|fs| - 1][k] == fs[k];
    assert Assemble(fs) == Absorb(a, last);
    hide Assemble;
    if last.Call? && last.call.index != fs[k].call.index && last.call.index in a.slot {
      assert a.slot[last.call.index] != a.slot[fs[k].call.index];
    }
  }

  lemma NewTool(fs: seq<Fragment>)
    requires fs != [] && fs[|fs| - 1].Call? && fs[|fs| - 1].call.index !in Assemble(fs[..|fs| - 1]).slot
    requires ArgumentsIn(fs[..|fs| - 1], fs[|fs| - 1].call.index) == ""
    ensures ToolOf(Assemble(fs), fs, |fs| - 1)
  {
    assert Assemble(fs) == Absorb(Assemble(fs[..|fs| - 1]), fs[|fs| - 1]);
    hide Assemble;
  }

  // ----- Tool calls of chunks -----

  function CallsIn(fs: seq<Fragment>): seq<ToolFragment> {
    if fs == [] then []
    else
      var last := fs[|fs| - 1];
      CallsIn(fs[..|fs| - 1]) + if last.Call? then [last.call] else []
  }

  function ChoicesCalls(cs: seq<Choice>): seq<ToolFragment> {
    if cs == [] then []
    else
      var last := cs[|cs| - 1];
      ChoicesCalls(cs[..|cs| - 1]) + if last.index == 0 then last.toolCalls else []
  }

  // The tool fragments of the first choice, in arrival order.
  function ShownCalls(chunks: seq<Chunk>): seq<ToolFragment> {
    if chunks == [] then [] else ShownCalls(chunks[..|chunks| - 1]) + ChoicesCalls(chunks[|chunks| - 1].choices)
  }

  lemma {:induction false} CallsInConcat(xs: seq<Fragment>, ys: seq<Fragment>)
    ensures CallsIn(xs + ys) == CallsIn(xs) + CallsIn(ys)
  {
    if ys == [] {
      assert xs + ys == xs;
    } else {
      var n := |ys| - 1;
      assert (xs + ys)[..|xs| + n] == xs + ys[..n];
      CallsInConcat(xs, ys[..n]);
    }
  }

  lemma {:induction false} CallsInCalls(calls: seq<ToolFragment>)
    ensures CallsIn(CallFragments(calls)) == calls
  {
    if calls != [] {
      var n := |calls| - 1;
      CallsInCalls(calls[..n]);
      assert CallFragments(calls)[..n] == CallFragments(calls[..n]);
    }
  }

  lemma TextsHaveNoCalls(c: Choice)
    ensures CallsIn(TextFragments(c)) == []
  {
    var content := if c.content.Some? && c.content.value != "" then [Text(c.content.value)] else [];
    var refusal := if c.refusal != "" then [Text(c.refusal)] else [];
    CallsInConcat(content, refusal);
    assert content != [] ==> content[..0] == [];
    assert refusal != [] ==> refusal[..0] == [];
  }

  lemma {:induction false} ChoicesCallsAre(cs: seq<Choice>)
    ensures CallsIn(ChoicesFragments(cs)) == ChoicesCalls(cs)
  {
    hide TextFragments, CallFragments;
    if cs != [] {
      var n := |cs| - 1;
      ChoicesCallsAre(cs[..n]);
      TextsHaveNoCalls(cs[n]);
      CallsInCalls(cs[n].toolCalls);
      CallsInConcat(TextFragments(cs[n]), CallFragments(cs[n].toolCalls));
      CallsInConcat(ChoicesFragments(cs[..n]), ChoiceFragments(cs[n]));
      assert [] + cs[n].toolCalls == cs[n].toolCalls;
    }
  }

  lemma {:induction false} ShownCallsAre(chunks: seq<Chunk>)
    ensures CallsIn(ChunksFragments(chunks)) == ShownCalls(chunks)
  {
    hide ChoicesFragments, ChoicesCalls;
    if chunks != [] {
      var n := |chunks| - 1;
      ShownCallsAre(chunks[..n]);
      ChoicesCallsAre(chunks[n].choices);
      CallsInConcat(ChunksFragments(chunks[..n]), ChoicesFragments(chunks[n].choices));
    }
  }

  function ArgumentsOf(calls: seq<ToolFragment>, index: int): string {
    if calls == [] then ""
    else
      var last := calls[|calls| - 1];
      ArgumentsOf(calls[..|calls| - 1], index) + if last.index == index then last.arguments else ""
  }

  lemma {:induction false} ArgumentsInCalls(fs: seq<Fragment>, index: int)
    ensures ArgumentsIn(fs, index) == ArgumentsOf(CallsIn(fs), index)
  {
    if fs != [] {
      var n := |fs| - 1;
      ArgumentsInCalls(fs[..n], index);
      var before := CallsIn(fs[..n]);
      if fs[n].Call? { assert (before + [fs[n].call])[..|before|] == before; } else { assert before + [] == before; }
    }
  }

  // ----- The translated message -----

  // Main result: read by block index, the events hold the text the chunks showed
  // and one tool per call, with the id and name of its first fragment and all of
  // its arguments.
  lemma TranslatedMessage(model: string, chunks: seq<Chunk>)
    requires Forward.Translate(model, chunks).Ok?
    ensures var b := PlaceAll(NO_BLOCKS, Forward.Translate(model, chunks).value);
            var fs := ChunksFragments(chunks);
            && b.ok && TextOf(b.blocks) == ShownText(chunks)
            && |ToolsOf(b.blocks)| == |Forward.Indices(fs)|
            && forall k :: 0 <= k < |fs| && Forward.FirstOfCall(fs, k) ==>
                 Tool(fs[k].call.id, fs[k].call.name, ArgumentsOf(ShownCalls(chunks), fs[k].call.index)) in ToolsOf(b.blocks)
  {
    Forward.TranslationPreservesMeaning(model, chunks);
    var fs := ChunksFragments(chunks);
    ShownTextIs(chunks);
    AssembledText(fs);
    AssembledTools(fs);
    ShownCallsAre(chunks);
    hide Forward.Translate, PlaceAll, TextOf, ToolsOf, Assemble, ChunksFragments, ShownText, ShownCalls, ArgumentsOf, ArgumentsIn, Forward.Indices;
    forall k | 0 <= k < |fs| && Forward.FirstOfCall(fs, k)
      ensures Tool(fs[k].call.id, fs[k].call.name, ArgumentsOf(ShownCalls(chunks), fs[k].call.index)) in Assemble(fs).tools
    {
      assert ToolOf(Assemble(fs), fs, k);
      ArgumentsInCalls(fs, fs[k].call.index);
    }
  }

  // The message start carries the id and the model of the first chunk, or the
  // model that was asked for.
  lemma {:induction false} MessageStartOf(model: string, chunks: seq<Chunk>)
    requires chunks != [] && Forward.Frames(Forward.New(model), chunks).Ok?
    ensures var events, first := Forward.Frames(Forward.New(model), chunks).value.1, chunks[0];
            && events != [] && events[0] == MessageStart(first.id, if first.model != "" then first.model else model)
            && Forward.Frames(Forward.New(model), chunks).value.0.started
  {
    hide Forward.FeedAll, ChoicesFragments, ChoicesFinish, Forward.Reasons;
    var n := |chunks| - 1;
    if n == 0 {
      assert chunks[..0] == [];
      assert Forward.Frames(Forward.New(model), []) == Ok((Forward.New(model), []));
    } else {
      MessageStartOf(model, chunks[..n]);
      assert chunks[..n][0] == chunks[0];
    }
  }
}
