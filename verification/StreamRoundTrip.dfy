// OpenAI chunks to Anthropic events and back to OpenAI chunks.
module StreamRoundTrip {
  import opened Basics
  import opened StreamMessages
  import Forward = OpenAIStreamTranslator
  import Back = AnthropicStreamTranslator

  // The events that translated fragments use.
  predicate Plain(e: Event) {
    || (e.BlockStart? && (e.kind.TextBlock? || (e.kind.ToolBlock? && e.kind.id != "" && e.kind.name != "")))
    || e.TextDelta? || e.JsonDelta? || e.BlockStop?
  }

  predicate AllPlain(events: seq<Event>) {
    forall k :: 0 <= k < |events| ==> Plain(events[k])
  }

  lemma FeedIsPlain(s: Forward.Cursor, f: Fragment)
    requires Forward.Feed(s, f).Ok?
    ensures AllPlain(Forward.Feed(s, f).value.1)
  {
  }

  lemma {:induction false} ArrivalConcat(xs: seq<Event>, ys: seq<Event>)
    ensures Back.ArrivalText(xs + ys) == Back.ArrivalText(xs) + Back.ArrivalText(ys)
  {
    if ys == [] {
      assert xs + ys == xs;
    } else {
      var n := |ys| - 1;
      assert (xs + ys)[..|xs + ys| - 1] == xs + ys[..n];
      ArrivalConcat(xs, ys[..n]);
    }
  }

  lemma ArrivalOne(e: Event)
    ensures Back.ArrivalText([e]) == if e.TextDelta? then e.text else ""
  {
    assert [e][..0] == [];
  }

  lemma StopIsSilent(s: Forward.Cursor)
    ensures Back.ArrivalText(Forward.StopActive(s)) == ""
  {
    if s.activeType != Forward.NoBlock { ArrivalOne(BlockStop(s.activeIndex)); }
  }

  lemma ArgumentsAreSilent(index: int, arguments: string)
    ensures Back.ArrivalText(Forward.Arguments(index, arguments)) == ""
  {
    if arguments != "" { ArrivalOne(JsonDelta(index, arguments)); }
  }

  lemma FeedArrival(s: Forward.Cursor, f: Fragment)
    requires Forward.Feed(s, f).Ok?
    ensures Back.ArrivalText(Forward.Feed(s, f).value.1) == if f.Text? then f.text else ""
  {
    hide Back.ArrivalText;
    StopIsSilent(s);
    match f {
      case Text(text) =>
        ArrivalOne(TextDelta(s.activeIndex, text));
        ArrivalOne(TextDelta(s.nextIndex, text));
        ArrivalOne(BlockStart(s.nextIndex, TextBlock));
        ArrivalConcat(Forward.StopActive(s), [BlockStart(s.nextIndex, TextBlock)]);
        ArrivalConcat(Forward.StopActive(s) + [BlockStart(s.nextIndex, TextBlock)], [TextDelta(s.nextIndex, text)]);
      case Call(c) =>
        var start := [BlockStart(s.nextIndex, ToolBlock(c.id, c.name))];
        ArrivalOne(start[0]);
        ArrivalConcat(Forward.StopActive(s), start);
        ArgumentsAreSilent(s.nextIndex, c.arguments);
        ArrivalConcat(Forward.StopActive(s) + start, Forward.Arguments(s.nextIndex, c.arguments));
        if c.index in s.toolIndices {
          ArgumentsAreSilent(s.toolIndices[c.index], c.arguments);
          ArrivalConcat(Forward.StopActive(s), Forward.Arguments(s.toolIndices[c.index], c.arguments));
        }
    }
  }

  lemma {:induction false} FeedAllArrival(fs: seq<Fragment>)
    requires Forward.FeedAll(Forward.START, fs).Ok?
    ensures var events := Forward.FeedAll(Forward.START, fs).value.1;
            AllPlain(events) && Back.ArrivalText(events) == Assemble(fs).text
  {
    if fs != [] {
      var n := |fs| - 1;
      FeedAllArrival(fs[..n]);
      var before := Forward.FeedAll(Forward.START, fs[..n]).value;
      FeedIsPlain(before.0, fs[n]);
      FeedArrival(before.0, fs[n]);
      ArrivalConcat(before.1, Forward.Feed(before.0, fs[n]).value.1);
      AbsorbText(Assemble(fs[..n]), fs[n]);
    }
  }

  lemma AbsorbText(a: Assembled, f: Fragment)
    ensures Absorb(a, f).text == a.text + if f.Text? then f.text else ""
  {
  }

  lemma ReasonsRoundTrip(reason: Option<string>)
    requires reason.Some? && reason.value in {"stop", "length", "tool_calls"}
    ensures var stop := Forward.TranslateStopReason(reason);
            stop.Ok? && Back.TranslateStopReason(Some(stop.value)) == Ok(reason.value)
  {
  }

  lemma TranslatedEvents(model: string, chunks: seq<Chunk>)
    requires Forward.Translate(model, chunks).Ok?
    ensures var events := Forward.Translate(model, chunks).value;
            && (forall k :: 0 <= k < |events| ==> Back.Representable(events[k]))
            && (forall k :: 0 <= k < |events| && events[k].BlockStart? ==> events[k].kind.TextBlock? || events[k].kind.ToolBlock?)
            && (forall k :: 0 <= k < |events| ==> !events[k].OtherDelta?)
            && Back.ArrivalText(events) == Assemble(ChunksFragments(chunks)).text
            && Back.LastFinish(events) == ChunksFinish(chunks)
  {
    hide Forward.FeedAll, Forward.Translate, Back.ArrivalText, ChunksFragments, ChunksFinish, Assemble;
    Forward.TranslatedShape(model, chunks);
    Forward.AcceptedIff(model, chunks);
    ReasonsRoundTrip(ChunksFinish(chunks));
    var events := Forward.Translate(model, chunks).value;
    var fed := Forward.FeedAll(Forward.START, ChunksFragments(chunks)).value;
    FeedAllArrival(ChunksFragments(chunks));
    var stop := Forward.TranslateStopReason(ChunksFinish(chunks)).value;
    EventsOfShape(events, fed.0, fed.1, stop);
  }

  lemma EventsOfShape(events: seq<Event>, s: Forward.Cursor, body: seq<Event>, stop: string)
    requires Forward.Shape(events, s, body, stop) && AllPlain(body) && Back.TranslateStopReason(Some(stop)).Ok?
    ensures forall k :: 0 <= k < |events| ==> Back.Representable(events[k])
    ensures forall k :: 0 <= k < |events| && events[k].BlockStart? ==> events[k].kind.TextBlock? || events[k].kind.ToolBlock?
    ensures forall k :: 0 <= k < |events| ==> !events[k].OtherDelta?
    ensures Back.ArrivalText(events) == Back.ArrivalText(body)
    ensures Back.LastFinish(events) == Some(Back.TranslateStopReason(Some(stop)).value)
  {
    hide Back.ArrivalText;
    var delta := MessageDelta(Some(stop), None);
    var upTo := body + Forward.StopActive(s);
    assert events == [events[0]] + (upTo + [delta] + [MessageStop]);
    ArrivalOne(events[0]);
    StopIsSilent(s);
    ArrivalOne(delta);
    ArrivalOne(MessageStop);
    ArrivalConcat(body, Forward.StopActive(s));
    ArrivalConcat(upTo, [delta]);
    ArrivalConcat(upTo + [delta], [MessageStop]);
    ArrivalConcat([events[0]], upTo + [delta] + [MessageStop]);
    var n := |events|;
    assert events[n - 1] == MessageStop && events[n - 2] == delta;
    assert events[..n - 1][n - 2] == delta;
    assert forall k :: 1 <= k < 1 + |body| ==> events[k] == body[k - 1];
  }

  lemma {:induction false} NothingDropped(model: string, events: seq<Event>)
    requires Back.Frames(Back.New(model), events).Ok?
    requires forall k :: 0 <= k < |events| && events[k].BlockStart? ==> events[k].kind.TextBlock? || events[k].kind.ToolBlock?
    requires forall k :: 0 <= k < |events| ==> !events[k].OtherDelta?
    ensures !Back.Frames(Back.New(model), events).value.0.sawDropped
  {
    if events != [] { NothingDropped(model, events[..|events| - 1]); }
  }

  // Feeding the translated events to the other translator assembles to the
  // original message: the text with refusals folded in, the tools renumbered
  // 0, 1, 2, ... by first appearance, and the same finish reason.
  lemma RoundTrip(model: string, backModel: string, chunks: seq<Chunk>)
    requires Forward.Translate(model, chunks).Ok?
    ensures var back := Back.Translate(backModel, Forward.Translate(model, chunks).value);
            && back.Ok?
            && var a, b := Assemble(ChunksFragments(chunks)), Assemble(ChunksFragments(back.value));
               && b.text == a.text
               && b.tools == a.tools
               && Renumbered(b)
               && ChunksFinish(back.value) == ChunksFinish(chunks)
  {
    hide Forward.Translate, Back.Frames, ChunksFragments, ChunksFinish, Assemble, Back.ArrivalText, Back.LastFinish;
    var events := Forward.Translate(model, chunks).value;
    Forward.TranslationPreservesMeaning(model, chunks);
    TranslatedEvents(model, chunks);
    Back.FramesPreserveMeaning(backModel, events);
    NothingDropped(backModel, events);
  }

  // ----- Translated fragments -----

  lemma {:induction false} FedIsPlain(s: Forward.Cursor, fs: seq<Fragment>)
    requires Forward.FeedAll(s, fs).Ok?
    ensures AllPlain(Forward.FeedAll(s, fs).value.1)
  {
    if fs != [] {
      FedIsPlain(s, fs[..|fs| - 1]);
      FeedIsPlain(Forward.FeedAll(s, fs[..|fs| - 1]).value.0, fs[|fs| - 1]);
    }
  }
}
