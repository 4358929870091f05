// internal/adapter/translate.go:1229-1449: OpenAI chunks to Anthropic events.
module OpenAIStreamTranslator {
  import opened Basics
  import opened StreamMessages

  datatype ActiveType = NoBlock | TextActive | ToolActive

  // The content block being written, and the block of each tool call index.
  datatype Cursor = Cursor(nextIndex: int, activeType: ActiveType, activeIndex: int, toolIndices: map<int, int>)

  const START := Cursor(0, NoBlock, 0, map[])

  const INVALID := "invalid_upstream_stream"

  // ----- Fragments to events -----

  function StopActive(s: Cursor): seq<Event> {
    if s.activeType == NoBlock then [] else [BlockStop(s.activeIndex)]
  }

  function Opened(s: Cursor, active: ActiveType): Cursor {
    s.(activeType := active, activeIndex := s.nextIndex, nextIndex := s.nextIndex + 1)
  }

  function FeedText(s: Cursor, text: string): (Cursor, seq<Event>) {
    if s.activeType == TextActive then (s, [TextDelta(s.activeIndex, text)])
    else (Opened(s, TextActive), StopActive(s) + [BlockStart(s.nextIndex, TextBlock)] + [TextDelta(s.nextIndex, text)])
  }

  function Arguments(index: int, arguments: string): seq<Event> {
    if arguments == "" then [] else [JsonDelta(index, arguments)]
  }

  // A fragment of a known call that is not the active block switches back to
  // its block without starting it again.
  function FeedCall(s: Cursor, c: ToolFragment): Result<(Cursor, seq<Event>), string> {
    if c.index !in s.toolIndices then
      if c.id == "" || c.name == "" then Err(INVALID)
      else
        var next := Opened(s, ToolActive).(toolIndices := s.toolIndices[c.index := s.nextIndex]);
        Ok((next, StopActive(s) + [BlockStart(s.nextIndex, ToolBlock(c.id, c.name))] + Arguments(s.nextIndex, c.arguments)))
    else
      var index := s.toolIndices[c.index];
      if s.activeType == ToolActive && s.activeIndex == index then Ok((s, Arguments(index, c.arguments)))
      else Ok((s.(activeType := ToolActive, activeIndex := index), StopActive(s) + Arguments(index, c.arguments)))
  }

  function Feed(s: Cursor, f: Fragment): Result<(Cursor, seq<Event>), string> {
    match f
    case Text(text) => Ok(FeedText(s, text))
    case Call(c) => FeedCall(s, c)
  }

  function FeedAll(s: Cursor, fs: seq<Fragment>): Result<(Cursor, seq<Event>), string> {
    if fs == [] then Ok((s, []))
    else
      var before := FeedAll(s, fs[..|fs| - 1]);
      if before.Err? then before
      else
        var last := Feed(before.value.0, fs[|fs| - 1]);
        if last.Err? then last else Ok((last.value.0, before.value.1 + last.value.1))
  }

  lemma {:induction false} FeedAllConcat(s: Cursor, xs: seq<Fragment>, ys: seq<Fragment>)
    ensures FeedAll(s, xs).Err? ==> FeedAll(s, xs + ys) == FeedAll(s, xs)
    ensures FeedAll(s, xs).Ok? ==>
              var rest := FeedAll(FeedAll(s, xs).value.0, ys);
              FeedAll(s, xs + ys) == if rest.Err? then rest else Ok((rest.value.0, FeedAll(s, xs).value.1 + rest.value.1))
  {
    hide Feed;
    if ys == [] {
      assert xs + ys == xs;
      if FeedAll(s, xs).Ok? {
        assert FeedAll(s, xs).value.1 + [] == FeedAll(s, xs).value.1;
      }
    } else {
      var n := |ys| - 1;
      assert (xs + ys)[..|xs + ys| - 1] == xs + ys[..n];
      FeedAllConcat(s, xs, ys[..n]);
      if FeedAll(s, xs).Ok? {
        var first := FeedAll(s, xs).value;
        var rest := FeedAll(first.0, ys[..n]);
        if rest.Ok? && Feed(rest.value.0, ys[n]).Ok? {
          var last := Feed(rest.value.0, ys[n]).value.1;
          assert (first.1 + rest.value.1) + last == first.1 + (rest.value.1 + last);
        }
      }
    }
  }

  // ----- Frames and the terminal -----

  datatype Translator = Translator(
    id: string, model: string, started: bool, finished: bool, finishReason: Option<string>,
    cursor: Cursor, sawReasoning: bool, sawVisible: bool)

  function New(model: string): Translator {
    Translator("", model, false, false, None, START, false, false)
  }

  function NonEmptyOr(value: string, fallback: string): string {
    if value != "" then value else fallback
  }

  predicate Reasons(cs: seq<Choice>) {
    exists k :: 0 <= k < |cs| && cs[k].index == 0 && cs[k].reasoning != ""
  }

  function Frame(t: Translator, chunk: Chunk): Result<(Translator, seq<Event>), string> {
    var id, model := NonEmptyOr(chunk.id, t.id), NonEmptyOr(chunk.model, t.model);
    var fs := ChoicesFragments(chunk.choices);
    var fed := FeedAll(t.cursor, fs);
    if fed.Err? then Err(fed.error)
    else
      var finish := ChoicesFinish(chunk.choices);
      Ok((Translator(
            id, model, true, t.finished || finish.Some?, if finish.Some? then finish else t.finishReason,
            fed.value.0, t.sawReasoning || Reasons(chunk.choices), t.sawVisible || fs != []),
          (if t.started then [] else [MessageStart(id, model)]) + fed.value.1))
  }

  function Frames(t: Translator, chunks: seq<Chunk>): Result<(Translator, seq<Event>), string> {
    if chunks == [] then Ok((t, []))
    else
      var before := Frames(t, chunks[..|chunks| - 1]);
      if before.Err? then before
      else
        var last := Frame(before.value.0, chunks[|chunks| - 1]);
        if last.Err? then last else Ok((last.value.0, before.value.1 + last.value.1))
  }

  function TranslateStopReason(reason: Option<string>): Result<string, string> {
    if reason.None? || reason.value == "" || reason.value == "stop" then Ok("end_turn")
    else if reason.value == "length" then Ok("max_tokens")
    else if reason.value == "tool_calls" then Ok("tool_use")
    else Err("unrepresentable_finish_reason")
  }

  function Terminal(t: Translator): Result<seq<Event>, string> {
    if !t.started || !t.finished then Err(INVALID)
    else if t.sawReasoning && !t.sawVisible then Err("unrepresentable_reasoning_only_response")
    else
      var stop := TranslateStopReason(t.finishReason);
      if stop.Err? then Err(stop.error)
      else Ok(StopActive(t.cursor) + [MessageDelta(Some(stop.value), None)] + [MessageStop])
  }

  // The whole translated stream of an accepted chunk sequence.
  function Translate(model: string, chunks: seq<Chunk>): Result<seq<Event>, string> {
    var frames := Frames(New(model), chunks);
    if frames.Err? then Err(frames.error)
    else
      var terminal := Terminal(frames.value.0);
      if terminal.Err? then terminal else Ok(frames.value.1 + terminal.value)
  }

  // The translator after accepted frames, in terms of the chunks so far.
  ghost predicate Fed(t: Translator, events: seq<Event>, chunks: seq<Chunk>) {
    var fed := FeedAll(START, ChunksFragments(chunks));
    && fed.Ok? && t.cursor == fed.value.0
    && t.started == (chunks != [])
    && t.finished == ChunksFinish(chunks).Some? && t.finishReason == ChunksFinish(chunks)
    && t.sawVisible == (ChunksFragments(chunks) != [])
    && t.sawReasoning == (exists k :: 0 <= k < |chunks| && Reasons(chunks[k].choices))
    && (if chunks == [] then events == []
        else events != [] && events[0].MessageStart? && events[1..] == fed.value.1)
  }

  lemma FrameKeepsFed(t: Translator, events: seq<Event>, chunks: seq<Chunk>, chunk: Chunk)
    requires Fed(t, events, chunks)
    ensures Frame(t, chunk).Err? == FeedAll(START, ChunksFragments(chunks + [chunk])).Err?
    ensures Frame(t, chunk).Ok? ==> Fed(Frame(t, chunk).value.0, events + Frame(t, chunk).value.1, chunks + [chunk])
  {
    hide FeedAll, ChoicesFragments, ChoicesFinish, Reasons;
    var longer := chunks + [chunk];
    assert longer[..|longer| - 1] == chunks && longer[|longer| - 1] == chunk;
    FeedAllConcat(START, ChunksFragments(chunks), ChoicesFragments(chunk.choices));
    if Frame(t, chunk).Ok? {
      var out := Frame(t, chunk).value.1;
      if chunks == [] {
        assert events + out == out;
        StartIsEmpty();
      } else {
        assert (events + out)[1..] == events[1..] + out;
      }
      assert Reasons(longer[|chunks|].choices) == Reasons(chunk.choices);
      assert forall k :: 0 <= k < |chunks| ==> longer[k] == chunks[k];
    }
  }

  lemma StartIsEmpty()
    ensures FeedAll(START, ChunksFragments([])) == Ok((START, []))
  {
  }

  // Frames only cut the fragments into portions.
  lemma {:induction false} FramesFeedFragments(model: string, chunks: seq<Chunk>)
    ensures Frames(New(model), chunks).Err? == FeedAll(START, ChunksFragments(chunks)).Err?
    ensures Frames(New(model), chunks).Ok? ==> Fed(Frames(New(model), chunks).value.0, Frames(New(model), chunks).value.1, chunks)
  {
    hide Fed, Frame;
    if chunks == [] {
      NothingFed(model);
    } else {
      var n := |chunks| - 1;
      assert chunks == chunks[..n] + [chunks[n]];
      FramesFeedFragments(model, chunks[..n]);
      if Frames(New(model), chunks[..n]).Ok? {
        var before := Frames(New(model), chunks[..n]).value;
        FrameKeepsFed(before.0, before.1, chunks[..n], chunks[n]);
      } else {
        FeedAllConcat(START, ChunksFragments(chunks[..n]), ChoicesFragments(chunks[n].choices));
      }
    }
  }

  lemma NothingFed(model: string)
    ensures Fed(New(model), [], []) && FeedAll(START, ChunksFragments([])).Ok?
  {
  }

  // ----- Which streams are accepted -----

  // The first fragment of every call carries its id and its name.
  predicate FirstOfCall(fs: seq<Fragment>, k: nat) {
    k < |fs| && fs[k].Call? && forall j :: 0 <= j < k && fs[j].Call? ==> fs[j].call.index != fs[k].call.index
  }

  predicate Named(fs: seq<Fragment>) {
    forall k :: 0 <= k < |fs| && FirstOfCall(fs, k) ==> fs[k].call.id != "" && fs[k].call.name != ""
  }

  function Indices(fs: seq<Fragment>): set<int> {
    set k | 0 <= k < |fs| && fs[k].Call? :: fs[k].call.index
  }

  lemma IndicesGrow(fs: seq<Fragment>)
    requires fs != []
    ensures var n := |fs| - 1; Indices(fs) == Indices(fs[..n]) + (if fs[n].Call? then {fs[n].call.index} else {})
  {
    var n := |fs| - 1;
    assert forall k :: 0 <= k < n ==> fs[..n][k] == fs[k];
    forall i ensures i in Indices(fs) <==> i in Indices(fs[..n]) || (fs[n].Call? && i == fs[n].call.index) {
      if k :| 0 <= k < |fs| && fs[k].Call? && fs[k].call.index == i {
        if k < n { assert fs[..n][k].Call? && fs[..n][k].call.index == i; }
      }
    }
  }

  lemma FirstOfNewCall(fs: seq<Fragment>)
    requires fs != []
    ensures var n := |fs| - 1;
            && (forall k :: 0 <= k < n ==> fs[..n][k] == fs[k] && FirstOfCall(fs[..n], k) == FirstOfCall(fs, k))
            && (FirstOfCall(fs, n) <==> fs[n].Call? && fs[n].call.index !in Indices(fs[..n]))
  {
    var n := |fs| - 1;
    assert forall k :: 0 <= k < n ==> fs[..n][k] == fs[k];
    if fs[n].Call? && !FirstOfCall(fs, n) {
      var j :| 0 <= j < n && fs[j].Call? && fs[j].call.index == fs[n].call.index;
      assert fs[..n][j].Call?;
    }
  }

  lemma IndicesStep(fs: seq<Fragment>)
    requires fs != []
    ensures var n := |fs| - 1;
            && Indices(fs) == Indices(fs[..n]) + (if fs[n].Call? then {fs[n].call.index} else {})
            && (FirstOfCall(fs, n) <==> fs[n].Call? && fs[n].call.index !in Indices(fs[..n]))
            && (Named(fs) <==> Named(fs[..n]) && (FirstOfCall(fs, n) ==> fs[n].call.id != "" && fs[n].call.name != ""))
  {
    IndicesGrow(fs);
    FirstOfNewCall(fs);
    hide FirstOfCall, Indices;
  }

  lemma {:induction false} FedWhenNamed(fs: seq<Fragment>)
    ensures FeedAll(START, fs).Ok? <==> Named(fs)
    ensures FeedAll(START, fs).Ok? ==> FeedAll(START, fs).value.0.toolIndices.Keys == Indices(fs)
  {
    hide Named, Indices, FirstOfCall;
    if fs == [] {
      EmptyIsNamed();
    } else {
      IndicesStep(fs);
      FedWhenNamed(fs[..|fs| - 1]);
    }
  }

  lemma EmptyIsNamed()
    ensures Named([]) && Indices([]) == {}
  {
  }

  // A stream is translated exactly when every call starts with its id and name,
  // a representable finish reason arrives, and it is not reasoning alone.
  lemma AcceptedIff(model: string, chunks: seq<Chunk>)
    ensures Translate(model, chunks).Ok? <==>
            && Named(ChunksFragments(chunks))
            && ChunksFinish(chunks).Some? && ChunksFinish(chunks).value in {"stop", "length", "tool_calls"}
            && (ChunksFragments(chunks) == [] ==> forall k :: 0 <= k < |chunks| ==> !Reasons(chunks[k].choices))
  {
    hide Named, Reasons, Frames;
    FramesFeedFragments(model, chunks);
    FedWhenNamed(ChunksFragments(chunks));
    FinishIsNonEmpty(chunks);
  }

  lemma {:induction false} FinishIsNonEmpty(chunks: seq<Chunk>)
    ensures ChunksFinish(chunks).Some? ==> chunks != [] && ChunksFinish(chunks).value != ""
  {
    if chunks != [] {
      ChoiceFinishIsNonEmpty(chunks[|chunks| - 1].choices);
      FinishIsNonEmpty(chunks[..|chunks| - 1]);
    }
  }

  lemma {:induction false} ChoiceFinishIsNonEmpty(cs: seq<Choice>)
    ensures ChoicesFinish(cs).Some? ==> ChoicesFinish(cs).value != ""
  {
    if cs != [] { ChoiceFinishIsNonEmpty(cs[..|cs| - 1]); }
  }

  // ----- Meaning: assembling the events gives the assembled chunks -----

  ghost predicate Linked(s: Cursor, b: Blocks, a: Assembled) {
    && b.ok && |b.blocks| == s.nextIndex
    && TextOf(b.blocks) == a.text && ToolsOf(b.blocks) == a.tools
    && s.toolIndices.Keys == a.slot.Keys
    && (forall i :: i in a.slot ==>
          && 0 <= s.toolIndices[i] < |b.blocks| && b.blocks[s.toolIndices[i]].kind.ToolBlock?
          && |ToolsOf(b.blocks[..s.toolIndices[i]])| == a.slot[i])
    && (s.activeType == TextActive ==>
          s.activeIndex == s.nextIndex - 1 && 0 <= s.activeIndex && b.blocks[s.activeIndex].kind.TextBlock?)
  }

  lemma PlaceOne(b: Blocks, e: Event)
    ensures PlaceAll(b, [e]) == Place(b, e)
  {
    assert [e][..0] == [];
    assert PlaceAll(b, []) == b;
  }

  lemma PlaceStop(s: Cursor, b: Blocks)
    ensures PlaceAll(b, StopActive(s)) == b
  {
    if s.activeType != NoBlock { PlaceOne(b, BlockStop(s.activeIndex)); }
  }

  // Stopping the active block and starting the next one appends an empty block.
  lemma PlaceStart(s: Cursor, b: Blocks, kind: BlockKind)
    requires b.ok && |b.blocks| == s.nextIndex
    ensures PlaceAll(b, StopActive(s) + [BlockStart(s.nextIndex, kind)]) == Blocks(b.blocks + [Block(kind, "")], true)
  {
    PlaceStop(s, b);
    PlaceAllConcat(b, StopActive(s), [BlockStart(s.nextIndex, kind)]);
    PlaceOne(b, BlockStart(s.nextIndex, kind));
  }

  // Blocks before an index keep their place when later blocks are added or a
  // body grows.
  lemma PrefixAfterNewBlock(blocks: seq<Block>, block: Block, i: nat)
    requires i <= |blocks|
    ensures (blocks + [block])[..i] == blocks[..i]
  {
  }

  lemma LinkedAfterTextDelta(s: Cursor, b: Blocks, a: Assembled, text: string)
    requires Linked(s, b, a) && s.activeType == TextActive
    ensures Linked(s, PlaceAll(b, [TextDelta(s.activeIndex, text)]), a.(text := a.text + text))
  {
    hide ToolsOf, TextOf;
    PlaceOne(b, TextDelta(s.activeIndex, text));
    TextAfterAppendToLast(b.blocks, text);
    forall i | i in a.slot
      ensures |ToolsOf(Append(b, s.activeIndex, text).blocks[..s.toolIndices[i]])| == a.slot[i]
    {
      CountAfterAppend(b.blocks, s.activeIndex, text, s.toolIndices[i]);
    }
  }

  lemma LinkedAfterTextStart(s: Cursor, b: Blocks, a: Assembled)
    requires Linked(s, b, a)
    ensures Linked(Opened(s, TextActive), PlaceAll(b, StopActive(s) + [BlockStart(s.nextIndex, TextBlock)]), a)
  {
    hide ToolsOf, TextOf;
    PlaceStart(s, b, TextBlock);
    AfterNewBlock(b.blocks, Block(TextBlock, ""));
    forall i | i in a.slot
      ensures (b.blocks + [Block(TextBlock, "")])[..s.toolIndices[i]] == b.blocks[..s.toolIndices[i]]
    {
      PrefixAfterNewBlock(b.blocks, Block(TextBlock, ""), s.toolIndices[i]);
    }
  }

  lemma FeedTextKeepsLink(s: Cursor, b: Blocks, a: Assembled, text: string)
    requires Linked(s, b, a)
    ensures Linked(FeedText(s, text).0, PlaceAll(b, FeedText(s, text).1), Absorb(a, Text(text)))
  {
    if s.activeType == TextActive {
      LinkedAfterTextDelta(s, b, a, text);
    } else {
      var start := StopActive(s) + [BlockStart(s.nextIndex, TextBlock)];
      LinkedAfterTextStart(s, b, a);
      LinkedAfterTextDelta(Opened(s, TextActive), PlaceAll(b, start), a, text);
      PlaceAllConcat(b, start, [TextDelta(s.nextIndex, text)]);
    }
  }

  // The arguments of a known call reach its block by index, wherever it is.
  lemma LinkedAfterArguments(s: Cursor, b: Blocks, a: Assembled, c: ToolFragment)
    requires Linked(s, b, a) && c.index in a.slot && s.activeType == ToolActive
    ensures Linked(s, PlaceAll(b, Arguments(s.toolIndices[c.index], c.arguments)), Absorb(a, Call(c)))
  {
    hide ToolsOf, TextOf;
    var index := s.toolIndices[c.index];
    ToolsAfterAppend(b.blocks, index, c.arguments);
    if c.arguments == "" {
      var k := a.slot[c.index];
      assert a.tools[k].arguments + "" == a.tools[k].arguments;
      assert a.tools[k := a.tools[k]] == a.tools;
    } else {
      PlaceOne(b, JsonDelta(index, c.arguments));
      forall i | i in a.slot
        ensures |ToolsOf(Append(b, index, c.arguments).blocks[..s.toolIndices[i]])| == a.slot[i]
      {
        CountAfterAppend(b.blocks, index, c.arguments, s.toolIndices[i]);
      }
    }
  }

  lemma LinkedAfterToolStart(s: Cursor, b: Blocks, a: Assembled, c: ToolFragment)
    requires Linked(s, b, a) && c.index !in a.slot
    ensures Linked(Opened(s, ToolActive).(toolIndices := s.toolIndices[c.index := s.nextIndex]),
                   PlaceAll(b, StopActive(s) + [BlockStart(s.nextIndex, ToolBlock(c.id, c.name))]),
                   Absorb(a, Call(c.(arguments := ""))))
  {
    hide ToolsOf, TextOf;
    var block := Block(ToolBlock(c.id, c.name), "");
    PlaceStart(s, b, ToolBlock(c.id, c.name));
    AfterNewBlock(b.blocks, block);
    forall i | i in a.slot
      ensures (b.blocks + [block])[..s.toolIndices[i]] == b.blocks[..s.toolIndices[i]]
    {
      PrefixAfterNewBlock(b.blocks, block, s.toolIndices[i]);
    }
    PrefixAfterNewBlock(b.blocks, block, |b.blocks|);
    assert b.blocks[..|b.blocks|] == b.blocks;
  }

  lemma LinkedAfterSwitch(s: Cursor, b: Blocks, a: Assembled, index: int)
    requires Linked(s, b, a)
    ensures Linked(s.(activeType := ToolActive, activeIndex := index), PlaceAll(b, StopActive(s)), a)
  {
    PlaceStop(s, b);
  }

  lemma FeedCallKeepsLink(s: Cursor, b: Blocks, a: Assembled, c: ToolFragment)
    requires Linked(s, b, a) && FeedCall(s, c).Ok?
    ensures Linked(FeedCall(s, c).value.0, PlaceAll(b, FeedCall(s, c).value.1), Absorb(a, Call(c)))
  {
    if c.index !in s.toolIndices {
      var next := Opened(s, ToolActive).(toolIndices := s.toolIndices[c.index := s.nextIndex]);
      var start := StopActive(s) + [BlockStart(s.nextIndex, ToolBlock(c.id, c.name))];
      LinkedAfterToolStart(s, b, a, c);
      var begun := Absorb(a, Call(c.(arguments := "")));
      LinkedAfterArguments(next, PlaceAll(b, start), begun, c);
      PlaceAllConcat(b, start, Arguments(s.nextIndex, c.arguments));
      FirstFragmentInTwo(a, c);
    } else {
      var index := s.toolIndices[c.index];
      if s.activeType == ToolActive && s.activeIndex == index {
        LinkedAfterArguments(s, b, a, c);
      } else {
        var next := s.(activeType := ToolActive, activeIndex := index);
        LinkedAfterSwitch(s, b, a, index);
        LinkedAfterArguments(next, PlaceAll(b, StopActive(s)), a, c);
        PlaceAllConcat(b, StopActive(s), Arguments(index, c.arguments));
      }
    }
  }

  // A first fragment is an empty call followed by its arguments.
  lemma FirstFragmentInTwo(a: Assembled, c: ToolFragment)
    requires c.index !in a.slot
    ensures Absorb(Absorb(a, Call(c.(arguments := ""))), Call(c)) == Absorb(a, Call(c))
  {
    var begun := Absorb(a, Call(c.(arguments := "")));
    assert begun.tools[|a.tools|].arguments + c.arguments == c.arguments;
    assert begun.tools[|a.tools| := Tool(c.id, c.name, c.arguments)] == a.tools + [Tool(c.id, c.name, c.arguments)];
  }

  lemma {:induction false} FeedAllLinked(fs: seq<Fragment>)
    requires FeedAll(START, fs).Ok?
    ensures Linked(FeedAll(START, fs).value.0, PlaceAll(NO_BLOCKS, FeedAll(START, fs).value.1), Assemble(fs))
  {
    if fs != [] {
      var n := |fs| - 1;
      FeedAllLinked(fs[..n]);
      var before := FeedAll(START, fs[..n]).value;
      var b, a := PlaceAll(NO_BLOCKS, before.1), Assemble(fs[..n]);
      match fs[n] {
        case Text(text) => FeedTextKeepsLink(before.0, b, a, text);
        case Call(c) => FeedCallKeepsLink(before.0, b, a, c);
      }
      PlaceAllConcat(NO_BLOCKS, before.1, Feed(before.0, fs[n]).value.1);
    }
  }

  // The content events of an accepted stream.
  ghost predicate Shape(events: seq<Event>, s: Cursor, body: seq<Event>, stop: string) {
    && events != [] && events[0].MessageStart?
    && events[1..] == body + StopActive(s) + [MessageDelta(Some(stop), None)] + [MessageStop]
  }

  lemma TranslatedShape(model: string, chunks: seq<Chunk>)
    requires Translate(model, chunks).Ok?
    ensures var fed := FeedAll(START, ChunksFragments(chunks));
            && fed.Ok? && ChunksFinish(chunks).Some? && TranslateStopReason(ChunksFinish(chunks)).Ok?
            && Shape(Translate(model, chunks).value, fed.value.0, fed.value.1, TranslateStopReason(ChunksFinish(chunks)).value)
  {
    hide Frames, FeedAll, ChunksFragments, ChunksFinish, Reasons;
    FramesFeedFragments(model, chunks);
    var frames := Frames(New(model), chunks).value;
    var events := Translate(model, chunks).value;
    var tail := Terminal(frames.0).value;
    assert chunks != [] by { FinishIsNonEmpty(chunks); }
    assert events[1..] == frames.1[1..] + tail;
    assert frames.1[1..] + tail == frames.1[1..] + StopActive(frames.0.cursor) + tail[|StopActive(frames.0.cursor)|..];
  }

  // Assembling the events by block index gives the text in arrival order and,
  // for each tool call, its id, its name and all its argument fragments, even
  // when fragments of several calls interleave.
  lemma TranslationPreservesMeaning(model: string, chunks: seq<Chunk>)
    requires Translate(model, chunks).Ok?
    ensures var b := PlaceAll(NO_BLOCKS, Translate(model, chunks).value);
            var a := Assemble(ChunksFragments(chunks));
            && b.ok
            && TextOf(b.blocks) == a.text
            && ToolsOf(b.blocks) == a.tools
  {
    hide Translate, PlaceAll, FeedAll, ChunksFragments, ChunksFinish, Assemble, TextOf, ToolsOf;
    var events := Translate(model, chunks).value;
    TranslatedShape(model, chunks);
    var fed := FeedAll(START, ChunksFragments(chunks)).value;
    FeedAllLinked(ChunksFragments(chunks));
    var stop := MessageDelta(Some(TranslateStopReason(ChunksFinish(chunks)).value), None);
    PlaceTail(NO_BLOCKS, fed.0, fed.1, stop);
    assert events == [events[0]] + events[1..];
    PlaceAllConcat(NO_BLOCKS, [events[0]], events[1..]);
    PlaceOne(NO_BLOCKS, events[0]);
  }

  lemma PlaceTail(b: Blocks, s: Cursor, body: seq<Event>, delta: Event)
    requires delta.MessageDelta?
    ensures PlaceAll(b, body + StopActive(s) + [delta] + [MessageStop]) == PlaceAll(b, body)
  {
    PlaceAllConcat(b, body, StopActive(s));
    PlaceStop(s, PlaceAll(b, body));
    PlaceAllConcat(b, body + StopActive(s), [delta]);
    PlaceOne(PlaceAll(b, body), delta);
    PlaceAllConcat(b, body + StopActive(s) + [delta], [MessageStop]);
    PlaceOne(PlaceAll(b, body), MessageStop);
  }

  // ----- The translator object -----

  lemma FeedOne(s: Cursor, fs: seq<Fragment>, f: Fragment)
    requires FeedAll(s, fs).Ok?
    ensures var last := Feed(FeedAll(s, fs).value.0, f);
            FeedAll(s, fs + [f]) == if last.Err? then Err(last.error) else Ok((last.value.0, FeedAll(s, fs).value.1 + last.value.1))
  {
    assert (fs + [f])[..|fs|] == fs;
  }

  lemma {:induction false} EarlierChoices(cs: seq<Choice>, k: nat)
    requires k <= |cs|
    ensures ChoicesFragments(cs[..k]) <= ChoicesFragments(cs)
  {
    if k < |cs| {
      EarlierChoices(cs[..|cs| - 1], k);
      assert cs[..|cs| - 1][..k] == cs[..k];
    } else {
      assert cs[..k] == cs;
    }
  }

  // A fragment that is refused refuses the rest of its frame.
  lemma RefusedPrefix(s: Cursor, fs: seq<Fragment>, all: seq<Fragment>)
    requires FeedAll(s, fs).Err? && fs <= all
    ensures FeedAll(s, all) == FeedAll(s, fs)
  {
    assert all == fs + all[|fs|..];
    FeedAllConcat(s, fs, all[|fs|..]);
  }

  lemma NextChoice(cs: seq<Choice>, k: nat)
    requires k < |cs|
    ensures ChoicesFragments(cs[..k + 1]) == ChoicesFragments(cs[..k]) + ChoiceFragments(cs[k])
    ensures ChoicesFinish(cs[..k + 1]) == if cs[k].index == 0 && cs[k].finishReason.Some? && cs[k].finishReason.value != ""
                                          then cs[k].finishReason else ChoicesFinish(cs[..k])
  {
    hide ChoiceFragments;
    assert cs[..k + 1][..k] == cs[..k];
  }

  lemma NextReasons(cs: seq<Choice>, k: nat)
    requires k < |cs|
    ensures Reasons(cs[..k + 1]) <==> Reasons(cs[..k]) || (cs[k].index == 0 && cs[k].reasoning != "")
  {
    assert forall j :: 0 <= j < k ==> cs[..k + 1][j] == cs[..k][j];
    assert cs[..k + 1][k] == cs[k];
  }

  // One choice on top of a translator.
  function AfterChoice(t: Translator, cursor: Cursor, c: Choice): Translator {
    var finish := c.index == 0 && c.finishReason.Some? && c.finishReason.value != "";
    t.(cursor := cursor, sawVisible := t.sawVisible || ChoiceFragments(c) != [],
       sawReasoning := t.sawReasoning || (c.index == 0 && c.reasoning != ""),
       finished := t.finished || finish, finishReason := if finish then c.finishReason else t.finishReason)
  }

  function After(t: Translator, cursor: Cursor, cs: seq<Choice>): Translator {
    t.(cursor := cursor, sawVisible := t.sawVisible || ChoicesFragments(cs) != [], sawReasoning := t.sawReasoning || Reasons(cs),
       finished := t.finished || ChoicesFinish(cs).Some?,
       finishReason := if ChoicesFinish(cs).Some? then ChoicesFinish(cs) else t.finishReason)
  }

  lemma NextAfter(t: Translator, cs: seq<Choice>, k: nat, p: Cursor, q: Cursor)
    requires k < |cs|
    ensures AfterChoice(After(t, p, cs[..k]), q, cs[k]) == After(t, q, cs[..k + 1])
  {
    hide FeedAll, ChoicesFragments, ChoicesFinish, ChoiceFragments;
    NextChoice(cs, k);
    NextReasons(cs, k);
  }

  lemma NoChoices(s: Cursor)
    ensures FeedAll(s, ChoicesFragments([])) == Ok((s, [])) && ChoicesFragments([]) == []
    ensures ChoicesFinish([]).None? && !Reasons([])
  {
  }

  lemma CallFragmentsEmpty(calls: seq<ToolFragment>)
    ensures CallFragments(calls) == [] <==> calls == []
  {
    assert |CallFragments(calls)| == |calls|;
  }

  class StreamTranslator {
    var id: string
    var model: string
    var started: bool
    var finished: bool
    var finishReason: Option<string>
    var nextIndex: int
    var activeType: ActiveType
    var activeIndex: int
    var toolIndices: map<int, int>
    var sawReasoning: bool
    var sawVisible: bool

    ghost function Position(): Cursor
      reads this
    {
      Cursor(nextIndex, activeType, activeIndex, toolIndices)
    }

    ghost function Value(): Translator
      reads this
    {
      Translator(id, model, started, finished, finishReason, Position(), sawReasoning, sawVisible)
    }

    constructor (model: string)
      ensures Value() == New(model)
    {
      this.id, this.model := "", model;
      started, finished, finishReason := false, false, None;
      nextIndex, activeType, activeIndex, toolIndices := 0, NoBlock, 0, map[];
      sawReasoning, sawVisible := false, false;
    }

    method StopActiveBlock() returns (output: seq<Event>)
      modifies this`activeType
      ensures output == StopActive(old(Position())) && activeType == NoBlock
    {
      if activeType == NoBlock {
        return [];
      }
      output := [BlockStop(activeIndex)];
      activeType := NoBlock;
    }

    // A text block that is already active goes on.
    method StartBlock(kind: BlockKind) returns (output: seq<Event>)
      requires kind.TextBlock? || kind.ToolBlock?
      modifies this`activeType, this`activeIndex, this`nextIndex
      ensures kind.TextBlock? && old(activeType) == TextActive ==> output == [] && Position() == old(Position())
      ensures !(kind.TextBlock? && old(activeType) == TextActive) ==>
                && output == StopActive(old(Position())) + [BlockStart(old(nextIndex), kind)]
                && Position() == Opened(old(Position()), if kind.TextBlock? then TextActive else ToolActive)
    {
      if kind.TextBlock? && activeType == TextActive {
        return [];
      }
      output := StopActiveBlock();
      activeType := if kind.TextBlock? then TextActive else ToolActive;
      activeIndex := nextIndex;
      nextIndex := nextIndex + 1;
      output := output + [BlockStart(activeIndex, kind)];
    }

    method WriteText(text: string) returns (output: seq<Event>)
      modifies this`nextIndex, this`activeType, this`activeIndex, this`sawVisible
      ensures Feed(old(Position()), Text(text)) == Ok((Position(), output)) && sawVisible
    {
      output := StartBlock(TextBlock);
      output := output + [TextDelta(activeIndex, text)];
      sawVisible := true;
      assert [] + [TextDelta(activeIndex, text)] == [TextDelta(activeIndex, text)];
    }

    method WriteCall(call: ToolFragment) returns (r: Result<seq<Event>, string>)
      modifies this`nextIndex, this`activeType, this`activeIndex, this`sawVisible, this`toolIndices
      ensures r.Err? ==> Feed(old(Position()), Call(call)) == Err(r.error)
      ensures r.Ok? ==> Feed(old(Position()), Call(call)) == Ok((Position(), r.value)) && sawVisible
    {
      var output: seq<Event> := [];
      sawVisible := true;
      var index;
      if call.index !in toolIndices {
        if call.id == "" || call.name == "" {
          return Err(INVALID);
        }
        output := StartBlock(ToolBlock(call.id, call.name));
        index := activeIndex;
        toolIndices := toolIndices[call.index := index];
      } else {
        index := toolIndices[call.index];
        if activeType != ToolActive || activeIndex != index {
          output := StopActiveBlock();
          activeType, activeIndex := ToolActive, index;
        }
      }
      ghost var prefix := output;
      if call.arguments != "" {
        output := output + [JsonDelta(index, call.arguments)];
      }
      assert output == prefix + Arguments(index, call.arguments);
      assert [] + Arguments(index, call.arguments) == Arguments(index, call.arguments);
      r := Ok(output);
    }

    method WriteCalls(calls: seq<ToolFragment>) returns (r: Result<seq<Event>, string>)
      modifies this`nextIndex, this`activeType, this`activeIndex, this`sawVisible, this`toolIndices
      ensures var fed := FeedAll(old(Position()), CallFragments(calls));
              if r.Err? then fed == Err(r.error) else fed == Ok((Position(), r.value))
      ensures r.Ok? ==> sawVisible == (old(sawVisible) || calls != [])
    {
      var output: seq<Event> := [];
      for k := 0 to |calls|
        invariant FeedAll(old(Position()), CallFragments(calls[..k])) == Ok((Position(), output))
        invariant sawVisible == (old(sawVisible) || k > 0)
      {
        FeedOne(old(Position()), CallFragments(calls[..k]), Call(calls[k]));
        assert CallFragments(calls[..k + 1]) == CallFragments(calls[..k]) + [Call(calls[k])];
        var written := WriteCall(calls[k]);
        if written.Err? {
          RefusedPrefix(old(Position()), CallFragments(calls[..k + 1]), CallFragments(calls));
          return written;
        }
        output := output + written.value;
      }
      assert calls[..|calls|] == calls;
      r := Ok(output);
    }

    // Content, then refusal.
    method WriteTexts(choice: Choice) returns (output: seq<Event>)
      modifies this`nextIndex, this`activeType, this`activeIndex, this`sawVisible
      ensures FeedAll(old(Position()), TextFragments(choice)) == Ok((Position(), output))
      ensures sawVisible == (old(sawVisible) || TextFragments(choice) != [])
    {
      hide Feed;
      ghost var start := Position();
      ghost var fs: seq<Fragment> := [];
      output := [];
      if choice.content.Some? && choice.content.value != "" {
        FeedOne(start, fs, Text(choice.content.value));
        fs := fs + [Text(choice.content.value)];
        output := WriteText(choice.content.value);
        assert [] + output == output;
      }
      if choice.refusal != "" {
        FeedOne(start, fs, Text(choice.refusal));
        fs := fs + [Text(choice.refusal)];
        var text := WriteText(choice.refusal);
        output := output + text;
      }
      assert fs == TextFragments(choice);
    }

    // The content of choice 0: its text and refusal, then its tool calls.
    method WriteParts(choice: Choice) returns (r: Result<seq<Event>, string>)
      requires choice.index == 0
      modifies this`nextIndex, this`activeType, this`activeIndex, this`sawVisible, this`toolIndices
      ensures var fed := FeedAll(old(Position()), ChoiceFragments(choice));
              if r.Err? then fed == Err(r.error) else fed == Ok((Position(), r.value))
      ensures r.Ok? ==> sawVisible == (old(sawVisible) || ChoiceFragments(choice) != [])
    {
      hide FeedAll, CallFragments, TextFragments;
      FeedAllConcat(Position(), TextFragments(choice), CallFragments(choice.toolCalls));
      var output := WriteTexts(choice);
      r := WriteCalls(choice.toolCalls);
      if r.Ok? {
        CallFragmentsEmpty(choice.toolCalls);
        r := Ok(output + r.value);
      }
    }

    method WriteChoice(choice: Choice) returns (r: Result<seq<Event>, string>)
      modifies this`nextIndex, this`activeType, this`activeIndex, this`sawVisible, this`toolIndices, this`sawReasoning, this`finished, this`finishReason
      ensures var fed := FeedAll(old(Position()), ChoiceFragments(choice));
              if r.Err? then fed == Err(r.error) else fed == Ok((Position(), r.value))
      ensures r.Ok? ==> Value() == AfterChoice(old(Value()), Position(), choice)
    {
      if choice.index != 0 {
        return Ok([]);
      }
      hide FeedAll, ChoiceFragments;
      if choice.reasoning != "" {
        sawReasoning := true;
      }
      r := WriteParts(choice);
      if r.Ok? && choice.finishReason.Some? && choice.finishReason.value != "" {
        finished := true;
        finishReason := choice.finishReason;
      }
    }

    method WriteChoices(cs: seq<Choice>) returns (r: Result<seq<Event>, string>)
      modifies this`nextIndex, this`activeType, this`activeIndex, this`sawVisible, this`toolIndices, this`sawReasoning, this`finished, this`finishReason
      ensures var fed := FeedAll(old(Position()), ChoicesFragments(cs));
              if r.Err? then fed == Err(r.error) else fed == Ok((Position(), r.value))
      ensures r.Ok? ==> Value() == After(old(Value()), Position(), cs)
    {
      hide FeedAll, Reasons, ChoicesFragments, ChoicesFinish, ChoiceFragments, AfterChoice;
      ghost var start, before := Position(), Value();
      var output: seq<Event> := [];
      NoChoices(start);
      assert cs[..0] == [];
      for k := 0 to |cs|
        invariant FeedAll(start, ChoicesFragments(cs[..k])) == Ok((Position(), output))
        invariant Value() == After(before, Position(), cs[..k])
      {
        NextChoice(cs, k);
        ghost var place := Position();
        FeedAllConcat(start, ChoicesFragments(cs[..k]), ChoiceFragments(cs[k]));
        var written := WriteChoice(cs[k]);
        if written.Err? {
          EarlierChoices(cs, k + 1);
          RefusedPrefix(start, ChoicesFragments(cs[..k + 1]), ChoicesFragments(cs));
          return written;
        }
        NextAfter(before, cs, k, place, Position());
        output := output + written.value;
      }
      assert cs[..|cs|] == cs;
      r := Ok(output);
    }

    // After an error the stream is abandoned.
    method WriteFrame(chunk: Chunk) returns (r: Result<seq<Event>, string>)
      modifies this
      ensures var frame := Frame(old(Value()), chunk);
              if r.Err? then frame == Err(r.error) else frame == Ok((Value(), r.value))
    {
      hide FeedAll, Reasons, ChoicesFragments, ChoicesFinish;
      if chunk.id != "" {
        id := chunk.id;
      }
      if chunk.model != "" {
        model := chunk.model;
      }
      var output: seq<Event> := [];
      if !started {
        started := true;
        output := [MessageStart(id, model)];
      }
      r := WriteChoices(chunk.choices);
      if r.Ok? {
        r := Ok(output + r.value);
      }
    }

    method WriteTerminal() returns (r: Result<seq<Event>, string>)
      modifies this`activeType
      ensures r == Terminal(old(Value()))
    {
      if !started || !finished {
        return Err(INVALID);
      }
      if sawReasoning && !sawVisible {
        return Err("unrepresentable_reasoning_only_response");
      }
      var stop := TranslateStopReason(finishReason);
      if stop.Err? {
        return Err(stop.error);
      }
      var output := StopActiveBlock();
      output := output + [MessageDelta(Some(stop.value), None)];
      r := Ok(output + [MessageStop]);
    }
  }
}
