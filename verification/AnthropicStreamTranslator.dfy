// internal/adapter/translate.go:1042-1227: Anthropic events to OpenAI chunks.
module AnthropicStreamTranslator {
  import opened Basics
  import opened StreamMessages

  const INVALID := "invalid_upstream_stream"

  datatype Translator = Translator(
    id: string, model: string, toolIndices: map<int, int>, serverTools: set<int>, nextTool: int,
    sawVisible: bool, sawReasoning: bool, sawDropped: bool)

  function New(model: string): Translator {
    Translator("", model, map[], {}, 0, false, false, false)
  }

  const SILENT := Choice(0, "", None, "", [], None)

  function ChunkOf(t: Translator, choice: Choice): seq<Chunk> {
    [Chunk(t.id, t.model, [choice])]
  }

  function TranslateStopReason(reason: Option<string>): Result<string, string> {
    if reason.None? || reason.value == "" then Ok("stop")
    else if reason.value in {"end_turn", "stop_sequence", "refusal"} then Ok("stop")
    else if reason.value == "max_tokens" then Ok("length")
    else if reason.value == "tool_use" then Ok("tool_calls")
    else Err("unrepresentable_finish_reason")
  }

  function StartBlock(t: Translator, index: int, kind: BlockKind): Result<(Translator, seq<Chunk>), string> {
    match kind
    case ToolBlock(id, name) =>
      if id == "" || name == "" then Err(INVALID)
      else
        Ok((t.(sawVisible := true, nextTool := t.nextTool + 1, toolIndices := t.toolIndices[index := t.nextTool]),
            ChunkOf(t, SILENT.(toolCalls := [ToolFragment(t.nextTool, id, name, "")]))))
    case ServerToolBlock => Ok((t.(serverTools := t.serverTools + {index}, sawDropped := true), []))
    case OtherBlock => Ok((t.(sawDropped := true), []))
    case _ => Ok((t, []))
  }

  function Frame(t: Translator, e: Event): Result<(Translator, seq<Chunk>), string> {
    match e
    case MessageStart(id, model) =>
      var started := t.(id := id, model := if model != "" then model else t.model);
      Ok((started, ChunkOf(started, SILENT.(content := Some("")))))
    case BlockStart(index, kind) => StartBlock(t, index, kind)
    case TextDelta(_, text) =>
      Ok((t.(sawVisible := t.sawVisible || text != ""), ChunkOf(t, SILENT.(content := Some(text)))))
    case ThinkingDelta(_, thinking) =>
      Ok((t.(sawReasoning := t.sawReasoning || thinking != ""), ChunkOf(t, SILENT.(reasoning := thinking))))
    case JsonDelta(index, json) =>
      if index in t.serverTools then Ok((t, []))
      else if index !in t.toolIndices then Err(INVALID)
      else Ok((t, ChunkOf(t, SILENT.(toolCalls := [ToolFragment(t.toolIndices[index], "", "", json)]))))
    case OtherDelta(_) => Ok((t.(sawDropped := true), []))
    case MessageDelta(stopReason, _) =>
      var finish := TranslateStopReason(stopReason);
      if finish.Err? then Err(finish.error) else Ok((t, ChunkOf(t, SILENT.(finishReason := Some(finish.value)))))
    case _ => Ok((t, []))
  }

  function Frames(t: Translator, events: seq<Event>): Result<(Translator, seq<Chunk>), string> {
    if events == [] then Ok((t, []))
    else
      var before := Frames(t, events[..|events| - 1]);
      if before.Err? then before
      else
        var last := Frame(before.value.0, events[|events| - 1]);
        if last.Err? then last else Ok((last.value.0, before.value.1 + last.value.1))
  }

  predicate OnlyDropped(t: Translator) {
    t.sawDropped && !t.sawVisible && !t.sawReasoning
  }

  // The chunks of an accepted event sequence; the terminal is [DONE].
  function Translate(model: string, events: seq<Event>): Result<seq<Chunk>, string> {
    var frames := Frames(New(model), events);
    if frames.Err? then Err(frames.error)
    else if OnlyDropped(frames.value.0) then Err("unrepresentable_response_content")
    else Ok(frames.value.1)
  }

  // ----- Meaning -----

  // The text deltas in arrival order.
  function ArrivalText(events: seq<Event>): string {
    if events == [] then ""
    else
      var last := events[|events| - 1];
      ArrivalText(events[..|events| - 1]) + if last.TextDelta? then last.text else ""
  }

  function LastFinish(events: seq<Event>): Option<string> {
    if events == [] then None
    else
      var last := events[|events| - 1];
      if last.MessageDelta? && TranslateStopReason(last.stopReason).Ok? then Some(TranslateStopReason(last.stopReason).value)
      else LastFinish(events[..|events| - 1])
  }

  // What a chunk of the translator contributes.
  function Contribution(e: Event, t: Translator): seq<Fragment> {
    match e
    case TextDelta(_, text) => if text != "" then [Text(text)] else []
    case BlockStart(_, kind) => if kind.ToolBlock? then [Call(ToolFragment(t.nextTool, kind.id, kind.name, ""))] else []
    case JsonDelta(index, json) =>
      if index in t.serverTools || index !in t.toolIndices then []
      else [Call(ToolFragment(t.toolIndices[index], "", "", json))]
    case _ => []
  }

  lemma OneCall(c: ToolFragment)
    ensures CallFragments([c]) == [Call(c)]
  {
  }

  lemma OneChunk(chunks: seq<Chunk>, id: string, model: string, choice: Choice)
    ensures ChunksFragments(chunks + [Chunk(id, model, [choice])]) == ChunksFragments(chunks) + ChoiceFragments(choice)
    ensures ChunksFinish(chunks + [Chunk(id, model, [choice])])
            == if choice.index == 0 && choice.finishReason.Some? && choice.finishReason.value != "" then choice.finishReason else ChunksFinish(chunks)
  {
    var longer := chunks + [Chunk(id, model, [choice])];
    assert longer[..|chunks|] == chunks;
    OneChoice(choice);
    hide ChoicesFragments, ChoicesFinish, ChoiceFragments;
  }

  lemma OneChoice(choice: Choice)
    ensures ChoicesFragments([choice]) == ChoiceFragments(choice)
    ensures ChoicesFinish([choice])
            == if choice.index == 0 && choice.finishReason.Some? && choice.finishReason.value != "" then choice.finishReason else None
  {
    hide ChoiceFragments;
    assert [choice][..0] == [];
    assert ChoicesFragments([choice]) == [] + ChoiceFragments(choice);
    assert ChoicesFinish([]) == None;
  }

  lemma FrameContributes(t: Translator, chunks: seq<Chunk>, e: Event)
    requires Frame(t, e).Ok?
    ensures ChunksFragments(chunks + Frame(t, e).value.1) == ChunksFragments(chunks) + Contribution(e, t)
    ensures ChunksFinish(chunks + Frame(t, e).value.1)
            == if e.MessageDelta? then Some(TranslateStopReason(e.stopReason).value) else ChunksFinish(chunks)
  {
    hide ChunksFragments, ChunksFinish;
    var out := Frame(t, e).value.1;
    if out == [] {
      assert chunks + out == chunks;
    } else {
      var c := out[0];
      OneChunk(chunks, c.id, c.model, c.choices[0]);
      assert out == [Chunk(c.id, c.model, [c.choices[0]])];
      if c.choices[0].toolCalls != [] { OneCall(c.choices[0].toolCalls[0]); }
    }
  }

  ghost predicate Linked(t: Translator, b: Blocks, a: Assembled) {
    && a.tools == ToolsOf(b.blocks) && t.nextTool == |a.tools|
    && Renumbered(a) && Counts(t, b.blocks)
  }

  lemma FrameKeepsLink(t: Translator, b: Blocks, a: Assembled, e: Event)
    requires Linked(t, b, a) && Frame(t, e).Ok? && b.ok && Place(b, e).ok
    ensures Linked(Frame(t, e).value.0, Place(b, e), AbsorbAll(a, Contribution(e, t)))
  {
    match e
    case BlockStart(index, kind) => BlockStartKeepsLink(t, b, a, index, kind);
    case TextDelta(index, text) => TextKeepsLink(t, b, a, index, text);
    case JsonDelta(index, json) => JsonKeepsLink(t, b, a, index, json);
    case _ =>
  }

  // A frame contributes one fragment at most.
  function AbsorbAll(a: Assembled, fs: seq<Fragment>): Assembled {
    if fs == [] then a else Absorb(a, fs[0])
  }

  lemma EarlierBlocks(blocks: seq<Block>, block: Block)
    ensures forall i :: 0 <= i <= |blocks| ==> (blocks + [block])[..i] == blocks[..i]
    ensures blocks[..|blocks|] == blocks
  {
    forall i | 0 <= i <= |blocks| ensures (blocks + [block])[..i] == blocks[..i] {}
  }

  lemma RenumberedPush(a: Assembled, kind: BlockKind)
    requires Renumbered(a) && kind.ToolBlock?
    ensures var longer := Absorb(a, Call(ToolFragment(|a.tools|, kind.id, kind.name, "")));
            Renumbered(longer) && longer.tools == a.tools + [Tool(kind.id, kind.name, "")]
  {
  }

  // What Linked says of blocks is kept when one more is counted.
  ghost predicate Counts(t: Translator, blocks: seq<Block>) {
    && (forall i :: 0 <= i < |blocks| ==>
          && (i in t.toolIndices <==> blocks[i].kind.ToolBlock?)
          && (i in t.serverTools <==> blocks[i].kind.ServerToolBlock?)
          && (i in t.toolIndices ==> t.toolIndices[i] == |ToolsOf(blocks[..i])|))
    && (forall i :: i in t.toolIndices || i in t.serverTools ==> 0 <= i < |blocks|)
  }

  lemma StartKeepsCounts(t: Translator, blocks: seq<Block>, kind: BlockKind)
    requires Counts(t, blocks) && StartBlock(t, |blocks|, kind).Ok? && t.nextTool == |ToolsOf(blocks)|
    ensures Counts(StartBlock(t, |blocks|, kind).value.0, blocks + [Block(kind, "")])
  {
    EarlierBlocks(blocks, Block(kind, ""));
    hide ToolsOf;
  }

  lemma Unlink(t: Translator, b: Blocks, a: Assembled)
    requires Linked(t, b, a)
    ensures a.tools == ToolsOf(b.blocks) && t.nextTool == |a.tools| && Renumbered(a) && Counts(t, b.blocks)
    ensures forall index, kind :: Place(b, BlockStart(index, kind)).blocks == b.blocks + [Block(kind, "")]
  {
  }

  lemma Link(t: Translator, b: Blocks, a: Assembled, blocks: seq<Block>)
    requires b.blocks == blocks && a.tools == ToolsOf(blocks) && t.nextTool == |a.tools| && Renumbered(a) && Counts(t, blocks)
    ensures Linked(t, b, a)
  {
  }

  lemma AbsorbStart(t: Translator, a: Assembled, index: int, kind: BlockKind)
    requires Renumbered(a) && t.nextTool == |a.tools|
    ensures var after := AbsorbAll(a, Contribution(BlockStart(index, kind), t));
            Renumbered(after) && after.tools == a.tools + if kind.ToolBlock? then [Tool(kind.id, kind.name, "")] else []
  {
    hide Renumbered, Absorb;
    if kind.ToolBlock? { RenumberedPush(a, kind); }
  }

  lemma StartCountsTools(t: Translator, index: int, kind: BlockKind)
    requires StartBlock(t, index, kind).Ok?
    ensures StartBlock(t, index, kind).value.0.nextTool == t.nextTool + if kind.ToolBlock? then 1 else 0
  {
  }

  lemma BlockStartKeepsLink(t: Translator, b: Blocks, a: Assembled, index: int, kind: BlockKind)
    requires Linked(t, b, a) && StartBlock(t, index, kind).Ok? && b.ok && index == |b.blocks|
    ensures Linked(StartBlock(t, index, kind).value.0, Place(b, BlockStart(index, kind)), AbsorbAll(a, Contribution(BlockStart(index, kind), t)))
  {
    hide *;
    Unlink(t, b, a);
    StartKeepsCounts(t, b.blocks, kind);
    AfterNewBlock(b.blocks, Block(kind, ""));
    StartCountsTools(t, index, kind);
    AbsorbStart(t, a, index, kind);
    Link(StartBlock(t, index, kind).value.0, Place(b, BlockStart(index, kind)), AbsorbAll(a, Contribution(BlockStart(index, kind), t)),
         b.blocks + [Block(kind, "")]);
  }

  lemma TextKeepsLink(t: Translator, b: Blocks, a: Assembled, index: int, text: string)
    requires Linked(t, b, a) && b.ok && Place(b, TextDelta(index, text)).ok
    ensures Linked(Frame(t, TextDelta(index, text)).value.0, Place(b, TextDelta(index, text)), AbsorbAll(a, Contribution(TextDelta(index, text), t)))
  {
    hide ToolsOf;
    ToolsAfterOtherAppend(b.blocks, index, text);
    forall i | 0 <= i < |b.blocks| ensures |ToolsOf(Append(b, index, text).blocks[..i])| == |ToolsOf(b.blocks[..i])| {
      CountAfterAppend(b.blocks, index, text, i);
    }
  }

  lemma JsonKeepsLink(t: Translator, b: Blocks, a: Assembled, index: int, json: string)
    requires Linked(t, b, a) && b.ok && Place(b, JsonDelta(index, json)).ok
    ensures Frame(t, JsonDelta(index, json)).Ok?
    ensures Linked(Frame(t, JsonDelta(index, json)).value.0, Place(b, JsonDelta(index, json)), AbsorbAll(a, Contribution(JsonDelta(index, json), t)))
  {
    hide ToolsOf;
    if index in t.serverTools {
      ToolsAfterOtherAppend(b.blocks, index, json);
    } else {
      ToolsAfterAppend(b.blocks, index, json);
    }
    forall i | 0 <= i < |b.blocks| ensures |ToolsOf(Append(b, index, json).blocks[..i])| == |ToolsOf(b.blocks[..i])| {
      CountAfterAppend(b.blocks, index, json, i);
    }
  }

  // What the translator needs of each event, besides well placed blocks.
  predicate Representable(e: Event) {
    && (e.BlockStart? && e.kind.ToolBlock? ==> e.kind.id != "" && e.kind.name != "")
    && (e.MessageDelta? ==> TranslateStopReason(e.stopReason).Ok?)
  }

  lemma OkIsKept(b: Blocks, e: Event)
    requires Place(b, e).ok
    ensures b.ok
  {
  }

  // Any well placed event sequence with named tools is translated, and its
  // chunks assemble to the arriving text, the tools in block order renumbered
  // from zero, and the last finish reason.
  lemma {:induction false} FramesPreserveMeaning(model: string, events: seq<Event>)
    requires PlaceAll(NO_BLOCKS, events).ok && forall k :: 0 <= k < |events| ==> Representable(events[k])
    ensures Frames(New(model), events).Ok?
    ensures var out := Frames(New(model), events).value;
            var a := Assemble(ChunksFragments(out.1));
            && Linked(out.0, PlaceAll(NO_BLOCKS, events), a)
            && a.text == ArrivalText(events)
            && ChunksFinish(out.1) == LastFinish(events)
  {
    hide ToolsOf, Linked, Contribution, Frame, ChunksFragments, ChunksFinish;
    if events == [] {
      NothingTranslated(model);
    } else {
      var n := |events| - 1;
      OkIsKept(PlaceAll(NO_BLOCKS, events[..n]), events[n]);
      FramesPreserveMeaning(model, events[..n]);
      var before := Frames(New(model), events[..n]).value;
      StepPreservesMeaning(before.0, before.1, PlaceAll(NO_BLOCKS, events[..n]), events[n], ArrivalText(events[..n]));
    }
  }

  lemma NothingTranslated(model: string)
    ensures Linked(New(model), NO_BLOCKS, Assemble(ChunksFragments([]))) && ChunksFinish([]) == None
    ensures Assemble(ChunksFragments([])).text == ""
  {
  }

  lemma StepPreservesMeaning(t: Translator, chunks: seq<Chunk>, b: Blocks, e: Event, text: string)
    requires b.ok && Place(b, e).ok && Representable(e)
    requires Linked(t, b, Assemble(ChunksFragments(chunks))) && Assemble(ChunksFragments(chunks)).text == text
    ensures Frame(t, e).Ok?
    ensures var out := Frame(t, e).value;
            var a := Assemble(ChunksFragments(chunks + out.1));
            && Linked(out.0, Place(b, e), a)
            && a.text == text + (if e.TextDelta? then e.text else "")
            && ChunksFinish(chunks + out.1) == if e.MessageDelta? then Some(TranslateStopReason(e.stopReason).value) else ChunksFinish(chunks)
  {
    hide Linked, ChunksFragments, ChunksFinish, Frame, ToolsOf, Assemble, Place;
    FrameAccepts(t, b, Assemble(ChunksFragments(chunks)), e);
    FrameKeepsLink(t, b, Assemble(ChunksFragments(chunks)), e);
    FrameContributes(t, chunks, e);
    AbsorbOne(ChunksFragments(chunks), Contribution(e, t));
    assert "" + text == text && text + "" == text;
  }

  lemma FrameAccepts(t: Translator, b: Blocks, a: Assembled, e: Event)
    requires Linked(t, b, a) && b.ok && Place(b, e).ok && Representable(e)
    ensures Frame(t, e).Ok?
  {
    if e.JsonDelta? { JsonKeepsLink(t, b, a, e.index, e.json); }
  }

  lemma AbsorbOne(fs: seq<Fragment>, more: seq<Fragment>)
    requires |more| <= 1
    ensures Assemble(fs + more) == AbsorbAll(Assemble(fs), more)
  {
    if more == [] {
      assert fs + more == fs;
    } else {
      assert (fs + more)[..|fs|] == fs;
    }
  }

  // ----- The translator object -----

  class StreamTranslator {
    var id: string
    var model: string
    var toolIndices: map<int, int>
    var serverTools: set<int>
    var nextTool: int
    var sawVisible: bool
    var sawReasoning: bool
    var sawDropped: bool

    ghost function Value(): Translator
      reads this
    {
      Translator(id, model, toolIndices, serverTools, nextTool, sawVisible, sawReasoning, sawDropped)
    }

    constructor (model: string)
      ensures Value() == New(model)
    {
      this.id, this.model, toolIndices, serverTools, nextTool := "", model, map[], {}, 0;
      sawVisible, sawReasoning, sawDropped := false, false, false;
    }

    method Emit(choice: Choice) returns (r: Result<seq<Chunk>, string>)
      ensures r == Ok(ChunkOf(Value(), choice))
    {
      r := Ok([Chunk(id, model, [choice])]);
    }

    method WriteFrame(e: Event) returns (r: Result<seq<Chunk>, string>)
      modifies this
      ensures var frame := Frame(old(Value()), e);
              if r.Err? then frame == Err(r.error) && Value() == old(Value()) else frame == Ok((Value(), r.value))
    {
      match e {
        case MessageStart(newId, newModel) =>
          id := newId;
          if newModel != "" {
            model := newModel;
          }
          r := Emit(SILENT.(content := Some("")));
        case BlockStart(index, kind) =>
          if !kind.ToolBlock? {
            if kind.ServerToolBlock? {
              serverTools := serverTools + {index};
            }
            if !kind.TextBlock? && !kind.ThinkingBlock? {
              sawDropped := true;
            }
            return Ok([]);
          }
          if kind.id == "" || kind.name == "" {
            return Err(INVALID);
          }
          sawVisible := true;
          var tool := nextTool;
          nextTool := nextTool + 1;
          toolIndices := toolIndices[index := tool];
          r := Emit(SILENT.(toolCalls := [ToolFragment(tool, kind.id, kind.name, "")]));
        case TextDelta(_, text) =>
          if text != "" {
            sawVisible := true;
          }
          r := Emit(SILENT.(content := Some(text)));
        case ThinkingDelta(_, thinking) =>
          if thinking != "" {
            sawReasoning := true;
          }
          r := Emit(SILENT.(reasoning := thinking));
        case JsonDelta(index, json) =>
          if index in serverTools {
            return Ok([]);
          }
          if index !in toolIndices {
            return Err(INVALID);
          }
          r := Emit(SILENT.(toolCalls := [ToolFragment(toolIndices[index], "", "", json)]));
        case OtherDelta(_) =>
          sawDropped := true;
          r := Ok([]);
        case MessageDelta(stopReason, _) =>
          var finish := TranslateStopReason(stopReason);
          if finish.Err? {
            return Err(finish.error);
          }
          r := Emit(SILENT.(finishReason := Some(finish.value)));
        case _ =>
          r := Ok([]);
      }
    }
  }
}
