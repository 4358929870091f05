// Decoded stream chunks and events, and what each side's client assembles from
// them. JSON decoding and usage counters are not part of this model.
module StreamMessages {
  import opened Basics

  // ----- OpenAI chat completion chunks -----

  datatype ToolFragment = ToolFragment(index: int, id: string, name: string, arguments: string)

  datatype Choice = Choice(
    index: int, reasoning: string, content: Option<string>, refusal: string,
    toolCalls: seq<ToolFragment>, finishReason: Option<string>)

  datatype Chunk = Chunk(id: string, model: string, choices: seq<Choice>)

  // ----- Anthropic message events -----

  datatype BlockKind = TextBlock | ToolBlock(id: string, name: string) | ThinkingBlock | ServerToolBlock | OtherBlock

  datatype Event =
    | MessageStart(id: string, model: string)
    | BlockStart(index: int, kind: BlockKind)
    | TextDelta(index: int, text: string)
    | ThinkingDelta(index: int, thinking: string)
    | JsonDelta(index: int, json: string)
    | OtherDelta(index: int)
    | BlockStop(index: int)
    | MessageDelta(stopReason: Option<string>, stopSequence: Option<string>)
    | MessageStop
    | Ping

  // ----- The assembled message, common to both sides -----

  datatype Tool = Tool(id: string, name: string, arguments: string)

  // What choice 0 contributes, in arrival order. Refusal text is text.
  datatype Fragment = Text(text: string) | Call(call: ToolFragment)

  function CallFragments(calls: seq<ToolFragment>): seq<Fragment> {
    seq(|calls|, k requires 0 <= k < |calls| => Call(calls[k]))
  }

  function TextFragments(c: Choice): seq<Fragment> {
    (if c.content.Some? && c.content.value != "" then [Text(c.content.value)] else [])
    + (if c.refusal != "" then [Text(c.refusal)] else [])
  }

  function ChoiceFragments(c: Choice): seq<Fragment> {
    if c.index != 0 then [] else TextFragments(c) + CallFragments(c.toolCalls)
  }

  function ChoicesFragments(cs: seq<Choice>): seq<Fragment> {
    if cs == [] then [] else ChoicesFragments(cs[..|cs| - 1]) + ChoiceFragments(cs[|cs| - 1])
  }

  function ChunksFragments(chunks: seq<Chunk>): seq<Fragment> {
    if chunks == [] then [] else ChunksFragments(chunks[..|chunks| - 1]) + ChoicesFragments(chunks[|chunks| - 1].choices)
  }

  // The last non-empty finish reason of choice 0.
  function ChoicesFinish(cs: seq<Choice>): Option<string> {
    if cs == [] then None
    else
      var c := cs[|cs| - 1];
      if c.index == 0 && c.finishReason.Some? && c.finishReason.value != "" then c.finishReason
      else ChoicesFinish(cs[..|cs| - 1])
  }

  function ChunksFinish(chunks: seq<Chunk>): Option<string> {
    if chunks == [] then None
    else
      var last := ChoicesFinish(chunks[|chunks| - 1].choices);
      if last.Some? then last else ChunksFinish(chunks[..|chunks| - 1])
  }

  // Text in arrival order; tools in order of first appearance, with the id and
  // name of the first fragment and all argument fragments concatenated. slot
  // maps a call index to its position among the tools.
  datatype Assembled = Assembled(text: string, tools: seq<Tool>, slot: map<int, int>)

  function Absorb(a: Assembled, f: Fragment): Assembled {
    match f
    case Text(s) => a.(text := a.text + s)
    case Call(c) =>
      if c.index !in a.slot then
        Assembled(a.text, a.tools + [Tool(c.id, c.name, c.arguments)], a.slot[c.index := |a.tools|])
      else if 0 <= a.slot[c.index] < |a.tools| then
        var k := a.slot[c.index];
        a.(tools := a.tools[k := a.tools[k].(arguments := a.tools[k].arguments + c.arguments)])
      else a
  }

  function Assemble(fs: seq<Fragment>): Assembled {
    if fs == [] then Assembled("", [], map[]) else Absorb(Assemble(fs[..|fs| - 1]), fs[|fs| - 1])
  }

  // Calls are numbered by first appearance.
  ghost predicate Renumbered(a: Assembled) {
    && (forall i :: i in a.slot <==> 0 <= i < |a.tools|)
    && (forall i :: i in a.slot ==> a.slot[i] == i)
  }

  // ----- Assembling Anthropic events by block index -----

  datatype Block = Block(kind: BlockKind, body: string)

  // ok: every block starts at the next index and every delta fits its block.
  datatype Blocks = Blocks(blocks: seq<Block>, ok: bool)

  // Text goes to text blocks, argument JSON to client or server tool blocks.
  predicate Accepts(b: Blocks, index: int, text: bool) {
    && 0 <= index < |b.blocks|
    && var kind := b.blocks[index].kind;
       if text then kind.TextBlock? else kind.ToolBlock? || kind.ServerToolBlock?
  }

  function Append(b: Blocks, index: int, s: string): Blocks
    requires 0 <= index < |b.blocks|
  {
    b.(blocks := b.blocks[index := b.blocks[index].(body := b.blocks[index].body + s)])
  }

  function Place(b: Blocks, e: Event): Blocks {
    match e
    case BlockStart(index, kind) => Blocks(b.blocks + [Block(kind, "")], b.ok && index == |b.blocks|)
    case TextDelta(index, s) => if Accepts(b, index, true) then Append(b, index, s) else b.(ok := false)
    case JsonDelta(index, s) => if Accepts(b, index, false) then Append(b, index, s) else b.(ok := false)
    case _ => b
  }

  function PlaceAll(b: Blocks, events: seq<Event>): Blocks {
    if events == [] then b else Place(PlaceAll(b, events[..|events| - 1]), events[|events| - 1])
  }

  const NO_BLOCKS := Blocks([], true)

  // The text blocks in index order.
  function TextOf(blocks: seq<Block>): string {
    if blocks == [] then ""
    else
      var last := blocks[|blocks| - 1];
      TextOf(blocks[..|blocks| - 1]) + if last.kind.TextBlock? then last.body else ""
  }

  // The tool blocks in index order.
  function ToolsOf(blocks: seq<Block>): seq<Tool> {
    if blocks == [] then []
    else
      var last := blocks[|blocks| - 1];
      ToolsOf(blocks[..|blocks| - 1]) + if last.kind.ToolBlock? then [Tool(last.kind.id, last.kind.name, last.body)] else []
  }

  lemma {:induction false} PlaceAllConcat(b: Blocks, xs: seq<Event>, ys: seq<Event>)
    ensures PlaceAll(b, xs + ys) == PlaceAll(PlaceAll(b, xs), ys)
  {
    if ys == [] {
      assert xs + ys == xs;
    } else {
      var n := |ys| - 1;
      assert (xs + ys)[..|xs + ys| - 1] == xs + ys[..n];
      PlaceAllConcat(b, xs, ys[..n]);
    }
  }

  // Appending to block i of the blocks appends to its tool, the one at the
  // position that counts the tool blocks before it.
  lemma {:induction false} ToolsAfterAppend(blocks: seq<Block>, i: nat, s: string)
    requires i < |blocks| && blocks[i].kind.ToolBlock?
    ensures var k := |ToolsOf(blocks[..i])|;
            var longer := blocks[i := blocks[i].(body := blocks[i].body + s)];
            && k < |ToolsOf(blocks)|
            && ToolsOf(longer) == ToolsOf(blocks)[k := ToolsOf(blocks)[k].(arguments := ToolsOf(blocks)[k].arguments + s)]
            && TextOf(longer) == TextOf(blocks)
  {
    var longer := blocks[i := blocks[i].(body := blocks[i].body + s)];
    var n := |blocks| - 1;
    if i == n {
      assert longer[..n] == blocks[..n];
    } else {
      ToolsAfterAppend(blocks[..n], i, s);
      assert blocks[..n][..i] == blocks[..i];
      assert longer[..n] == blocks[..n][i := longer[i]];
    }
  }

  lemma {:induction false} ToolsAfterOtherAppend(blocks: seq<Block>, i: nat, s: string)
    requires i < |blocks| && !blocks[i].kind.ToolBlock?
    ensures ToolsOf(blocks[i := blocks[i].(body := blocks[i].body + s)]) == ToolsOf(blocks)
  {
    var longer := blocks[i := blocks[i].(body := blocks[i].body + s)];
    var n := |blocks| - 1;
    if i == n {
      assert longer[..n] == blocks[..n];
    } else {
      ToolsAfterOtherAppend(blocks[..n], i, s);
      assert longer[..n] == blocks[..n][i := longer[i]];
    }
  }

  // Growing a body does not change how many tool blocks come before an index.
  lemma {:induction false} CountAfterAppend(blocks: seq<Block>, j: nat, s: string, i: nat)
    requires j < |blocks| && i <= |blocks|
    ensures var longer := blocks[j := blocks[j].(body := blocks[j].body + s)];
            |ToolsOf(longer[..i])| == |ToolsOf(blocks[..i])|
  {
    var longer := blocks[j := blocks[j].(body := blocks[j].body + s)];
    if i > 0 {
      CountAfterAppend(blocks, j, s, i - 1);
      assert longer[..i][..i - 1] == longer[..i - 1];
      assert blocks[..i][..i - 1] == blocks[..i - 1];
    }
  }

  lemma TextAfterAppendToLast(blocks: seq<Block>, s: string)
    requires blocks != [] && blocks[|blocks| - 1].kind.TextBlock?
    ensures var n := |blocks| - 1;
            var longer := blocks[n := blocks[n].(body := blocks[n].body + s)];
            TextOf(longer) == TextOf(blocks) + s && ToolsOf(longer) == ToolsOf(blocks)
  {
    var n := |blocks| - 1;
    var longer := blocks[n := blocks[n].(body := blocks[n].body + s)];
    assert longer[..n] == blocks[..n];
  }

  lemma AfterNewBlock(blocks: seq<Block>, block: Block)
    ensures (blocks + [block])[..|blocks|] == blocks
    ensures TextOf(blocks + [block]) == TextOf(blocks) + if block.kind.TextBlock? then block.body else ""
    ensures ToolsOf(blocks + [block])
            == ToolsOf(blocks) + if block.kind.ToolBlock? then [Tool(block.kind.id, block.kind.name, block.body)] else []
  {
    assert (blocks + [block])[..|blocks|] == blocks;
  }
}
