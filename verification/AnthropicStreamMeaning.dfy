// Which Anthropic event sequences translate, and what their chunks carry, told
// from the events (internal/adapter/translate.go:1080-1217).
module AnthropicStreamMeaning {
  import opened Basics
  import opened StreamMessages
  import opened AnthropicStreamTranslator
  import M = StreamMeaning

  // ----- What was seen -----

  predicate ShowsSomething(e: Event) {
    (e.TextDelta? && e.text != "") || (e.BlockStart? && e.kind.ToolBlock?)
  }

  predicate Thinks(e: Event) {
    e.ThinkingDelta? && e.thinking != ""
  }

  // Content that the other protocol has no place for.
  predicate IsDropped(e: Event) {
    e.OtherDelta? || (e.BlockStart? && (e.kind.ServerToolBlock? || e.kind.OtherBlock?))
  }

  predicate StartsServerTool(e: Event, index: int) {
    e.BlockStart? && e.index == index && e.kind.ServerToolBlock?
  }

  predicate StartsTool(e: Event, index: int) {
    e.BlockStart? && e.index == index && e.kind.ToolBlock?
  }

  function ServerTool(index: int): Event -> bool {
    e => StartsServerTool(e, index)
  }

  function ClientTool(index: int): Event -> bool {
    e => StartsTool(e, index)
  }

  ghost predicate Before(events: seq<Event>, n: nat, p: Event -> bool) {
    exists k :: 0 <= k < n && k < |events| && p(events[k])
  }

  lemma BeforePush(events: seq<Event>, e: Event, p: Event -> bool)
    ensures Before(events + [e], |events| + 1, p) <==> Before(events, |events|, p) || p(e)
  {
    if Before(events, |events|, p) {
      var k :| 0 <= k < |events| && p(events[k]);
      assert p((events + [e])[k]);
    }
    if p(e) { assert p((events + [e])[|events|]); }
  }

  ghost predicate Seen(t: Translator, events: seq<Event>) {
    var n := |events|;
    && (t.sawVisible <==> Before(events, n, ShowsSomething))
    && (t.sawReasoning <==> Before(events, n, Thinks))
    && (t.sawDropped <==> Before(events, n, IsDropped))
    && (forall i :: i in t.serverTools <==> Before(events, n, ServerTool(i)))
    && (forall i :: i in t.toolIndices <==> Before(events, n, ClientTool(i)))
  }

  lemma StepIsSeen(t: Translator, events: seq<Event>, e: Event)
    requires Seen(t, events) && Frame(t, e).Ok?
    ensures Seen(Frame(t, e).value.0, events + [e])
  {
    hide Before;
    BeforePush(events, e, ShowsSomething);
    BeforePush(events, e, Thinks);
    BeforePush(events, e, IsDropped);
    forall i ensures Before(events + [e], |events| + 1, ServerTool(i))
                     <==> Before(events, |events|, ServerTool(i)) || StartsServerTool(e, i)
    {
      BeforePush(events, e, ServerTool(i));
    }
    forall i ensures Before(events + [e], |events| + 1, ClientTool(i))
                     <==> Before(events, |events|, ClientTool(i)) || StartsTool(e, i)
    {
      BeforePush(events, e, ClientTool(i));
    }
  }

  // ----- Which sequences translate -----

  // An event fits what came before it.
  ghost predicate Fits(events: seq<Event>, k: nat)
    requires k < |events|
  {
    match events[k]
    case BlockStart(_, ToolBlock(id, name)) => id != "" && name != ""
    case JsonDelta(index, _) =>
      Before(events, k, ServerTool(index)) || Before(events, k, ClientTool(index))
    case MessageDelta(reason, _) => M.Represented(reason)
    case _ => true
  }

  ghost predicate AllFit(events: seq<Event>) {
    forall k :: 0 <= k < |events| ==> Fits(events, k)
  }

  lemma FitsEarlier(events: seq<Event>, e: Event, k: nat)
    requires k < |events|
    ensures Fits(events + [e], k) == Fits(events, k)
  {
    var longer := events + [e];
    assert forall j :: 0 <= j < |events| ==> longer[j] == events[j];
    forall p: Event -> bool ensures Before(longer, k, p) == Before(events, k, p) {
      if Before(longer, k, p) {
        var j :| 0 <= j < k && j < |longer| && p(longer[j]);
        assert p(events[j]);
      }
    }
  }

  lemma FitsLast(t: Translator, events: seq<Event>, e: Event)
    requires Seen(t, events)
    ensures Frame(t, e).Ok? <==> Fits(events + [e], |events|)
  {
    M.DeltaFrame(t, e);
    var longer := events + [e];
    assert forall j :: 0 <= j < |events| ==> longer[j] == events[j];
    if e.JsonDelta? {
      SameBefore(events, e, ServerTool(e.index));
      SameBefore(events, e, ClientTool(e.index));
    }
  }

  lemma SameBefore(events: seq<Event>, e: Event, p: Event -> bool)
    ensures Before(events + [e], |events|, p) == Before(events, |events|, p)
  {
    var longer := events + [e];
    if Before(longer, |events|, p) {
      var j :| 0 <= j < |events| && j < |longer| && p(longer[j]);
      assert p(events[j]);
    }
    if Before(events, |events|, p) {
      var j :| 0 <= j < |events| && p(events[j]);
      assert p(longer[j]);
    }
  }

  lemma {:induction false} FramesTranslateIff(model: string, events: seq<Event>)
    ensures Frames(New(model), events).Ok? <==> AllFit(events)
    ensures Frames(New(model), events).Ok? ==> Seen(Frames(New(model), events).value.0, events)
  {
    hide Frame, Fits, Seen;
    if events == [] {
      NothingSeen(model);
    } else {
      var n := |events| - 1;
      var front := events[..n];
      assert events == front + [events[n]];
      FramesTranslateIff(model, front);
      forall k | 0 <= k < n ensures Fits(events, k) == Fits(front, k) { FitsEarlier(front, events[n], k); }
      if Frames(New(model), front).Ok? {
        var t := Frames(New(model), front).value.0;
        FitsLast(t, front, events[n]);
        if Frame(t, events[n]).Ok? { StepIsSeen(t, front, events[n]); }
      }
    }
  }

  lemma NothingSeen(model: string)
    ensures Seen(New(model), [])
  {
  }

  // Exactly these sequences translate: tools are named, arguments belong to a
  // tool that was started, stop reasons are known, and what has no place in the
  // other protocol is not all there is.
  lemma TranslatesIff(model: string, events: seq<Event>)
    ensures Translate(model, events).Ok? <==>
            && AllFit(events)
            && !(Before(events, |events|, IsDropped) && !Before(events, |events|, ShowsSomething)
                 && !Before(events, |events|, Thinks))
  {
    FramesTranslateIff(model, events);
    hide Frames, AllFit, Before;
  }

  // ----- Reasoning -----

  function Thoughts(events: seq<Event>): string {
    if events == [] then ""
    else
      var last := events[|events| - 1];
      Thoughts(events[..|events| - 1]) + if last.ThinkingDelta? then last.thinking else ""
  }

  function ChoicesReasoning(cs: seq<Choice>): string {
    if cs == [] then ""
    else
      var last := cs[|cs| - 1];
      ChoicesReasoning(cs[..|cs| - 1]) + if last.index == 0 then last.reasoning else ""
  }

  function Reasoning(chunks: seq<Chunk>): string {
    if chunks == [] then "" else Reasoning(chunks[..|chunks| - 1]) + ChoicesReasoning(chunks[|chunks| - 1].choices)
  }

  lemma FrameReasons(t: Translator, chunks: seq<Chunk>, e: Event)
    requires Frame(t, e).Ok?
    ensures Reasoning(chunks + Frame(t, e).value.1) == Reasoning(chunks) + if e.ThinkingDelta? then e.thinking else ""
  {
    var out := Frame(t, e).value.1;
    if out == [] {
      assert chunks + out == chunks;
    } else {
      assert |out| == 1 && |out[0].choices| == 1;
      assert (chunks + out)[..|chunks|] == chunks;
      assert out[0].choices[..0] == [];
      assert ChoicesReasoning([]) == "";
    }
  }

  // The thinking of the events is the reasoning of the chunks, in order.
  lemma {:induction false} ReasoningIsKept(model: string, events: seq<Event>)
    requires Frames(New(model), events).Ok?
    ensures Reasoning(Frames(New(model), events).value.1) == Thoughts(events)
  {
    hide Frame, Reasoning;
    if events == [] {
      NoReasoning();
    } else {
      var n := |events| - 1;
      ReasoningIsKept(model, events[..n]);
      var before := Frames(New(model), events[..n]).value;
      FrameReasons(before.0, before.1, events[n]);
    }
  }

  lemma NoReasoning()
    ensures Reasoning([]) == ""
  {
  }

  // ----- Identity -----

  ghost predicate LastStart(events: seq<Event>, k: nat) {
    k < |events| && events[k].MessageStart? && forall j :: k < j < |events| ==> !events[j].MessageStart?
  }

  // Chunks carry the identity and model of the message they belong to.
  lemma {:induction false} ChunksCarryIdentity(model: string, events: seq<Event>, k: nat, e: Event)
    requires Frames(New(model), events).Ok? && LastStart(events, k)
    requires Frame(Frames(New(model), events).value.0, e).Ok? && !e.MessageStart?
    ensures var out := Frame(Frames(New(model), events).value.0, e).value.1;
            forall i :: 0 <= i < |out| ==> out[i].id == events[k].id && (events[k].model != "" ==> out[i].model == events[k].model)
  {
    StateCarriesIdentity(model, events, k);
  }

  lemma {:induction false} StateCarriesIdentity(model: string, events: seq<Event>, k: nat)
    requires Frames(New(model), events).Ok? && LastStart(events, k)
    ensures var t := Frames(New(model), events).value.0;
            t.id == events[k].id && (events[k].model != "" ==> t.model == events[k].model)
    decreases |events|
  {
    var n := |events| - 1;
    FrameIdentity(Frames(New(model), events[..n]).value.0, events[n]);
    hide Frame;
    if k < n {
      assert LastStart(events[..n], k);
      StateCarriesIdentity(model, events[..n], k);
    }
  }

  lemma FrameIdentity(t: Translator, e: Event)
    requires Frame(t, e).Ok?
    ensures var s := Frame(t, e).value.0;
            && (e.MessageStart? ==> s.id == e.id && (e.model != "" ==> s.model == e.model))
            && (!e.MessageStart? ==> s.id == t.id && s.model == t.model)
  {
  }
}
