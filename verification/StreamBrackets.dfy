// When the translated events are properly bracketed: message_start, blocks
// numbered 0, 1, 2, ... with every delta inside its own block, then
// message_delta and message_stop.
module StreamBrackets {
  import opened Basics
  import opened StreamMessages
  import opened OpenAIStreamTranslator

  datatype Phase =
    | Unstarted
    | Between(next: int)
    | Inside(index: int, text: bool)
    | Closed
    | Finished
    | Broken

  function Advance(p: Phase, e: Event): Phase {
    if p.Unstarted? && e.MessageStart? then Between(0)
    else if p.Between? && e.BlockStart? && e.index == p.next then Inside(p.next, e.kind.TextBlock?)
    else if p.Between? && e.MessageDelta? then Closed
    else if p.Inside? && p.text && e.TextDelta? && e.index == p.index then p
    else if p.Inside? && !p.text && e.JsonDelta? && e.index == p.index then p
    else if p.Inside? && e.BlockStop? && e.index == p.index then Between(p.index + 1)
    else if p.Closed? && e.MessageStop? then Finished
    else Broken
  }

  function AdvanceAll(p: Phase, events: seq<Event>): Phase {
    if events == [] then p else Advance(AdvanceAll(p, events[..|events| - 1]), events[|events| - 1])
  }

  predicate Bracketed(events: seq<Event>) {
    AdvanceAll(Unstarted, events) == Finished
  }

  // A fragment of a call that was seen before follows a fragment of that call.
  predicate Contiguous(fs: seq<Fragment>) {
    forall k :: 0 <= k < |fs| && fs[k].Call? && !FirstOfCall(fs, k) ==> Repeats(fs, k)
  }

  predicate Repeats(fs: seq<Fragment>, k: nat) {
    0 < k < |fs| && fs[k].Call? && fs[k - 1].Call? && fs[k - 1].call.index == fs[k].call.index
  }

  lemma {:induction false} AdvanceConcat(p: Phase, xs: seq<Event>, ys: seq<Event>)
    ensures AdvanceAll(p, xs + ys) == AdvanceAll(AdvanceAll(p, xs), ys)
  {
    if ys == [] {
      assert xs + ys == xs;
    } else {
      var n := |ys| - 1;
      assert (xs + ys)[..|xs + ys| - 1] == xs + ys[..n];
      AdvanceConcat(p, xs, ys[..n]);
    }
  }

  lemma AdvanceOne(p: Phase, e: Event)
    ensures AdvanceAll(p, [e]) == Advance(p, e)
  {
    assert [e][..0] == [];
  }

  lemma AdvanceStop(s: Cursor, p: Phase)
    ensures AdvanceAll(p, StopActive(s)) == if s.activeType == NoBlock then p else Advance(p, BlockStop(s.activeIndex))
  {
    if s.activeType != NoBlock { AdvanceOne(p, BlockStop(s.activeIndex)); }
  }

  lemma AdvanceArguments(p: Phase, index: int, arguments: string)
    ensures AdvanceAll(p, Arguments(index, arguments)) == if arguments == "" then p else Advance(p, JsonDelta(index, arguments))
  {
    if arguments != "" { AdvanceOne(p, JsonDelta(index, arguments)); }
  }

  function AfterStop(s: Cursor, p: Phase): Phase {
    if s.activeType == NoBlock then p else Advance(p, BlockStop(s.activeIndex))
  }

  // The phase after the events of one fragment.
  function AfterFragment(s: Cursor, p: Phase, f: Fragment): Phase {
    if f.Text? then
      if s.activeType == TextActive then Advance(p, TextDelta(s.activeIndex, f.text))
      else Advance(Advance(AfterStop(s, p), BlockStart(s.nextIndex, TextBlock)), TextDelta(s.nextIndex, f.text))
    else
      var c := f.call;
      var index := if c.index in s.toolIndices then s.toolIndices[c.index] else s.nextIndex;
      var here :=
        if c.index !in s.toolIndices then Advance(AfterStop(s, p), BlockStart(index, ToolBlock(c.id, c.name)))
        else if s.activeType == ToolActive && s.activeIndex == index then p
        else AfterStop(s, p);
      if c.arguments == "" then here else Advance(here, JsonDelta(index, c.arguments))
  }

  lemma AdvanceFeed(s: Cursor, p: Phase, f: Fragment)
    requires Feed(s, f).Ok?
    ensures AdvanceAll(p, Feed(s, f).value.1) == AfterFragment(s, p, f)
  {
    hide AdvanceAll;
    AdvanceStop(s, p);
    match f {
      case Text(text) =>
        var start := [BlockStart(s.nextIndex, TextBlock)];
        AdvanceOne(p, TextDelta(s.activeIndex, text));
        AdvanceConcat(p, StopActive(s), start);
        AdvanceConcat(p, StopActive(s) + start, [TextDelta(s.nextIndex, text)]);
        AdvanceOne(AdvanceAll(p, StopActive(s)), start[0]);
        AdvanceOne(AdvanceAll(p, StopActive(s) + start), TextDelta(s.nextIndex, text));
      case Call(c) =>
        var index := if c.index in s.toolIndices then s.toolIndices[c.index] else s.nextIndex;
        var start := [BlockStart(s.nextIndex, ToolBlock(c.id, c.name))];
        AdvanceArguments(p, index, c.arguments);
        AdvanceConcat(p, StopActive(s), start);
        AdvanceOne(AdvanceAll(p, StopActive(s)), start[0]);
        AdvanceConcat(p, StopActive(s) + start, Arguments(index, c.arguments));
        AdvanceArguments(AdvanceAll(p, StopActive(s) + start), index, c.arguments);
        AdvanceConcat(p, StopActive(s), Arguments(index, c.arguments));
        AdvanceArguments(AdvanceAll(p, StopActive(s)), index, c.arguments);
    }
  }

  // While fragments are contiguous the phase is inside the newest block, which
  // is the block of the last fragment; once they are not, a block is open that
  // was already stopped, and the next event breaks the bracketing.
  ghost predicate Tracks(fs: seq<Fragment>, s: Cursor, p: Phase) {
    && (forall i, j :: i in s.toolIndices && j in s.toolIndices && i != j ==> s.toolIndices[i] != s.toolIndices[j])
    && (forall i :: i in s.toolIndices ==> s.toolIndices[i] < s.nextIndex)
    && (s.activeType == NoBlock <==> fs == [])
    && if fs == [] then p == Between(0) && s.nextIndex == 0
       else if Contiguous(fs) then
         var last := fs[|fs| - 1];
         && p == Inside(s.activeIndex, last.Text?) && s.activeIndex == s.nextIndex - 1
         && (s.activeType == TextActive <==> last.Text?)
         && (last.Call? ==> last.call.index in s.toolIndices && s.toolIndices[last.call.index] == s.activeIndex)
       else p == Broken || p.Between?
  }

  lemma ContiguousStep(fs: seq<Fragment>, f: Fragment)
    ensures Contiguous(fs + [f]) <==> Contiguous(fs) && (f.Call? && !FirstOfCall(fs + [f], |fs|) ==> Repeats(fs + [f], |fs|))
  {
    var longer := fs + [f];
    assert longer[|fs|] == f;
    forall k | 0 <= k < |fs|
      ensures FirstOfCall(longer, k) == FirstOfCall(fs, k) && Repeats(longer, k) == Repeats(fs, k) && longer[k] == fs[k]
    {
      SameBefore(fs, f, k);
    }
    hide FirstOfCall, Repeats;
  }

  lemma SameBefore(fs: seq<Fragment>, f: Fragment, k: nat)
    requires k < |fs|
    ensures var longer := fs + [f];
            FirstOfCall(longer, k) == FirstOfCall(fs, k) && Repeats(longer, k) == Repeats(fs, k) && longer[k] == fs[k]
  {
    assert forall j :: 0 <= j <= k ==> (fs + [f])[j] == fs[j];
  }

  lemma TextKeepsTracks(fs: seq<Fragment>, s: Cursor, p: Phase, text: string)
    requires Tracks(fs, s, p)
    ensures Tracks(fs + [Text(text)], FeedText(s, text).0, AfterFragment(s, p, Text(text)))
  {
    hide Contiguous, FirstOfCall, Repeats;
    ContiguousStep(fs, Text(text));
    assert (fs + [Text(text)])[|fs|] == Text(text);
    if fs == [] { EmptyIsContiguous(); }
  }

  lemma NewCallKeepsTracks(fs: seq<Fragment>, s: Cursor, p: Phase, c: ToolFragment)
    requires Tracks(fs, s, p) && c.index !in s.toolIndices && FeedCall(s, c).Ok?
    requires FirstOfCall(fs + [Call(c)], |fs|)
    ensures Tracks(fs + [Call(c)], FeedCall(s, c).value.0, AfterFragment(s, p, Call(c)))
  {
    hide Contiguous, FirstOfCall, Repeats;
    ContiguousStep(fs, Call(c));
    assert (fs + [Call(c)])[|fs|] == Call(c);
    if fs == [] { EmptyIsContiguous(); }
  }

  lemma KnownCallKeepsTracks(fs: seq<Fragment>, s: Cursor, p: Phase, c: ToolFragment)
    requires Tracks(fs, s, p) && c.index in s.toolIndices && fs != []
    requires !FirstOfCall(fs + [Call(c)], |fs|)
    ensures Tracks(fs + [Call(c)], FeedCall(s, c).value.0, AfterFragment(s, p, Call(c)))
  {
    hide Contiguous, FirstOfCall;
    ContiguousStep(fs, Call(c));
    var longer := fs + [Call(c)];
    assert longer[|fs|] == Call(c) && longer[|fs| - 1] == fs[|fs| - 1];
    // While contiguous, the active block is c's block exactly when c repeats.
    assert Contiguous(fs) ==>
        (Repeats(longer, |fs|) <==> s.activeType == ToolActive && s.activeIndex == s.toolIndices[c.index]);
  }

  lemma FeedKeepsTracks(fs: seq<Fragment>, s: Cursor, p: Phase, f: Fragment)
    requires Tracks(fs, s, p) && s.toolIndices.Keys == Indices(fs) && Feed(s, f).Ok?
    ensures Tracks(fs + [f], Feed(s, f).value.0, AdvanceAll(p, Feed(s, f).value.1))
  {
    hide Contiguous, AdvanceAll, Indices, Tracks, AfterFragment, FirstOfCall;
    AdvanceFeed(s, p, f);
    assert (fs + [f])[..|fs|] == fs && (fs + [f])[|fs|] == f;
    IndicesStep(fs + [f]);
    if f.Text? {
      TextKeepsTracks(fs, s, p, f.text);
    } else if f.call.index !in s.toolIndices {
      NewCallKeepsTracks(fs, s, p, f.call);
    } else {
      NoIndices();
      KnownCallKeepsTracks(fs, s, p, f.call);
    }
  }

  lemma NoIndices()
    ensures Indices([]) == {}
  {
  }

  function Begun(index: int, id: string): Chunk {
    Chunk("", "", [Choice(0, "", None, "", [ToolFragment(index, id, "f", "")], None)])
  }

  function Continued(index: int): Chunk {
    Chunk("", "", [Choice(0, "", None, "", [ToolFragment(index, "", "", "{}")], Some("tool_calls"))])
  }

  lemma OneChunkOfOneCall(c: ToolFragment, finish: Option<string>)
    ensures ChoicesFragments([Choice(0, "", None, "", [c], finish)]) == [Call(c)]
    ensures ChoicesFinish([Choice(0, "", None, "", [c], finish)])
            == if finish.Some? && finish.value != "" then finish else None
  {
    var choice := Choice(0, "", None, "", [c], finish);
    assert [choice][..0] == [];
    assert ChoiceFragments(choice) == [Call(c)];
    assert ChoicesFragments([choice]) == [] + [Call(c)];
    assert ChoicesFinish([]) == None;
  }

  // Two calls whose fragments interleave: the stream is accepted, so it keeps
  // its meaning, but its events are not bracketed.
  lemma InterleavedCallsAreNotBracketed(model: string)
    ensures var chunks := [Begun(0, "a"), Begun(1, "b"), Continued(0)];
            Translate(model, chunks).Ok? && !Contiguous(ChunksFragments(chunks)) && !Bracketed(Translate(model, chunks).value)
  {
    var chunks := [Begun(0, "a"), Begun(1, "b"), Continued(0)];
    var x, y, z := ToolFragment(0, "a", "f", ""), ToolFragment(1, "b", "f", ""), ToolFragment(0, "", "", "{}");
    OneChunkOfOneCall(x, None);
    OneChunkOfOneCall(y, None);
    OneChunkOfOneCall(z, Some("tool_calls"));
    hide ChoicesFragments, ChoicesFinish;
    assert chunks[..2][..1] == [chunks[0]] && [chunks[0]][..0] == [] && chunks[..2] == [chunks[0], chunks[1]];
    assert ChunksFragments([chunks[0]]) == [] + [Call(x)] == [Call(x)];
    assert ChunksFragments(chunks[..2]) == [Call(x), Call(y)];
    var fs := ChunksFragments(chunks);
    assert fs == [Call(x), Call(y), Call(z)];
    assert ChunksFinish(chunks) == Some("tool_calls");
    InterleavedIsNamed(fs, x, y, z);
    hide ChunksFragments, ChunksFinish, Contiguous, Named;
    AcceptedIff(model, chunks);
    BracketedIffContiguous(model, chunks);
  }

  lemma InterleavedIsNamed(fs: seq<Fragment>, x: ToolFragment, y: ToolFragment, z: ToolFragment)
    requires fs == [Call(x), Call(y), Call(z)] && x.index == z.index != y.index
    requires x.id != "" && x.name != "" && y.id != "" && y.name != ""
    ensures Named(fs) && !Contiguous(fs)
  {
    assert fs[0].call.index == fs[2].call.index;
    assert !FirstOfCall(fs, 2) && !Repeats(fs, 2);
  }

  lemma EmptyIsContiguous()
    ensures Contiguous([])
  {
  }

  lemma NothingTracks()
    ensures FeedAll(START, []).Ok? && Tracks([], FeedAll(START, []).value.0, AdvanceAll(Between(0), FeedAll(START, []).value.1))
  {
  }

  lemma {:induction false} FeedAllTracks(fs: seq<Fragment>)
    requires FeedAll(START, fs).Ok?
    ensures Tracks(fs, FeedAll(START, fs).value.0, AdvanceAll(Between(0), FeedAll(START, fs).value.1))
  {
    hide Tracks, AdvanceAll, Feed, Contiguous, Named, Indices;
    if fs == [] {
      NothingTracks();
    } else {
      var n := |fs| - 1;
      FeedAllTracks(fs[..n]);
      FedWhenNamed(fs[..n]);
      var before := FeedAll(START, fs[..n]).value;
      FeedKeepsTracks(fs[..n], before.0, AdvanceAll(Between(0), before.1), fs[n]);
      AdvanceConcat(Between(0), before.1, Feed(before.0, fs[n]).value.1);
      assert fs == fs[..n] + [fs[n]];
    }
  }

  // The events of an accepted stream are bracketed exactly when every call's
  // fragments are contiguous.
  lemma BracketedIffContiguous(model: string, chunks: seq<Chunk>)
    requires Translate(model, chunks).Ok?
    ensures Bracketed(Translate(model, chunks).value) <==> Contiguous(ChunksFragments(chunks))
  {
    hide Contiguous, AdvanceAll, FeedAll, Translate, ChunksFragments;
    TranslatedShape(model, chunks);
    var events := Translate(model, chunks).value;
    var fs := ChunksFragments(chunks);
    var fed := FeedAll(START, fs).value;
    var stop := TranslateStopReason(ChunksFinish(chunks)).value;
    FeedAllTracks(fs);
    var start, delta := events[0], MessageDelta(Some(stop), None);
    var upTo := fed.1 + StopActive(fed.0);
    assert events == [start] + (upTo + [delta] + [MessageStop]);
    AdvanceOne(Unstarted, start);
    AdvanceConcat(Unstarted, [start], upTo + [delta] + [MessageStop]);
    AdvanceConcat(Between(0), upTo + [delta], [MessageStop]);
    AdvanceConcat(Between(0), upTo, [delta]);
    AdvanceConcat(Between(0), fed.1, StopActive(fed.0));
    AdvanceStop(fed.0, AdvanceAll(Between(0), fed.1));
    AdvanceOne(AdvanceAll(Between(0), upTo), delta);
    AdvanceOne(AdvanceAll(Between(0), upTo + [delta]), MessageStop);
    if fs == [] { EmptyIsContiguous(); }
  }
}
