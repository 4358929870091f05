// internal/contentlog/content.go: many captures share one bounded, lossy queue
// and one writer. What does a terminal record that claims completeness promise?
module ContentLog {
  type Bytes = seq<bv8>

  datatype Direction = Input | Output

  datatype Body =
    | Chunk(direction: Direction, offset: nat, data: Bytes)
    | End(outcome: string, complete: bool, inputBytes: nat, outputBytes: nat)

  datatype Event = Event(capture: nat, number: nat, body: Body)

  // The running digests are represented by the bytes they cover. `history`
  // lists every event the capture emitted, queued or not.
  datatype Capture = Capture(
    number: nat, input: Bytes, output: Bytes, inputBytes: nat, outputBytes: nat,
    gap: bool, finished: bool, history: seq<Event>)

  datatype State = State(
    capacity: nat, queue: seq<Event>, written: seq<Event>, captures: map<nat, Capture>,
    closed: bool, dropped: nat, failures: nat)

  function Fresh(): Capture {
    Capture(0, [], [], 0, 0, false, false, [])
  }

  function Initial(capacity: nat): State {
    State(capacity, [], [], map[], false, 0, 0)
  }

  // ----- Steps -----

  // `fits`: the event was encoded within the size limit. `stored`: the write
  // of the event at the head of the queue succeeded. `failed`: handing off the
  // current file at the minute tick failed.
  datatype Action =
    | Start(id: nat)
    | Emit(owner: nat, body: Body, fits: bool)
    | WriteNext(stored: bool)
    | Tick(failed: bool)
    | Close

  function Observed(c: Capture, d: Direction): Bytes {
    if d.Input? then c.input else c.output
  }

  function Count(c: Capture, d: Direction): nat {
    if d.Input? then c.inputBytes else c.outputBytes
  }

  // A capture's owner emits chunks at the running count and then one terminal
  // event, whose claim was made of an earlier reading of the gap flag.
  predicate Legal(c: Capture, body: Body) {
    && !c.finished
    && match body
       case Chunk(d, offset, data) => data != [] && offset == Count(c, d)
       case End(outcome, complete, inputBytes, outputBytes) =>
         inputBytes == c.inputBytes && outputBytes == c.outputBytes && (complete ==> outcome == "success")
  }

  function Advanced(c: Capture, e: Event, queued: bool): Capture {
    var next := c.(number := c.number + 1, history := c.history + [e], gap := c.gap || !queued);
    match e.body
    case Chunk(d, offset, data) =>
      if d.Input? then next.(input := c.input + data, inputBytes := c.inputBytes + |data|)
      else next.(output := c.output + data, outputBytes := c.outputBytes + |data|)
    case End(_, _, _, _) => next.(finished := true)
  }

  predicate HasRoom(s: State, fits: bool) {
    fits && !s.closed && |s.queue| < s.capacity
  }

  function Emitted(s: State, id: nat, body: Body, fits: bool): State
    requires id in s.captures
  {
    var c := s.captures[id];
    var e := Event(id, c.number, body);
    var queued := HasRoom(s, fits);
    s.(captures := s.captures[id := Advanced(c, e, queued)],
       queue := if queued then s.queue + [e] else s.queue,
       dropped := if queued then s.dropped else s.dropped + 1)
  }

  // The writer withdraws the claim of a capture that has a gap by now.
  function Settled(e: Event, gap: bool): Event {
    if e.body.End? && gap then e.(body := e.body.(complete := false)) else e
  }

  function Wrote(s: State, stored: bool): State
    requires s.queue != [] && s.queue[0].capture in s.captures
  {
    var e := s.queue[0];
    var c := s.captures[e.capture];
    if stored then s.(queue := s.queue[1..], written := s.written + [Settled(e, c.gap)])
    else s.(queue := s.queue[1..], captures := s.captures[e.capture := c.(gap := true)], failures := s.failures + 1)
  }

  predicate Enabled(s: State, a: Action) {
    match a
    case Start(id) => id !in s.captures
    case Emit(id, body, _) => id in s.captures && Legal(s.captures[id], body)
    case WriteNext(_) => s.queue != [] && s.queue[0].capture in s.captures
    case Tick(_) => true
    case Close => true
  }

  function Apply(s: State, a: Action): State
    requires Enabled(s, a)
  {
    match a
    case Start(id) => s.(captures := s.captures[id := Fresh()])
    case Emit(id, body, fits) => Emitted(s, id, body, fits)
    case WriteNext(stored) => Wrote(s, stored)
    case Tick(failed) => s.(failures := if failed then s.failures + 1 else s.failures)
    case Close => s.(closed := true)
  }

  ghost predicate Run(capacity: nat, states: seq<State>, actions: seq<Action>) {
    && |states| == |actions| + 1 && states[0] == Initial(capacity)
    && forall i :: 0 <= i < |actions| ==> Enabled(states[i], actions[i]) && states[i + 1] == Apply(states[i], actions[i])
  }

  // ----- What a reader of the log sees of one capture -----

  function Of(events: seq<Event>, id: nat): seq<Event> {
    if events == [] then []
    else
      var last := events[|events| - 1];
      Of(events[..|events| - 1], id) + if last.capture == id then [last] else []
  }

  function Data(events: seq<Event>, d: Direction): Bytes {
    if events == [] then []
    else
      var last := events[|events| - 1].body;
      Data(events[..|events| - 1], d) + if last.Chunk? && last.direction == d then last.data else []
  }

  // Chunks numbered from zero, each starting where its direction left off.
  ghost predicate Contiguous(events: seq<Event>) {
    forall i {:trigger events[i]} :: 0 <= i < |events| ==>
      events[i].number == i && events[i].body.Chunk? && events[i].body.offset == |Data(events[..i], events[i].body.direction)|
  }

  // The terminal record at k tells the truth about the records before it.
  ghost predicate Certified(s: State, k: nat)
    requires k < |s.written| && s.written[k].body.End? && s.written[k].capture in s.captures
  {
    var end, c := s.written[k], s.captures[s.written[k].capture];
    var mine := Of(s.written[..k], end.capture);
    && end.body.outcome == "success" && end.number == |mine| && Contiguous(mine)
    && Data(mine, Input) == c.input && end.body.inputBytes == |c.input|
    && Data(mine, Output) == c.output && end.body.outputBytes == |c.output|
  }

  predicate Claims(e: Event) {
    e.body.End? && e.body.complete
  }

  // ----- The invariant -----

  // The events before the terminal one, if any.
  function Chunks(c: Capture): seq<Event>
    requires c.finished ==> c.history != []
  {
    if c.finished then c.history[..|c.history| - 1] else c.history
  }

  ghost predicate Consistent(id: nat, c: Capture) {
    && c.number == |c.history| && (c.finished ==> c.history != [])
    && (forall i :: 0 <= i < |c.history| ==> c.history[i].capture == id)
    && Contiguous(Chunks(c))
    && c.input == Data(Chunks(c), Input) && c.inputBytes == |c.input|
    && c.output == Data(Chunks(c), Output) && c.outputBytes == |c.output|
    && (c.finished ==> Truthful(c, c.history[|c.history| - 1]))
  }

  predicate Truthful(c: Capture, end: Event) {
    && end.body.End? && end.number + 1 == |c.history|
    && end.body.inputBytes == |c.input| && end.body.outputBytes == |c.output|
    && (end.body.complete ==> end.body.outcome == "success")
  }

  ghost predicate Intact(s: State, id: nat)
    requires id in s.captures
  {
    !s.captures[id].gap ==> Of(s.written, id) + Of(s.queue, id) == s.captures[id].history
  }

  ghost predicate Owned(events: seq<Event>, captures: map<nat, Capture>) {
    forall i :: 0 <= i < |events| ==> events[i].capture in captures
  }

  ghost predicate Sealed(s: State, k: nat)
    requires k < |s.written| && s.written[k].capture in s.captures
  {
    Claims(s.written[k]) ==> s.captures[s.written[k].capture].finished && Certified(s, k)
  }

  ghost predicate Inv(s: State) {
    && |s.queue| <= s.capacity
    && Owned(s.queue, s.captures) && Owned(s.written, s.captures)
    && (forall id :: id in s.captures ==> Consistent(id, s.captures[id]) && Intact(s, id))
    && (forall id :: id in s.captures && s.captures[id].gap ==> s.dropped + s.failures > 0)
    && (forall k :: 0 <= k < |s.written| ==> Sealed(s, k))
  }

  // ----- Lists -----

  lemma {:induction false} OfConcat(xs: seq<Event>, ys: seq<Event>, id: nat)
    ensures Of(xs + ys, id) == Of(xs, id) + Of(ys, id)
  {
    if ys == [] {
      assert xs + ys == xs;
    } else {
      var n := |ys| - 1;
      OfConcat(xs, ys[..n], id);
      assert (xs + ys)[..|xs| + n] == xs + ys[..n];
    }
  }

  lemma OfOne(e: Event, id: nat)
    ensures Of([e], id) == if e.capture == id then [e] else []
  {
    assert [e][..0] == [];
  }

  lemma {:induction false} OfAbsent(events: seq<Event>, captures: map<nat, Capture>, id: nat)
    requires Owned(events, captures) && id !in captures
    ensures Of(events, id) == []
  {
    if events != [] {
      OfAbsent(events[..|events| - 1], captures, id);
    }
  }

  lemma DataPush(events: seq<Event>, e: Event, d: Direction)
    ensures Data(events + [e], d) == Data(events, d) + if e.body.Chunk? && e.body.direction == d then e.body.data else []
  {
    assert (events + [e])[..|events|] == events;
  }

  lemma ContiguousPush(events: seq<Event>, e: Event)
    requires Contiguous(events) && e.number == |events| && e.body.Chunk?
    requires e.body.offset == |Data(events, e.body.direction)|
    ensures Contiguous(events + [e])
  {
    var all := events + [e];
    assert all[..|events|] == events;
    forall i {:trigger all[i]} | 0 <= i < |events| ensures all[..i] == events[..i] && all[i] == events[i] {}
  }

  // ----- Each step keeps the invariant -----

  lemma AdvancedIsConsistent(id: nat, c: Capture, body: Body, queued: bool)
    requires Consistent(id, c) && Legal(c, body)
    ensures Consistent(id, Advanced(c, Event(id, c.number, body), queued))
  {
    hide Data, Contiguous;
    var e := Event(id, c.number, body);
    var next := Advanced(c, e, queued);
    if body.Chunk? {
      DataPush(c.history, e, Input);
      DataPush(c.history, e, Output);
      ContiguousPush(c.history, e);
      assert c.input + [] == c.input && c.output + [] == c.output;
      assert Chunks(next) == c.history + [e];
    } else {
      assert next.history[..|c.history|] == c.history;
    }
  }

  lemma QueuePush(s: State, id: nat, e: Event)
    requires id in s.captures
    ensures Of(s.queue + [e], id) == Of(s.queue, id) + if e.capture == id then [e] else []
  {
    OfConcat(s.queue, [e], id);
    OfOne(e, id);
  }

  lemma EmitKeepsIntact(s: State, id: nat, body: Body, fits: bool, other: nat)
    requires id in s.captures && other in s.captures && Intact(s, other)
    ensures Intact(Emitted(s, id, body, fits), other)
  {
    hide Of;
    var e := Event(id, s.captures[id].number, body);
    QueuePush(s, other, e);
    assert Of(s.queue, other) + [] == Of(s.queue, other);
    assert (Of(s.written, other) + Of(s.queue, other)) + [e] == Of(s.written, other) + (Of(s.queue, other) + [e]);
  }

  lemma EmitKeepsSealed(s: State, id: nat, body: Body, fits: bool, k: nat)
    requires id in s.captures && !s.captures[id].finished
    requires k < |s.written| && s.written[k].capture in s.captures && Sealed(s, k)
    ensures Sealed(Emitted(s, id, body, fits), k)
  {
    hide Of, Data, Contiguous;
  }

  lemma EmitKeepsConsistent(s: State, id: nat, body: Body, fits: bool, other: nat)
    requires id in s.captures && Legal(s.captures[id], body) && other in s.captures
    requires Consistent(id, s.captures[id]) && Consistent(other, s.captures[other])
    ensures Consistent(other, Emitted(s, id, body, fits).captures[other])
  {
    hide Consistent;
    if other == id { AdvancedIsConsistent(id, s.captures[id], body, HasRoom(s, fits)); }
  }

  lemma EmitKeepsInv(s: State, id: nat, body: Body, fits: bool)
    requires Inv(s) && id in s.captures && Legal(s.captures[id], body)
    ensures Inv(Emitted(s, id, body, fits))
  {
    hide Consistent, Intact, Sealed;
    var t := Emitted(s, id, body, fits);
    assert t.captures.Keys == s.captures.Keys;
    forall other | other in t.captures ensures Consistent(other, t.captures[other]) && Intact(t, other) {
      EmitKeepsConsistent(s, id, body, fits, other);
      EmitKeepsIntact(s, id, body, fits, other);
    }
    forall k | 0 <= k < |t.written| ensures t.written[k].capture in t.captures && Sealed(t, k) {
      EmitKeepsSealed(s, id, body, fits, k);
    }
  }

  lemma StartKeepsCapture(s: State, id: nat, other: nat)
    requires Owned(s.queue, s.captures) && Owned(s.written, s.captures) && id !in s.captures
    requires other in s.captures ==> Consistent(other, s.captures[other]) && Intact(s, other)
    requires other in s.captures || other == id
    ensures var t := s.(captures := s.captures[id := Fresh()]);
            Consistent(other, t.captures[other]) && Intact(t, other)
  {
    if other == id {
      OfAbsent(s.written, s.captures, id);
      OfAbsent(s.queue, s.captures, id);
    }
  }

  lemma StartKeepsSealed(s: State, id: nat, k: nat)
    requires id !in s.captures && k < |s.written| && s.written[k].capture in s.captures && Sealed(s, k)
    ensures Sealed(s.(captures := s.captures[id := Fresh()]), k)
  {
    hide Of, Data, Contiguous;
  }

  lemma StartKeepsInv(s: State, id: nat)
    requires Inv(s) && id !in s.captures
    ensures Inv(s.(captures := s.captures[id := Fresh()]))
  {
    hide Consistent, Intact, Sealed;
    var t := s.(captures := s.captures[id := Fresh()]);
    forall other | other in t.captures ensures Consistent(other, t.captures[other]) && Intact(t, other) {
      StartKeepsCapture(s, id, other);
    }
    forall k | 0 <= k < |t.written| ensures t.written[k].capture in t.captures && Sealed(t, k) {
      StartKeepsSealed(s, id, k);
    }
  }

  lemma HeadOfQueue(s: State, id: nat)
    requires s.queue != []
    ensures Of(s.queue, id) == (if s.queue[0].capture == id then [s.queue[0]] else []) + Of(s.queue[1..], id)
  {
    assert s.queue == [s.queue[0]] + s.queue[1..];
    OfConcat([s.queue[0]], s.queue[1..], id);
    OfOne(s.queue[0], id);
  }

  // The files and the queue together lose nothing when the head is written.
  lemma MovedToFile(s: State, id: nat, out: Event)
    requires s.queue != [] && out.capture == s.queue[0].capture
    ensures Of(s.written + [out], id) + Of(s.queue[1..], id)
            == Of(s.written, id) + ((if out.capture == id then [out] else []) + Of(s.queue[1..], id))
  {
    OfConcat(s.written, [out], id);
    OfOne(out, id);
    hide Of;
    var w, q := Of(s.written, id), Of(s.queue[1..], id);
    var mine := if out.capture == id then [out] else [];
    assert (w + mine) + q == w + (mine + q);
  }

  lemma WriteKeepsIntact(s: State, stored: bool, id: nat)
    requires s.queue != [] && s.queue[0].capture in s.captures && id in s.captures && Intact(s, id)
    ensures Intact(Wrote(s, stored), id)
  {
    HeadOfQueue(s, id);
    var e := s.queue[0];
    MovedToFile(s, id, Settled(e, s.captures[e.capture].gap));
    hide Of;
    var q := Of(s.queue[1..], id);
    assert [] + q == q;
  }

  lemma WriteKeepsSealed(s: State, stored: bool, k: nat)
    requires s.queue != [] && s.queue[0].capture in s.captures
    requires k < |s.written| && s.written[k].capture in s.captures && Sealed(s, k)
    ensures Sealed(Wrote(s, stored), k)
  {
    hide Of, Data, Contiguous;
    assert stored ==> Wrote(s, stored).written[..k] == s.written[..k];
  }

  // A claim that survives to the file has nothing of its capture behind it in
  // the queue and everything of it in the file already.
  lemma ClaimIsSealed(s: State)
    requires Inv(s) && s.queue != []
    ensures Sealed(Wrote(s, true), |s.written|)
  {
    hide Data, Contiguous, Of;
    var t := Wrote(s, true);
    var e := s.queue[0];
    var c := s.captures[e.capture];
    if Claims(t.written[|s.written|]) {
      assert Consistent(e.capture, c) && Intact(s, e.capture);
      HeadOfQueue(s, e.capture);
      var mine := Of(s.written, e.capture);
      assert c.history == mine + ([e] + Of(s.queue[1..], e.capture));
      assert c.history[|mine|] == e;
      if |mine| < |Chunks(c)| {
        assert Chunks(c)[|mine|] == e;
        ContiguousIsChunks(Chunks(c), |mine|);
      }
      assert c.finished && Chunks(c) == mine;
      assert t.written[..|s.written|] == s.written;
    }
  }

  lemma ContiguousIsChunks(events: seq<Event>, i: nat)
    requires Contiguous(events) && i < |events|
    ensures events[i].body.Chunk?
  {
  }

  lemma WriteKeepsConsistent(s: State, stored: bool, id: nat)
    requires s.queue != [] && s.queue[0].capture in s.captures && id in s.captures && Consistent(id, s.captures[id])
    ensures Consistent(id, Wrote(s, stored).captures[id])
  {
    hide Data, Contiguous;
  }

  lemma WriteKeepsInv(s: State, stored: bool)
    requires Inv(s) && s.queue != []
    ensures Inv(Wrote(s, stored))
  {
    hide Consistent, Intact, Sealed;
    var t := Wrote(s, stored);
    assert t.captures.Keys == s.captures.Keys;
    forall id | id in t.captures ensures Consistent(id, t.captures[id]) && Intact(t, id) {
      WriteKeepsConsistent(s, stored, id);
      WriteKeepsIntact(s, stored, id);
    }
    forall k | 0 <= k < |t.written| ensures t.written[k].capture in t.captures && Sealed(t, k) {
      if k < |s.written| { WriteKeepsSealed(s, stored, k); } else { ClaimIsSealed(s); }
    }
  }

  lemma StepKeepsInv(s: State, a: Action)
    requires Inv(s) && Enabled(s, a)
    ensures Inv(Apply(s, a))
  {
    hide Inv;
    match a
    case Start(id) => StartKeepsInv(s, id);
    case Emit(id, body, fits) => EmitKeepsInv(s, id, body, fits);
    case WriteNext(stored) => WriteKeepsInv(s, stored);
    case Tick(failed) => TickKeepsInv(s, failed);
    case Close => CloseKeepsInv(s);
  }

  lemma CloseKeepsInv(s: State)
    requires Inv(s)
    ensures Inv(s.(closed := true))
  {
    var t := s.(closed := true);
    forall id | id in t.captures ensures Intact(t, id) { assert Intact(s, id); }
    forall k | 0 <= k < |t.written| ensures Sealed(t, k) { assert Sealed(s, k); }
    hide Consistent, Intact, Sealed;
  }

  lemma TickKeepsInv(s: State, failed: bool)
    requires Inv(s)
    ensures Inv(s.(failures := if failed then s.failures + 1 else s.failures))
  {
    var t := s.(failures := if failed then s.failures + 1 else s.failures);
    forall id | id in t.captures ensures Intact(t, id) { assert Intact(s, id); }
    forall k | 0 <= k < |t.written| ensures Sealed(t, k) { assert Sealed(s, k); }
    hide Consistent, Intact, Sealed;
  }

  lemma {:induction false} RunKeepsInv(capacity: nat, states: seq<State>, actions: seq<Action>, i: nat)
    requires Run(capacity, states, actions) && i < |states|
    ensures Inv(states[i])
  {
    hide Inv, Apply, Enabled;
    if i == 0 {
      InitialInv(capacity);
    } else {
      RunKeepsInv(capacity, states, actions, i - 1);
      StepKeepsInv(states[i - 1], actions[i - 1]);
    }
  }

  lemma InitialInv(capacity: nat)
    ensures Inv(Initial(capacity))
  {
  }

  // ----- Main results -----

  // Under any interleaving of captures, drops and write failures: a written
  // record that claims completeness has every chunk of its capture before it.
  lemma CompleteMeansComplete(capacity: nat, states: seq<State>, actions: seq<Action>, i: nat, k: nat)
    requires Run(capacity, states, actions) && i < |states|
    requires k < |states[i].written| && Claims(states[i].written[k])
    ensures states[i].written[k].capture in states[i].captures && Certified(states[i], k)
  {
    RunKeepsInv(capacity, states, actions, i);
    var s := states[i];
    hide Run, Certified, Consistent, Intact;
    assert Sealed(s, k);
  }

  // The claim is not withheld for nothing: while nothing was dropped and no
  // write failed, a drained log holds exactly what each capture emitted.
  lemma LosslessRunKeepsEverything(capacity: nat, states: seq<State>, actions: seq<Action>, i: nat, id: nat)
    requires Run(capacity, states, actions) && i < |states| && id in states[i].captures
    requires states[i].dropped == 0 && states[i].failures == 0 && states[i].queue == []
    ensures Of(states[i].written, id) == states[i].captures[id].history
  {
    RunKeepsInv(capacity, states, actions, i);
    var s := states[i];
    hide Run, Sealed, Consistent;
    assert Intact(s, id);
    assert Of(s.written, id) + [] == Of(s.written, id);
  }
}
