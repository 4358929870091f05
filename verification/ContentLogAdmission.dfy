// Which events the log takes, and that it loses none without counting it
// (internal/contentlog/content.go:150-217, 372-412).
module ContentLogAdmission {
  import opened ContentLog
  import opened ContentLogWriter

  // An event that is small enough is taken while the log is open and its queue
  // has room; any other is counted and leaves a gap in its capture.
  lemma EmittedMeans(s: State, id: nat, body: Body, rendered: Event -> nat)
    requires id in s.captures
    ensures var t := EmitOne(s, id, body, rendered);
            var e := Event(id, s.captures[id].number, body);
            var taken := rendered(e) < 65_536 && !s.closed && |s.queue| < s.capacity;
            && (taken ==> t.queue == s.queue + [e] && t.dropped == s.dropped && t.captures[id].gap == s.captures[id].gap)
            && (!taken ==> t.queue == s.queue && t.dropped == s.dropped + 1 && t.captures[id].gap)
            && t.written == s.written && t.failures == s.failures && t.closed == s.closed
            && t.captures[id].number == s.captures[id].number + 1 && t.captures[id].history == s.captures[id].history + [e]
            && t.captures.Keys == s.captures.Keys && forall other :: other in s.captures && other != id ==> t.captures[other] == s.captures[other]
  {
  }

  // The writer takes events in their order. A stored one is written as it was
  // emitted, but for a claim of a capture that has a gap; a lost one is counted
  // and leaves a gap.
  lemma WroteMeans(s: State, stored: bool)
    requires s.queue != [] && s.queue[0].capture in s.captures
    ensures var t, e := Wrote(s, stored), s.queue[0];
            && t.queue == s.queue[1..] && t.dropped == s.dropped && t.closed == s.closed
            && (stored ==>
                  && |t.written| == |s.written| + 1 && t.written[..|s.written|] == s.written
                  && t.failures == s.failures && t.captures == s.captures
                  && var w := t.written[|s.written|];
                     && (e.body.Chunk? || !s.captures[e.capture].gap ==> w == e)
                     && (e.body.End? && s.captures[e.capture].gap ==> w == e.(body := e.body.(complete := false))))
            && (!stored ==> t.written == s.written && t.failures == s.failures + 1 && t.captures[e.capture].gap)
  {
  }

  // A chunk adds its bytes to its own direction; an end finishes its capture.
  lemma AdvancedMeans(c: Capture, e: Event, queued: bool)
    ensures var d := Advanced(c, e, queued);
            && (e.body.Chunk? && e.body.direction == Input ==>
                  d.input == c.input + e.body.data && d.inputBytes == c.inputBytes + |e.body.data| && d.output == c.output
                  && d.outputBytes == c.outputBytes && d.finished == c.finished)
            && (e.body.Chunk? && e.body.direction == Output ==>
                  d.output == c.output + e.body.data && d.outputBytes == c.outputBytes + |e.body.data| && d.input == c.input
                  && d.inputBytes == c.inputBytes && d.finished == c.finished)
            && (e.body.End? ==> d.finished && d.input == c.input && d.output == c.output)
            && (d.gap <==> c.gap || !queued)
  {
  }

  // ----- Conservation -----

  function Emits(actions: seq<Action>): nat {
    if actions == [] then 0 else Emits(actions[..|actions| - 1]) + if actions[|actions| - 1].Emit? then 1 else 0
  }

  function LostWrites(actions: seq<Action>): nat {
    if actions == [] then 0
    else LostWrites(actions[..|actions| - 1]) + if actions[|actions| - 1] == WriteNext(false) then 1 else 0
  }

  function FailedTicks(actions: seq<Action>): nat {
    if actions == [] then 0
    else FailedTicks(actions[..|actions| - 1]) + if actions[|actions| - 1] == Action.Tick(true) then 1 else 0
  }

  ghost predicate Balanced(s: State, actions: seq<Action>) {
    && Emits(actions) == |s.written| + |s.queue| + s.dropped + LostWrites(actions)
    && s.failures == LostWrites(actions) + FailedTicks(actions)
  }

  lemma {:induction false} EveryEventIsCounted(capacity: nat, states: seq<State>, actions: seq<Action>, i: nat)
    requires Run(capacity, states, actions) && i < |states|
    ensures Balanced(states[i], actions[..i])
  {
    hide Apply, Enabled;
    if i > 0 {
      EveryEventIsCounted(capacity, states, actions, i - 1);
      assert actions[..i][..i - 1] == actions[..i - 1] && actions[..i][i - 1] == actions[i - 1];
      assert Enabled(states[i - 1], actions[i - 1]) && states[i] == Apply(states[i - 1], actions[i - 1]);
      StepIsCounted(states[i - 1], actions[i - 1]);
    }
  }

  lemma StepIsCounted(s: State, a: Action)
    requires Enabled(s, a)
    ensures var t := Apply(s, a);
            && |t.written| + |t.queue| + t.dropped + (if a == WriteNext(false) then 1 else 0)
               == |s.written| + |s.queue| + s.dropped + (if a.Emit? then 1 else 0)
            && t.failures == s.failures + (if a == WriteNext(false) || a == Action.Tick(true) then 1 else 0)
  {
  }

  // A body of n bytes is cut into parts of at most 8192 bytes.
  lemma {:induction false} PartsAreFew(data: Bytes)
    ensures |data| == 0 ==> Parts(data) == []
    ensures |data| > 0 ==> (|Parts(data)| - 1) * 8192 < |data| <= |Parts(data)| * 8192
  {
    if data != [] {
      var n := if |data| < CHUNK_BYTES then |data| else CHUNK_BYTES;
      PartsAreFew(data[n..]);
    }
  }
}
