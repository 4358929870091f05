// internal/adapter/stream.go:59-254: what the reader makes of the frames of an
// upstream stream. It emits them until one ends the turn, which it returns, or
// until something is wrong. JSON is decoded by a parameter.
module StreamUpstream {
  import opened Basics
  import opened StreamSignals
  import opened StreamReader

  const TOO_LARGE := "upstream_response_too_large"
  const EVENT_TOO_LARGE := "upstream_event_too_large"
  const INVALID := "invalid_upstream_stream"
  const INVALID_USAGE := "invalid_upstream_usage"
  const INCOMPLETE := "incomplete_upstream_stream"
  const READ_ERROR := "upstream_stream_read_error"

  // A choice of a chunk; an absent finish reason is empty.
  datatype WireChoice = WireChoice(index: int, deltaIsObject: bool, finishReason: string)

  // What the reader asks of a JSON object: its type, whether it holds an error,
  // its choices, whether a message, a block and its usage are well formed, and
  // the stop reason of its delta.
  datatype Fields = Fields(
    kind: string, hasError: bool, choices: Option<seq<WireChoice>>, messageOk: bool, blockOk: bool,
    stopReason: Option<string>, usageOk: bool)

  // The protocol, the decoder of data, the code of a reported error, whether the
  // merged usage parses, and whether the connection broke.
  datatype Upstream = Upstream(
    protocol: Protocol, fields: string -> Option<Fields>, errorCode: string -> string, usageParses: bool, broken: bool)

  datatype Progress = Progress(started: bool, finished: bool)

  datatype Verdict = Emit(progress: Progress) | Final | Fail(code: string)

  // ----- The fields of one frame -----

  function FieldValue(rest: string): string {
    if rest != "" && rest[0] == ' ' then rest[1..] else rest
  }

  predicate IsEvent(line: string) {
    "event:" <= WithoutReturn(line)
  }

  // The last event field counts.
  function EventOf(lines: seq<string>): string {
    if lines == [] then ""
    else
      var last := lines[|lines| - 1];
      if IsEvent(last) then FieldValue(WithoutReturn(last)[6..]) else EventOf(lines[..|lines| - 1])
  }

  function RawData(lines: seq<string>): seq<string> {
    if lines == [] then []
    else
      var last := lines[|lines| - 1];
      RawData(lines[..|lines| - 1]) + if IsData(last) then [FieldValue(WithoutReturn(last)[5..])] else []
  }

  method ParseFields(raw: string) returns (event: string, parts: seq<string>)
    ensures event == EventOf(Lines(raw)) && parts == RawData(Lines(raw))
  {
    event, parts := "", [];
    var lines := Lines(raw);
    for k := 0 to |lines|
      invariant event == EventOf(lines[..k]) && parts == RawData(lines[..k])
    {
      assert lines[..k + 1][..k] == lines[..k];
      var l := WithoutReturn(lines[k]);
      if "event:" <= l {
        event := FieldValue(l[6..]);
      }
      if "data:" <= l {
        parts := parts + [FieldValue(l[5..])];
      }
    }
    assert lines[..|lines|] == lines;
  }

  // ----- One frame -----

  predicate FirstChoice(choices: seq<WireChoice>) {
    exists k :: 0 <= k < |choices| && choices[k].index == 0
  }

  predicate FirstChoiceFinishes(choices: seq<WireChoice>) {
    exists k :: 0 <= k < |choices| && choices[k].index == 0 && choices[k].finishReason != ""
  }

  function JudgeOpenAI(f: Fields, p: Progress): Verdict {
    if f.choices.None? then Fail(INVALID)
    else if exists k :: 0 <= k < |f.choices.value| && !f.choices.value[k].deltaIsObject then Fail(INVALID)
    else if !f.usageOk then Fail(INVALID_USAGE)
    else Emit(Progress(p.started || FirstChoice(f.choices.value), p.finished || FirstChoiceFinishes(f.choices.value)))
  }

  function JudgeAnthropic(f: Fields, p: Progress, usageParses: bool): Verdict {
    if f.kind == "message_start" then
      if p.started || !f.messageOk then Fail(INVALID) else Emit(p.(started := true))
    else if f.kind == "ping" then Emit(p)
    else if f.kind == "message_stop" then
      if !p.started || !p.finished then Fail(INCOMPLETE) else if usageParses then Final else Fail(INVALID_USAGE)
    else if !p.started then Fail(INVALID)
    else if f.kind == "content_block_start" && !f.blockOk then Fail(INVALID)
    else if f.kind == "message_delta" then
      if f.stopReason.None? then Fail(INVALID)
      else if !f.usageOk then Fail(INVALID_USAGE)
      else Emit(p.(finished := p.finished || f.stopReason.value != ""))
    else Emit(p)
  }

  function JudgeData(u: Upstream, event: string, data: string, p: Progress): Verdict {
    if event == "error" then Fail(u.errorCode(data))
    else if u.protocol == OpenAI && event != "" && event != "message" then Fail(INVALID)
    else if u.protocol == OpenAI && data == "[DONE]" then
      if !p.started || !p.finished then Fail(INCOMPLETE) else if u.usageParses then Final else Fail(INVALID_USAGE)
    else
      var f := u.fields(data);
      if f.None? then Fail(INVALID)
      else if u.protocol == Anthropic && event != "" && event != f.value.kind then Fail(INVALID)
      else if f.value.hasError || f.value.kind == "error" then Fail(u.errorCode(data))
      else if u.protocol == OpenAI then JudgeOpenAI(f.value, p)
      else JudgeAnthropic(f.value, p, u.usageParses)
  }

  // A frame without data is emitted as it stands.
  function Judge(u: Upstream, frame: string, p: Progress): Verdict {
    var parts := RawData(Lines(frame));
    if parts == [] then Emit(p) else JudgeData(u, EventOf(Lines(frame)), Joined(parts), p)
  }

  method CheckChoices(choices: seq<WireChoice>, p: Progress) returns (valid: bool, next: Progress)
    ensures valid <==> forall k :: 0 <= k < |choices| ==> choices[k].deltaIsObject
    ensures valid ==> next == Progress(p.started || FirstChoice(choices), p.finished || FirstChoiceFinishes(choices))
  {
    next := p;
    for k := 0 to |choices|
      invariant forall i :: 0 <= i < k ==> choices[i].deltaIsObject
      invariant next.started <==> p.started || exists i :: 0 <= i < k && choices[i].index == 0
      invariant next.finished <==> p.finished || exists i :: 0 <= i < k && choices[i].index == 0 && choices[i].finishReason != ""
    {
      if !choices[k].deltaIsObject {
        return false, next;
      }
      if choices[k].index == 0 {
        next := next.(started := true);
        if choices[k].finishReason != "" {
          next := next.(finished := true);
        }
      }
    }
    valid := true;
  }

  method JudgeFrame(u: Upstream, frame: string, p: Progress) returns (v: Verdict)
    ensures v == Judge(u, frame, p)
  {
    var event, parts := ParseFields(frame);
    if parts == [] {
      return Emit(p);
    }
    var data := Joined(parts);
    if event == "error" {
      return Fail(u.errorCode(data));
    }
    if u.protocol == OpenAI && event != "" && event != "message" {
      return Fail(INVALID);
    }
    if u.protocol == OpenAI && data == "[DONE]" {
      return if !p.started || !p.finished then Fail(INCOMPLETE) else if u.usageParses then Final else Fail(INVALID_USAGE);
    }
    var f := u.fields(data);
    if f.None? || (u.protocol == Anthropic && event != "" && event != f.value.kind) {
      return Fail(INVALID);
    }
    if f.value.hasError || f.value.kind == "error" {
      return Fail(u.errorCode(data));
    }
    if u.protocol == Anthropic {
      return JudgeAnthropic(f.value, p, u.usageParses);
    }
    if f.value.choices.None? {
      return Fail(INVALID);
    }
    var valid, next := CheckChoices(f.value.choices.value, p);
    if !valid {
      return Fail(INVALID);
    }
    v := if f.value.usageOk then Emit(next) else Fail(INVALID_USAGE);
  }

  // ----- The whole stream -----

  datatype End = Terminal(frame: string) | Rejected(code: string) | OverLimit(code: string)

  // The frames that were emitted, and how the reading ended.
  datatype Reading = Reading(emitted: seq<string>, end: End)

  const START := Progress(false, false)

  // Without limits.
  function Read(u: Upstream, frames: seq<string>, p: Progress): Reading {
    if frames == [] then Reading([], Rejected(if u.broken then READ_ERROR else INCOMPLETE))
    else
      match Judge(u, frames[0], p)
      case Emit(next) => var rest := Read(u, frames[1..], next); rest.(emitted := [frames[0]] + rest.emitted)
      case Final => Reading([], Terminal(frames[0]))
      case Fail(code) => Reading([], Rejected(code))
  }

  ghost predicate Exceeds(s: string, maxBytes: nat, eventBytes: nat, code: string) {
    if code == TOO_LARGE then |s| > maxBytes
    else code == EVENT_TOO_LARGE
         && ((exists k :: 0 <= k < |Frames(s, 0)| && |Frames(s, 0)[k]| > eventBytes) || |Tail(s, 0)| > eventBytes)
  }

  predicate Breaks(s: string, i: nat, j: nat)
    requires j <= |s|
  {
    exists k :: i <= k < j && s[k] == '\n'
  }

  // Every longer stretch of the first n characters holds a line end.
  ghost predicate ShortLines(s: string, n: nat, limit: nat) {
    n <= |s| && forall i: nat, j: nat :: j <= n && j > i + limit ==> Breaks(s, i, j)
  }

  lemma ShortLinesGrow(s: string, at: nat, end: nat, limit: nat)
    requires ShortLines(s, at, limit) && at <= end <= |s| && end - at <= limit && (at > 0 ==> s[at - 1] == '\n')
    ensures ShortLines(s, end, limit)
  {
    forall i: nat, j: nat | j <= end && j > i + limit ensures Breaks(s, i, j) {
      if j > at {
        assert i <= at - 1 < j;
      }
    }
  }

  // One line of a frame. The scanner buffers a line of at most eventBytes + 1
  // bytes of the maxBytes + 1 it may see; then the byte total and the size of the
  // frame are checked, in this order.
  method ScanLine(s: string, start: nat, at: nat, maxBytes: nat, eventBytes: nat) returns (end: nat, over: Option<string>)
    requires start <= at < |s| && at <= maxBytes
    ensures end == LineEnd(s, at)
    ensures over.None? ==> end <= maxBytes && end - start <= eventBytes
    ensures over.Some? ==> over.value == TOO_LARGE || over.value == EVENT_TOO_LARGE
    ensures over == Some(EVENT_TOO_LARGE) ==> end - start > eventBytes
    ensures over == Some(TOO_LARGE) ==> end > maxBytes && maxBytes + 1 - at <= eventBytes + 1
  {
    end := LineEnd(s, at);
    var seen := if end > maxBytes then maxBytes + 1 else end;
    if seen - at > eventBytes + 1 || (seen - at == eventBytes + 1 && s[seen - 1] != '\n') {
      return end, Some(EVENT_TOO_LARGE);
    }
    if end > maxBytes {
      return end, Some(TOO_LARGE);
    }
    over := if end - start > eventBytes then Some(EVENT_TOO_LARGE) else None;
  }

  lemma LineIsOver(s: string, start: nat, at: nat, emitted: seq<string>, maxBytes: nat, eventBytes: nat, code: string)
    requires start <= at < |s| && Frames(s, 0) == emitted + Frames(s, start) && Tail(s, 0) == Tail(s, start)
    requires FrameEnd(s, start) == FrameEnd(s, at) && ShortLines(s, at, eventBytes + 1) && (at > 0 ==> s[at - 1] == '\n')
    requires code == TOO_LARGE || code == EVENT_TOO_LARGE
    requires code == EVENT_TOO_LARGE ==> LineEnd(s, at) - start > eventBytes
    requires code == TOO_LARGE ==> at <= maxBytes < LineEnd(s, at) && maxBytes + 1 - at <= eventBytes + 1
    ensures Exceeds(s, maxBytes, eventBytes, code)
    ensures code == TOO_LARGE ==> ShortLines(s, maxBytes + 1, eventBytes + 1)
  {
    NextLine(s, at);
    hide Frames, Tail, FrameEnd, LineEnd, ShortLines;
    if code == EVENT_TOO_LARGE {
      OversizedFrame(s, start, at, emitted, eventBytes);
    } else {
      ShortLinesGrow(s, at, maxBytes + 1, eventBytes + 1);
    }
  }

  // The scan loop.
  method ReadStream(u: Upstream, s: string, maxBytes: nat, eventBytes: nat) returns (r: Reading)
    ensures var whole := Read(u, Frames(s, 0), START);
            if r.end.OverLimit? then r.emitted <= whole.emitted && Exceeds(s, maxBytes, eventBytes, r.end.code) else r == whole
    ensures forall k :: 0 <= k < |r.emitted| ==> |r.emitted[k]| <= eventBytes
    ensures r.end.Terminal? ==> |r.end.frame| <= eventBytes
    ensures r.end.Rejected? && r.emitted == Frames(s, 0) ==> |s| <= maxBytes
    ensures r.end == OverLimit(TOO_LARGE) ==> ShortLines(s, maxBytes + 1, eventBytes + 1)
  {
    hide Frames, Tail, FrameEnd, LineEnd, Judge, Read, ShortLines;
    NoLines(s, eventBytes + 1);
    var emitted, progress, tail := [], START, "";
    var start, at := 0, 0;
    while at < |s|
      invariant start <= at <= |s| && at <= maxBytes && at - start <= eventBytes && tail == s[start..at]
      invariant Frames(s, 0) == emitted + Frames(s, start) && Tail(s, 0) == Tail(s, start)
      invariant Read(u, Frames(s, 0), START) == Onward(emitted, Read(u, Frames(s, start), progress))
      invariant FrameEnd(s, start) == FrameEnd(s, at)
      invariant forall k :: 0 <= k < |emitted| ==> |emitted[k]| <= eventBytes
      invariant ShortLines(s, at, eventBytes + 1) && (0 < at < |s| ==> s[at - 1] == '\n')
    {
      var end, over := ScanLine(s, start, at, maxBytes, eventBytes);
      var line := s[at..end];
      NextLine(s, at);
      if over.Some? {
        LineIsOver(s, start, at, emitted, maxBytes, eventBytes, over.value);
        return Reading(emitted, OverLimit(over.value));
      }
      ShortLinesGrow(s, at, end, eventBytes + 1);
      tail := tail + line;
      assert tail == s[start..end];
      at := end;
      if StreamReader.Blank(line) {
        NextFrame(s, start, at);
        var verdict := JudgeFrame(u, tail, progress);
        ReadOn(u, tail, Frames(s, at), progress);
        match verdict
        case Emit(next) =>
          assert emitted + ([tail] + Frames(s, at)) == (emitted + [tail]) + Frames(s, at);
          OnwardPush(emitted, tail, Read(u, Frames(s, at), next));
          emitted, progress := emitted + [tail], next;
          start, tail := at, "";
        case Final => return Reading(emitted, Terminal(tail));
        case Fail(code) => return Reading(emitted, Rejected(code));
      }
    }
    assert s[start..|s|] == s[start..];
    NoFrame(s, start);
    ReadNothing(u, progress);
    assert emitted + [] == emitted;
    r := Reading(emitted, Rejected(if u.broken then READ_ERROR else INCOMPLETE));
  }

  function Onward(emitted: seq<string>, r: Reading): Reading {
    r.(emitted := emitted + r.emitted)
  }

  lemma NoLines(s: string, limit: nat)
    ensures ShortLines(s, 0, limit)
  {
  }

  lemma ReadOn(u: Upstream, frame: string, rest: seq<string>, p: Progress)
    ensures var verdict := Judge(u, frame, p);
            && (verdict.Emit? ==> Read(u, [frame] + rest, p) == Onward([frame], Read(u, rest, verdict.progress)))
            && (verdict.Final? ==> Read(u, [frame] + rest, p) == Reading([], Terminal(frame)))
            && (verdict.Fail? ==> Read(u, [frame] + rest, p) == Reading([], Rejected(verdict.code)))
  {
    assert ([frame] + rest)[1..] == rest;
  }

  lemma ReadNothing(u: Upstream, p: Progress)
    ensures Read(u, [], p) == Reading([], Rejected(if u.broken then READ_ERROR else INCOMPLETE))
  {
  }

  lemma OnwardPush(emitted: seq<string>, frame: string, r: Reading)
    ensures Onward(emitted, Onward([frame], r)) == Onward(emitted + [frame], r)
  {
    assert emitted + ([frame] + r.emitted) == (emitted + [frame]) + r.emitted;
  }

  // ----- What a frame that was passed on cannot be -----

  // A frame with data that was emitted or ended the turn is no error in either
  // form, names an event the protocol allows, and holds a well formed object.
  lemma PassedIsClean(u: Upstream, frame: string, p: Progress)
    requires !Judge(u, frame, p).Fail? && RawData(Lines(frame)) != []
    ensures var event, data := EventOf(Lines(frame)), Joined(RawData(Lines(frame)));
            && event != "error" && (u.protocol == OpenAI ==> event == "" || event == "message")
            && ((u.protocol == OpenAI && data == "[DONE]") || Clean(u, event, data))
  {
    hide Lines, RawData, EventOf, Joined;
  }

  ghost predicate Clean(u: Upstream, event: string, data: string) {
    && u.fields(data).Some?
    && var f := u.fields(data).value;
       && !f.hasError && f.kind != "error"
       && (u.protocol == Anthropic ==> event == "" || event == f.kind)
       && (u.protocol == OpenAI ==>
             f.choices.Some? && f.usageOk && forall k :: 0 <= k < |f.choices.value| ==> f.choices.value[k].deltaIsObject)
       && (u.protocol == Anthropic && f.kind == "message_start" ==> f.messageOk)
       && (u.protocol == Anthropic && f.kind == "content_block_start" ==> f.blockOk)
       && (u.protocol == Anthropic && f.kind == "message_delta" ==> f.stopReason.Some? && f.usageOk)
  }

  // Conversely such a frame is emitted if it comes in order: one message start
  // first, at which only pings are passed on already, and no end marker.
  lemma CleanIsPassed(u: Upstream, frame: string, p: Progress)
    requires var event, parts := EventOf(Lines(frame)), RawData(Lines(frame));
             var data := Joined(parts);
             && parts != [] && event != "error" && Clean(u, event, data)
             && (u.protocol == OpenAI ==> (event == "" || event == "message") && data != "[DONE]")
             && (u.protocol == Anthropic ==>
                   var kind := u.fields(data).value.kind;
                   kind == "ping" || (kind != "message_stop" && (kind == "message_start" <==> !p.started)))
    ensures Judge(u, frame, p).Emit?
    ensures u.protocol == Anthropic && u.fields(Joined(RawData(Lines(frame)))).value.kind == "ping" ==> Judge(u, frame, p).progress == p
  {
    hide Lines, RawData, EventOf, Joined;
  }

  // The value of a field is what stands behind the colon, but for one space and
  // the carriage return of the line end.
  lemma FieldMeans(behind: string)
    requires behind != "" ==> behind[|behind| - 1] != '\r'
    ensures var value := if " " <= behind then behind[1..] else behind;
            && RawData(["data:" + behind]) == RawData(["data:" + behind + "\r"]) == [value]
            && EventOf(["event:" + behind]) == EventOf(["event:" + behind + "\r"]) == value
  {
    DataField(behind);
    EventField(behind);
    hide RawData, EventOf;
  }

  lemma DataField(behind: string)
    requires behind != "" ==> behind[|behind| - 1] != '\r'
    ensures RawData(["data:" + behind]) == RawData(["data:" + behind + "\r"]) == [FieldValue(behind)]
  {
    var line := "data:" + behind;
    assert [line][..0] == [] && [line + "\r"][..0] == [];
    assert WithoutReturn(line + "\r") == WithoutReturn(line) == line;
    assert line[5..] == behind;
    hide FieldValue;
  }

  lemma EventField(behind: string)
    requires behind != "" ==> behind[|behind| - 1] != '\r'
    ensures EventOf(["event:" + behind]) == EventOf(["event:" + behind + "\r"]) == FieldValue(behind)
  {
    var line := "event:" + behind;
    assert WithoutReturn(line + "\r") == WithoutReturn(line) == line;
    assert line[6..] == behind;
    hide FieldValue;
  }

  // An error, in the event or in the object, ends the reading with its own code.
  lemma ErrorMeans(u: Upstream, frame: string, p: Progress)
    requires RawData(Lines(frame)) != []
    ensures var event, data := EventOf(Lines(frame)), Joined(RawData(Lines(frame)));
            && (event == "error" ==> Judge(u, frame, p) == Fail(u.errorCode(data)))
            && (event == "" && u.fields(data).Some? && !(u.protocol == OpenAI && data == "[DONE]")
                && (u.fields(data).value.hasError || u.fields(data).value.kind == "error") ==>
                  Judge(u, frame, p) == Fail(u.errorCode(data)))
  {
    hide Lines, RawData, EventOf, Joined;
  }

  // No frame that carries an error was ever emitted or returned as the end.
  lemma {:induction false} NoErrorIsPassed(u: Upstream, frames: seq<string>, p: Progress, k: nat)
    requires k < |Read(u, frames, p).emitted|
    ensures var f := Read(u, frames, p).emitted[k];
            RawData(Lines(f)) != [] ==>
              EventOf(Lines(f)) != "error"
              && ((u.protocol == OpenAI && Joined(RawData(Lines(f))) == "[DONE]") || Clean(u, EventOf(Lines(f)), Joined(RawData(Lines(f)))))
  {
    hide Judge, Lines, RawData, EventOf, Joined, Clean;
    var verdict := Judge(u, frames[0], p);
    if k == 0 {
      if RawData(Lines(frames[0])) != [] { PassedIsClean(u, frames[0], p); }
    } else {
      NoErrorIsPassed(u, frames[1..], verdict.progress, k - 1);
    }
  }

  // ----- The order of the protocol -----

  predicate AdvancesOpenAI(choices: seq<WireChoice>, p: Progress, q: Progress) {
    && (q.started <==> p.started || exists k :: 0 <= k < |choices| && choices[k].index == 0)
    && (q.finished <==> p.finished || exists k :: 0 <= k < |choices| && choices[k].index == 0 && choices[k].finishReason != "")
  }

  predicate AdvancesAnthropic(f: Fields, p: Progress, q: Progress) {
    && (q.started <==> p.started || f.kind == "message_start")
    && (q.finished <==> p.finished || (f.kind == "message_delta" && f.stopReason != Some("")))
    && (f.kind == "message_start" ==> !p.started)
    && (f.kind != "message_start" && f.kind != "ping" ==> p.started)
  }

  // Started: the first choice was seen, or a message start. Finished: the first
  // choice, or a message delta, gave a reason.
  lemma ProgressMeans(u: Upstream, frame: string, p: Progress)
    requires Judge(u, frame, p).Emit?
    ensures var q, parts := Judge(u, frame, p).progress, RawData(Lines(frame));
            var f := u.fields(Joined(parts));
            && (p.started ==> q.started) && (p.finished ==> q.finished)
            && (parts == [] ==> q == p)
            && (parts != [] && u.protocol == OpenAI ==> f.Some? && f.value.choices.Some? && AdvancesOpenAI(f.value.choices.value, p, q))
            && (parts != [] && u.protocol == Anthropic ==> f.Some? && AdvancesAnthropic(f.value, p, q))
  {
    hide Lines, RawData, EventOf, Joined;
  }

  // The end is exactly the marker of the protocol, after a start and a reason,
  // with usage that parses.
  lemma FinalMeans(u: Upstream, frame: string, p: Progress)
    ensures var event, parts := EventOf(Lines(frame)), RawData(Lines(frame));
            var data := Joined(parts);
            Judge(u, frame, p).Final? <==>
              && parts != [] && event != "error" && p.started && p.finished && u.usageParses
              && if u.protocol == OpenAI then (event == "" || event == "message") && data == "[DONE]"
                 else u.fields(data).Some? && u.fields(data).value.kind == "message_stop" && !u.fields(data).value.hasError
                      && (event == "" || event == "message_stop")
  {
    hide Lines, RawData, EventOf, Joined;
  }

  // A stream that stops before its end is incomplete, or broke.
  lemma {:induction false} EndOfInput(u: Upstream, frames: seq<string>, p: Progress)
    requires Read(u, frames, p).emitted == frames
    ensures Read(u, frames, p).end == Rejected(if u.broken then READ_ERROR else INCOMPLETE)
  {
    hide Judge;
    if frames != [] {
      EndOfInput(u, frames[1..], Judge(u, frames[0], p).progress);
    }
  }
}
