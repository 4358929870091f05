// internal/contentlog/content.go: the log object itself, with the loop that
// cuts a body into events, the queue, and the files behind the single writer.
module ContentLogWriter {
  import opened Basics
  import opened ContentLog

  const CHUNK_BYTES: nat := 8192
  const MAX_EVENT_BYTES: nat := 65536

  // A line per event; a torn file ends in part of one more line.
  datatype File = File(events: seq<Event>, torn: bool, handedOff: bool)

  // What the file system answers while one event is written.
  datatype Disk = Disk(sealed: bool, scanned: Option<nat>, created: bool, failed: bool, count: nat)

  // ----- Cutting a body into events -----

  function Parts(data: Bytes): seq<Bytes> {
    if data == [] then []
    else
      var n := if |data| < CHUNK_BYTES then |data| else CHUNK_BYTES;
      [data[..n]] + Parts(data[n..])
  }

  function Joined(parts: seq<Bytes>): Bytes {
    if parts == [] then [] else parts[0] + Joined(parts[1..])
  }

  lemma {:induction false} PartsCoverData(data: Bytes)
    ensures Joined(Parts(data)) == data
    ensures forall i :: 0 <= i < |Parts(data)| ==> 0 < |Parts(data)[i]| <= CHUNK_BYTES
    ensures forall i :: 0 <= i < |Parts(data)| - 1 ==> |Parts(data)[i]| == CHUNK_BYTES
  {
    if data != [] {
      var n := if |data| < CHUNK_BYTES then |data| else CHUNK_BYTES;
      PartsCoverData(data[n..]);
      assert Parts(data)[1..] == Parts(data[n..]);
      assert data[..n] + data[n..] == data;
      if n == |data| { assert data[n..] == []; }
    }
  }

  predicate FitsLimit(rendered: Event -> nat, e: Event) {
    rendered(e) + 1 <= MAX_EVENT_BYTES
  }

  function EmitOne(s: State, id: nat, body: Body, rendered: Event -> nat): State
    requires id in s.captures
  {
    Emitted(s, id, body, FitsLimit(rendered, Event(id, s.captures[id].number, body)))
  }

  // One chunk event per part, each at the capture's running count.
  function EmitParts(s: State, id: nat, d: Direction, parts: seq<Bytes>, rendered: Event -> nat): (t: State)
    requires id in s.captures
    ensures t.captures.Keys == s.captures.Keys
    decreases |parts|
  {
    if parts == [] then s
    else EmitParts(EmitOne(s, id, Chunk(d, Count(s.captures[id], d), parts[0]), rendered), id, d, parts[1..], rendered)
  }

  // Cutting is invisible to the digests: the direction gains exactly the data,
  // and the other direction and the other captures nothing.
  lemma {:induction false} PartsAreObserved(s: State, id: nat, d: Direction, parts: seq<Bytes>, rendered: Event -> nat)
    requires Inv(s) && id in s.captures && !s.captures[id].finished
    requires forall i :: 0 <= i < |parts| ==> parts[i] != []
    ensures var t := EmitParts(s, id, d, parts, rendered);
            && Inv(t) && !t.captures[id].finished
            && Observed(t.captures[id], d) == Observed(s.captures[id], d) + Joined(parts)
            && (forall o: Direction :: o != d ==> Observed(t.captures[id], o) == Observed(s.captures[id], o))
            && (forall other :: other in s.captures && other != id ==> t.captures[other] == s.captures[other])
    decreases |parts|
  {
    hide Inv, Emitted;
    if parts == [] {
      assert Observed(s.captures[id], d) + [] == Observed(s.captures[id], d);
    } else {
      var next := EmitOne(s, id, Chunk(d, Count(s.captures[id], d), parts[0]), rendered);
      PartIsObserved(s, id, d, parts[0], rendered);
      PartsAreObserved(next, id, d, parts[1..], rendered);
      hide EmitOne, Observed;
      var seen := Observed(s.captures[id], d);
      assert (seen + parts[0]) + Joined(parts[1..]) == seen + Joined(parts);
    }
  }

  lemma PartIsObserved(s: State, id: nat, d: Direction, part: Bytes, rendered: Event -> nat)
    requires Inv(s) && id in s.captures && !s.captures[id].finished && part != []
    ensures var t := EmitOne(s, id, Chunk(d, Count(s.captures[id], d), part), rendered);
            && Inv(t) && t.captures.Keys == s.captures.Keys && !t.captures[id].finished
            && Observed(t.captures[id], d) == Observed(s.captures[id], d) + part
            && (forall o: Direction :: o != d ==> Observed(t.captures[id], o) == Observed(s.captures[id], o))
            && (forall other :: other in s.captures && other != id ==> t.captures[other] == s.captures[other])
  {
    hide Inv;
    var body := Chunk(d, Count(s.captures[id], d), part);
    EmitKeepsInv(s, id, body, FitsLimit(rendered, Event(id, s.captures[id].number, body)));
  }

  // ----- Files -----

  function LineBytes(events: seq<Event>, rendered: Event -> nat): nat {
    if events == [] then 0 else LineBytes(events[..|events| - 1], rendered) + rendered(events[|events| - 1]) + 1
  }

  function Recorded(files: seq<File>): seq<Event> {
    if files == [] then [] else Recorded(files[..|files| - 1]) + files[|files| - 1].events
  }

  predicate FileOk(f: File, limit: nat, rendered: Event -> nat) {
    && (f.handedOff ==> !f.torn)
    && (|f.events| > 1 ==> LineBytes(f.events, rendered) <= limit)
  }

  ghost predicate FilesOk(files: seq<File>, open: bool, size: nat, limit: nat, rendered: Event -> nat) {
    && (forall i :: 0 <= i < |files| ==> FileOk(files[i], limit, rendered))
    && if open then
         files != [] && !files[|files| - 1].torn && !files[|files| - 1].handedOff
         && size == LineBytes(files[|files| - 1].events, rendered)
       else size == 0
  }

  function LastTo(files: seq<File>, f: File): seq<File>
    requires files != []
  {
    files[..|files| - 1] + [f]
  }

  lemma AppendLine(files: seq<File>, e: Event, size: nat, limit: nat, rendered: Event -> nat)
    requires FilesOk(files, true, size, limit, rendered)
    requires files[|files| - 1].events == [] || size + rendered(e) + 1 <= limit
    ensures var f := files[|files| - 1];
            var t := LastTo(files, f.(events := f.events + [e]));
            FilesOk(t, true, size + rendered(e) + 1, limit, rendered) && Recorded(t) == Recorded(files) + [e]
  {
    var f := files[|files| - 1];
    LineBytesPush(f.events, e, rendered);
    RecordedByLast(files, f.events + [e]);
    hide LineBytes, Recorded;
    assert (Recorded(files[..|files| - 1]) + f.events) + [e] == Recorded(files[..|files| - 1]) + (f.events + [e]);
  }

  lemma LineBytesPush(events: seq<Event>, e: Event, rendered: Event -> nat)
    ensures LineBytes(events + [e], rendered) == LineBytes(events, rendered) + rendered(e) + 1
  {
    assert (events + [e])[..|events|] == events;
  }

  lemma RecordedByLast(files: seq<File>, events: seq<Event>)
    requires files != []
    ensures Recorded(files) == Recorded(files[..|files| - 1]) + files[|files| - 1].events
    ensures Recorded(LastTo(files, files[|files| - 1].(events := events))) == Recorded(files[..|files| - 1]) + events
  {
    var t := LastTo(files, files[|files| - 1].(events := events));
    assert t[..|t| - 1] == files[..|files| - 1];
  }

  lemma CloseLast(files: seq<File>, torn: bool, handedOff: bool, size: nat, limit: nat, rendered: Event -> nat)
    requires FilesOk(files, true, size, limit, rendered) && (handedOff ==> !torn)
    ensures var t := LastTo(files, files[|files| - 1].(torn := torn, handedOff := handedOff));
            FilesOk(t, false, 0, limit, rendered) && Recorded(t) == Recorded(files)
  {
    var t := LastTo(files, files[|files| - 1].(torn := torn, handedOff := handedOff));
    assert t[..|t| - 1] == files[..|files| - 1];
  }

  lemma NewFile(files: seq<File>, limit: nat, rendered: Event -> nat)
    requires FilesOk(files, false, 0, limit, rendered)
    ensures var t := files + [File([], false, false)];
            FilesOk(t, true, 0, limit, rendered) && Recorded(t) == Recorded(files)
  {
    var t := files + [File([], false, false)];
    assert t[..|t| - 1] == files && Recorded(files) + [] == Recorded(files);
  }

  class Log {
    const capacity: nat
    const fileBytes: nat
    const directoryBytes: nat
    const rendered: Event -> nat
    var queue: seq<Event>
    var captures: map<nat, Capture>
    var closed: bool
    var dropped: nat
    var failures: nat
    var files: seq<File>
    var open: bool
    var size: nat
    var used: nat

    ghost function View(): State
      reads this
    {
      State(capacity, queue, Recorded(files), captures, closed, dropped, failures)
    }

    ghost predicate FilesValid()
      reads this
    {
      FilesOk(files, open, size, fileBytes, rendered)
    }

    ghost predicate Valid()
      reads this
    {
      Inv(View()) && FilesValid()
    }

    constructor Open(capacity: nat, fileBytes: nat, directoryBytes: nat, rendered: Event -> nat, found: nat)
      ensures Valid() && View() == Initial(capacity) && !open && used == found
      ensures this.fileBytes == fileBytes && this.directoryBytes == directoryBytes && this.rendered == rendered
    {
      this.capacity, this.fileBytes, this.directoryBytes, this.rendered := capacity, fileBytes, directoryBytes, rendered;
      queue, captures, closed, dropped, failures := [], map[], false, 0, 0;
      files, open, size, used := [], false, 0, found;
    }

    method Enqueue(e: Event) returns (queued: bool)
      modifies this`queue, this`dropped
      ensures queued == HasRoom(old(View()), FitsLimit(rendered, e))
      ensures queue == (if queued then old(queue) + [e] else old(queue))
      ensures dropped == (if queued then old(dropped) else old(dropped) + 1)
    {
      queued := false;
      if rendered(e) + 1 <= MAX_EVENT_BYTES && !closed && |queue| < capacity {
        queue := queue + [e];
        queued := true;
      } else {
        dropped := dropped + 1;
      }
    }

    method EmitEvent(id: nat, body: Body)
      requires Valid() && id in captures && Legal(captures[id], body)
      modifies this`queue, this`dropped, this`captures
      ensures Valid() && View() == EmitOne(old(View()), id, body, rendered)
    {
      hide Inv, Recorded, FilesOk;
      var c := captures[id];
      var e := Event(id, c.number, body);
      EmitKeepsInv(View(), id, body, FitsLimit(rendered, e));
      var queued := Enqueue(e);
      captures := captures[id := Advanced(c, e, queued)];
    }

    // The body becomes chunk events of at most 8 KiB, whatever happens to them.
    method EmitChunks(id: nat, d: Direction, data: Bytes)
      requires Valid() && id in captures && !captures[id].finished
      modifies this`queue, this`dropped, this`captures
      ensures Valid() && id in captures && !captures[id].finished
      ensures View() == EmitParts(old(View()), id, d, Parts(data), rendered)
      ensures Observed(captures[id], d) == old(Observed(captures[id], d)) + data
      ensures forall other :: other in old(captures) && other != id ==> other in captures && captures[other] == old(captures)[other]
    {
      hide Inv, Recorded, FilesOk, Emitted;
      PartsCoverData(data);
      PartsAreObserved(View(), id, d, Parts(data), rendered);
      var rest := data;
      while |rest| > 0
        invariant Valid() && id in captures && !captures[id].finished
        invariant EmitParts(View(), id, d, Parts(rest), rendered) == EmitParts(old(View()), id, d, Parts(data), rendered)
        decreases |rest|
      {
        var n := if |rest| < CHUNK_BYTES then |rest| else CHUNK_BYTES;
        StillOpen(View(), id, Chunk(d, Count(captures[id], d), rest[..n]), rendered);
        assert Parts(rest)[0] == rest[..n] && Parts(rest)[1..] == Parts(rest[n..]);
        EmitEvent(id, Chunk(d, Count(captures[id], d), rest[..n]));
        rest := rest[n..];
      }
    }

    method StartCapture(id: nat, input: Bytes)
      requires Valid() && id !in captures
      modifies this`queue, this`dropped, this`captures
      ensures Valid() && id in captures && !captures[id].finished && captures[id].input == input
      ensures View() == EmitParts(Apply(old(View()), Start(id)), id, Input, Parts(input), rendered)
    {
      hide Inv, Recorded, FilesOk, EmitParts;
      StartKeepsInv(View(), id);
      captures := captures[id := Fresh()];
      EmitChunks(id, Input, input);
      assert [] + input == input;
    }

    // The claim needs success throughout and no gap when the flag was read,
    // which may be before a write of this capture fails.
    method Finish(id: nat, outcome: string, complete: bool, sawGap: bool)
      requires Valid() && id in captures && !captures[id].finished && (sawGap ==> captures[id].gap)
      modifies this`queue, this`dropped, this`captures
      ensures Valid() && id in captures && captures[id].finished
      ensures var c := old(captures)[id];
              var claim := complete && !sawGap && outcome == "success";
              View() == EmitOne(old(View()), id, End(outcome, claim, |c.input|, |c.output|), rendered)
    {
      hide Recorded, FilesOk;
      var c := captures[id];
      assert Consistent(id, c);
      hide Inv, Consistent;
      EmitEvent(id, End(outcome, complete && !sawGap && outcome == "success", c.inputBytes, c.outputBytes));
    }

    // A file that cannot be closed and renamed stays behind under its active name.
    method Seal(ok: bool) returns (done: bool)
      requires FilesValid()
      modifies this`files, this`open, this`size
      ensures FilesValid() && Recorded(files) == Recorded(old(files)) && !open
      ensures done == (!old(open) || ok)
      ensures old(open) ==> old(files) != [] && files == LastTo(old(files), old(files)[|old(files)| - 1].(handedOff := ok))
      ensures !old(open) ==> files == old(files)
    {
      hide Recorded;
      if !open {
        return true;
      }
      CloseLast(files, false, ok, size, fileBytes, rendered);
      files := LastTo(files, files[|files| - 1].(torn := false, handedOff := ok));
      open, size := false, 0;
      done := ok;
    }

    // Adds the line to the open file; after a short write that file is closed
    // for good, so no line is ever put behind part of another.
    method Append(e: Event, disk: Disk) returns (stored: bool)
      requires FilesValid() && open && disk.count <= rendered(e) + 1
      requires files != [] && (files[|files| - 1].events == [] || size + rendered(e) + 1 <= fileBytes)
      modifies this`files, this`open, this`size, this`used
      ensures FilesValid() && stored == open && used == old(used) + disk.count
      ensures stored == (!disk.failed && disk.count == rendered(e) + 1)
      ensures var f := old(files)[|old(files)| - 1];
              files == LastTo(old(files), if stored then f.(events := f.events + [e])
                                          else f.(torn := disk.count > 0, handedOff := false))
      ensures Recorded(files) == if stored then Recorded(old(files)) + [e] else Recorded(old(files))
    {
      hide Recorded, FilesOk;
      var f := files[|files| - 1];
      used := used + disk.count;
      if disk.failed || disk.count != rendered(e) + 1 {
        CloseLast(files, disk.count > 0, false, size, fileBytes, rendered);
        files := LastTo(files, f.(torn := disk.count > 0, handedOff := false));
        open, size := false, 0;
        return false;
      }
      AppendLine(files, e, size, fileBytes, rendered);
      files := LastTo(files, f.(events := f.events + [e]));
      size := size + disk.count;
      stored := true;
    }

    method Create()
      requires FilesValid() && !open
      modifies this`files, this`open
      ensures FilesValid() && open && files == old(files) + [File([], false, false)]
      ensures Recorded(files) == Recorded(old(files))
    {
      hide Recorded, FilesOk;
      ClosedFile(files, size, fileBytes, rendered);
      NewFile(files, fileBytes, rendered);
      files, open := files + [File([], false, false)], true;
    }

    // Stores one line or reports failure; the file and the directory stay
    // within their limits when it is stored.
    method Store(e: Event, disk: Disk) returns (stored: bool)
      requires FilesValid() && disk.count <= rendered(e) + 1
      modifies this`files, this`open, this`size, this`used
      ensures FilesValid()
      ensures Recorded(files) == if stored then Recorded(old(files)) + [e] else Recorded(old(files))
      ensures stored ==> open && used <= directoryBytes
      ensures !stored && open ==> old(open) && files == old(files)
      ensures stored <==>
        var length := rendered(e) + 1;
        var full := old(open) && old(size) + length > fileBytes;
        var needsScan := full || !old(open) || old(used) + length > directoryBytes;
        && (full ==> disk.sealed) && (needsScan ==> disk.scanned.Some?)
        && (if needsScan then disk.scanned.value else old(used)) + length <= directoryBytes
        && (full || !old(open) ==> disk.created) && !disk.failed && disk.count == length
    {
      hide Recorded, FilesOk;
      var length := rendered(e) + 1;
      if open && size + length > fileBytes {
        var done := Seal(disk.sealed);
        if !done { return false; }
      }
      if !open || used + length > directoryBytes {
        if disk.scanned.None? { return false; }
        used := disk.scanned.value;
      }
      if used + length > directoryBytes { return false; }
      if !open {
        if !disk.created { return false; }
        Create();
      }
      OpenFile(files, size, fileBytes, rendered);
      stored := Append(e, disk);
    }

    // The minute tick hands the current file off; a failed handoff is counted
    // and touches no capture.
    method Tick(ok: bool)
      requires Valid()
      modifies this`files, this`open, this`size, this`failures
      ensures Valid() && !open
      ensures View() == Apply(old(View()), ContentLog.Tick(old(open) && !ok))
    {
      hide Inv, Recorded, FilesOk;
      TickKeepsInv(View(), open && !ok);
      var done := Seal(ok);
      if !done {
        failures := failures + 1;
      }
    }

    // One turn of the writer: the head of the queue is settled and stored.
    method WriteHead(disk: Disk) returns (stored: bool)
      requires Valid() && queue != [] && queue[0].capture in captures
      requires disk.count <= rendered(Settled(queue[0], captures[queue[0].capture].gap)) + 1
      modifies this`queue, this`captures, this`failures, this`files, this`open, this`size, this`used
      ensures Valid() && View() == Wrote(old(View()), stored)
    {
      hide Inv, Recorded, FilesOk;
      var e := queue[0];
      var c := captures[e.capture];
      WriteKeepsInv(View(), true);
      WriteKeepsInv(View(), false);
      queue := queue[1..];
      stored := Store(Settled(e, c.gap), disk);
      if !stored {
        captures := captures[e.capture := c.(gap := true)];
        failures := failures + 1;
      }
    }

    // Closing admits nothing more; the writer drains what is queued.
    method Close()
      requires Valid()
      modifies this`closed
      ensures Valid() && View() == Apply(old(View()), ContentLog.Close)
    {
      hide Inv, Recorded, FilesOk;
      CloseKeepsInv(View());
      closed := true;
    }
  }

  lemma OpenFile(files: seq<File>, size: nat, limit: nat, rendered: Event -> nat)
    ensures FilesOk(files, true, size, limit, rendered) ==>
              files != [] && (files[|files| - 1].events == [] || size == LineBytes(files[|files| - 1].events, rendered))
  {
  }

  lemma ClosedFile(files: seq<File>, size: nat, limit: nat, rendered: Event -> nat)
    requires FilesOk(files, false, size, limit, rendered)
    ensures size == 0
  {
  }

  lemma StillOpen(s: State, id: nat, body: Body, rendered: Event -> nat)
    requires id in s.captures && !s.captures[id].finished && body.Chunk?
    ensures var t := EmitOne(s, id, body, rendered); id in t.captures && !t.captures[id].finished
  {
  }
}
