// What the prompt cache keeps and what it shares, told from keys and bytes
// (internal/adapter/prompt_cache.go:91-120 and internal/adapter/estimate.go:59-72).
module PromptCacheMeaning {
  import opened PromptCache

  // ----- Bytes -----

  function AllKeys(recent: seq<Entry>): string {
    if recent == [] then "" else AllKeys(recent[..|recent| - 1]) + recent[|recent| - 1].key
  }

  function AllPrompts(recent: seq<Entry>): Bytes {
    if recent == [] then [] else AllPrompts(recent[..|recent| - 1]) + recent[|recent| - 1].prompt
  }

  // Keys count as well as prompts.
  lemma {:induction false} BytesMean(recent: seq<Entry>)
    ensures Bytesum(recent) == |AllKeys(recent)| + |AllPrompts(recent)|
  {
    if recent != [] {
      BytesMean(recent[..|recent| - 1]);
    }
  }

  // ----- What is kept -----

  // A prompt that fits the limit stands first, before the longest part of the
  // list that leaves room for it; one that does not fit is not kept at all.
  lemma RememberedMeans(recent: seq<Entry>, e: Entry, maxEntries: nat, maxBytes: nat)
    requires maxEntries > 0
    ensures var rest, kept := Without(recent, e.key), Remembered(recent, e, false, maxEntries, maxBytes);
            && (|e.key| + |e.prompt| > maxBytes ==> kept == rest)
            && (|e.key| + |e.prompt| <= maxBytes ==>
                  && kept != [] && kept[0] == e && kept[1..] <= rest
                  && |kept| <= maxEntries && |AllKeys(kept)| + |AllPrompts(kept)| <= maxBytes
                  && forall n :: |kept| - 1 < n <= |rest| ==>
                       var more := [e] + rest[..n];
                       |more| > maxEntries || |AllKeys(more)| + |AllPrompts(more)| > maxBytes)
  {
    hide Without;
    var rest := Without(recent, e.key);
    if Size(e) <= maxBytes {
      var fit := Fitting(rest, Size(e), maxEntries, maxBytes);
      FittingIsLongest(rest, Size(e), maxEntries, maxBytes);
      PushFrontBytes(e, fit);
      BytesMean([e] + fit);
      forall n | |fit| < n <= |rest|
        ensures 1 + n > maxEntries || |AllKeys([e] + rest[..n])| + |AllPrompts([e] + rest[..n])| > maxBytes
      {
        PushFrontBytes(e, rest[..n]);
        BytesMean([e] + rest[..n]);
      }
    }
    hide Bytesum, Fitting, AllKeys, AllPrompts;
  }

  // A key is lost to a limit when it was in the list, or is the new one, and is
  // no longer; remembering a key takes it back.
  lemma LostMeans(lost: set<string>, recent: seq<Entry>, e: Entry, maxEntries: nat, maxBytes: nat, clock: int)
    requires maxEntries > 0 && Ordered(recent, clock)
    ensures LostKeys(lost, recent, e, false, maxEntries, maxBytes)
            == (lost - {e.key}) + ((KeysOf(recent) + {e.key}) - KeysOf(Remembered(recent, e, false, maxEntries, maxBytes)))
  {
    var rest := Without(recent, e.key);
    WithoutOrdered(recent, e.key, clock);
    KeysWithout(recent, e.key);
    hide Ordered, Without, KeysOf;
    if Size(e) <= maxBytes {
      var fit := Fitting(rest, Size(e), maxEntries, maxBytes);
      FittingIsLongest(rest, Size(e), maxEntries, maxBytes);
      assert forall i, j :: 0 <= i < j < |rest| ==> rest[i].key != rest[j].key by { Distinct(rest, clock); }
      CutKeys(rest, fit);
      KeysPushed(e, fit);
      hide Fitting, Behind;
      KeysOfPrefix(rest, fit);
    }
  }

  lemma Distinct(recent: seq<Entry>, clock: int)
    requires Ordered(recent, clock)
    ensures forall i, j :: 0 <= i < j < |recent| ==> recent[i].key != recent[j].key
  {
  }

  lemma KeysWithout(recent: seq<Entry>, key: string)
    ensures KeysOf(Without(recent, key)) == KeysOf(recent) - {key}
  {
    WithoutMembers(recent, key);
    hide Without, Bytesum;
    var rest := Without(recent, key);
    forall k ensures k in KeysOf(rest) <==> k in KeysOf(recent) && k != key {
      if k in KeysOf(rest) {
        var i :| 0 <= i < |rest| && rest[i].key == k;
        assert rest[i] in recent;
      }
      if k in KeysOf(recent) && k != key {
        var i :| 0 <= i < |recent| && recent[i].key == k;
        assert recent[i] in rest;
      }
    }
  }

  lemma KeysPushed(e: Entry, recent: seq<Entry>)
    ensures KeysOf([e] + recent) == {e.key} + KeysOf(recent)
  {
    var all := [e] + recent;
    assert all[0] == e;
    forall i | 0 <= i < |recent| ensures recent[i].key in KeysOf(all) { assert all[i + 1] == recent[i]; }
  }

  lemma KeysOfPrefix(recent: seq<Entry>, kept: seq<Entry>)
    requires kept <= recent
    ensures KeysOf(kept) <= KeysOf(recent)
  {
    forall i | 0 <= i < |kept| ensures kept[i].key in KeysOf(recent) { assert recent[i] == kept[i]; }
  }

  // ----- What is shared -----

  // The length of a UTF-8 rune by its first byte; zero if none begins with it.
  function RuneLength(lead: bv8): nat {
    if lead < 0x80 then 1 else if lead < 0xC0 then 0 else if lead < 0xE0 then 2 else if lead < 0xF0 then 3 else if lead < 0xF8 then 4 else 0
  }

  predicate Continues(b: bv8) {
    0x80 <= b < 0xC0
  }

  // Whole runes, one after the other.
  predicate Runes(s: Bytes)
    decreases |s|
  {
    s == []
    || (var n := RuneLength(s[0]);
        0 < n <= |s| && (forall k :: 1 <= k < n ==> Continues(s[k])) && Runes(s[n..]))
  }

  lemma StartMeans(b: bv8)
    ensures RuneStart(b) <==> !Continues(b)
  {
  }

  lemma {:induction false} CutAtStart(s: Bytes, i: nat)
    requires Runes(s) && i < |s| && !Continues(s[i])
    ensures Runes(s[..i])
    decreases |s|
  {
    var n := RuneLength(s[0]);
    hide RuneLength, Continues;
    if i > 0 {
      assert i >= n;
      CutAtStart(s[n..], i - n);
      assert s[..i][n..] == s[n..][..i - n];
      assert forall k :: 1 <= k < n ==> s[..i][k] == s[k];
    }
  }

  lemma {:induction false} StartAfter(s: Bytes, j: nat)
    requires Runes(s) && j < |s| && Runes(s[..j])
    ensures !Continues(s[j])
    decreases |s|
  {
    if j > 0 {
      var n := RuneLength(s[0]);
      assert s[..j][n..] == s[n..][..j - n];
      StartAfter(s[n..], j - n);
    }
  }

  // Of two texts the longest common part that consists of whole runes.
  lemma SharedRunes(a: Bytes, b: Bytes, i: nat)
    requires Runes(a) && Runes(b) && IsCommonPrefix(a, b, i)
    ensures Runes(a[..i]) && forall j :: i < j <= |a| && j <= |b| && a[..j] == b[..j] ==> !Runes(a[..j])
  {
    if 0 < i < |a| && i < |b| {
      StartMeans(a[i]);
      CutAtStart(a, i);
    } else if i == |a| {
      assert a[..i] == a;
    } else if i == |b| {
      assert a[..i] == b[..i] == b;
    }
    forall j | i < j <= |a| && j <= |b| && a[..j] == b[..j] ensures !Runes(a[..j]) {
      StartIsBoundary(a, b, j);
    }
  }

  lemma StartIsBoundary(a: Bytes, b: Bytes, j: nat)
    requires Runes(a) && j <= |a|
    ensures Runes(a[..j]) ==> Boundary(a, b, j)
  {
    if j < |a| {
      StartMeans(a[j]);
      if Runes(a[..j]) { StartAfter(a, j); }
    }
  }
}
