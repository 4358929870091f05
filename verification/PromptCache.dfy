// internal/adapter/prompt_cache.go: an LRU list, a map and a byte counter with
// eviction and expiry, checked against a plain time-stamped store.
module PromptCache {
  type Bytes = seq<bv8>

  datatype Entry = Entry(key: string, prompt: Bytes, touched: int)

  function Size(e: Entry): nat {
    |e.key| + |e.prompt|
  }

  function Bytesum(recent: seq<Entry>): nat {
    if recent == [] then 0 else Bytesum(recent[..|recent| - 1]) + Size(recent[|recent| - 1])
  }

  // ----- Recency lists, most recent first -----

  function Without(recent: seq<Entry>, key: string): seq<Entry> {
    if recent == [] then []
    else
      var last := recent[|recent| - 1];
      Without(recent[..|recent| - 1], key) + if last.key == key then [] else [last]
  }

  predicate Expired(e: Entry, now: int, ttl: int) {
    now - e.touched >= ttl
  }

  // Every entry that is not expired, wherever it stands.
  function Live(recent: seq<Entry>, now: int, ttl: int): seq<Entry> {
    if recent == [] then []
    else
      var last := recent[|recent| - 1];
      Live(recent[..|recent| - 1], now, ttl) + if Expired(last, now, ttl) then [] else [last]
  }

  ghost predicate Ordered(recent: seq<Entry>, clock: int) {
    && (forall i :: 0 <= i < |recent| ==> recent[i].touched <= clock)
    && (forall i, j :: 0 <= i < j < |recent| ==> recent[j].touched <= recent[i].touched && recent[i].key != recent[j].key)
  }

  // With non-increasing touch times, popping the back while it is expired
  // leaves exactly the live entries.
  lemma {:induction false} LiveWhenBackIsLive(recent: seq<Entry>, now: int, ttl: int)
    requires forall i, j :: 0 <= i < j < |recent| ==> recent[j].touched <= recent[i].touched
    requires recent != [] ==> !Expired(recent[|recent| - 1], now, ttl)
    ensures Live(recent, now, ttl) == recent
  {
    if |recent| > 1 {
      var n := |recent| - 1;
      LiveWhenBackIsLive(recent[..n], now, ttl);
      assert recent == recent[..n] + [recent[n]];
    } else if recent != [] {
      assert Live(recent[..0], now, ttl) == [] && recent == [] + [recent[0]];
    }
  }

  lemma LiveDropsBack(recent: seq<Entry>, now: int, ttl: int)
    requires recent != [] && Expired(recent[|recent| - 1], now, ttl)
    ensures Live(recent, now, ttl) == Live(recent[..|recent| - 1], now, ttl)
  {
  }

  lemma {:induction false} LiveMembers(recent: seq<Entry>, now: int, ttl: int)
    ensures forall e :: e in Live(recent, now, ttl) <==> e in recent && !Expired(e, now, ttl)
  {
    if recent != [] {
      LiveMembers(recent[..|recent| - 1], now, ttl);
      assert recent == recent[..|recent| - 1] + [recent[|recent| - 1]];
    }
  }

  // The longest prefix that leaves room for one more entry of the given size.
  function Fitting(recent: seq<Entry>, size: nat, maxEntries: nat, maxBytes: nat): seq<Entry>
    requires maxEntries > 0 && size <= maxBytes
  {
    if |recent| < maxEntries && Bytesum(recent) + size <= maxBytes then recent
    else if recent == [] then []
    else Fitting(recent[..|recent| - 1], size, maxEntries, maxBytes)
  }

  lemma {:induction false} BytesumMonotone(recent: seq<Entry>, n: nat)
    requires n <= |recent|
    ensures Bytesum(recent[..n]) <= Bytesum(recent)
  {
    if n < |recent| {
      BytesumMonotone(recent[..|recent| - 1], n);
      assert recent[..|recent| - 1][..n] == recent[..n];
    } else {
      assert recent[..n] == recent;
    }
  }

  // Least recently used entries go, and no more of them than needed.
  lemma {:induction false} FittingIsLongest(recent: seq<Entry>, size: nat, maxEntries: nat, maxBytes: nat)
    requires maxEntries > 0 && size <= maxBytes
    ensures var kept := Fitting(recent, size, maxEntries, maxBytes);
            && kept <= recent && |kept| < maxEntries && Bytesum(kept) + size <= maxBytes
            && forall n :: |kept| < n <= |recent| ==> n >= maxEntries || Bytesum(recent[..n]) + size > maxBytes
  {
    if |recent| < maxEntries && Bytesum(recent) + size <= maxBytes {
    } else if recent != [] {
      var shorter := recent[..|recent| - 1];
      FittingIsLongest(shorter, size, maxEntries, maxBytes);
      forall n | |Fitting(recent, size, maxEntries, maxBytes)| < n <= |recent|
        ensures n >= maxEntries || Bytesum(recent[..n]) + size > maxBytes
      {
        if n == |recent| { assert recent[..n] == recent; } else { assert shorter[..n] == recent[..n]; }
      }
    }
  }

  // ----- Removing by key -----

  lemma {:induction false} WithoutMembers(recent: seq<Entry>, key: string)
    ensures forall e :: e in Without(recent, key) <==> e in recent && e.key != key
    ensures |Without(recent, key)| <= |recent| && Bytesum(Without(recent, key)) <= Bytesum(recent)
  {
    if recent != [] {
      var n := |recent| - 1;
      WithoutMembers(recent[..n], key);
      assert recent == recent[..n] + [recent[n]];
      var w := Without(recent[..n], key);
      assert (w + [recent[n]])[..|w|] == w && w + [] == w;
    }
  }

  lemma {:induction false} WithoutAbsent(recent: seq<Entry>, key: string)
    requires forall e :: e in recent ==> e.key != key
    ensures Without(recent, key) == recent
  {
    if recent != [] {
      var n := |recent| - 1;
      WithoutAbsent(recent[..n], key);
      assert recent == recent[..n] + [recent[n]];
    }
  }

  lemma WithoutPushed(recent: seq<Entry>, e: Entry, key: string)
    ensures Without(recent + [e], key) == Without(recent, key) + if e.key == key then [] else [e]
    ensures Bytesum(recent + [e]) == Bytesum(recent) + Size(e)
  {
    assert (recent + [e])[..|recent|] == recent;
  }

  lemma {:induction false} WithoutPresent(recent: seq<Entry>, key: string, e: Entry)
    requires e in recent && e.key == key
    requires forall i, j :: 0 <= i < j < |recent| ==> recent[i].key != recent[j].key
    ensures |Without(recent, key)| == |recent| - 1
    ensures Bytesum(Without(recent, key)) == Bytesum(recent) - Size(e)
  {
    hide Without, Bytesum, Size;
    var n := |recent| - 1;
    var front, last := recent[..n], recent[n];
    assert recent == front + [last];
    WithoutPushed(front, last, key);
    if last == e {
      forall d | d in front ensures d.key != key {}
      WithoutAbsent(front, key);
      assert front + [] == front;
    } else {
      assert e in front;
      WithoutPresent(front, key, e);
      WithoutPushed(Without(front, key), last, key);
    }
  }

  lemma {:induction false} WithoutOrdered(recent: seq<Entry>, key: string, clock: int)
    requires Ordered(recent, clock)
    ensures Ordered(Without(recent, key), clock)
  {
    if recent != [] {
      var n := |recent| - 1;
      WithoutOrdered(recent[..n], key, clock);
      WithoutMembers(recent[..n], key);
      PushBackOrdered(recent, Without(recent[..n], key), clock);
      assert Without(recent[..n], key) + [] == Without(recent[..n], key);
    }
  }

  lemma PushBackOrdered(recent: seq<Entry>, w: seq<Entry>, clock: int)
    requires recent != [] && Ordered(recent, clock) && Ordered(w, clock)
    requires forall e :: e in w ==> e in recent[..|recent| - 1]
    ensures Ordered(w + [recent[|recent| - 1]], clock)
  {
    var n := |recent| - 1;
    forall i | 0 <= i < |w| ensures w[i].touched >= recent[n].touched && w[i].key != recent[n].key {
      var e := w[i];
      assert e in w;
      var k :| 0 <= k < n && recent[..n][k] == e;
      assert recent[k] == e;
    }
  }

  // Front and back of a list.
  lemma {:induction false} PushFrontBytes(e: Entry, recent: seq<Entry>)
    ensures Bytesum([e] + recent) == Size(e) + Bytesum(recent)
  {
    if recent == [] {
      assert [e] + recent == [e] && [e][..0] == [];
    } else {
      PushFrontBytes(e, recent[..|recent| - 1]);
      assert ([e] + recent)[..|recent|] == [e] + recent[..|recent| - 1];
    }
  }

  // ----- Shared prefixes -----

  predicate RuneStart(b: bv8) {
    b & 0xC0 != 0x80
  }

  predicate Boundary(a: Bytes, b: Bytes, i: nat) {
    i == 0 || i >= |a| || i >= |b| || RuneStart(a[i])
  }

  // The longest common prefix that does not end inside a rune.
  ghost predicate IsCommonPrefix(a: Bytes, b: Bytes, i: nat) {
    && i <= |a| && i <= |b| && a[..i] == b[..i] && Boundary(a, b, i)
    && forall j :: i < j <= |a| && j <= |b| && a[..j] == b[..j] ==> !Boundary(a, b, j)
  }

  method CommonPrefix(a: Bytes, b: Bytes) returns (i: nat)
    ensures IsCommonPrefix(a, b, i)
  {
    var n := if |b| < |a| then |b| else |a|;
    i := 0;
    while i < n && a[i] == b[i]
      invariant i <= n && a[..i] == b[..i]
    {
      i := i + 1;
    }
    ghost var longest := i;
    forall j | longest < j <= |a| && j <= |b| ensures a[..j] != b[..j] {
      assert a[..j][longest] != b[..j][longest];
    }
    while i > 0 && i < |a| && i < |b| && !RuneStart(a[i])
      invariant i <= longest && a[..i] == b[..i]
      invariant forall j :: i < j <= longest ==> !Boundary(a, b, j)
    {
      assert a[..i - 1] == a[..i][..i - 1];
      i := i - 1;
    }
  }

  // ----- The index: map, list and byte counter agree -----

  ghost predicate Index(prompts: map<string, Entry>, recent: seq<Entry>, bytes: int, clock: int) {
    && Ordered(recent, clock)
    && (forall k :: k in prompts ==> prompts[k] in recent && prompts[k].key == k)
    && (forall e :: e in recent ==> e.key in prompts && prompts[e.key] == e)
    && |prompts| == |recent| && bytes == Bytesum(recent)
  }

  lemma IndexWithout(prompts: map<string, Entry>, recent: seq<Entry>, bytes: int, clock: int, key: string)
    requires Index(prompts, recent, bytes, clock) && key in prompts
    ensures Index(prompts - {key}, Without(recent, key), bytes - Size(prompts[key]), clock)
    ensures |Without(recent, key)| == |recent| - 1
  {
    hide Bytesum, Without;
    WithoutPresent(recent, key, prompts[key]);
    WithoutMembers(recent, key);
    WithoutOrdered(recent, key, clock);
    assert (prompts - {key}).Keys == prompts.Keys - {key};
  }

  lemma IndexBack(prompts: map<string, Entry>, recent: seq<Entry>, bytes: int, clock: int)
    requires Index(prompts, recent, bytes, clock) && recent != []
    ensures var last := recent[|recent| - 1];
            && last.key in prompts && prompts[last.key] == last
            && Without(recent, last.key) == recent[..|recent| - 1]
  {
    hide Bytesum;
    var n := |recent| - 1;
    forall e | e in recent[..n] ensures e.key != recent[n].key {
      var k :| 0 <= k < n && recent[..n][k] == e;
      assert recent[k] == e;
    }
    WithoutAbsent(recent[..n], recent[n].key);
    assert recent[n] in recent;
    assert recent[..n] + [] == recent[..n];
  }

  lemma IndexPush(prompts: map<string, Entry>, recent: seq<Entry>, bytes: int, clock: int, e: Entry)
    requires Index(prompts, recent, bytes, clock) && e.key !in prompts && e.touched == clock
    ensures Index(prompts[e.key := e], [e] + recent, bytes + Size(e), clock)
  {
    PushFrontBytes(e, recent);
    hide Bytesum;
    assert forall d :: d in [e] + recent <==> d == e || d in recent;
    forall i | 0 <= i < |recent| ensures recent[i].key != e.key {
      assert recent[i] in recent;
    }
  }

  lemma IndexFacts(prompts: map<string, Entry>, recent: seq<Entry>, bytes: int, clock: int)
    requires Index(prompts, recent, bytes, clock)
    ensures |prompts| == |recent| && bytes == Bytesum(recent)
    ensures forall i, j :: 0 <= i < j < |recent| ==> recent[j].touched <= recent[i].touched
    ensures forall later :: clock <= later ==> Index(prompts, recent, bytes, later)
  {
    hide Bytesum;
  }

  // ----- The store: what was remembered, and what a limit took -----

  datatype Stored = Stored(prompt: Bytes, touched: int)

  // A cached key holds what was last remembered for it; a remembered key that
  // is neither cached nor lost to a limit has expired.
  ghost predicate Agrees(prompts: map<string, Entry>, store: map<string, Stored>, evicted: set<string>, clock: int, ttl: int) {
    && (forall k :: k in prompts ==> k in store && k !in evicted && store[k] == Stored(prompts[k].prompt, prompts[k].touched))
    && (forall k :: k in store && k !in prompts && k !in evicted ==> clock - store[k].touched >= ttl)
  }

  // Dropped entries leave the map for the set of evicted keys.
  ghost predicate Dropped(before: map<string, Entry>, after: map<string, Entry>, was: set<string>, lost: set<string>) {
    && after.Keys <= before.Keys && (forall k :: k in after ==> after[k] == before[k])
    && lost == was + (before.Keys - after.Keys)
  }

  lemma NothingDropped(prompts: map<string, Entry>, lost: set<string>)
    ensures Dropped(prompts, prompts, lost, lost)
  {
  }

  lemma DroppedMeans(before: map<string, Entry>, after: map<string, Entry>, was: set<string>, lost: set<string>)
    requires Dropped(before, after, was, lost)
    ensures lost == was + (before.Keys - after.Keys)
  {
  }

  lemma DroppedStep(before: map<string, Entry>, after: map<string, Entry>, was: set<string>, lost: set<string>, key: string)
    requires Dropped(before, after, was, lost) && key in after
    ensures Dropped(before, after - {key}, was, lost + {key})
  {
    assert before.Keys - (after - {key}).Keys == (before.Keys - after.Keys) + {key};
  }

  lemma FittingStep(recent: seq<Entry>, size: nat, maxEntries: nat, maxBytes: nat)
    requires maxEntries > 0 && size <= maxBytes && (|recent| >= maxEntries || Bytesum(recent) + size > maxBytes)
    ensures recent != []
    ensures Fitting(recent, size, maxEntries, maxBytes) == Fitting(recent[..|recent| - 1], size, maxEntries, maxBytes)
  {
  }

  lemma FittingDone(recent: seq<Entry>, size: nat, maxEntries: nat, maxBytes: nat)
    requires maxEntries > 0 && size <= maxBytes && |recent| < maxEntries && Bytesum(recent) + size <= maxBytes
    ensures Fitting(recent, size, maxEntries, maxBytes) == recent
  {
  }

  // What the list holds after one entry was remembered.
  function Remembered(recent: seq<Entry>, e: Entry, closed: bool, maxEntries: nat, maxBytes: nat): seq<Entry>
    requires maxEntries > 0
  {
    var rest := Without(recent, e.key);
    if closed || Size(e) > maxBytes then rest else [e] + Fitting(rest, Size(e), maxEntries, maxBytes)
  }

  // ----- Keys lost to a limit -----

  function KeysOf(entries: seq<Entry>): set<string> {
    set i | 0 <= i < |entries| :: entries[i].key
  }

  // What is behind the kept part of a list.
  function Behind(recent: seq<Entry>, kept: seq<Entry>): seq<Entry> {
    if |kept| <= |recent| then recent[|kept|..] else []
  }

  // The keys lost to a limit after an entry was remembered: one that is too
  // large itself, or those of the entries that had to make room for it.
  function LostKeys(lost: set<string>, recent: seq<Entry>, e: Entry, closed: bool, maxEntries: nat, maxBytes: nat): set<string>
    requires maxEntries > 0
  {
    var rest := Without(recent, e.key);
    if closed then lost
    else if Size(e) > maxBytes then lost + {e.key}
    else (lost + KeysOf(Behind(rest, Fitting(rest, Size(e), maxEntries, maxBytes)))) - {e.key}
  }

  lemma IndexKeys(prompts: map<string, Entry>, recent: seq<Entry>, bytes: int, clock: int)
    requires Index(prompts, recent, bytes, clock)
    ensures prompts.Keys == KeysOf(recent)
    ensures forall i, j :: 0 <= i < j < |recent| ==> recent[i].key != recent[j].key
  {
    hide Bytesum;
    forall k | k in prompts ensures k in KeysOf(recent) {
      var i :| 0 <= i < |recent| && recent[i] == prompts[k];
      assert recent[i].key == k;
    }
    forall i | 0 <= i < |recent| ensures recent[i].key in prompts {
      assert recent[i] in recent;
    }
  }

  lemma KeysOfParts(kept: seq<Entry>, gone: seq<Entry>)
    requires forall i, j :: 0 <= i < j < |kept + gone| ==> (kept + gone)[i].key != (kept + gone)[j].key
    ensures KeysOf(kept + gone) == KeysOf(kept) + KeysOf(gone) && KeysOf(kept) !! KeysOf(gone)
  {
    var all := kept + gone;
    forall i | 0 <= i < |kept| ensures kept[i].key in KeysOf(all) { assert all[i] == kept[i]; }
    forall i | 0 <= i < |gone| ensures gone[i].key in KeysOf(all) { assert all[|kept| + i] == gone[i]; }
    forall i, j | 0 <= i < |kept| && 0 <= j < |gone| ensures kept[i].key != gone[j].key {
      assert all[i] == kept[i] && all[|kept| + j] == gone[j];
    }
  }

  // The keys that leave the map are those of the entries cut off the list.
  lemma DroppedKeys(before: map<string, Entry>, recent: seq<Entry>, bytes: int, after: map<string, Entry>, kept: seq<Entry>, left: int,
                    clock: int)
    requires Index(before, recent, bytes, clock) && Index(after, kept, left, clock) && kept <= recent
    ensures before.Keys - after.Keys == KeysOf(Behind(recent, kept))
  {
    hide Index, KeysOf;
    IndexKeys(before, recent, bytes, clock);
    IndexKeys(after, kept, left, clock);
    CutKeys(recent, kept);
  }

  lemma CutKeys(recent: seq<Entry>, kept: seq<Entry>)
    requires kept <= recent && forall i, j :: 0 <= i < j < |recent| ==> recent[i].key != recent[j].key
    ensures KeysOf(recent) - KeysOf(kept) == KeysOf(Behind(recent, kept))
  {
    hide KeysOf;
    var gone := Behind(recent, kept);
    assert recent == kept + gone;
    KeysOfParts(kept, gone);
  }

  lemma AgreesTooLarge(prompts: map<string, Entry>, store: map<string, Stored>, evicted: set<string>, clock: int, ttl: int, e: Entry)
    requires Agrees(prompts, store, evicted, clock, ttl)
    ensures Agrees(prompts - {e.key}, store[e.key := Stored(e.prompt, e.touched)], evicted + {e.key}, clock, ttl)
  {
  }

  lemma AgreesRemembered(before: map<string, Entry>, kept: map<string, Entry>, store: map<string, Stored>, was: set<string>,
                         lost: set<string>, clock: int, ttl: int, e: Entry)
    requires Agrees(before, store, was, clock, ttl) && Dropped(before - {e.key}, kept, was, lost)
    ensures e.key !in kept
    ensures Agrees(kept[e.key := e], store[e.key := Stored(e.prompt, e.touched)], lost - {e.key}, clock, ttl)
  {
  }

  // After expiry, exactly the stored keys that neither idled out nor fell to a limit are cached.
  lemma FreshLookup(prompts: map<string, Entry>, before: seq<Entry>, recent: seq<Entry>, store: map<string, Stored>,
                    evicted: set<string>, bytes: int, now: int, ttl: int, key: string)
    requires Index(prompts, recent, bytes, now) && recent == Live(before, now, ttl)
    ensures Agrees(prompts, store, evicted, now, ttl) ==>
              (key in prompts <==> key in store && key !in evicted && now - store[key].touched < ttl)
    ensures Agrees(prompts, store, evicted, now, ttl) && key in prompts ==> prompts[key].prompt == store[key].prompt
  {
    hide Bytesum, Ordered;
    LiveMembers(before, now, ttl);
    hide Live;
  }

  lemma LaterAgrees(prompts: map<string, Entry>, store: map<string, Stored>, evicted: set<string>, clock: int, now: int, ttl: int)
    requires clock <= now
    ensures Agrees(prompts, store, evicted, clock, ttl) ==> Agrees(prompts, store, evicted, now, ttl)
  {
  }

  lemma AgreesExpired(prompts: map<string, Entry>, store: map<string, Stored>, evicted: set<string>, now: int, ttl: int, key: string)
    requires key in prompts && Expired(prompts[key], now, ttl)
    ensures Agrees(prompts, store, evicted, now, ttl) ==> Agrees(prompts - {key}, store, evicted, now, ttl)
  {
  }

  lemma ClosedIsEmpty(prompts: map<string, Entry>, recent: seq<Entry>, bytes: int, clock: int)
    requires Index(prompts, recent, bytes, clock) && recent == []
    ensures prompts == map[]
  {
  }

  // ----- The cache object -----

  class Cache {
    const maxEntries: nat
    const maxBytes: nat
    const idleTTL: int
    var prompts: map<string, Entry>
    var recent: seq<Entry>
    var bytes: int
    var closed: bool
    ghost var clock: int
    ghost var store: map<string, Stored>
    ghost var evicted: set<string>

    ghost predicate Indexed()
      reads this
    {
      Index(prompts, recent, bytes, clock) && maxEntries > 0 && |recent| <= maxEntries && bytes <= maxBytes
    }

    ghost predicate Valid()
      reads this
    {
      && Indexed() && (closed ==> recent == [])
      && (!closed ==> Agrees(prompts, store, evicted, clock, idleTTL))
    }

    constructor (maxEntries: nat, maxBytes: nat, idleTTL: int)
      requires maxEntries > 0
      ensures Valid() && !closed && store == map[] && evicted == {}
      ensures this.maxEntries == maxEntries && this.maxBytes == maxBytes && this.idleTTL == idleTTL
    {
      this.maxEntries, this.maxBytes, this.idleTTL := maxEntries, maxBytes, idleTTL;
      prompts, recent, bytes, closed := map[], [], 0, false;
      clock, store, evicted := 0, map[], {};
    }

    method RemoveLocked(key: string)
      requires Indexed() && key in prompts
      modifies this`prompts, this`recent, this`bytes
      ensures Indexed() && recent == Without(old(recent), key) && prompts == old(prompts) - {key}
      ensures |recent| == |old(recent)| - 1
    {
      hide Index, Without;
      IndexWithout(prompts, recent, bytes, clock, key);
      var entry := prompts[key];
      prompts := prompts - {key};
      bytes := bytes - (|entry.key| + |entry.prompt|);
      recent := Without(recent, key);
    }

    method RemoveBack()
      requires Indexed() && recent != []
      modifies this`prompts, this`recent, this`bytes
      ensures Indexed() && recent == old(recent)[..|old(recent)| - 1]
      ensures prompts == old(prompts) - {old(recent)[|old(recent)| - 1].key}
    {
      hide Index, Without;
      IndexBack(prompts, recent, bytes, clock);
      RemoveLocked(recent[|recent| - 1].key);
    }

    // Expiry from the back removes exactly the expired entries.
    method ExpireLocked(now: int)
      requires Valid() && clock <= now
      modifies this`prompts, this`recent, this`bytes, this`clock
      ensures Valid() && clock == now && recent == Live(old(recent), now, idleTTL)
    {
      hide Index, Live, Agrees;
      IndexFacts(prompts, recent, bytes, clock);
      LaterAgrees(prompts, store, evicted, clock, now, idleTTL);
      clock := now;
      while |recent| > 0
        invariant Valid() && clock == now && Live(old(recent), now, idleTTL) == Live(recent, now, idleTTL)
        decreases |recent|
      {
        var oldest := recent[|recent| - 1];
        if now - oldest.touched < idleTTL {
          break;
        }
        LiveDropsBack(recent, now, idleTTL);
        IndexBack(prompts, recent, bytes, clock);
        AgreesExpired(prompts, store, evicted, now, idleTTL, oldest.key);
        RemoveBack();
      }
      IndexFacts(prompts, recent, bytes, clock);
      LiveWhenBackIsLive(recent, now, idleTTL);
    }

    // Drops least recently used entries until one more of the size fits.
    method Evict(size: nat)
      requires Indexed() && size <= maxBytes
      modifies this`prompts, this`recent, this`bytes, this`evicted
      ensures Indexed() && recent == Fitting(old(recent), size, maxEntries, maxBytes)
      ensures Dropped(old(prompts), prompts, old(evicted), evicted)
      ensures evicted == old(evicted) + KeysOf(Behind(old(recent), recent))
    {
      hide Index, Bytesum, Fitting, Dropped, KeysOf;
      IndexFacts(prompts, recent, bytes, clock);
      NothingDropped(prompts, evicted);
      while |prompts| >= maxEntries || bytes + size > maxBytes
        invariant Indexed() && |prompts| == |recent| && bytes == Bytesum(recent)
        invariant Fitting(recent, size, maxEntries, maxBytes) == Fitting(old(recent), size, maxEntries, maxBytes)
        invariant Dropped(old(prompts), prompts, old(evicted), evicted)
        decreases |recent|
      {
        FittingStep(recent, size, maxEntries, maxBytes);
        IndexBack(prompts, recent, bytes, clock);
        DroppedStep(old(prompts), prompts, old(evicted), evicted, recent[|recent| - 1].key);
        evicted := evicted + {recent[|recent| - 1].key};
        RemoveBack();
        IndexFacts(prompts, recent, bytes, clock);
      }
      FittingDone(recent, size, maxEntries, maxBytes);
      FittingIsLongest(old(recent), size, maxEntries, maxBytes);
      DroppedKeys(old(prompts), old(recent), old(bytes), prompts, recent, bytes, clock);
      DroppedMeans(old(prompts), prompts, old(evicted), evicted);
    }

    method PushFront(e: Entry)
      requires Indexed() && e.key !in prompts && e.touched == clock
      requires |recent| < maxEntries && bytes + Size(e) <= maxBytes
      modifies this`prompts, this`recent, this`bytes
      ensures Indexed() && prompts == old(prompts)[e.key := e] && recent == [e] + old(recent)
    {
      IndexPush(prompts, recent, bytes, clock, e);
      hide Index;
      prompts := prompts[e.key := e];
      recent := [e] + recent;
      bytes := bytes + |e.key| + |e.prompt|;
    }

    // Without the key's previous entry, the oldest entries make room for it.
    method RememberLocked(key: string, prompt: Bytes, now: int)
      requires Valid() && clock == now
      modifies this`prompts, this`recent, this`bytes, this`evicted, this`store
      ensures Valid()
      ensures recent == Remembered(old(recent), Entry(key, prompt, now), closed, maxEntries, maxBytes)
      ensures evicted == LostKeys(old(evicted), old(recent), Entry(key, prompt, now), closed, maxEntries, maxBytes)
      ensures !closed ==> store == old(store)[key := Stored(prompt, now)]
    {
      hide Index, Bytesum, Without, Fitting, Agrees, KeysOf, Behind;
      ghost var had := prompts;
      Forget(key);
      if closed {
        return;
      }
      if |key| + |prompt| > maxBytes {
        AgreesTooLarge(had, store, evicted, clock, idleTTL, Entry(key, prompt, now));
        store := store[key := Stored(prompt, now)];
        evicted := evicted + {key};
        return;
      }
      MakeRoomFor(Entry(key, prompt, now), had);
    }

    // The rest of it, for an entry that may be kept; `had` is the map with the
    // key's previous entry.
    method MakeRoomFor(e: Entry, ghost had: map<string, Entry>)
      requires Indexed() && !closed && e.touched == clock && Size(e) <= maxBytes
      requires prompts == had - {e.key} && Agrees(had, store, evicted, clock, idleTTL)
      modifies this`prompts, this`recent, this`bytes, this`evicted, this`store
      ensures Valid() && store == old(store)[e.key := Stored(e.prompt, e.touched)]
      ensures recent == [e] + Fitting(old(recent), Size(e), maxEntries, maxBytes)
      ensures evicted == old(evicted) + KeysOf(Behind(old(recent), Fitting(old(recent), Size(e), maxEntries, maxBytes))) - {e.key}
    {
      hide Index, Bytesum, Fitting, Dropped, Agrees, KeysOf, Behind;
      ghost var lost := evicted;
      Evict(Size(e));
      FittingIsLongest(old(recent), Size(e), maxEntries, maxBytes);
      IndexFacts(prompts, recent, bytes, clock);
      AgreesRemembered(had, prompts, store, lost, evicted, clock, idleTTL, e);
      store := store[e.key := Stored(e.prompt, e.touched)];
      evicted := evicted - {e.key};
      PushFront(e);
    }

    method Forget(key: string)
      requires Indexed()
      modifies this`prompts, this`recent, this`bytes
      ensures Indexed() && recent == Without(old(recent), key) && prompts == old(prompts) - {key}
      ensures old(recent) == [] ==> recent == []
    {
      hide Bytesum, Without;
      WithoutMembers(recent, key);
      if key in prompts {
        hide Index;
        RemoveLocked(key);
      } else {
        WithoutAbsent(recent, key);
        assert prompts - {key} == prompts;
      }
    }

    // A lookup agrees with the plain store: it finds a key that was remembered,
    // is not idle for the TTL and was not lost to a limit, and no other.
    method PrefixAndRemember(key: string, prompt: Bytes, now: int) returns (hit: nat)
      requires Valid() && clock <= now
      modifies this
      ensures Valid() && clock == now && closed == old(closed)
      ensures !closed ==> store == old(store)[key := Stored(prompt, now)]
      ensures recent == Remembered(Live(old(recent), now, idleTTL), Entry(key, prompt, now), closed, maxEntries, maxBytes)
      ensures evicted == LostKeys(old(evicted), Live(old(recent), now, idleTTL), Entry(key, prompt, now), closed, maxEntries, maxBytes)
      ensures if !closed && key in old(store) && key !in old(evicted) && now - old(store)[key].touched < idleTTL
              then IsCommonPrefix(old(store)[key].prompt, prompt, hit) else hit == 0
    {
      hide Index, Live, Remembered, Agrees, LostKeys;
      ExpireLocked(now);
      FreshLookup(prompts, old(recent), recent, store, evicted, bytes, now, idleTTL, key);
      if closed { ClosedIsEmpty(prompts, recent, bytes, clock); }
      hit := 0;
      if key in prompts {
        hit := CommonPrefix(prompts[key].prompt, prompt);
      }
      RememberLocked(key, prompt, now);
    }

    method Remember(key: string, prompt: Bytes, now: int)
      requires Valid() && clock <= now
      modifies this
      ensures Valid() && closed == old(closed)
      ensures prompt == [] ==> recent == old(recent) && store == old(store)
      ensures prompt != [] && !closed ==> clock == now && store == old(store)[key := Stored(prompt, now)]
      ensures prompt != [] ==>
                recent == Remembered(Live(old(recent), now, idleTTL), Entry(key, prompt, now), closed, maxEntries, maxBytes)
                && evicted == LostKeys(old(evicted), Live(old(recent), now, idleTTL), Entry(key, prompt, now), closed, maxEntries, maxBytes)
    {
      hide Index, Live, Without, Fitting;
      if prompt == [] {
        return;
      }
      ExpireLocked(now);
      RememberLocked(key, prompt, now);
    }

    method Stats(now: int) returns (entries: nat, retained: nat)
      requires Valid() && clock <= now
      modifies this
      ensures Valid() && clock == now && recent == Live(old(recent), now, idleTTL)
      ensures entries == |recent| <= maxEntries && retained == Bytesum(recent) <= maxBytes
    {
      hide Index, Live, Bytesum;
      ExpireLocked(now);
      IndexFacts(prompts, recent, bytes, clock);
      entries, retained := |prompts|, bytes;
    }

    method Close()
      requires Valid()
      modifies this
      ensures Valid() && closed && recent == []
    {
      if !closed {
        closed := true;
        prompts, recent, bytes := map[], [], 0;
      }
    }
  }
}
