/** The byte-bounded LRU of whole blobs and quilt members. */
module Cache {
  import opened Types

  /** data is the cached buffer itself; its length never changes, its bytes must not. */
  datatype CacheEntry = CacheEntry(key: string, data: array<byte>)

  function ByteCount(ll: seq<CacheEntry>): nat {
    if ll == [] then 0 else ByteCount(ll[..|ll| - 1]) + ll[|ll| - 1].data.Length
  }

  predicate OneEntryPerKey(ll: seq<CacheEntry>) {
    forall i, j :: 0 <= i < j < |ll| ==> ll[i].key != ll[j].key
  }

  predicate Has(ll: seq<CacheEntry>, key: string) { exists e :: e in ll && e.key == key }

  function Find(ll: seq<CacheEntry>, key: string): Option<CacheEntry> {
    if ll == [] then None else if ll[0].key == key then Some(ll[0]) else Find(ll[1..], key)
  }

  function Without(ll: seq<CacheEntry>, key: string): seq<CacheEntry> {
    if ll == [] then []
    else if ll[|ll| - 1].key == key then Without(ll[..|ll| - 1], key)
    else Without(ll[..|ll| - 1], key) + [ll[|ll| - 1]]
  }

  // ---- The specification: a list, most recently used first ----

  function ToFront(ll: seq<CacheEntry>, key: string): seq<CacheEntry> {
    match Find(ll, key) case None => ll case Some(e) => [e] + Without(ll, key)
  }

  /** Drop entries from the cold end until the rest fits. */
  function Trim(ll: seq<CacheEntry>, maxBytes: int): seq<CacheEntry> {
    if ll == [] || ByteCount(ll) <= maxBytes then ll else Trim(ll[..|ll| - 1], maxBytes)
  }

  function Added(ll: seq<CacheEntry>, e: CacheEntry, maxBytes: int): seq<CacheEntry> {
    Trim([e] + Without(ll, e.key), maxBytes)
  }

  // ---- What the specification amounts to ----

  predicate Within(a: seq<CacheEntry>, b: seq<CacheEntry>) { forall e :: e in a ==> e in b }

  predicate Lacks(a: seq<CacheEntry>, key: string) { forall e :: e in a ==> e.key != key }

  /** a holds exactly the entries of b that have another key. */
  predicate IsRest(a: seq<CacheEntry>, b: seq<CacheEntry>, key: string) {
    Within(a, b) && Lacks(a, key) && forall e :: e in b && e.key != key ==> e in a
  }

  lemma {:induction false} WithoutShape(ll: seq<CacheEntry>, key: string)
    ensures IsRest(Without(ll, key), ll, key)
    ensures OneEntryPerKey(ll) ==> OneEntryPerKey(Without(ll, key))
  {
    if ll != [] {
      var n := |ll| - 1;
      assert ll == ll[..n] + [ll[n]];
      WithoutShape(ll[..n], key);
      if OneEntryPerKey(ll) && ll[n].key != key {
        var rest := Without(ll[..n], key);
        forall i | 0 <= i < |rest| ensures rest[i].key != ll[n].key {
          assert rest[i] in rest;
          var front := ll[..n];
          var j :| 0 <= j < |front| && front[j] == rest[i];
          assert ll[j].key != ll[n].key;
        }
      }
    }
  }

  lemma {:induction false} FindShape(ll: seq<CacheEntry>, key: string)
    ensures Find(ll, key).Some? <==> Has(ll, key)
    ensures Find(ll, key).Some? ==> Find(ll, key).value in ll && Find(ll, key).value.key == key
  {
    if ll != [] {
      assert ll == [ll[0]] + ll[1..];
      FindShape(ll[1..], key);
    }
  }

  lemma {:induction false} BytesOfWithout(ll: seq<CacheEntry>, key: string)
    requires OneEntryPerKey(ll)
    ensures ByteCount(Without(ll, key))
         == ByteCount(ll) - match Find(ll, key) { case None => 0 case Some(e) => e.data.Length }
  {
    if ll != [] {
      var n := |ll| - 1;
      BytesOfWithout(ll[..n], key);
      FindInFront(ll, key);
      if ll[n].key != key {
        assert (Without(ll[..n], key) + [ll[n]])[..|Without(ll[..n], key)|] == Without(ll[..n], key);
      }
    }
  }

  lemma {:induction false} FindInFront(ll: seq<CacheEntry>, key: string)
    requires ll != [] && OneEntryPerKey(ll)
    ensures Find(ll, key) == if ll[|ll| - 1].key == key then Some(ll[|ll| - 1]) else Find(ll[..|ll| - 1], key)
    ensures ll[|ll| - 1].key == key ==> Find(ll[..|ll| - 1], key) == None
  {
    var n := |ll| - 1;
    if n == 0 {
      assert ll[1..] == [];
    } else {
      FindInFront(ll[1..], key);
      assert ll[1..][..n - 1] == ll[..n][1..];
    }
  }

  lemma {:induction false} BytesOfCons(e: CacheEntry, ll: seq<CacheEntry>)
    ensures ByteCount([e] + ll) == e.data.Length + ByteCount(ll)
  {
    if ll == [] {
      assert [e] + ll == [e] && [e][..0] == [];
    } else {
      BytesOfCons(e, ll[..|ll| - 1]);
      assert ([e] + ll)[..|ll|] == [e] + ll[..|ll| - 1];
    }
  }

  /** What stays is the longest most-recent prefix that fits. */
  lemma {:induction false} TrimIsLongestPrefix(ll: seq<CacheEntry>, maxBytes: nat)
    ensures Trim(ll, maxBytes) <= ll && ByteCount(Trim(ll, maxBytes)) <= maxBytes
    ensures forall m :: |Trim(ll, maxBytes)| < m <= |ll| ==> ByteCount(ll[..m]) > maxBytes
  {
    var n := |Trim(ll, maxBytes)|;
    if ll != [] && ByteCount(ll) > maxBytes {
      TrimIsLongestPrefix(ll[..|ll| - 1], maxBytes);
      forall m | n < m <= |ll| ensures ByteCount(ll[..m]) > maxBytes {
        if m < |ll| { assert ll[..|ll| - 1][..m] == ll[..m]; } else { assert ll[..m] == ll; }
      }
    }
  }

  /** What stays when the entry at i goes: the rest, in the order it had. */
  function Others(ll: seq<CacheEntry>, i: nat): seq<CacheEntry>
    requires i < |ll|
  {
    ll[..i] + ll[i + 1..]
  }

  lemma {:induction false} WithoutAbsent(ll: seq<CacheEntry>, key: string)
    requires forall i :: 0 <= i < |ll| ==> ll[i].key != key
    ensures Without(ll, key) == ll
  {
    if ll != [] { WithoutAbsent(ll[..|ll| - 1], key); }
  }

  lemma {:induction false} WithoutAt(ll: seq<CacheEntry>, key: string, i: nat)
    requires OneEntryPerKey(ll) && i < |ll| && ll[i].key == key
    ensures Without(ll, key) == Others(ll, i)
  {
    var n := |ll| - 1;
    if i == n {
      WithoutAbsent(ll[..n], key);
      assert Others(ll, i) == ll[..n];
    } else {
      WithoutAt(ll[..n], key, i);
      assert Others(ll[..n], i) + [ll[n]] == Others(ll, i);
    }
  }

  /** kept is the longest run from the front of all that fits. */
  predicate IsLongestFit(all: seq<CacheEntry>, kept: seq<CacheEntry>, maxBytes: int) {
    && kept <= all && ByteCount(kept) <= maxBytes
    && forall m :: |kept| < m <= |all| ==> ByteCount(all[..m]) > maxBytes
  }

  /** after is what fits of the new entry followed by the old ones, less its namesake, in
      the order they had. */
  predicate IsAdmission(before: seq<CacheEntry>, e: CacheEntry, after: seq<CacheEntry>, maxBytes: int) {
    && after != [] && after[0] == e
    && (forall i :: 0 <= i < |before| && before[i].key == e.key ==>
          IsLongestFit([e] + before[..i] + before[i + 1..], after, maxBytes))
    && ((forall i :: 0 <= i < |before| ==> before[i].key != e.key) ==> IsLongestFit([e] + before, after, maxBytes))
  }

  lemma AddedIsAdmission(ll: seq<CacheEntry>, e: CacheEntry, maxBytes: nat)
    requires OneEntryPerKey(ll) && e.data.Length <= maxBytes
    ensures IsAdmission(ll, e, Added(ll, e, maxBytes), maxBytes)
  {
    TrimIsLongestPrefix([e] + Without(ll, e.key), maxBytes);
    AddedKeepsTheNewEntry(ll, e, maxBytes);
    forall i | 0 <= i < |ll| && ll[i].key == e.key
      ensures IsLongestFit([e] + ll[..i] + ll[i + 1..], Added(ll, e, maxBytes), maxBytes)
    {
      WithoutAt(ll, e.key, i);
      assert [e] + ll[..i] + ll[i + 1..] == [e] + Others(ll, i);
    }
    if forall i :: 0 <= i < |ll| ==> ll[i].key != e.key { WithoutAbsent(ll, e.key); }
  }

  /** after is before with the entry at i moved to the front and the others as they were. */
  predicate IsMoveToFront(before: seq<CacheEntry>, i: nat, after: seq<CacheEntry>) {
    i < |before| && after == [before[i]] + before[..i] + before[i + 1..]
  }

  lemma MovedToFront(ll: seq<CacheEntry>, key: string)
    requires OneEntryPerKey(ll)
    ensures forall i :: 0 <= i < |ll| && ll[i].key == key ==> IsMoveToFront(ll, i, ToFront(ll, key))
    ensures (forall i :: 0 <= i < |ll| ==> ll[i].key != key) ==> ToFront(ll, key) == ll
  {
    FindShape(ll, key);
    forall i | 0 <= i < |ll| && ll[i].key == key ensures IsMoveToFront(ll, i, ToFront(ll, key)) {
      SameKeySameEntry(ll, Find(ll, key).value, ll[i]);
      WithoutAt(ll, key, i);
      assert [ll[i]] + Others(ll, i) == [ll[i]] + ll[..i] + ll[i + 1..];
    }
  }

  lemma ConsKeepsKeysApart(e: CacheEntry, rest: seq<CacheEntry>)
    requires OneEntryPerKey(rest) && Lacks(rest, e.key)
    ensures OneEntryPerKey([e] + rest)
  {
    var all := [e] + rest;
    forall i, j | 0 <= i < j < |all| ensures all[i].key != all[j].key {
      assert all[j] == rest[j - 1] && rest[j - 1] in rest;
    }
  }

  lemma FrontShape(ll: seq<CacheEntry>, e: CacheEntry)
    requires OneEntryPerKey(ll)
    ensures OneEntryPerKey([e] + Without(ll, e.key))
    ensures IsRest(Without(ll, e.key), ll, e.key)
  {
    WithoutShape(ll, e.key);
    ConsKeepsKeysApart(e, Without(ll, e.key));
  }

  /** An entry that fits by itself is never its own victim. */
  lemma AddedKeepsTheNewEntry(ll: seq<CacheEntry>, e: CacheEntry, maxBytes: nat)
    requires OneEntryPerKey(ll) && e.data.Length <= maxBytes
    ensures Added(ll, e, maxBytes) != [] && Added(ll, e, maxBytes)[0] == e
    ensures OneEntryPerKey(Added(ll, e, maxBytes))
    ensures Within(Added(ll, e, maxBytes), [e] + ll)
    ensures Lacks(Added(ll, e, maxBytes)[1..], e.key)
  {
    var all := [e] + Without(ll, e.key);
    FrontShape(ll, e);
    TrimIsLongestPrefix(all, maxBytes);
    assert all[..1] == [e];
    assert ByteCount([e]) == e.data.Length by { BytesOfCons(e, []); assert [e] + [] == [e]; }
  }

  lemma ToFrontShape(ll: seq<CacheEntry>, key: string)
    requires OneEntryPerKey(ll)
    ensures OneEntryPerKey(ToFront(ll, key)) && ByteCount(ToFront(ll, key)) == ByteCount(ll)
    ensures Within(ToFront(ll, key), ll) && Within(ll, ToFront(ll, key))
  {
    FindShape(ll, key);
    BytesOfWithout(ll, key);
    if Find(ll, key).Some? {
      var e := Find(ll, key).value;
      FrontShape(ll, e);
      BytesOfCons(e, Without(ll, key));
      forall j | 0 <= j < |ll| && ll[j].key == key ensures ll[j] == e { SameKeySameEntry(ll, ll[j], e); }
    }
  }

  lemma SameKeySameEntry(ll: seq<CacheEntry>, a: CacheEntry, b: CacheEntry)
    requires OneEntryPerKey(ll) && a in ll && b in ll && a.key == b.key
    ensures a == b
  {
    var i :| 0 <= i < |ll| && ll[i] == a;
    var j :| 0 <= j < |ll| && ll[j] == b;
  }

  // ---- The cache ----

  /** The map and the recency list hold the same entries. */
  ghost predicate Indexed(ll: seq<CacheEntry>, items: map<string, CacheEntry>) {
    && OneEntryPerKey(ll)
    && (forall k :: k in items ==> items[k] in ll && items[k].key == k)
    && (forall e :: e in ll ==> e.key in items && items[e.key] == e)
  }

  ghost predicate Consistent(ll: seq<CacheEntry>, items: map<string, CacheEntry>, curBytes: int) {
    Indexed(ll, items) && curBytes == ByteCount(ll)
  }

  class BlobCache {
    var ll: seq<CacheEntry>
    var items: map<string, CacheEntry>
    var curBytes: int
    const maxBytes: int
    const maxEntrySize: int

    ghost predicate Valid()
      reads this
    {
      && Consistent(ll, items, curBytes)
      && curBytes <= maxBytes
      && 0 < maxEntrySize <= maxBytes
      && NoneAbove(ll, maxEntrySize)
    }

    constructor (maxBytes: int)
      requires maxBytes > 0
      ensures Valid() && ll == [] && this.maxBytes == maxBytes
      ensures maxEntrySize == if maxBytes < 4 then maxBytes else maxBytes / 4
    {
      ll, items, curBytes := [], map[], 0;
      this.maxBytes := maxBytes;
      this.maxEntrySize := if maxBytes / 4 <= 0 then maxBytes else maxBytes / 4;
    }

    method Get(key: string) returns (r: Option<array<byte>>)
      requires Valid()
      modifies this
      ensures Valid() && ll == ToFront(old(ll), key)
      ensures r.Some? <==> Has(old(ll), key)
      ensures r.Some? ==> CacheEntry(key, r.value) in ll
      ensures forall i :: 0 <= i < |old(ll)| && old(ll)[i].key == key ==>
        r == Some(old(ll)[i].data) && IsMoveToFront(old(ll), i, ll)
      ensures (forall i :: 0 <= i < |old(ll)| ==> old(ll)[i].key != key) ==> r == None && ll == old(ll)
    {
      HitOrMiss(ll, items, key);
      if key !in items { return None; }
      var e := items[key];
      ll := [e] + Without(ll, key);
      return Some(e.data);
    }

    method Add(key: string, data: array<byte>)
      requires Valid()
      modifies this
      ensures Valid()
      ensures ll == if data.Length > maxEntrySize then old(ll) else Added(old(ll), CacheEntry(key, data), maxBytes)
      ensures data.Length > maxEntrySize ==> ll == old(ll)
      ensures data.Length <= maxEntrySize ==> IsAdmission(old(ll), CacheEntry(key, data), ll, maxBytes)
    {
      if data.Length > maxEntrySize { return; }
      var e := CacheEntry(key, data);
      IndexFront(ll, items, e);
      if key in items {
        curBytes := curBytes + data.Length - items[key].data.Length;
      } else {
        curBytes := curBytes + data.Length;
      }
      ll := [e] + Without(ll, key);
      items := items[key := e];
      Evict();
      AddedKeepsTheNewEntry(old(ll), e, maxBytes);
      AddedIsAdmission(old(ll), e, maxBytes);
      SmallEntries(old(ll), e, ll, maxEntrySize);
    }

    /** The loop that ends add. */
    method Evict()
      requires Consistent(ll, items, curBytes) && maxBytes >= 0
      modifies this`ll, this`items, this`curBytes
      ensures Consistent(ll, items, curBytes) && curBytes <= maxBytes
      ensures ll == Trim(old(ll), maxBytes)
    {
      while curBytes > maxBytes
        invariant Consistent(ll, items, curBytes)
        invariant Trim(old(ll), maxBytes) == Trim(ll, maxBytes)
        decreases |ll|
      {
        if |ll| == 0 { break; }
        DropBack(ll, items, curBytes, maxBytes);
        var back := ll[|ll| - 1];
        ll, items, curBytes := ll[..|ll| - 1], items - {back.key}, curBytes - back.data.Length;
      }
    }
  }

  predicate NoneAbove(ll: seq<CacheEntry>, limit: int) { forall e :: e in ll ==> e.data.Length <= limit }

  lemma SmallEntries(ll: seq<CacheEntry>, e: CacheEntry, after: seq<CacheEntry>, limit: int)
    requires NoneAbove(ll, limit) && e.data.Length <= limit && Within(after, [e] + ll)
    ensures NoneAbove(after, limit)
  {
  }

  lemma HitOrMiss(ll: seq<CacheEntry>, items: map<string, CacheEntry>, key: string)
    requires Indexed(ll, items)
    ensures key in items <==> Has(ll, key)
    ensures key !in items ==> ToFront(ll, key) == ll && forall i :: 0 <= i < |ll| ==> ll[i].key != key
    ensures key in items ==> ToFront(ll, key) == [items[key]] + Without(ll, key)
    ensures forall i :: 0 <= i < |ll| && ll[i].key == key ==>
      key in items && ll[i] == items[key] && IsMoveToFront(ll, i, ToFront(ll, key))
    ensures Indexed(ToFront(ll, key), items) && ByteCount(ToFront(ll, key)) == ByteCount(ll)
    ensures Within(ToFront(ll, key), ll)
  {
    FindShape(ll, key);
    ToFrontShape(ll, key);
    MovedToFront(ll, key);
    forall i | 0 <= i < |ll| && ll[i].key == key ensures key in items && ll[i] == items[key] { assert ll[i] in ll; }
    if key in items { SameKeySameEntry(ll, items[key], Find(ll, key).value); }
  }

  lemma IndexFront(ll: seq<CacheEntry>, items: map<string, CacheEntry>, e: CacheEntry)
    requires Indexed(ll, items)
    ensures Indexed([e] + Without(ll, e.key), items[e.key := e])
    ensures ByteCount([e] + Without(ll, e.key))
         == ByteCount(ll) + e.data.Length - if e.key in items then items[e.key].data.Length else 0
  {
    FrontShape(ll, e);
    FindShape(ll, e.key);
    BytesOfWithout(ll, e.key);
    BytesOfCons(e, Without(ll, e.key));
    if e.key in items { SameKeySameEntry(ll, items[e.key], Find(ll, e.key).value); }
    IndexedFront(ll, items, e, Without(ll, e.key));
  }

  lemma IndexedFront(ll: seq<CacheEntry>, items: map<string, CacheEntry>, e: CacheEntry, rest: seq<CacheEntry>)
    requires Indexed(ll, items) && IsRest(rest, ll, e.key) && OneEntryPerKey([e] + rest)
    ensures Indexed([e] + rest, items[e.key := e])
  {
  }

  lemma DropBack(ll: seq<CacheEntry>, items: map<string, CacheEntry>, curBytes: int, maxBytes: int)
    requires ll != [] && Consistent(ll, items, curBytes) && curBytes > maxBytes
    ensures Consistent(ll[..|ll| - 1], items - {ll[|ll| - 1].key}, curBytes - ll[|ll| - 1].data.Length)
    ensures Trim(ll, maxBytes) == Trim(ll[..|ll| - 1], maxBytes)
  {
    var n := |ll| - 1;
    var front := ll[..n];
    assert ll == front + [ll[n]];
    forall j | 0 <= j < n ensures front[j].key != ll[n].key { assert front[j] == ll[j]; }
    assert Lacks(front, ll[n].key);
  }

  /** newBlobCache: a budget of zero or less means no cache at all. */
  method NewBlobCache(maxBytes: int) returns (c: BlobCache?)
    ensures c == null <==> maxBytes <= 0
    ensures c != null ==> fresh(c) && c.Valid() && c.ll == [] && c.maxBytes == maxBytes
  {
    if maxBytes <= 0 { return null; }
    c := new BlobCache(maxBytes);
  }
}
