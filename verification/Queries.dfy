/** The read-only queries, and what their answers mean. */
module Queries {
  import opened Types
  import opened Ordering
  import opened Tables

  // ---- The claim's candidate SELECT ----

  function KeyBytes(staging: map<Key, StageRow>, keys: seq<Key>): int
    requires forall k :: k in keys ==> k in staging
  {
    if keys == [] then 0
    else KeyBytes(staging, keys[..|keys| - 1]) + staging[keys[|keys| - 1]].size
  }

  ghost predicate ScansStaging(staging: map<Key, StageRow>, rows: seq<Row>) {
    forall r :: r in rows ==> r.key in staging && r == StageScanRow(staging, r.key)
  }

  lemma {:induction false} KeyBytesIsSizeSum(staging: map<Key, StageRow>, rows: seq<Row>)
    requires ScansStaging(staging, rows)
    ensures forall k :: k in RowKeys(rows) ==> k in staging
    ensures KeyBytes(staging, RowKeys(rows)) == SizeSum(rows)
  {
    if rows != [] {
      var n := |rows| - 1;
      assert rows[n] in rows;
      KeyBytesIsSizeSum(staging, rows[..n]);
      assert RowKeys(rows)[..n] == RowKeys(rows[..n]);
      forall k | k in RowKeys(rows) ensures k in staging {
        var i :| 0 <= i < |rows| && rows[i].key == k;
        assert rows[i] in rows;
      }
    }
  }

  lemma ClaimScanShape(staging: map<Key, StageRow>, now: Time)
    ensures ScansStaging(staging, ClaimScan(staging, now)) && Ascending(ClaimScan(staging, now))
    ensures forall k :: k in ClaimableKeys(staging, now) <==>
      k in staging && StageScanRow(staging, k) in ClaimScan(staging, now)
    ensures Distinct(RowKeys(ClaimScan(staging, now)))
  {
    BeforeIsStrictOrder();
    var rows := set k | k in ClaimableKeys(staging, now) :: StageScanRow(staging, k);
    forall k | k in staging && StageScanRow(staging, k) in rows ensures k in ClaimableKeys(staging, now) {
      var x :| x in ClaimableKeys(staging, now) && StageScanRow(staging, x) == StageScanRow(staging, k);
    }
    var s := ClaimScan(staging, now);
    forall i, j | 0 <= i < j < |s| ensures s[i].key != s[j].key {
      assert s[i] in s && s[j] in s && Before(s[i], s[j]);
    }
  }

  function ScanKeys(staging: map<Key, StageRow>, now: Time): (ks: seq<Key>) {
    RowKeys(ClaimScan(staging, now))
  }

  /** a was staged before b, or at the same time and its key comes first. */
  ghost predicate Older(staging: map<Key, StageRow>, a: Key, b: Key) {
    && a in staging && b in staging
    && (staging[a].createdAt < staging[b].createdAt
        || (staging[a].createdAt == staging[b].createdAt && Precedes(a, b)))
  }

  lemma EarlierRowIsOlder(staging: map<Key, StageRow>, a: Key, b: Key)
    requires a in staging && b in staging && a != b && Before(StageScanRow(staging, a), StageScanRow(staging, b))
    ensures Older(staging, a, b)
  {
    StrLessIsPrecedes(a, b);
  }

  lemma ScanKeysShape(staging: map<Key, StageRow>, now: Time, ks: seq<Key>)
    requires ks == ScanKeys(staging, now)
    ensures Distinct(ks)
    ensures forall k :: k in ks <==> k in ClaimableKeys(staging, now)
    ensures forall i, j :: 0 <= i < j < |ks| ==> Older(staging, ks[i], ks[j])
  {
    ClaimScanShape(staging, now);
    var rows := ClaimScan(staging, now);
    forall i | 0 <= i < |ks| ensures ks[i] in ClaimableKeys(staging, now) && StageScanRow(staging, ks[i]) == rows[i] {
      assert rows[i] in rows;
    }
    forall k | k in ClaimableKeys(staging, now) ensures k in ks {
      var j :| 0 <= j < |rows| && rows[j] == StageScanRow(staging, k);
      assert ks[j] == k;
    }
    forall i, j | 0 <= i < j < |ks| ensures Older(staging, ks[i], ks[j]) {
      assert Before(rows[i], rows[j]) && ks[i] != ks[j];
      EarlierRowIsOlder(staging, ks[i], ks[j]);
    }
  }

  lemma CutOfPrefix(all: seq<Row>, maxCount: nat, maxBytes: int, n: nat)
    requires maxCount > 0 && ByteCut(FirstN(all, maxCount), maxBytes, n)
    ensures n <= |all| && n <= maxCount && (all != [] ==> n >= 1)
    ensures FirstN(all, maxCount)[..n] == all[..n]
    ensures n > 1 ==> SizeSum(all[..n]) <= maxBytes
    ensures 0 < n < |all| && n < maxCount ==> SizeSum(all[..n]) + all[n].size > maxBytes
  {
    var rows := FirstN(all, maxCount);
    assert rows[..n] == all[..n];
    if 0 < n < |all| && n < maxCount {
      assert rows[..n + 1][..n] == all[..n] && rows[..n + 1][n] == all[n];
    }
  }

  /** The claim is a prefix of the FIFO scan, cut where the limits say. */
  lemma ClaimIsPrefix(staging: map<Key, StageRow>, now: Time, maxCount: int, maxBytes: int, keys: seq<Key>)
    requires IsClaim(staging, now, maxCount, maxBytes, keys) && maxCount > 0 && maxBytes > 0
    ensures keys <= ScanKeys(staging, now) && |keys| <= maxCount
    ensures ScanKeys(staging, now) != [] ==> keys != []
    ensures forall k :: k in keys ==> k in staging
    ensures KeyBytes(staging, keys) <= maxBytes || |keys| == 1
    ensures |keys| < |ScanKeys(staging, now)| && |keys| < maxCount ==>
      && ScanKeys(staging, now)[|keys|] in staging
      && KeyBytes(staging, keys) + staging[ScanKeys(staging, now)[|keys|]].size > maxBytes
  {
    var all := ClaimScan(staging, now);
    assert ScansStaging(staging, all) by { ClaimScanShape(staging, now); }
    var n: nat :| ByteCut(FirstN(all, maxCount), maxBytes, n) && keys == RowKeys(FirstN(all, maxCount)[..n]);
    CutOfPrefix(all, maxCount, maxBytes, n);
    CutKeys(staging, all, RowKeys(all), keys, n);
  }

  lemma CutKeys(staging: map<Key, StageRow>, all: seq<Row>, ks: seq<Key>, keys: seq<Key>, n: nat)
    requires ScansStaging(staging, all) && n <= |all| && keys == RowKeys(all[..n]) && ks == RowKeys(all)
    ensures keys <= ks && |keys| == n
    ensures forall k :: k in keys ==> k in staging
    ensures KeyBytes(staging, keys) == SizeSum(all[..n])
    ensures n < |all| ==> ks[n] in staging && staging[ks[n]].size == all[n].size
  {
    KeyBytesIsSizeSum(staging, all[..n]);
    assert keys == ks[..n];
    if n < |all| { assert all[n] in all; }
  }

  /** The candidates are the longest FIFO prefix of the claimable rows within both
      limits, or a single oversized row. */
  lemma ClaimIsLongestFifoPrefix(staging: map<Key, StageRow>, now: Time, maxCount: int, maxBytes: int, keys: seq<Key>)
    requires IsClaim(staging, now, maxCount, maxBytes, keys)
    requires maxCount > 0 && maxBytes > 0
    ensures Distinct(keys) && forall k :: k in keys ==> k in ClaimableKeys(staging, now)
    ensures forall k, x | k in keys && x in ClaimableKeys(staging, now) && x !in keys :: Older(staging, k, x)
    ensures |keys| <= maxCount && (KeyBytes(staging, keys) <= maxBytes || |keys| == 1)
    ensures |keys| < maxCount && |keys| < |ClaimableKeys(staging, now)| ==>
      exists next :: next in ClaimableKeys(staging, now) && next !in keys
        && (forall x | x in ClaimableKeys(staging, now) && x !in keys && x != next :: Older(staging, next, x))
        && KeyBytes(staging, keys) + staging[next].size > maxBytes
  {
    var ks := ScanKeys(staging, now);
    ClaimIsPrefix(staging, now, maxCount, maxBytes, keys);
    ScanKeysShape(staging, now, ks);
    DistinctCount(ks, ClaimableKeys(staging, now));
    FifoPrefix(staging, ks, keys);
    if |keys| < maxCount && |keys| < |ks| {
      var next := ks[|keys|];
      assert next in ks && next !in keys;
    }
  }

  lemma FifoPrefix(staging: map<Key, StageRow>, ks: seq<Key>, keys: seq<Key>)
    requires Distinct(ks) && keys <= ks
    requires forall i, j :: 0 <= i < j < |ks| ==> Older(staging, ks[i], ks[j])
    ensures Distinct(keys) && forall k :: k in keys ==> k in ks
    ensures forall k, x | k in keys && x in ks && x !in keys :: Older(staging, k, x)
    ensures |keys| < |ks| ==> ks[|keys|] !in keys
    ensures |keys| < |ks| ==> forall x | x in ks && x !in keys && x != ks[|keys|] :: Older(staging, ks[|keys|], x)
  {
    forall x | x in ks && x !in keys ensures exists j :: |keys| <= j < |ks| && ks[j] == x {
      var j :| 0 <= j < |ks| && ks[j] == x;
      assert forall m :: 0 <= m < |keys| ==> ks[m] == keys[m];
    }
  }

  // ---- StageStats ----

  datatype Stats = Stats(count: nat, bytes: int, oldest: Option<Time>, newest: Option<Time>)

  function StageStats(staging: map<Key, StageRow>, now: Time): Stats {
    var rows := ClaimScan(staging, now);
    Stats(|rows|, SizeSum(rows),
          if rows == [] then None else Some(rows[0].rank),
          if rows == [] then None else Some(rows[|rows| - 1].rank))
  }

  /** ks names each of these keys once. */
  ghost predicate Lists(ks: seq<Key>, keys: set<Key>) {
    Distinct(ks) && forall k :: k in ks <==> k in keys
  }

  lemma {:induction false} KeyBytesSplit(staging: map<Key, StageRow>, a: seq<Key>, k: Key, b: seq<Key>)
    requires forall x :: x in a + [k] + b ==> x in staging
    ensures KeyBytes(staging, a + [k] + b) == KeyBytes(staging, a + b) + staging[k].size
  {
    var all := a + [k] + b;
    if b == [] {
      assert all[..|all| - 1] == a && a + b == a;
    } else {
      KeyBytesSplit(staging, a, k, b[..|b| - 1]);
      assert all[..|all| - 1] == a + [k] + b[..|b| - 1];
      assert (a + b)[..|a + b| - 1] == a + b[..|b| - 1];
    }
  }

  lemma ListsWithout(ks: seq<Key>, keys: set<Key>, i: nat)
    requires Lists(ks, keys) && i < |ks|
    ensures Lists(ks[..i] + ks[i + 1..], keys - {ks[i]})
  {
    var rest := ks[..i] + ks[i + 1..];
    assert forall j :: 0 <= j < |rest| ==> rest[j] == ks[if j < i then j else j + 1];
    forall x | x in ks && x != ks[i] ensures x in rest {
      var j :| 0 <= j < |ks| && ks[j] == x;
      assert rest[if j < i then j else j - 1] == x;
    }
  }

  /** The total size does not depend on the order in which the rows are summed. */
  lemma {:induction false} KeyBytesAnyOrder(staging: map<Key, StageRow>, a: seq<Key>, b: seq<Key>, keys: set<Key>)
    requires Lists(a, keys) && Lists(b, keys) && keys <= staging.Keys
    ensures KeyBytes(staging, a) == KeyBytes(staging, b)
  {
    DistinctCount(a, keys);
    DistinctCount(b, keys);
    if a != [] {
      var n := |a| - 1;
      assert a[n] in b;
      var i :| 0 <= i < |b| && b[i] == a[n];
      ListsWithout(a, keys, n);
      ListsWithout(b, keys, i);
      assert a[..n] + a[n + 1..] == a[..n];
      assert b == b[..i] + [b[i]] + b[i + 1..];
      KeyBytesAnyOrder(staging, a[..n], b[..i] + b[i + 1..], keys - {a[n]});
      KeyBytesSplit(staging, b[..i], b[i], b[i + 1..]);
    }
  }

  /** The count is the number of claimable rows, and the bytes their total size. */
  lemma StatsAddUp(staging: map<Key, StageRow>, now: Time)
    ensures StageStats(staging, now).count == |ClaimableKeys(staging, now)|
    ensures forall ks :: Lists(ks, ClaimableKeys(staging, now)) ==>
      StageStats(staging, now).bytes == KeyBytes(staging, ks)
  {
    var rows := ClaimScan(staging, now);
    assert ScansStaging(staging, rows) by { ClaimScanShape(staging, now); }
    KeyBytesIsSizeSum(staging, rows);
    ScanKeysShape(staging, now, RowKeys(rows));
    DistinctCount(RowKeys(rows), ClaimableKeys(staging, now));
    forall ks | Lists(ks, ClaimableKeys(staging, now)) ensures SizeSum(rows) == KeyBytes(staging, ks) {
      KeyBytesAnyOrder(staging, ks, RowKeys(rows), ClaimableKeys(staging, now));
    }
  }

  /** Count and bytes are those of the claimable rows; oldest and newest are their
      least and greatest created_at. */
  lemma StageStatsMeaning(staging: map<Key, StageRow>, now: Time)
    ensures StageStats(staging, now).count == |ClaimableKeys(staging, now)|
    ensures forall ks :: Lists(ks, ClaimableKeys(staging, now)) ==>
      StageStats(staging, now).bytes == KeyBytes(staging, ks)
    ensures StageStats(staging, now).count == 0 <==> ClaimableKeys(staging, now) == {}
    ensures forall k :: k in ClaimableKeys(staging, now) ==>
      && StageStats(staging, now).oldest.Some? && StageStats(staging, now).newest.Some?
      && StageStats(staging, now).oldest.value <= staging[k].createdAt <= StageStats(staging, now).newest.value
    ensures StageStats(staging, now).count != 0 ==>
      && (exists k :: k in ClaimableKeys(staging, now) && StageStats(staging, now).oldest == Some(staging[k].createdAt))
      && (exists k :: k in ClaimableKeys(staging, now) && StageStats(staging, now).newest == Some(staging[k].createdAt))
  {
    StatsAddUp(staging, now);
    ClaimScanShape(staging, now);
    var rows := ClaimScan(staging, now);
    if rows != [] {
      assert rows[0] in rows && rows[|rows| - 1] in rows;
      assert rows[0].key in ClaimableKeys(staging, now) && rows[|rows| - 1].key in ClaimableKeys(staging, now);
    }
    forall k | k in ClaimableKeys(staging, now)
      ensures rows != [] && rows[0].rank <= staging[k].createdAt <= rows[|rows| - 1].rank
    {
      var j :| 0 <= j < |rows| && rows[j] == StageScanRow(staging, k);
      assert j > 0 ==> Before(rows[0], rows[j]);
      assert j < |rows| - 1 ==> Before(rows[j], rows[|rows| - 1]);
    }
  }

  // ---- List ----

  predicate Matches(prefix: string, key: Key) {
    prefix == "" || prefix == "/" || key == prefix || prefix + "/" <= key
  }

  /** The key is the prefix itself or continues it after a slash; "" and "/" are above all. */
  predicate Under(prefix: string, k: Key) {
    prefix == "" || prefix == "/" || k == prefix
    || (|k| > |prefix| && k[..|prefix|] == prefix && k[|prefix|] == '/')
  }

  lemma MatchesIsUnder(prefix: string, k: Key)
    ensures Matches(prefix, k) <==> Under(prefix, k)
  {
    if prefix + "/" <= k {
      assert k[..|prefix + "/"|] == prefix + "/";
      assert k[..|prefix|] == (prefix + "/")[..|prefix|] == prefix;
    }
    if |k| > |prefix| && k[..|prefix|] == prefix && k[|prefix|] == '/' {
      assert k[..|prefix| + 1] == prefix + "/";
    }
  }

  function IndexItems(db: Db, prefix: string): set<Row> {
    set k | k in db.index && Matches(prefix, k) :: Row(0, k, db.index[k].size)
  }

  function StagedItems(db: Db, prefix: string): set<Row> {
    set k | k in db.staging && Matches(prefix, k) :: Row(0, k, db.staging[k].size)
  }

  /** SELECT key, size FROM index UNION SELECT key, size FROM staging ORDER BY key. */
  function Listing(db: Db, prefix: string): seq<Row> {
    OrderBy(IndexItems(db, prefix) + StagedItems(db, prefix))
  }

  function SizeOf(db: Db, k: Key): int
    requires k in Present(db)
  {
    if k in db.staging then db.staging[k].size else db.index[k].size
  }

  predicate SizesAgreeUnder(db: Db, prefix: string) {
    forall k :: k in db.index && k in db.staging && Under(prefix, k) ==> db.index[k].size == db.staging[k].size
  }

  lemma RowKeysShape(s: seq<Row>)
    ensures forall r :: r in s ==> r.key in RowKeys(s)
    ensures forall k :: k in RowKeys(s) ==> exists r :: r in s && r.key == k
  {
    forall r | r in s ensures r.key in RowKeys(s) {
      var i :| 0 <= i < |s| && s[i] == r;
      assert RowKeys(s)[i] == r.key;
    }
    forall k | k in RowKeys(s) ensures exists r :: r in s && r.key == k {
      var i :| 0 <= i < |s| && s[i].key == k;
      assert s[i] in s;
    }
  }

  lemma ListingKeys(db: Db, prefix: string, s: seq<Row>)
    requires forall r :: r in s <==> r in IndexItems(db, prefix) + StagedItems(db, prefix)
    ensures forall k :: k in RowKeys(s) <==> k in Present(db) && Matches(prefix, k)
  {
    RowKeysShape(s);
    forall k | k in Present(db) && Matches(prefix, k) ensures k in RowKeys(s) {
      assert Row(0, k, SizeOf(db, k)) in s;
    }
  }

  ghost predicate AscendingKeys(s: seq<Row>) {
    forall i, j :: 0 <= i < j < |s| ==> Precedes(s[i].key, s[j].key)
  }

  lemma OneRowPerKey(db: Db, s: seq<Row>)
    requires Ascending(s)
    requires forall r :: r in s ==> r.key in Present(db) && r == Row(0, r.key, SizeOf(db, r.key))
    ensures AscendingKeys(s)
  {
    forall i, j | 0 <= i < j < |s| ensures Precedes(s[i].key, s[j].key) {
      assert s[i] in s && s[j] in s && Before(s[i], s[j]);
      StrLessIsPrecedes(s[i].key, s[j].key);
    }
  }

  lemma TwoRowsForAKey(s: seq<Row>, r: Row, q: Row)
    requires r in s && q in s && r.key == q.key && r != q
    ensures !AscendingKeys(s)
  {
    var i :| 0 <= i < |s| && s[i] == r;
    var j :| 0 <= j < |s| && s[j] == q;
    StrIrreflexive(r.key);
    StrLessIsPrecedes(r.key, r.key);
  }

  /** List names exactly the present keys under the prefix, in ascending order; it
      names each once exactly when the two tables agree on the sizes they share. */
  lemma ListingIsExact(db: Db, prefix: string)
    ensures forall k :: k in RowKeys(Listing(db, prefix)) <==> k in Present(db) && Under(prefix, k)
    ensures SizesAgreeUnder(db, prefix) <==> AscendingKeys(Listing(db, prefix))
    ensures SizesAgreeUnder(db, prefix) ==> forall r :: r in Listing(db, prefix) ==>
      r.key in Present(db) && r.size == SizeOf(db, r.key)
  {
    var s := Listing(db, prefix);
    ListingKeys(db, prefix, s);
    forall k ensures Matches(prefix, k) <==> Under(prefix, k) { MatchesIsUnder(prefix, k); }
    if SizesAgreeUnder(db, prefix) { AgreeingSizes(db, prefix, s); } else { DisagreeingSizes(db, prefix, s); }
  }

  lemma AgreeingSizes(db: Db, prefix: string, s: seq<Row>)
    requires s == Listing(db, prefix) && SizesAgreeUnder(db, prefix)
    ensures AscendingKeys(s)
    ensures forall r :: r in s ==> r.key in Present(db) && r.size == SizeOf(db, r.key)
  {
    ListingKeys(db, prefix, s);
    forall r | r in s ensures r.key in Present(db) && r == Row(0, r.key, SizeOf(db, r.key)) {
      MatchesIsUnder(prefix, r.key);
      ItemSize(db, prefix, r);
    }
    OneRowPerKey(db, s);
  }

  lemma ItemSize(db: Db, prefix: string, r: Row)
    requires SizesAgreeUnder(db, prefix) && r in IndexItems(db, prefix) + StagedItems(db, prefix)
    requires Matches(prefix, r.key) <==> Under(prefix, r.key)
    ensures r.key in Present(db) && r == Row(0, r.key, SizeOf(db, r.key))
  {
  }

  lemma DisagreeingSizes(db: Db, prefix: string, s: seq<Row>)
    requires s == Listing(db, prefix) && !SizesAgreeUnder(db, prefix)
    ensures !AscendingKeys(s)
  {
    ListingKeys(db, prefix, s);
    var k :| k in db.index && k in db.staging && Under(prefix, k) && db.index[k].size != db.staging[k].size;
    MatchesIsUnder(prefix, k);
    TwoRowsForAKey(s, Row(0, k, db.index[k].size), Row(0, k, db.staging[k].size));
  }

  /** LIMIT applies when positive, OFFSET when positive. */
  function Page(all: seq<Row>, limit: int, offset: int): seq<Row> {
    var rest := if offset <= 0 then all else if offset >= |all| then [] else all[offset..];
    if limit > 0 then FirstN(rest, limit) else rest
  }

  function List(db: Db, prefix: string, limit: int, offset: int): seq<Row> {
    Page(Listing(db, prefix), limit, offset)
  }

  /** Successive queries of one limit, each starting where the last one ended, until the
      listing is exhausted. */
  function Pages(db: Db, prefix: string, limit: nat, offset: nat): seq<Row>
    requires limit > 0
    decreases |Listing(db, prefix)| - offset
  {
    if offset >= |Listing(db, prefix)| then []
    else List(db, prefix, limit, offset) + Pages(db, prefix, limit, offset + limit)
  }

  lemma PageIsSlice(all: seq<Row>, limit: nat, offset: nat)
    requires limit > 0 && offset < |all|
    ensures Page(all, limit, offset) + (if offset + limit < |all| then all[offset + limit..] else []) == all[offset..]
  {
  }

  lemma {:induction false} SlicesConcatenate(db: Db, prefix: string, all: seq<Row>, limit: nat, offset: nat)
    requires limit > 0 && offset <= |all| && all == Listing(db, prefix)
    ensures Pages(db, prefix, limit, offset) == all[offset..]
    decreases |all| - offset
  {
    if offset < |all| {
      PageIsSlice(all, limit, offset);
      if offset + limit < |all| { SlicesConcatenate(db, prefix, all, limit, offset + limit); }
    }
  }

  /** Consecutive pages of a positive limit make up the rest of the full listing. */
  lemma PagesConcatenate(db: Db, prefix: string, limit: nat, offset: nat)
    requires limit > 0 && offset <= |Listing(db, prefix)|
    ensures Pages(db, prefix, limit, offset) == Listing(db, prefix)[offset..]
  {
    SlicesConcatenate(db, prefix, Listing(db, prefix), limit, offset);
  }

  /** From offset 0 they are what one query without a limit returns. */
  lemma PagesMakeTheListing(db: Db, prefix: string, limit: nat)
    requires limit > 0
    ensures Pages(db, prefix, limit, 0) == List(db, prefix, 0, 0)
  {
    PagesConcatenate(db, prefix, limit, 0);
  }

  /** page is all from offset on, cut at limit; an offset or a limit that is not positive
      does not count. */
  ghost predicate IsPage(all: seq<Row>, limit: int, offset: int, page: seq<Row>) {
    var from := if offset > 0 then offset else 0;
    && (from >= |all| ==> page == [])
    && (from < |all| && (limit <= 0 || |all| - from <= limit) ==> page == all[from..])
    && (from < |all| && 0 < limit < |all| - from ==> page == all[from..from + limit])
  }

  lemma PageMeaning(all: seq<Row>, limit: int, offset: int)
    ensures IsPage(all, limit, offset, Page(all, limit, offset))
  {
    if 0 < offset < |all| {
      assert 0 < limit < |all| - offset ==> all[offset..][..limit] == all[offset..offset + limit];
    } else {
      assert all[0..] == all;
    }
  }

  lemma ListIsPage(db: Db, prefix: string, limit: int, offset: int)
    ensures IsPage(Listing(db, prefix), limit, offset, List(db, prefix, limit, offset))
  {
    PageMeaning(Listing(db, prefix), limit, offset);
  }

  // ---- DueForRenewal ----

  function FirstSeen(keys: seq<string>): seq<string> {
    if keys == [] then []
    else
      var n := |keys| - 1;
      var seen := FirstSeen(keys[..n]);
      if keys[n] in seen then seen else seen + [keys[n]]
  }

  predicate IsDue(rec: Record, before: Time) {
    rec.expiresAt.Some? && rec.expiresAt.value <= before
  }

  function DueRows(index: map<Key, Record>, before: Time): seq<Row> {
    OrderBy(set k | k in index && IsDue(index[k], before) :: DueRow(index, k))
  }

  /** GROUP BY blob_id ORDER BY MIN(expires_at) LIMIT: the order in which the due
      blobs first appear among the due rows sorted by expiry. */
  function DueForRenewal(index: map<Key, Record>, before: Time, limit: nat): seq<string> {
    FirstN(FirstSeen(RowKeys(DueRows(index, before))), limit)
  }

  function DueBlobs(index: map<Key, Record>, before: Time): set<string> {
    set k | k in index && IsDue(index[k], before) :: index[k].blobId
  }

  lemma {:induction false} FirstSeenShape(keys: seq<string>)
    ensures Distinct(FirstSeen(keys))
    ensures forall k :: k in FirstSeen(keys) <==> k in keys
  {
    if keys != [] {
      FirstSeenShape(keys[..|keys| - 1]);
      assert keys == keys[..|keys| - 1] + [keys[|keys| - 1]];
    }
  }

  lemma {:induction false} FirstSeenPrefix(keys: seq<string>, i: nat)
    requires i <= |keys|
    ensures FirstSeen(keys[..i]) <= FirstSeen(keys)
    decreases |keys|
  {
    if i < |keys| {
      FirstSeenPrefix(keys[..|keys| - 1], i);
      assert keys[..|keys| - 1][..i] == keys[..i];
    } else {
      assert keys[..i] == keys;
    }
  }

  lemma DueRowsShape(index: map<Key, Record>, before: Time)
    ensures forall b :: b in RowKeys(DueRows(index, before)) <==> b in DueBlobs(index, before)
  {
    var rows := DueRows(index, before);
    forall b | b in RowKeys(rows) ensures b in DueBlobs(index, before) {
      var i :| 0 <= i < |rows| && rows[i].key == b;
      assert rows[i] in rows;
    }
    forall b | b in DueBlobs(index, before) ensures b in RowKeys(rows) {
      var k :| k in index && IsDue(index[k], before) && index[k].blobId == b;
      assert DueRow(index, k) in rows;
      var i :| 0 <= i < |rows| && rows[i] == DueRow(index, k);
      assert RowKeys(rows)[i] == b;
    }
  }

  /** A key left out by the limit first occurs after every occurrence that let another in. */
  lemma CutAfter(keys: seq<string>, limit: nat, b: string, i: nat) returns (j: nat)
    requires b in FirstN(FirstSeen(keys), limit) && i < |keys| && keys[i] !in FirstN(FirstSeen(keys), limit)
    ensures j < i && keys[j] == b
  {
    var due, seen := FirstN(FirstSeen(keys), limit), FirstSeen(keys[..i + 1]);
    FirstSeenPrefix(keys, i + 1);
    FirstSeenShape(keys[..i + 1]);
    assert keys[..i + 1][i] == keys[i];
    var m :| 0 <= m < |seen| && seen[m] == keys[i];
    assert |due| <= m by { assert forall d :: 0 <= d < |due| ==> due[d] == FirstSeen(keys)[d]; }
    var n :| 0 <= n < |due| && due[n] == b;
    assert seen[n] == b;
    var head := keys[..i + 1];
    assert b in head;
    j :| 0 <= j < |head| && head[j] == b;
    assert head[i] == keys[i];
  }

  function DueRow(index: map<Key, Record>, k: Key): Row
    requires k in index && index[k].expiresAt.Some?
  {
    Row(index[k].expiresAt.value, index[k].blobId, 0)
  }

  lemma DueFirst(index: map<Key, Record>, before: Time, limit: nat, b: string, k: Key) returns (x: Key)
    requires b in DueForRenewal(index, before, limit)
    requires k in index && IsDue(index[k], before) && index[k].blobId !in DueForRenewal(index, before, limit)
    ensures x in index && IsDue(index[x], before) && index[x].blobId == b
    ensures index[x].expiresAt.value <= index[k].expiresAt.value
  {
    var rows := DueRows(index, before);
    assert DueRow(index, k) in rows;
    var i :| 0 <= i < |rows| && rows[i] == DueRow(index, k);
    var j := CutAfter(RowKeys(rows), limit, b, i);
    assert rows[j] in rows && Before(rows[j], rows[i]);
    x :| x in index && IsDue(index[x], before) && rows[j] == DueRow(index, x);
  }

  lemma DueIsDistinct(index: map<Key, Record>, before: Time, limit: nat)
    ensures Distinct(DueForRenewal(index, before, limit))
  {
    FirstSeenShape(RowKeys(DueRows(index, before)));
  }

  /** Every due blob is named at most once; all of them when the limit allows, and
      otherwise those that expire first. */
  lemma DueForRenewalIsExact(index: map<Key, Record>, before: Time, limit: nat)
    ensures Distinct(DueForRenewal(index, before, limit)) && |DueForRenewal(index, before, limit)| <= limit
    ensures forall b :: b in DueForRenewal(index, before, limit) ==> b in DueBlobs(index, before)
    ensures |DueBlobs(index, before)| <= limit ==>
      forall b :: b in DueBlobs(index, before) ==> b in DueForRenewal(index, before, limit)
    ensures forall b, k | b in DueForRenewal(index, before, limit) && k in index && IsDue(index[k], before)
        && index[k].blobId !in DueForRenewal(index, before, limit) ::
      exists x :: x in index && IsDue(index[x], before) && index[x].blobId == b
        && index[x].expiresAt.value <= index[k].expiresAt.value
  {
    var all := FirstSeen(RowKeys(DueRows(index, before)));
    FirstSeenShape(RowKeys(DueRows(index, before)));
    DueRowsShape(index, before);
    DistinctCount(all, DueBlobs(index, before));
    forall b, k | b in DueForRenewal(index, before, limit) && k in index && IsDue(index[k], before)
        && index[k].blobId !in DueForRenewal(index, before, limit)
      ensures exists x :: x in index && IsDue(index[x], before)
                       && index[x].blobId == b && index[x].expiresAt.value <= index[k].expiresAt.value
    {
      var x := DueFirst(index, before, limit, b, k);
    }
  }

  lemma {:induction false} DistinctCount<T>(s: seq<T>, ts: set<T>)
    requires Distinct(s) && forall t :: t in s <==> t in ts
    ensures |s| == |ts|
  {
    if s == [] {
      assert ts == {};
    } else {
      var t := s[0];
      assert forall x :: x in s <==> x == t || x in s[1..];
      forall i | 0 <= i < |s[1..]| ensures s[1..][i] != t { assert s[i + 1] != s[0]; }
      DistinctCount(s[1..], ts - {t});
    }
  }
}
