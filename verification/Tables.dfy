/** What each Postgres statement or transaction does to the two tables, as
    functions on their contents. PostgresIndex is proved to compute these, and the
    shared protocol is built from them. */
module Tables {
  import opened Types
  import opened Ordering

  function KeysOf(recs: seq<KeyRecord>): (ks: set<Key>) {
    set kr | kr in recs :: kr.key
  }

  function EntryKeys(entries: seq<StageEntry>): (ks: set<Key>) {
    set e | e in entries :: e.key
  }

  function KeyList(recs: seq<KeyRecord>): seq<Key> {
    seq(|recs|, i requires 0 <= i < |recs| => recs[i].key)
  }

  function EntryList(entries: seq<StageEntry>): seq<Key> {
    seq(|entries|, i requires 0 <= i < |entries| => entries[i].key)
  }

  /** One multi-row upsert may not name a row twice; each chunk is its own statement. */
  predicate ChunksDistinct(keys: seq<Key>, chunk: nat)
    requires chunk > 0
  {
    if |keys| <= chunk then Distinct(keys)
    else Distinct(keys[..chunk]) && ChunksDistinct(keys[chunk..], chunk)
  }

  predicate Distinct<T(==)>(s: seq<T>) {
    forall i, j :: 0 <= i < j < |s| ==> s[i] != s[j]
  }

  lemma {:induction false} DistinctChunks(keys: seq<Key>, chunk: nat)
    requires chunk > 0 && Distinct(keys)
    ensures ChunksDistinct(keys, chunk)
  {
    if |keys| > chunk {
      assert forall i :: 0 <= i < |keys[chunk..]| ==> keys[chunk..][i] == keys[chunk + i];
      DistinctChunks(keys[chunk..], chunk);
    }
  }

  /** INSERT ... ON CONFLICT (key) DO UPDATE, row after row. */
  function Upsert(index: map<Key, Record>, recs: seq<KeyRecord>): map<Key, Record> {
    if recs == [] then index
    else
      var n := |recs| - 1;
      Upsert(index, recs[..n])[recs[n].key := recs[n].rec]
  }

  function StageAll(staging: map<Key, StageRow>, entries: seq<StageEntry>, now: Time): map<Key, StageRow> {
    if entries == [] then staging
    else
      var n := |entries| - 1;
      StageAll(staging, entries[..n], now)[entries[n].key := StageRow(entries[n].value, |entries[n].value|, now, None)]
  }

  lemma {:induction false} UpsertAppend(index: map<Key, Record>, a: seq<KeyRecord>, b: seq<KeyRecord>)
    ensures Upsert(index, a + b) == Upsert(Upsert(index, a), b)
  {
    if b == [] {
      assert a + b == a;
    } else {
      assert (a + b)[..|a + b| - 1] == a + b[..|b| - 1];
      UpsertAppend(index, a, b[..|b| - 1]);
    }
  }

  lemma {:induction false} StageAllAppend(staging: map<Key, StageRow>, a: seq<StageEntry>, b: seq<StageEntry>,
                                          now: Time)
    ensures StageAll(staging, a + b, now) == StageAll(StageAll(staging, a, now), b, now)
  {
    if b == [] {
      assert a + b == a;
    } else {
      assert (a + b)[..|a + b| - 1] == a + b[..|b| - 1];
      StageAllAppend(staging, a, b[..|b| - 1], now);
    }
  }

  /** Every row afterwards is an untouched old row or one of the records given. */
  lemma {:induction false} UpsertShape(index: map<Key, Record>, recs: seq<KeyRecord>)
    ensures Upsert(index, recs).Keys == index.Keys + KeysOf(recs)
    ensures forall k :: k in Upsert(index, recs) ==>
      || (k !in KeysOf(recs) && Upsert(index, recs)[k] == index[k])
      || KeyRecord(k, Upsert(index, recs)[k]) in recs
  {
    if recs != [] {
      var n := |recs| - 1;
      assert recs == recs[..n] + [recs[n]];
      UpsertShape(index, recs[..n]);
      assert KeysOf(recs) == KeysOf(recs[..n]) + {recs[n].key};
    }
  }

  lemma {:induction false} StageAllShape(staging: map<Key, StageRow>, entries: seq<StageEntry>, now: Time)
    ensures StageAll(staging, entries, now).Keys == staging.Keys + EntryKeys(entries)
    ensures forall k :: k in StageAll(staging, entries, now) ==>
      var row := StageAll(staging, entries, now)[k];
      || (k !in EntryKeys(entries) && row == staging[k])
      || (StageEntry(k, row.value) in entries && row == StageRow(row.value, |row.value|, now, None))
  {
    if entries != [] {
      var n := |entries| - 1;
      assert entries == entries[..n] + [entries[n]];
      StageAllShape(staging, entries[..n], now);
      assert EntryKeys(entries) == EntryKeys(entries[..n]) + {entries[n].key};
    }
  }

  function DeleteKeys(db: Db, keys: set<Key>): Db {
    Db(db.index - keys, db.staging - keys)
  }

  predicate Claimable(row: StageRow, now: Time) {
    row.leasedUntil.None? || row.leasedUntil.value < now
  }

  function ClaimableKeys(staging: map<Key, StageRow>, now: Time): set<Key> {
    set k | k in staging && Claimable(staging[k], now)
  }

  function StageScanRow(staging: map<Key, StageRow>, k: Key): Row
    requires k in staging
  {
    Row(staging[k].createdAt, k, staging[k].size)
  }

  /** The claimable rows, ORDER BY created_at, key. */
  function ClaimScan(staging: map<Key, StageRow>, now: Time): (rows: seq<Row>) {
    OrderBy(set k | k in ClaimableKeys(staging, now) :: StageScanRow(staging, k))
  }

  function RowKeys(rows: seq<Row>): (ks: seq<Key>) {
    seq(|rows|, i requires 0 <= i < |rows| => rows[i].key)
  }

  function SizeSum(rows: seq<Row>): int {
    if rows == [] then 0 else SizeSum(rows[..|rows| - 1]) + rows[|rows| - 1].size
  }

  /** Where the byte limit cuts a scan: after the first row at the earliest, and
      otherwise just before the row that would exceed it. */
  predicate ByteCut(rows: seq<Row>, maxBytes: int, n: nat) {
    && n <= |rows|
    && (rows != [] ==> n >= 1)
    && (forall m :: 1 < m <= n ==> SizeSum(rows[..m]) <= maxBytes)
    && (0 < n < |rows| ==> SizeSum(rows[..n + 1]) > maxBytes)
  }

  /** The keys that the candidate SELECT of StageClaim settles on. */
  ghost predicate IsClaim(staging: map<Key, StageRow>, now: Time, maxCount: int, maxBytes: int, keys: seq<Key>) {
    if maxCount <= 0 || maxBytes <= 0 then keys == []
    else
      var rows := FirstN(ClaimScan(staging, now), maxCount);
      exists n: nat :: ByteCut(rows, maxBytes, n) && keys == RowKeys(rows[..n])
  }

  /** The rows that the leasing UPDATE still finds claimable. */
  function LeasedKeys(staging: map<Key, StageRow>, keys: seq<Key>, now: Time): set<Key> {
    set k | k in keys && k in staging && Claimable(staging[k], now)
  }

  function SetLease(staging: map<Key, StageRow>, keys: set<Key>, lease: Option<Time>): (r: map<Key, StageRow>)
    ensures r.Keys == staging.Keys
  {
    map k | k in staging :: if k in keys then staging[k].(leasedUntil := lease) else staging[k]
  }

  /** RETURNING key, value: every leased row once, in any order. */
  ghost predicate Returns(staging: map<Key, StageRow>, keys: set<Key>, entries: seq<StageEntry>) {
    && EntryKeys(entries) == keys
    && Distinct(EntryList(entries))
    && forall e :: e in entries ==> e.key in staging && e.value == staging[e.key].value
  }

  lemma ReturnOneMore(staging: map<Key, StageRow>, keys: set<Key>, entries: seq<StageEntry>, k: Key)
    requires Returns(staging, keys, entries) && k in staging && k !in keys
    ensures Returns(staging, keys + {k}, entries + [StageEntry(k, staging[k].value)])
  {
    var e := StageEntry(k, staging[k].value);
    assert forall x :: x in entries + [e] <==> x in entries || x == e;
    assert EntryKeys(entries + [e]) == keys + {k};
    forall i | 0 <= i < |entries| ensures EntryList(entries)[i] != k {
      assert entries[i] in entries && entries[i].key in EntryKeys(entries);
    }
    assert EntryList(entries + [e]) == EntryList(entries) + [k];
  }

  function Live(staging: map<Key, StageRow>, recs: seq<KeyRecord>): (live: seq<KeyRecord>)
  {
    if recs == [] then []
    else
      var n := |recs| - 1;
      Live(staging, recs[..n]) + if recs[n].key in staging then [recs[n]] else []
  }

  lemma {:induction false} LiveShape(staging: map<Key, StageRow>, recs: seq<KeyRecord>)
    ensures forall kr :: kr in Live(staging, recs) <==> kr in recs && kr.key in staging
  {
    if recs != [] {
      var n := |recs| - 1;
      assert recs == recs[..n] + [recs[n]];
      LiveShape(staging, recs[..n]);
    }
  }

  predicate CanPromote(db: Db, recs: seq<KeyRecord>) {
    ChunksDistinct(KeyList(Live(db.staging, recs)), PUT_MANY_CHUNK)
  }

  function Promote(db: Db, recs: seq<KeyRecord>): Db {
    Db(Upsert(db.index, Live(db.staging, recs)), db.staging - KeysOf(recs))
  }

  function UpdateBlob(index: map<Key, Record>, oldId: string, res: StoreResult, encoded: int,
                      expires: Option<Time>): (r: map<Key, Record>)
    ensures r.Keys == index.Keys
  {
    map k | k in index ::
      if index[k].blobId == oldId then
        index[k].(blobId := res.blobId, objectId := res.objectId, encodedSize := encoded,
                  cost := res.cost, endEpoch := res.endEpoch, expiresAt := expires)
      else index[k]
  }

  /** Promotion never loses a key, whatever records it is handed: the rows it takes
      out of staging are exactly the rows it writes to the index. */
  lemma PromoteKeepsKeys(db: Db, recs: seq<KeyRecord>)
    ensures Present(Promote(db, recs)) == Present(db)
    ensures forall k :: k in db.staging && k !in Promote(db, recs).staging ==> k in Promote(db, recs).index
    ensures forall k :: k in Promote(db, recs).index ==> k in db.index || k in db.staging
  {
    var live := Live(db.staging, recs);
    LiveKeys(db.staging, recs, live);
    UpsertShape(db.index, live);
  }

  lemma LiveKeys(staging: map<Key, StageRow>, recs: seq<KeyRecord>, live: seq<KeyRecord>)
    requires live == Live(staging, recs)
    ensures KeysOf(live) == KeysOf(recs) * staging.Keys
  {
    LiveShape(staging, recs);
    forall k | k in staging && k in KeysOf(recs) ensures k in KeysOf(live) {
      var kr :| kr in recs && kr.key == k;
      assert kr in live;
    }
  }
}
