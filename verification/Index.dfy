/** The shared Postgres index. A transaction works on a private copy of a table and
    assigns the field once, at commit, so a failed statement leaves no trace. */
module Index {
  import opened Types
  import opened Ordering
  import opened Tables

  lemma TakeOneMore<T>(s: seq<T>, i: nat)
    requires i < |s|
    ensures s[..i + 1] == s[..i] + [s[i]]
    ensures s[..i + 1][..i] == s[..i]
  {
  }

  lemma ChunkSlices<T>(s: seq<T>, start: nat, end: nat)
    requires start <= end <= |s|
    ensures s[start..][..end - start] == s[start..end] && s[start..][end - start..] == s[end..]
    ensures s[..start] + s[start..end] == s[..end]
  {
  }

  lemma NextChunk(rest: seq<KeyRecord>, n: nat)
    requires n == if PUT_MANY_CHUNK < |rest| then PUT_MANY_CHUNK else |rest|
    ensures ChunksDistinct(KeyList(rest), PUT_MANY_CHUNK)
       <==> Distinct(KeyList(rest[..n])) && ChunksDistinct(KeyList(rest[n..]), PUT_MANY_CHUNK)
  {
    assert KeyList(rest)[..n] == KeyList(rest[..n]) && KeyList(rest)[n..] == KeyList(rest[n..]);
  }

  lemma NextStageChunk(rest: seq<StageEntry>, n: nat)
    requires n == if STAGE_PUT_CHUNK < |rest| then STAGE_PUT_CHUNK else |rest|
    ensures ChunksDistinct(EntryList(rest), STAGE_PUT_CHUNK)
       <==> Distinct(EntryList(rest[..n])) && ChunksDistinct(EntryList(rest[n..]), STAGE_PUT_CHUNK)
  {
    assert EntryList(rest)[..n] == EntryList(rest[..n]) && EntryList(rest)[n..] == EntryList(rest[n..]);
  }

  predicate FitsSoFar(rows: seq<Row>, maxBytes: int, n: nat)
    requires n <= |rows|
  {
    forall m :: 1 < m <= n ==> SizeSum(rows[..m]) <= maxBytes
  }

  lemma OneMoreRow(rows: seq<Row>, maxBytes: int, i: nat)
    requires i < |rows| && FitsSoFar(rows, maxBytes, i)
    ensures RowKeys(rows[..i + 1]) == RowKeys(rows[..i]) + [rows[i].key]
    ensures SizeSum(rows[..i + 1]) == SizeSum(rows[..i]) + rows[i].size
    ensures i == 0 || SizeSum(rows[..i + 1]) <= maxBytes ==> FitsSoFar(rows, maxBytes, i + 1)
  {
    TakeOneMore(rows, i);
  }

  lemma OneMoreLive(staging: map<Key, StageRow>, recs: seq<KeyRecord>, survivors: set<Key>, i: nat)
    requires i < |recs| && survivors == (set kr | kr in recs && kr.key in staging :: kr.key)
    ensures Live(staging, recs[..i + 1]) == Live(staging, recs[..i]) + if recs[i].key in survivors then [recs[i]]
      else []
  {
    TakeOneMore(recs, i);
    assert recs[i] in recs;
  }

  lemma SurvivorsOnly(staging: map<Key, StageRow>, recs: seq<KeyRecord>, survivors: set<Key>)
    requires survivors == (set kr | kr in recs && kr.key in staging :: kr.key)
    ensures staging - survivors == staging - KeysOf(recs)
  {
  }

  /** Row by row: each of these keys that is staged and free, or whose lease has run out, is
      leased from now and returned once with its value; every other row is as it was. */
  ghost predicate LeasesFree(before: map<Key, StageRow>, keys: seq<Key>, now: Time, lease: Time,
                             after: map<Key, StageRow>, entries: seq<StageEntry>) {
    && after.Keys == before.Keys && Distinct(EntryList(entries))
    && (forall k :: k in before ==> after[k] == before[k] || k in EntryKeys(entries))
    && (forall k :: k in EntryKeys(entries) <==>
          k in keys && k in before && (before[k].leasedUntil == None || before[k].leasedUntil.value < now))
    && (forall e :: e in entries ==> e.key in before && e.value == before[e.key].value)
    && (forall e :: e in entries ==>
          after[e.key] == StageRow(e.value, before[e.key].size, before[e.key].createdAt, Some(now + lease)))
  }

  lemma LeaseRowByRow(before: map<Key, StageRow>, keys: seq<Key>, now: Time, lease: Time, entries: seq<StageEntry>)
    requires Returns(before, LeasedKeys(before, keys, now), entries)
    ensures LeasesFree(before, keys, now, lease, SetLease(before, LeasedKeys(before, keys, now), Some(now + lease)),
      entries)
  {
    forall e | e in entries ensures e.key in LeasedKeys(before, keys, now) { assert e.key in EntryKeys(entries); }
  }

  /** Row by row: exactly the staged keys that a record names leave staging, and their rows
      in the index are such records; every other row of either table is as it was. */
  ghost predicate MovesSurvivors(before: Db, recs: seq<KeyRecord>, after: Db) {
    && (forall k :: k in after.staging <==> k in before.staging && k !in KeysOf(recs))
    && (forall k :: k in after.staging ==> after.staging[k] == before.staging[k])
    && (forall k :: k in after.index <==> k in before.index || (k in before.staging && k in KeysOf(recs)))
    && (forall k :: k in before.staging && k in KeysOf(recs) ==> KeyRecord(k, after.index[k]) in recs)
    && (forall k :: k in before.index && !(k in before.staging && k in KeysOf(recs)) ==>
          after.index[k] == before.index[k])
  }

  lemma PromoteRowByRow(db: Db, recs: seq<KeyRecord>)
    ensures MovesSurvivors(db, recs, Promote(db, recs))
  {
    var live := Live(db.staging, recs);
    LiveKeys(db.staging, recs, live);
    LiveShape(db.staging, recs);
    UpsertShape(db.index, live);
  }

  class PostgresIndex {
    var index: map<Key, Record>
    var staging: map<Key, StageRow>

    constructor ()
      ensures index == map[] && staging == map[]
    {
      index, staging := map[], map[];
    }

    function Db(): Db reads this { Types.Db.Db(index, staging) }

    /** One multi-row INSERT: refused when it names a key twice. */
    static method PutChunk(table: map<Key, Record>, chunk: seq<KeyRecord>) returns (ok: bool, next: map<Key, Record>)
      ensures ok <==> Distinct(KeyList(chunk))
      ensures ok ==> next == Upsert(table, chunk)
    {
      next := table;
      for i := 0 to |chunk|
        invariant next == Upsert(table, chunk[..i])
        invariant Distinct(KeyList(chunk)[..i])
      {
        if chunk[i].key in KeyList(chunk)[..i] {
          var j :| 0 <= j < i && KeyList(chunk)[j] == KeyList(chunk)[i];
          return false, table;
        }
        TakeOneMore(chunk, i);
        next := next[chunk[i].key := chunk[i].rec];
      }
      assert chunk[..|chunk|] == chunk && KeyList(chunk)[..|chunk|] == KeyList(chunk);
      ok := true;
    }

    /** The chunked upsert shared by PutMany and PromoteStaged, on the transaction's copy. */
    static method PutManyTx(table: map<Key, Record>, recs: seq<KeyRecord>) returns (ok: bool, next: map<Key, Record>)
      ensures ok <==> ChunksDistinct(KeyList(recs), PUT_MANY_CHUNK)
      ensures ok ==> next == Upsert(table, recs)
    {
      next, ok := table, true;
      assert recs[0..] == recs;
      var start := 0;
      while start < |recs|
        invariant 0 <= start <= |recs|
        invariant next == Upsert(table, recs[..start])
        invariant ChunksDistinct(KeyList(recs), PUT_MANY_CHUNK) <==>
          ChunksDistinct(KeyList(recs[start..]), PUT_MANY_CHUNK)
      {
        var end := if start + PUT_MANY_CHUNK < |recs| then start + PUT_MANY_CHUNK else |recs|;
        NextChunk(recs[start..], end - start);
        ChunkSlices(recs, start, end);
        var inserted, n := PutChunk(next, recs[start..end]);
        if !inserted {
          return false, table;
        }
        UpsertAppend(table, recs[..start], recs[start..end]);
        next, start := n, end;
      }
      assert recs[..|recs|] == recs;
    }

    method PutMany(recs: seq<KeyRecord>) returns (ok: bool)
      modifies this
      ensures ok <==> ChunksDistinct(KeyList(recs), PUT_MANY_CHUNK)
      ensures index == (if ok then Upsert(old(index), recs) else old(index)) && staging == old(staging)
    {
      if recs == [] { return true; }
      var done, next := PutManyTx(index, recs);
      if done { index := next; }
      ok := done;
    }

    method DeleteMany(keys: set<Key>)
      modifies this
      ensures Db() == DeleteKeys(old(Db()), keys)
      ensures forall k :: k in Present(Db()) <==> k in old(Present(Db())) && k !in keys
      ensures forall k :: k in index ==> k in old(index) && index[k] == old(index)[k]
      ensures forall k :: k in staging ==> k in old(staging) && staging[k] == old(staging)[k]
      ensures forall k :: k !in keys ==> (k in index <==> k in old(index)) && (k in staging <==> k in old(staging))
    {
      index := index - keys;
      staging := staging - keys;
    }

    static method StageChunk(table: map<Key, StageRow>, chunk: seq<StageEntry>, now: Time)
      returns (ok: bool, next: map<Key, StageRow>)
      ensures ok <==> Distinct(EntryList(chunk))
      ensures ok ==> next == StageAll(table, chunk, now)
    {
      next := table;
      for i := 0 to |chunk|
        invariant next == StageAll(table, chunk[..i], now)
        invariant Distinct(EntryList(chunk)[..i])
      {
        if chunk[i].key in EntryList(chunk)[..i] {
          var j :| 0 <= j < i && EntryList(chunk)[j] == EntryList(chunk)[i];
          return false, table;
        }
        TakeOneMore(chunk, i);
        next := next[chunk[i].key := StageRow(chunk[i].value, |chunk[i].value|, now, None)];
      }
      assert chunk[..|chunk|] == chunk && EntryList(chunk)[..|chunk|] == EntryList(chunk);
      ok := true;
    }

    method StagePutMany(entries: seq<StageEntry>, now: Time) returns (ok: bool)
      modifies this
      ensures ok <==> ChunksDistinct(EntryList(entries), STAGE_PUT_CHUNK)
      ensures staging == (if ok then StageAll(old(staging), entries, now) else old(staging)) && index == old(index)
    {
      var next := staging;
      var start := 0;
      assert entries[0..] == entries;
      while start < |entries|
        invariant 0 <= start <= |entries|
        invariant staging == old(staging) && index == old(index)
        invariant next == StageAll(staging, entries[..start], now)
        invariant ChunksDistinct(EntryList(entries), STAGE_PUT_CHUNK) <==>
          ChunksDistinct(EntryList(entries[start..]), STAGE_PUT_CHUNK)
      {
        var end := if start + STAGE_PUT_CHUNK < |entries| then start + STAGE_PUT_CHUNK else |entries|;
        NextStageChunk(entries[start..], end - start);
        ChunkSlices(entries, start, end);
        var inserted, n := StageChunk(next, entries[start..end], now);
        if !inserted {
          return false;
        }
        StageAllAppend(staging, entries[..start], entries[start..end], now);
        next, start := n, end;
      }
      assert entries[..|entries|] == entries;
      staging := next;
      ok := true;
    }

    /** First statement of StageClaim: pick the candidates. */
    method SelectCandidates(now: Time, maxCount: int, maxBytes: int) returns (keys: seq<Key>)
      ensures IsClaim(staging, now, maxCount, maxBytes, keys)
    {
      keys := [];
      if maxCount <= 0 || maxBytes <= 0 { return; }
      var rows := FirstN(ClaimScan(staging, now), maxCount);
      var total, i := 0, 0;
      while i < |rows|
        invariant i <= |rows| && keys == RowKeys(rows[..i]) && total == SizeSum(rows[..i])
        invariant FitsSoFar(rows, maxBytes, i)
      {
        OneMoreRow(rows, maxBytes, i);
        if |keys| > 0 && total + rows[i].size > maxBytes { break; }
        keys := keys + [rows[i].key];
        total := total + rows[i].size;
        i := i + 1;
      }
      assert ByteCut(rows, maxBytes, i);
    }

    /** Second statement of StageClaim: lease whatever is still claimable. */
    method LeaseCandidates(keys: seq<Key>, now: Time, lease: Time) returns (entries: seq<StageEntry>)
      modifies this`staging
      ensures staging == SetLease(old(staging), LeasedKeys(old(staging), keys, now), Some(now + lease))
      ensures Returns(old(staging), LeasedKeys(old(staging), keys, now), entries)
      ensures LeasesFree(old(staging), keys, now, lease, staging, entries)
    {
      var leased := set k | k in keys && k in staging
                            && (staging[k].leasedUntil.None? || staging[k].leasedUntil.value < now);
      var rest := leased;
      entries := [];
      while rest != {}
        invariant rest <= leased
        invariant staging == old(staging) && Returns(staging, leased - rest, entries)
        decreases rest
      {
        var k :| k in rest;
        ReturnOneMore(staging, leased - rest, entries, k);
        entries := entries + [StageEntry(k, staging[k].value)];
        rest := rest - {k};
        assert leased - rest == leased - (rest + {k}) + {k};
      }
      LeaseRowByRow(staging, keys, now, lease, entries);
      staging := map k | k in staging ::
        if k in leased then staging[k].(leasedUntil := Some(now + lease)) else staging[k];
    }

    method StageRelease(keys: set<Key>)
      modifies this`staging
      ensures staging == SetLease(old(staging), keys, None)
      ensures staging.Keys == old(staging).Keys
      ensures forall k, t :: k in keys && k in staging ==> Claimable(staging[k], t)
      ensures forall k :: k in keys && k in staging ==>
        staging[k] == StageRow(old(staging)[k].value, old(staging)[k].size, old(staging)[k].createdAt, None)
      ensures forall k :: k in staging && k !in keys ==> staging[k] == old(staging)[k]
    {
      staging := map k | k in staging :: if k in keys then staging[k].(leasedUntil := None) else staging[k];
    }

    /** The records whose keys were still staged. */
    static method KeepSurvivors(recs: seq<KeyRecord>, survivors: set<Key>, ghost staging: map<Key, StageRow>)
      returns (live: seq<KeyRecord>)
      requires survivors == (set kr | kr in recs && kr.key in staging :: kr.key)
      ensures live == Live(staging, recs)
    {
      live := [];
      for i := 0 to |recs|
        invariant live == Live(staging, recs[..i])
      {
        OneMoreLive(staging, recs, survivors, i);
        if recs[i].key in survivors { live := live + [recs[i]]; }
      }
      assert recs[..|recs|] == recs;
    }

    method PromoteStaged(recs: seq<KeyRecord>) returns (ok: bool)
      modifies this
      ensures ok <==> CanPromote(old(Db()), recs)
      ensures Db() == if ok then Promote(old(Db()), recs) else old(Db())
      ensures ok ==> MovesSurvivors(old(Db()), recs, Db())
    {
      PromoteRowByRow(Db(), recs);
      if recs == [] { return true; }
      var survivors := set kr | kr in recs && kr.key in staging :: kr.key;
      var live := KeepSurvivors(recs, survivors, staging);
      var done, next := PutManyTx(index, live);
      if done {
        index := next;
        staging := staging - survivors;
        assert staging == old(staging) - KeysOf(recs) by { SurvivorsOnly(old(staging), recs, survivors); }
      }
      ok := done;
    }

    method UpdateBlobAfterRenewal(oldId: string, res: StoreResult, encoded: int, expires: Option<Time>)
      modifies this`index
      ensures index == UpdateBlob(old(index), oldId, res, encoded, expires)
      ensures index.Keys == old(index).Keys
      ensures forall k :: k in index && old(index)[k].blobId != oldId ==> index[k] == old(index)[k]
      ensures forall k :: k in index && old(index)[k].blobId == oldId ==>
        index[k] == Record(res.blobId, res.objectId, old(index)[k].patchId, old(index)[k].offset, old(index)[k].size,
                           encoded, res.cost, old(index)[k].deletable, res.endEpoch, expires)
    {
      index := map k | k in index ::
        if index[k].blobId == oldId then
          index[k].(blobId := res.blobId, objectId := res.objectId, encodedSize := encoded,
                    cost := res.cost, endEpoch := res.endEpoch, expiresAt := expires)
        else index[k];
    }
  }
}
