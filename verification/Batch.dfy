/** A batch keeps only the last operation per key and commits them as three groups;
    the outcome is that of the operations one by one. */
module Batch {
  import opened Types
  import opened Tables
  import opened Index
  import opened Packing

  datatype BatchOp = BatchOp(val: Bytes, isDelete: bool)

  /** An operation as the caller issues it. */
  datatype Op = PutOp(key: Key, val: Bytes) | DeleteOp(key: Key)

  /** How each call of one commit turns out: staging, the delete and the index write of
      each oversize block, what the publisher answers to the upload of each such block, and
      the time when its expiry is computed. */
  datatype Calls = Calls(stage: Tx, remove: Tx, write: Key -> Tx, pub: Key -> Publisher, clock: Key -> Time)

  function Buffer(ops: map<Key, BatchOp>, op: Op): map<Key, BatchOp> {
    match op
    case PutOp(k, v) => ops[k := BatchOp(v, false)]
    case DeleteOp(k) => ops[k := BatchOp([], true)]
  }

  function BufferAll(issued: seq<Op>): map<Key, BatchOp> {
    if issued == [] then map[] else Buffer(BufferAll(issued[..|issued| - 1]), issued[|issued| - 1])
  }

  function Small(ops: map<Key, BatchOp>, target: int): set<Key> {
    set k | k in ops && !ops[k].isDelete && |ops[k].val| < target
  }
  function Large(ops: map<Key, BatchOp>, target: int): set<Key> {
    set k | k in ops && !ops[k].isDelete && |ops[k].val| >= target
  }
  function Removed(ops: map<Key, BatchOp>): set<Key> { set k | k in ops && ops[k].isDelete }

  // ---- The specification: one operation after another ----

  function Apply(blocks: map<Key, Bytes>, op: Op): map<Key, Bytes> {
    match op
    case PutOp(k, v) => blocks[k := v]
    case DeleteOp(k) => blocks - {k}
  }

  function ApplyAll(blocks: map<Key, Bytes>, issued: seq<Op>): map<Key, Bytes> {
    if issued == [] then blocks else Apply(ApplyAll(blocks, issued[..|issued| - 1]), issued[|issued| - 1])
  }

  /** What the buffered operations amount to, group by group. */
  function Grouped(blocks: map<Key, Bytes>, ops: map<Key, BatchOp>): map<Key, Bytes> {
    map k | k in blocks.Keys + ops.Keys && !(k in ops && ops[k].isDelete) :: if k in ops then ops[k].val else blocks[k]
  }

  /** Issuing operations one by one and applying the three groups of the buffer agree. */
  lemma {:induction false} GroupsRefineSequence(blocks: map<Key, Bytes>, issued: seq<Op>)
    ensures ApplyAll(blocks, issued) == Grouped(blocks, BufferAll(issued))
  {
    if issued != [] {
      GroupsRefineSequence(blocks, issued[..|issued| - 1]);
    }
  }

  /** The row that an accepted oversize upload leaves in the index. */
  function DirectRecord(cfg: Config, k: Key, val: Bytes, calls: Calls): Option<Record> {
    match calls.pub(k).store(val)
    case None => None
    case Some(res) => Some(PlainRecord(cfg, res, 0, |val|, |val|, calls.clock(k)))
  }

  /** The rows of every key after a commit that reported no error. */
  ghost predicate Committed(cfg: Config, ops: map<Key, BatchOp>, calls: Calls, now: Time, before: Db, after: Db) {
    && after.staging.Keys == before.staging.Keys + Small(ops, cfg.target) - Removed(ops)
    && after.index.Keys == before.index.Keys + Large(ops, cfg.target) - Removed(ops)
    && (forall k :: k in Small(ops, cfg.target) ==> after.staging[k] == StageRow(ops[k].val, |ops[k].val|, now, None))
    && (forall k :: k in after.staging && k !in Small(ops, cfg.target) ==> after.staging[k] == before.staging[k])
    && (forall k :: k in after.index && k !in Large(ops, cfg.target) ==> after.index[k] == before.index[k])
    && (forall k :: k in Large(ops, cfg.target) ==> Some(after.index[k]) == DirectRecord(cfg, k, ops[k].val, calls))
  }

  lemma OneRecord(index: map<Key, Record>, kr: KeyRecord)
    ensures Upsert(index, [kr]) == index[kr.key := kr.rec]
    ensures ChunksDistinct(KeyList([kr]), PUT_MANY_CHUNK)
  {
    assert [kr][..0] == [];
  }

  lemma StageFromOps(staging: map<Key, StageRow>, stage: seq<StageEntry>, ops: map<Key, BatchOp>, keys: set<Key>,
                     now: Time)
    requires EntryKeys(stage) == keys && forall e :: e in stage ==> e.key in ops && e.value == ops[e.key].val
    ensures StageAll(staging, stage, now).Keys == staging.Keys + keys
    ensures forall k :: k in keys ==> StageAll(staging, stage, now)[k] == StageRow(ops[k].val, |ops[k].val|, now, None)
    ensures StageAll(staging, stage, now) - keys == staging - keys
  {
    StageAllShape(staging, stage, now);
  }

  /** No call of the commit fails: the staging write, the delete, and each direct upload and write. */
  ghost predicate AllSucceed(cfg: Config, ops: map<Key, BatchOp>, calls: Calls) {
    && (calls.stage.Fine? || Small(ops, cfg.target) == {})
    && (calls.remove.Fine? || Removed(ops) == {})
    && forall k :: k in Large(ops, cfg.target) ==> WriteSucceeds(calls, k, ops[k].val)
  }

  predicate WriteSucceeds(calls: Calls, k: Key, val: Bytes) {
    calls.pub(k).store(val).Some? && calls.write(k).Fine?
  }

  /** The oversize block is uploaded and its row is written, reported or not. */
  predicate WriteLands(calls: Calls, k: Key, val: Bytes) {
    calls.pub(k).store(val).Some? && !calls.write(k).Refused?
  }

  // ---- What a commit leaves behind, whichever of its calls fail ----

  function Staged(cfg: Config, ops: map<Key, BatchOp>, calls: Calls): set<Key> {
    if calls.stage.Refused? then {} else Small(ops, cfg.target)
  }

  function Direct(cfg: Config, ops: map<Key, BatchOp>, calls: Calls): set<Key> {
    set k | k in Large(ops, cfg.target) && WriteLands(calls, k, ops[k].val)
  }

  function Gone(ops: map<Key, BatchOp>, calls: Calls): set<Key> {
    if calls.remove.Refused? then {} else Removed(ops)
  }

  /** The staging group is all or nothing, each oversize block is written or is not, and
      the deletes are all or nothing; nothing else changes. */
  function After(cfg: Config, ops: map<Key, BatchOp>, calls: Calls, now: Time, db: Db): Db {
    var staged, direct, gone := Staged(cfg, ops, calls), Direct(cfg, ops, calls), Gone(ops, calls);
    Db(map k | k in db.index.Keys + direct - gone ::
         if k in direct then DirectRecord(cfg, k, ops[k].val, calls).value else db.index[k],
       map k | k in db.staging.Keys + staged - gone ::
         if k in staged then StageRow(ops[k].val, |ops[k].val|, now, None) else db.staging[k])
  }

  lemma SuccessCommits(cfg: Config, ops: map<Key, BatchOp>, calls: Calls, now: Time, db: Db)
    requires AllSucceed(cfg, ops, calls)
    ensures Committed(cfg, ops, calls, now, db, After(cfg, ops, calls, now, db))
  {
    assert Direct(cfg, ops, calls) == Large(ops, cfg.target);
    assert Staged(cfg, ops, calls) == Small(ops, cfg.target);
    assert Gone(ops, calls) == Removed(ops);
  }

  /** Where every operation of a successful commit ends up: a value below the target is
      staged as it is, a larger one has a row of its own blob, a deleted key is nowhere. */
  ghost predicate Placed(cfg: Config, ops: map<Key, BatchOp>, calls: Calls, now: Time, after: Db) {
    && (forall k :: k in ops && ops[k].isDelete ==> k !in after.staging && k !in after.index)
    && (forall k :: k in ops && !ops[k].isDelete && |ops[k].val| < cfg.target ==>
          k in after.staging && after.staging[k] == StageRow(ops[k].val, |ops[k].val|, now, None))
    && (forall k :: k in ops && !ops[k].isDelete && |ops[k].val| >= cfg.target ==>
          k in after.index && DirectRow(cfg, k, ops[k].val, calls, after.index[k]))
  }

  ghost predicate DirectRow(cfg: Config, k: Key, val: Bytes, calls: Calls, rec: Record) {
    match calls.pub(k).store(val)
    case None => false
    case Some(res) => RowSays(cfg, KeyRecord(k, rec), k, res, "", 0, |val|, |val|, calls.clock(k))
  }

  lemma SuccessPlaces(cfg: Config, ops: map<Key, BatchOp>, calls: Calls, now: Time, before: Db, after: Db)
    requires Committed(cfg, ops, calls, now, before, after)
    ensures Placed(cfg, ops, calls, now, after)
  {
    forall k | k in ops && !ops[k].isDelete && |ops[k].val| < cfg.target
      ensures k in after.staging && after.staging[k] == StageRow(ops[k].val, |ops[k].val|, now, None)
    {
      assert k in Small(ops, cfg.target);
    }
    forall k | k in ops && !ops[k].isDelete && |ops[k].val| >= cfg.target
      ensures k in after.index && DirectRow(cfg, k, ops[k].val, calls, after.index[k])
    {
      assert k in Large(ops, cfg.target);
    }
    forall k | k in ops && ops[k].isDelete ensures k !in after.staging && k !in after.index {
      assert k in Removed(ops);
    }
  }

  lemma OthersUntouched(cfg: Config, ops: map<Key, BatchOp>, calls: Calls, now: Time, db: Db)
    ensures After(cfg, ops, calls, now, db).staging - ops.Keys == db.staging - ops.Keys
    ensures After(cfg, ops, calls, now, db).index - ops.Keys == db.index - ops.Keys
  {
  }

  class WalrusBatch {
    var ops: map<Key, BatchOp>

    constructor ()
      ensures ops == map[]
    {
      ops := map[];
    }

    method Put(k: Key, val: Bytes)
      modifies this
      ensures ops == Buffer(old(ops), PutOp(k, val))
    {
      ops := ops[k := BatchOp(val, false)];
    }

    method Delete(k: Key)
      modifies this
      ensures ops == Buffer(old(ops), DeleteOp(k))
    {
      ops := ops[k := BatchOp([], true)];
    }

    /** Sort the operations into the three groups, in whatever order the map yields them. */
    method Group(target: int) returns (stage: seq<StageEntry>, oversize: seq<StageEntry>, deletes: set<Key>)
      ensures EntryKeys(stage) == Small(ops, target) && Distinct(EntryList(stage))
      ensures EntryKeys(oversize) == Large(ops, target) && Distinct(EntryList(oversize))
      ensures deletes == Removed(ops)
      ensures forall e :: e in stage + oversize ==> e.key in ops && e.value == ops[e.key].val
    {
      stage, oversize, deletes := [], [], {};
      var rest := ops.Keys;
      while rest != {}
        invariant rest <= ops.Keys
        invariant EntryKeys(stage) == Small(ops, target) - rest && Distinct(EntryList(stage))
        invariant EntryKeys(oversize) == Large(ops, target) - rest && Distinct(EntryList(oversize))
        invariant deletes == Removed(ops) - rest
        invariant forall e :: e in stage + oversize ==> e.key in ops && e.value == ops[e.key].val
        decreases rest
      {
        var k :| k in rest;
        var e := StageEntry(k, ops[k].val);
        if ops[k].isDelete {
          deletes := deletes + {k};
        } else if |ops[k].val| >= target {
          AddEntry(oversize, e);
          oversize := oversize + [e];
        } else {
          AddEntry(stage, e);
          stage := stage + [e];
        }
        rest := rest - {k};
      }
    }

    method Commit(idx: PostgresIndex, cfg: Config, calls: Calls, now: Time) returns (ok: bool)
      modifies idx
      ensures idx.Db() == After(cfg, ops, calls, now, old(idx.Db()))
      ensures ok ==> Committed(cfg, ops, calls, now, old(idx.Db()), idx.Db())
      ensures ok <==> AllSucceed(cfg, ops, calls)
      ensures ok ==> Placed(cfg, ops, calls, now, idx.Db())
      ensures !calls.remove.Refused? ==> forall k :: k in Removed(ops) ==> k !in Present(idx.Db())
      ensures idx.staging - ops.Keys == old(idx.staging) - ops.Keys && idx.index - ops.Keys == old(idx.index) - ops.Keys
    {
      ghost var before := idx.Db();
      var stage, oversize, deletes := Group(cfg.target);
      var staged := WriteStage(idx, stage, ops, Small(ops, cfg.target), calls, now);
      var written := WriteOversize(idx, cfg, oversize, ops, calls);
      var removed := deletes == {} || calls.remove.Fine?;
      if deletes != {} && !calls.remove.Refused? { idx.DeleteMany(deletes); }
      ok := staged && written && removed;
      GroupsAddUp(cfg, ops, calls, now, before, stage, oversize, idx.Db());
      AllWritten(cfg, ops, calls, oversize);
      if ok {
        SuccessCommits(cfg, ops, calls, now, before);
        SuccessPlaces(cfg, ops, calls, now, before, idx.Db());
      }
      OthersUntouched(cfg, ops, calls, now, before);
    }
  }

  lemma GroupsAddUp(cfg: Config, ops: map<Key, BatchOp>, calls: Calls, now: Time, before: Db, stage: seq<StageEntry>,
                    oversize: seq<StageEntry>, after: Db)
    requires EntryKeys(stage) == Small(ops, cfg.target) && EntryKeys(oversize) == Large(ops, cfg.target)
    requires forall e :: e in stage + oversize ==> e.key in ops && e.value == ops[e.key].val
    requires after.staging == (if calls.stage.Refused? then before.staging
      else StageAll(before.staging, stage, now)) - Gone(ops, calls)
    requires after.index == WriteAll(cfg, before.index, oversize, calls) - Gone(ops, calls)
    ensures after == After(cfg, ops, calls, now, before)
  {
    StagingAddsUp(cfg, ops, calls, now, before, stage);
    IndexAddsUp(cfg, ops, calls, now, before, oversize);
  }

  lemma StagingAddsUp(cfg: Config, ops: map<Key, BatchOp>, calls: Calls, now: Time, before: Db, stage: seq<StageEntry>)
    requires EntryKeys(stage) == Small(ops, cfg.target)
    requires forall e :: e in stage ==> e.key in ops && e.value == ops[e.key].val
    ensures After(cfg, ops, calls, now, before).staging
         == (if calls.stage.Refused? then before.staging else StageAll(before.staging, stage, now)) - Gone(ops, calls)
  {
    if !calls.stage.Refused? {
      StageFromOps(before.staging, stage, ops, Small(ops, cfg.target), now);
      SameOutside(StageAll(before.staging, stage, now), before.staging, Small(ops, cfg.target));
    }
  }

  lemma IndexAddsUp(cfg: Config, ops: map<Key, BatchOp>, calls: Calls, now: Time, before: Db, oversize: seq<StageEntry>)
    requires EntryKeys(oversize) == Large(ops, cfg.target)
    requires forall e :: e in oversize ==> e.key in ops && e.value == ops[e.key].val
    ensures After(cfg, ops, calls, now, before).index == WriteAll(cfg, before.index, oversize, calls) - Gone(ops, calls)
  {
    WriteAllShape(cfg, before.index, oversize, ops, calls);
    assert forall k :: Lands(oversize, ops, calls, k) <==> k in Direct(cfg, ops, calls);
  }

  lemma AllWritten(cfg: Config, ops: map<Key, BatchOp>, calls: Calls, oversize: seq<StageEntry>)
    requires EntryKeys(oversize) == Large(ops, cfg.target)
    requires forall e :: e in oversize ==> e.key in ops && e.value == ops[e.key].val
    ensures (forall e :: e in oversize ==> WriteSucceeds(calls, e.key, e.value))
       <==> (forall k :: k in Large(ops, cfg.target) ==> WriteSucceeds(calls, k, ops[k].val))
  {
    forall k | k in Large(ops, cfg.target) ensures exists e :: e in oversize && e.key == k && e.value == ops[k].val {
      var e :| e in oversize && e.key == k;
    }
    forall e | e in oversize ensures e.key in Large(ops, cfg.target) {}
  }

  /** The staging group, in one transaction. */
  method WriteStage(idx: PostgresIndex, stage: seq<StageEntry>, ops: map<Key, BatchOp>, small: set<Key>, calls: Calls,
                    now: Time) returns (ok: bool)
    requires EntryKeys(stage) == small && Distinct(EntryList(stage))
    modifies idx
    ensures idx.index == old(idx.index)
    ensures idx.staging == if calls.stage.Refused? then old(idx.staging) else StageAll(old(idx.staging), stage, now)
    ensures ok <==> calls.stage.Fine? || small == {}
  {
    ok := true;
    DistinctChunks(EntryList(stage), STAGE_PUT_CHUNK);
    if stage != [] {
      assert small != {} by { assert stage[0] in stage && stage[0].key in small; }
      if calls.stage.Refused? { return false; }
      var done := idx.StagePutMany(stage, now);
      ok := done && calls.stage.Fine?;
    }
  }

  /** The index after these oversize blocks, one after the other. */
  function WriteAll(cfg: Config, index: map<Key, Record>, oversize: seq<StageEntry>, calls: Calls): map<Key, Record> {
    if oversize == [] then index
    else
      var n := |oversize| - 1;
      WriteBlock(cfg, WriteAll(cfg, index, oversize[..n], calls), oversize[n], calls)
  }

  function WriteBlock(cfg: Config, index: map<Key, Record>, e: StageEntry, calls: Calls): map<Key, Record> {
    if WriteLands(calls, e.key, e.value) then index[e.key := DirectRecord(cfg, e.key, e.value, calls).value] else index
  }

  lemma {:induction false} WriteAllShape(cfg: Config, index: map<Key, Record>, oversize: seq<StageEntry>,
                                         ops: map<Key, BatchOp>, calls: Calls)
    requires forall e :: e in oversize ==> e.key in ops && e.value == ops[e.key].val
    ensures forall k :: k in WriteAll(cfg, index, oversize, calls) <==> k in index || Lands(oversize, ops, calls, k)
    ensures forall k :: k in WriteAll(cfg, index, oversize, calls) ==>
      WriteAll(cfg, index, oversize, calls)[k] == RowAfter(cfg, index, oversize, ops, calls, k)
  {
    if oversize != [] {
      var n := |oversize| - 1;
      assert oversize == oversize[..n] + [oversize[n]];
      WriteAllShape(cfg, index, oversize[..n], ops, calls);
      forall k ensures Lands(oversize, ops, calls, k) <==>
        Lands(oversize[..n], ops, calls, k) || (k == oversize[n].key && WriteLands(calls, k, oversize[n].value))
      {
        assert k in EntryKeys(oversize) <==> k in EntryKeys(oversize[..n]) || k == oversize[n].key;
      }
    }
  }

  function RowAfter(cfg: Config, index: map<Key, Record>, oversize: seq<StageEntry>, ops: map<Key, BatchOp>,
                    calls: Calls, k: Key): Record
    requires k in index || Lands(oversize, ops, calls, k)
  {
    if Lands(oversize, ops, calls, k) then DirectRecord(cfg, k, ops[k].val, calls).value else index[k]
  }

  predicate Lands(oversize: seq<StageEntry>, ops: map<Key, BatchOp>, calls: Calls, k: Key) {
    k in EntryKeys(oversize) && k in ops && WriteLands(calls, k, ops[k].val)
  }

  lemma SameOutside<V>(m: map<Key, V>, n: map<Key, V>, ks: set<Key>)
    requires m - ks == n - ks
    ensures forall k :: k !in ks ==> (k in m <==> k in n) && (k in m ==> m[k] == n[k])
  {
    forall k | k !in ks ensures (k in m <==> k in n) && (k in m ==> m[k] == n[k]) {
      assert (k in m <==> k in m - ks) && (k in n <==> k in n - ks);
    }
  }

  lemma AddEntry(entries: seq<StageEntry>, e: StageEntry)
    requires Distinct(EntryList(entries)) && e.key !in EntryKeys(entries)
    ensures Distinct(EntryList(entries + [e])) && EntryKeys(entries + [e]) == EntryKeys(entries) + {e.key}
  {
    var ks := EntryList(entries);
    assert EntryList(entries + [e]) == ks + [e.key];
    forall i | 0 <= i < |ks| ensures ks[i] != e.key {
      assert entries[i] in entries;
    }
    forall k | k in EntryKeys(entries) + {e.key} ensures k in EntryKeys(entries + [e]) {
      if k == e.key {
        assert e in entries + [e];
      } else {
        var x :| x in entries && x.key == k;
        assert x in entries + [e];
      }
    }
  }

  method WriteOne(idx: PostgresIndex, cfg: Config, e: StageEntry, calls: Calls) returns (ok: bool)
    modifies idx
    ensures idx.staging == old(idx.staging) && idx.index == WriteBlock(cfg, old(idx.index), e, calls)
    ensures ok <==> WriteSucceeds(calls, e.key, e.value)
  {
    var recs := UploadSingleBlock(cfg, e, calls.pub(e.key), calls.clock(e.key));
    match recs
    case Err(_) => ok := false;
    case Ok(rs) =>
      SingleIsDirect(cfg, e, calls, rs);
      OneRecord(idx.index, rs[0]);
      if calls.write(e.key).Refused? { return false; }
      var done := idx.PutMany(rs);
      ok := done && calls.write(e.key).Fine?;
  }

  /** The oversize group: each block is uploaded as its own blob, then indexed. */
  method WriteOversize(idx: PostgresIndex, cfg: Config, oversize: seq<StageEntry>, ops: map<Key, BatchOp>, calls: Calls)
    returns (ok: bool)
    modifies idx
    ensures idx.staging == old(idx.staging) && idx.index == WriteAll(cfg, old(idx.index), oversize, calls)
    ensures ok <==> forall e :: e in oversize ==> WriteSucceeds(calls, e.key, e.value)
  {
    ok := true;
    for i := 0 to |oversize|
      invariant idx.staging == old(idx.staging) && idx.index == WriteAll(cfg, old(idx.index), oversize[..i], calls)
      invariant ok <==> forall j :: 0 <= j < i ==> WriteSucceeds(calls, oversize[j].key, oversize[j].value)
    {
      TakeOneMore(oversize, i);
      var one := WriteOne(idx, cfg, oversize[i], calls);
      ok := ok && one;
    }
    assert oversize[..|oversize|] == oversize;
  }

  lemma SingleIsDirect(cfg: Config, e: StageEntry, calls: Calls, rs: seq<KeyRecord>)
    requires UploadRecords(cfg, [e], Ask(cfg, [e], calls.pub(e.key)), calls.clock(e.key)) == Ok(rs)
    ensures |rs| == 1 && rs == [rs[0]] && rs[0].key == e.key
    ensures Some(rs[0].rec) == DirectRecord(cfg, e.key, e.value, calls) && calls.pub(e.key).store(e.value).Some?
  {
    assert [e][..0] == [] && Total([e]) == |e.value|;
  }

  /** The keys that a successful commit leaves present are those that the issued
      operations, applied one at a time, leave present. */
  lemma CommitRefinesOperations(cfg: Config, issued: seq<Op>, calls: Calls, now: Time, before: Db, after: Db,
                                blocks: map<Key, Bytes>)
    requires Committed(cfg, BufferAll(issued), calls, now, before, after)
    requires blocks.Keys == Present(before)
    ensures Present(after) == ApplyAll(blocks, issued).Keys
  {
    GroupsRefineSequence(blocks, issued);
  }

  /** The tables hold exactly these blocks. */
  ghost predicate Shows(w: Walrus, db: Db, blocks: map<Key, Bytes>) {
    && blocks.Keys == Present(db)
    && (forall k :: k in db.staging ==> db.staging[k].value == blocks[k] && db.staging[k].size == |blocks[k]|)
    && (forall k :: k in db.index ==> Decodes(w, db.index[k], blocks[k]))
  }

  ghost predicate StoresHonestly(w: Walrus, calls: Calls) {
    forall k, v :: calls.pub(k).store(v).Some? ==> HoldsBlob(w, calls.pub(k).store(v).value.blobId, v)
  }

  predicate HoldsBlob(w: Walrus, id: string, v: Bytes) { id in w.blobs && w.blobs[id] == v }

  /** What content addressing gives: a key that is there already is put with its own bytes. */
  predicate SameBytes(blocks: map<Key, Bytes>, ops: map<Key, BatchOp>) {
    forall k :: k in blocks && k in ops && !ops[k].isDelete ==> ops[k].val == blocks[k]
  }

  lemma CommittedKey(cfg: Config, w: Walrus, ops: map<Key, BatchOp>, calls: Calls, now: Time, before: Db, after: Db,
                     blocks: map<Key, Bytes>, k: Key)
    requires Committed(cfg, ops, calls, now, before, after) && Shows(w, before, blocks)
    requires StoresHonestly(w, calls) && SameBytes(blocks, ops)
    ensures k in after.staging ==> k in Grouped(blocks, ops)
    ensures k in after.staging ==>
      after.staging[k].value == Grouped(blocks, ops)[k] && after.staging[k].size == |Grouped(blocks, ops)[k]|
    ensures k in after.index ==> k in Grouped(blocks, ops) && Decodes(w, after.index[k], Grouped(blocks, ops)[k])
  {
    if k in Large(ops, cfg.target) { assert calls.pub(k).store(ops[k].val).Some?; }
  }

  /** Bytes too: for content-addressed keys and an honest Walrus, the blocks that can be
      read after a successful commit are those of the operations one by one. */
  lemma CommitRefinesBlocks(cfg: Config, w: Walrus, issued: seq<Op>, calls: Calls, now: Time, before: Db, after: Db,
                            blocks: map<Key, Bytes>)
    requires Committed(cfg, BufferAll(issued), calls, now, before, after) && Shows(w, before, blocks)
    requires StoresHonestly(w, calls) && SameBytes(blocks, BufferAll(issued))
    ensures Shows(w, after, ApplyAll(blocks, issued))
  {
    GroupsRefineSequence(blocks, issued);
    CommitRefinesOperations(cfg, issued, calls, now, before, after, blocks);
    forall k | k in after.staging
      ensures after.staging[k].value == ApplyAll(blocks, issued)[k]
      ensures after.staging[k].size == |ApplyAll(blocks, issued)[k]|
    {
      CommittedKey(cfg, w, BufferAll(issued), calls, now, before, after, blocks, k);
    }
    forall k | k in after.index ensures Decodes(w, after.index[k], ApplyAll(blocks, issued)[k]) {
      CommittedKey(cfg, w, BufferAll(issued), calls, now, before, after, blocks, k);
    }
  }

  // ---- Single operations ----

  function OnePut(k: Key, val: Bytes): map<Key, BatchOp> { BufferAll([PutOp(k, val)]) }

  lemma OnePutOnly(k: Key, val: Bytes)
    ensures OnePut(k, val) == map[k := BatchOp(val, false)]
  {
    assert [PutOp(k, val)][..0] == [] && BufferAll([]) == map[];
    assert BufferAll([PutOp(k, val)]) == Buffer(BufferAll([PutOp(k, val)][..0]), PutOp(k, val));
  }

  /** Put on its own has the outcome of a batch that holds nothing else. */
  method PutBlock(idx: PostgresIndex, cfg: Config, k: Key, val: Bytes, calls: Calls, now: Time) returns (ok: bool)
    modifies idx
    ensures idx.Db() == After(cfg, OnePut(k, val), calls, now, old(idx.Db()))
    ensures ok ==> Committed(cfg, OnePut(k, val), calls, now, old(idx.Db()), idx.Db())
    ensures ok <==> AllSucceed(cfg, OnePut(k, val), calls)
    ensures !ok && !calls.stage.Lost? && !calls.write(k).Lost? ==> idx.Db() == old(idx.Db())
  {
    ghost var before := idx.Db();
    OnePutOnly(k, val);
    var e := StageEntry(k, val);
    if |val| >= cfg.target {
      ok := WriteOne(idx, cfg, e, calls);
    } else {
      StagedAlone(idx.staging, e, now);
      if calls.stage.Refused? { ok := false; } else { ok := idx.StagePutMany([e], now); }
      ok := ok && calls.stage.Fine?;
    }
    OnePutAfter(cfg, k, val, calls, now, before, idx.Db());
    if ok { SuccessCommits(cfg, OnePut(k, val), calls, now, before); }
  }

  lemma OnePutAfter(cfg: Config, k: Key, val: Bytes, calls: Calls, now: Time, before: Db, after: Db)
    requires if |val| >= cfg.target then
               after.staging == before.staging
                 && after.index == WriteBlock(cfg, before.index, StageEntry(k, val), calls)
             else
               after.index == before.index && after.staging ==
                 if calls.stage.Refused? then before.staging else before.staging[k := StageRow(val, |val|, now, None)]
    ensures after == After(cfg, OnePut(k, val), calls, now, before)
    ensures AllSucceed(cfg, OnePut(k, val), calls)
       <==> if |val| >= cfg.target then WriteSucceeds(calls, k, val) else calls.stage.Fine?
  {
    OnePutOnly(k, val);
    OnePutGroups(k, val, cfg.target);
    OnePutTables(cfg, k, val, OnePut(k, val), calls, now, before, after);
  }

  lemma OnePutGroups(k: Key, val: Bytes, target: int)
    ensures var ops := OnePut(k, val);
      && Removed(ops) == {}
      && Small(ops, target) == (if |val| < target then {k} else {})
      && Large(ops, target) == (if |val| >= target then {k} else {})
  {
    OnePutOnly(k, val);
  }

  lemma OnePutTables(cfg: Config, k: Key, val: Bytes, ops: map<Key, BatchOp>, calls: Calls, now: Time,
                     before: Db, after: Db)
    requires k in ops && ops[k].val == val && Removed(ops) == {}
    requires Small(ops, cfg.target) == (if |val| < cfg.target then {k} else {})
    requires Large(ops, cfg.target) == (if |val| >= cfg.target then {k} else {})
    requires if |val| >= cfg.target then
               after.staging == before.staging
               && after.index == WriteBlock(cfg, before.index, StageEntry(k, val), calls)
             else
               after.index == before.index && after.staging ==
                 if calls.stage.Refused? then before.staging else before.staging[k := StageRow(val, |val|, now, None)]
    ensures after == After(cfg, ops, calls, now, before)
  {
    assert Direct(cfg, ops, calls) == if |val| >= cfg.target && WriteLands(calls, k, val) then {k} else {};
    assert after.index == After(cfg, ops, calls, now, before).index;
    assert after.staging == After(cfg, ops, calls, now, before).staging;
  }

  lemma StagedAlone(staging: map<Key, StageRow>, e: StageEntry, now: Time)
    ensures ChunksDistinct(EntryList([e]), STAGE_PUT_CHUNK)
    ensures StageAll(staging, [e], now) == staging[e.key := StageRow(e.value, |e.value|, now, None)]
  {
    assert [e][..0] == [];
  }
}
