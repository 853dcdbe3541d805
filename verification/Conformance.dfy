/** The code takes the machine's steps: every transaction of the index, run on the tables of a
    reachable state, is a step that the protocol allows and leaves the tables it says. */
module Conformance {
  import opened Types
  import opened Tables
  import opened Index
  import opened Packing
  import opened Protocol
  import opened Renewer
  import Encoding

  /** The step is allowed, and this is what it leaves in the tables. */
  ghost predicate Took(c: World, s: State, l: Label, db: Db) {
    Enabled(c, s, l) && db == Next(c, s, l).db
  }

  method TakePut(idx: PostgresIndex, c: World, ghost s: State, entries: seq<StageEntry>, now: Time) returns (ok: bool)
    requires idx.Db() == s.db && now == s.now
    requires AllSmall(c, entries)
    modifies idx
    ensures ok ==> Took(c, s, Put(entries), idx.Db())
    ensures !ok ==> idx.Db() == s.db && !Enabled(c, s, Put(entries))
  {
    ok := idx.StagePutMany(entries, now);
  }

  method TakeDelete(idx: PostgresIndex, c: World, ghost s: State, keys: set<Key>)
    requires idx.Db() == s.db
    modifies idx
    ensures Took(c, s, Delete(keys), idx.Db())
  {
    idx.DeleteMany(keys);
  }

  method TakeSelect(idx: PostgresIndex, c: World, ghost s: State, ghost id: nat, now: Time) returns (keys: seq<Key>)
    requires idx.Db() == s.db && now == s.now
    requires id !in s.actors && |Busy(c, s, c.node(id))| < c.cfg.workers
    ensures keys != [] ==>
      Took(c, s, Select(id, keys), idx.Db()) && Next(c, s, Select(id, keys)).actors[id] == Selected(keys)
  {
    keys := idx.SelectCandidates(now, c.cfg.MaxCount(), c.cfg.target);
  }

  method TakeLease(idx: PostgresIndex, c: World, ghost s: State, ghost id: nat, keys: seq<Key>, now: Time)
    returns (entries: seq<StageEntry>)
    requires idx.Db() == s.db && now == s.now && id in s.actors && s.actors[id] == Selected(keys)
    modifies idx`staging
    ensures Took(c, s, Lease(id, entries), idx.Db())
    ensures entries != [] ==> Next(c, s, Lease(id, entries)).actors[id] == Claimed(entries, now + 15 * 60)
  {
    entries := idx.LeaseCandidates(keys, now, STAGE_LEASE);
  }

  /** What a publisher that stores what it is sent does to Walrus. */
  ghost predicate Serves(w: Walrus, w': Walrus, sent: Request, pub: Publisher) {
    Grows(w, w') && Honest(w', sent, Replied(pub, sent))
  }

  method TakeUpload(c: World, ghost s: State, ghost id: nat, entries: seq<StageEntry>, pub: Publisher, now: Time,
                    ghost w: Walrus)
    returns (r: Result<seq<KeyRecord>>)
    requires now == s.now && id in s.actors && s.actors[id].Claimed? && s.actors[id].entries == entries && entries != []
    requires Serves(s.walrus, w, Sent(c.cfg, entries), pub)
    ensures r.Ok? ==> Took(c, s, Upload(id, Ask(c.cfg, entries, pub), w), s.db)
    ensures r.Ok? ==>
      Next(c, s, Upload(id, Ask(c.cfg, entries, pub), w)).actors[id]
      == Packed(entries, s.actors[id].until, r.value, now)
  {
    r := UploadPack(c.cfg, entries, pub, now);
  }

  method TakePromotion(idx: PostgresIndex, c: World, ghost s: State, ghost id: nat, recs: seq<KeyRecord>)
    returns (ok: bool)
    requires idx.Db() == s.db && id in s.actors && s.actors[id].Packed? && s.actors[id].recs == recs
    modifies idx
    ensures ok ==> Took(c, s, Promotion(id), idx.Db()) && Took(c, s, UnseenPromotion(id), idx.Db())
    ensures !ok ==> idx.Db() == s.db && !Enabled(c, s, Promotion(id))
  {
    ok := idx.PromoteStaged(recs);
  }

  method TakeRelease(idx: PostgresIndex, c: World, ghost s: State, ghost id: nat, entries: seq<StageEntry>)
    requires idx.Db() == s.db && id in s.actors && Holds(s.actors[id]) && s.actors[id].entries == entries
    modifies idx`staging
    ensures Took(c, s, Release(id), idx.Db()) && id !in Next(c, s, Release(id)).actors
  {
    idx.StageRelease(EntryKeys(entries));
  }

  /** An oversize put: the upload of its own blob, then the index write. */
  method TakeDirectUpload(c: World, ghost s: State, ghost id: nat, key: Key, pub: Publisher, now: Time, ghost w: Walrus)
    returns (r: Result<seq<KeyRecord>>)
    requires now == s.now && id !in s.actors && |c.content(key)| >= c.cfg.target
    requires Serves(s.walrus, w, StoreOf(c.content(key)), pub)
    ensures r.Ok? ==> Took(c, s, StartDirect(id, key, Ask(c.cfg, Lone(c, key), pub), w), s.db)
    ensures r.Ok? ==>
      Next(c, s, StartDirect(id, key, Ask(c.cfg, Lone(c, key), pub), w)).actors[id] == Direct(key, r.value, now)
  {
    r := UploadSingleBlock(c.cfg, StageEntry(key, c.content(key)), pub, now);
  }

  method TakeDirectWrite(idx: PostgresIndex, c: World, ghost s: State, ghost id: nat, key: Key, recs: seq<KeyRecord>)
    returns (ok: bool)
    requires idx.Db() == s.db && id in s.actors && s.actors[id].Direct? && s.actors[id].key == key
    requires s.actors[id].recs == recs
    modifies idx
    ensures ok ==> Took(c, s, EndDirect(id, key), idx.Db())
    ensures !ok ==> idx.Db() == s.db
  {
    ok := idx.PutMany(recs);
  }

  method TakeUpdate(idx: PostgresIndex, c: World, ghost s: State, ghost id: nat, blob: string, res: StoreResult,
                    encoded: int, expires: Option<Time>)
    requires idx.Db() == s.db && id in s.actors && s.actors[id].Worker? && s.actors[id].todo != []
    requires s.actors[id].todo[0] == blob && s.actors[id].phase.HasStored?
    requires s.actors[id].phase.res == res && s.actors[id].phase.encoded == encoded
    requires s.actors[id].phase.expiresAt == expires
    modifies idx`index
    ensures Took(c, s, ScanUpdate(id), idx.Db())
  {
    idx.UpdateBlobAfterRenewal(blob, res, encoded, expires);
  }

  method TakeScanStart(idx: PostgresIndex, c: World, ghost s: State, ghost id: nat, now: Time)
    returns (items: seq<string>)
    requires idx.Db() == s.db && now == s.now && id in s.actors && s.actors[id].Worker? && s.actors[id].todo == []
    ensures Took(c, s, ScanStart(id), idx.Db())
    ensures Next(c, s, ScanStart(id)).actors[id] == Worker(s.actors[id].last, now, items, Ready)
  {
    items := DueWithinLead(idx, c, s, now);
    ScanStarts(c, s, id, items);
  }

  method DueWithinLead(idx: PostgresIndex, c: World, ghost s: State, now: Time) returns (items: seq<string>)
    requires idx.Db() == s.db && now == s.now
    ensures items == ScanList(c, s)
  {
    var lead := c.cfg.renewLead;
    if lead <= 0 { lead := c.cfg.epochDuration; }
    items := ListDue(idx, now + lead);
  }

  lemma ScanStarts(c: World, s: State, id: nat, items: seq<string>)
    requires id in s.actors && s.actors[id].Worker? && s.actors[id].todo == [] && items == ScanList(c, s)
    ensures Took(c, s, ScanStart(id), s.db)
    ensures Next(c, s, ScanStart(id)).actors[id] == Worker(s.actors[id].last, s.now, items, Ready)
  {
  }

  /** What the worker keeps of a store: the reply, the billed size, and the new expiry. */
  method TakeScanStore(c: World, ghost s: State, ghost id: nat, data: Bytes, res: StoreResult, now: Time,
                       ghost w: Walrus)
    returns (encoded: int, expires: Option<Time>)
    requires now == s.now && id in s.actors && s.actors[id].Worker? && s.actors[id].todo != []
    requires s.actors[id].phase == HasRead(data) && Grows(s.walrus, w) && res.blobId in w.blobs
    requires w.blobs[res.blobId] == data
    ensures Took(c, s, ScanStore(id, res, w), s.db)
    ensures Next(c, s, ScanStore(id, res, w)).actors[id].phase == HasStored(res, encoded, expires, now)
  {
    encoded := res.encodedSize;
    if encoded <= 0 { encoded := Encoding.EncodedBlobLength(|data|, c.cfg.nShards); }
    expires := if c.cfg.epochDuration > 0 then Some(now + c.cfg.epochs * c.cfg.epochDuration) else None;
  }

  // ---- What is always allowed ----

  /** Every value is its key's, and below the target size. */
  predicate AllSmall(c: World, entries: seq<StageEntry>) {
    forall e :: e in entries ==> e.value == c.content(e.key) && |e.value| < c.cfg.target
  }

  /** No state refuses a delete, a crash of any actor, the passing of time, or a blob that
      nobody indexes; a put of different keys with their own bytes is refused to nobody. */
  lemma AlwaysAllowed(c: World, s: State, keys: set<Key>, entries: seq<StageEntry>, id: nat, t: Time, w: Walrus)
    ensures Enabled(c, s, Delete(keys)) && (id in s.actors ==> Enabled(c, s, Crash(id)))
    ensures t >= s.now ==> Enabled(c, s, Tick(t)) && Next(c, s, Tick(t)).now == t
    ensures Grows(s.walrus, w) ==> Enabled(c, s, Leak(w)) && Next(c, s, Leak(w)).walrus == w
    ensures Distinct(EntryList(entries)) && AllSmall(c, entries) ==> Enabled(c, s, Put(entries))
  {
    if Distinct(EntryList(entries)) { DistinctChunks(EntryList(entries), STAGE_PUT_CHUNK); }
  }

  /** A worker can start, give up on any blob, and read any blob that Walrus has. */
  lemma WorkersGoOn(c: World, s: State, id: nat)
    ensures id !in s.actors ==> Enabled(c, s, StartWorker(id))
    ensures Works(s, id) ==> Enabled(c, s, ScanSkip(id))
    ensures Works(s, id) ==>
      Next(c, s, ScanSkip(id)).actors[id] == Worker(s.actors[id].prev, s.actors[id].last, s.actors[id].todo[1..], Ready)
    ensures Works(s, id) && s.actors[id].phase.Ready? && s.actors[id].todo[0] in s.walrus.blobs ==>
      HasReadNext(c, s, id)
  {
  }

  /** A worker with a blob to see to. */
  predicate Works(s: State, id: nat) { id in s.actors && s.actors[id].Worker? && s.actors[id].todo != [] }

  ghost predicate HasReadNext(c: World, s: State, id: nat)
    requires Works(s, id) && s.actors[id].todo[0] in s.walrus.blobs
  {
    Enabled(c, s, ScanRead(id))
    && Next(c, s, ScanRead(id)).actors[id].phase == HasRead(s.walrus.blobs[s.actors[id].todo[0]])
  }
}
