/** The shared protocol as a state machine. Each SQL transaction or statement is one
    step; a claim, an upload, a promotion, an oversize put and a renewal each take
    several, and between any two of them every other node may take its own. */
module Protocol {
  import opened Types
  import opened Tables
  import opened Queries
  import opened Packing
  import Encoding

  /** content is what makes the store content-addressed: a key has one value for ever.
      node says on which node an actor runs. */
  datatype World = World(cfg: Config, content: Key -> Bytes, node: nat -> nat)

  datatype Phase =
    | Ready
    | HasRead(data: Bytes)
    | HasStored(res: StoreResult, encoded: int, expiresAt: Option<Time>, at: Time)

  /** What one goroutine of some node holds in memory between two of its steps. */
  datatype Actor =
    | Selected(keys: seq<Key>)
    | Claimed(entries: seq<StageEntry>, until: Time)
    | Packed(entries: seq<StageEntry>, until: Time, recs: seq<KeyRecord>, at: Time)
    | Direct(key: Key, recs: seq<KeyRecord>, at: Time)
    | Worker(prev: Time, last: Time, todo: seq<string>, phase: Phase)

  datatype State = State(db: Db, walrus: Walrus, now: Time, actors: map<nat, Actor>)

  datatype Label =
    | Put(entries: seq<StageEntry>)
    | StartDirect(id: nat, key: Key, reply: Reply, w: Walrus)
    | EndDirect(id: nat, key: Key)
    | Delete(gone: set<Key>)
    | Select(id: nat, keys: seq<Key>)
    | Lease(id: nat, entries: seq<StageEntry>)
    | Upload(id: nat, reply: Reply, w: Walrus)
    | Promotion(id: nat)
    | UnseenPromotion(id: nat)
    | Release(id: nat)
    | Crash(id: nat)
    | Tick(t: Time)
    | Leak(w: Walrus)
    | StartWorker(id: nat)
    | ScanStart(id: nat)
    | ScanRead(id: nat)
    | ScanStore(id: nat, res: StoreResult, w: Walrus)
    | ScanUpdate(id: nat)
    | ScanSkip(id: nat)

  predicate Holds(a: Actor) { a.Claimed? || a.Packed? }

  predicate Flushes(a: Actor) { a.Selected? || Holds(a) }

  /** The packs that a node is busy with, candidates included. */
  function Busy(c: World, s: State, node: nat): set<nat> {
    set id | id in s.actors && c.node(id) == node && Flushes(s.actors[id])
  }

  function Lone(c: World, k: Key): seq<StageEntry> { [StageEntry(k, c.content(k))] }

  ghost predicate Enabled(c: World, s: State, l: Label) {
    match l
    case Put(entries) =>
      && ChunksDistinct(EntryList(entries), STAGE_PUT_CHUNK)
      && forall e :: e in entries ==> e.value == c.content(e.key) && |e.value| < c.cfg.target
    case StartDirect(id, key, reply, w) =>
      && id !in s.actors && |c.content(key)| >= c.cfg.target
      && Grows(s.walrus, w) && Honest(w, Sent(c.cfg, Lone(c, key)), reply)
      && reply.Stored?
    case EndDirect(id, key) => id in s.actors && s.actors[id].Direct? && s.actors[id].key == key
    case Delete(keys) => true
    case Select(id, keys) =>
      && id !in s.actors && keys != []
      && |Busy(c, s, c.node(id))| < c.cfg.workers
      && IsClaim(s.db.staging, s.now, c.cfg.MaxCount(), c.cfg.target, keys)
    case Lease(id, entries) =>
      && id in s.actors && s.actors[id].Selected?
      && Returns(s.db.staging, LeasedKeys(s.db.staging, s.actors[id].keys, s.now), entries)
    case Upload(id, reply, w) =>
      && id in s.actors && s.actors[id].Claimed?
      && Grows(s.walrus, w) && Honest(w, Sent(c.cfg, s.actors[id].entries), reply)
      && UploadRecords(c.cfg, s.actors[id].entries, reply, s.now).Ok?
    case Promotion(id) => id in s.actors && s.actors[id].Packed? && CanPromote(s.db, s.actors[id].recs)
    case UnseenPromotion(id) => id in s.actors && s.actors[id].Packed? && CanPromote(s.db, s.actors[id].recs)
    case Release(id) => id in s.actors && Holds(s.actors[id])
    case Crash(id) => id in s.actors
    case Tick(t) => s.now <= t
    case Leak(w) => Grows(s.walrus, w)
    case StartWorker(id) => id !in s.actors
    case ScanStart(id) => id in s.actors && s.actors[id].Worker? && s.actors[id].todo == []
    case ScanRead(id) =>
      && id in s.actors && s.actors[id].Worker? && s.actors[id].phase.Ready?
      && s.actors[id].todo != [] && s.actors[id].todo[0] in s.walrus.blobs
    case ScanStore(id, res, w) =>
      && id in s.actors && s.actors[id].Worker? && s.actors[id].phase.HasRead? && s.actors[id].todo != []
      && Grows(s.walrus, w) && res.blobId in w.blobs && w.blobs[res.blobId] == s.actors[id].phase.data
    case ScanUpdate(id) =>
      id in s.actors && s.actors[id].Worker? && s.actors[id].phase.HasStored? && s.actors[id].todo != []
    case ScanSkip(id) => id in s.actors && s.actors[id].Worker? && s.actors[id].todo != []
  }

  /** The blobs that a scan starting now sets out to renew. */
  function ScanList(c: World, s: State): seq<string> {
    DueForRenewal(s.db.index, s.now + c.cfg.Lead(), RENEW_BATCH_SIZE)
  }

  /** What the step does to the two tables. */
  ghost function NextDb(c: World, s: State, l: Label): Db
    requires Enabled(c, s, l)
  {
    match l
    case Put(entries) => s.db.(staging := StageAll(s.db.staging, entries, s.now))
    case EndDirect(id, key) => s.db.(index := Upsert(s.db.index, s.actors[id].recs))
    case Delete(keys) => DeleteKeys(s.db, keys)
    case Lease(id, entries) =>
      s.db.(staging := SetLease(s.db.staging, LeasedKeys(s.db.staging, s.actors[id].keys, s.now),
        Some(s.now + STAGE_LEASE)))
    case Promotion(id) => Promote(s.db, s.actors[id].recs)
    case UnseenPromotion(id) => Promote(s.db, s.actors[id].recs)
    case Release(id) => s.db.(staging := SetLease(s.db.staging, EntryKeys(s.actors[id].entries), None))
    case ScanUpdate(id) =>
      var a := s.actors[id];
      s.db.(index := UpdateBlob(s.db.index, a.todo[0], a.phase.res, a.phase.encoded, a.phase.expiresAt))
    case _ => s.db
  }

  function NextWalrus(s: State, l: Label): Walrus {
    match l
    case StartDirect(_, _, _, w) => w
    case Upload(_, _, w) => w
    case Leak(w) => w
    case ScanStore(_, _, w) => w
    case _ => s.walrus
  }

  ghost function NextActors(c: World, s: State, l: Label): map<nat, Actor>
    requires Enabled(c, s, l)
  {
    match l
    case StartDirect(id, key, reply, w) =>
      s.actors[id := Direct(key, UploadRecords(c.cfg, Lone(c, key), reply, s.now).value, s.now)]
    case EndDirect(id, _) => s.actors - {id}
    case Select(id, keys) => s.actors[id := Selected(keys)]
    case Lease(id, entries) => if entries == [] then s.actors - {id}
      else s.actors[id := Claimed(entries, s.now + STAGE_LEASE)]
    case Upload(id, reply, _) =>
      var a := s.actors[id];
      s.actors[id := Packed(a.entries, a.until, UploadRecords(c.cfg, a.entries, reply, s.now).value, s.now)]
    case Promotion(id) => s.actors - {id}
    case Release(id) => s.actors - {id}
    case Crash(id) => s.actors - {id}
    case StartWorker(id) => s.actors[id := Worker(s.now, s.now, [], Ready)]
    case ScanStart(id) =>
      s.actors[id := Worker(s.actors[id].last, s.now, ScanList(c, s), Ready)]
    case ScanRead(id) => s.actors[id := s.actors[id].(phase := HasRead(s.walrus.blobs[s.actors[id].todo[0]]))]
    case ScanStore(id, res, _) =>
      var encoded := Encoding.EncodedSize(res.encodedSize, |s.actors[id].phase.data|, c.cfg.nShards);
      s.actors[id := s.actors[id].(phase := HasStored(res, encoded, c.cfg.Expiry(s.now), s.now))]
    case ScanUpdate(id) => s.actors[id := s.actors[id].(todo := s.actors[id].todo[1..], phase := Ready)]
    case ScanSkip(id) => s.actors[id := s.actors[id].(todo := s.actors[id].todo[1..], phase := Ready)]
    case _ => s.actors
  }

  ghost function Next(c: World, s: State, l: Label): State
    requires Enabled(c, s, l)
  {
    State(NextDb(c, s, l), NextWalrus(s, l), if l.Tick? then l.t else s.now, NextActors(c, s, l))
  }

  ghost predicate Step(c: World, s: State, l: Label, s': State) {
    Enabled(c, s, l) && s' == Next(c, s, l)
  }

  predicate Init(s: State) {
    s.db == Db(map[], map[]) && s.actors == map[]
  }

  // ---- Runs ----

  datatype Run = Run(states: seq<State>, labels: seq<Label>)

  ghost predicate IsRun(c: World, r: Run) {
    && |r.states| == |r.labels| + 1
    && Init(r.states[0])
    && forall i :: 0 <= i < |r.labels| ==> StepAt(c, r, i)
  }

  ghost predicate StepAt(c: World, r: Run, i: nat)
    requires i < |r.labels| && |r.states| == |r.labels| + 1
  {
    Step(c, r.states[i], r.labels[i], r.states[i + 1])
  }

  // ---- The invariant ----

  ghost predicate GoodRow(c: World, k: Key, row: StageRow) {
    row.value == c.content(k) && row.size == |row.value| < c.cfg.target
  }

  ghost predicate GoodDb(c: World, w: Walrus, db: Db) {
    && (forall k :: k in db.staging ==> GoodRow(c, k, db.staging[k]))
    && (forall k :: k in db.index ==> Decodes(w, db.index[k], c.content(k)))
  }

  ghost predicate GoodRecs(c: World, w: Walrus, recs: seq<KeyRecord>, at: Time) {
    forall kr :: kr in recs ==> Decodes(w, kr.rec, c.content(kr.key)) && kr.rec.expiresAt == c.cfg.Expiry(at)
  }

  ghost predicate GoodEntries(c: World, entries: seq<StageEntry>) {
    && Distinct(EntryList(entries))
    && (forall e :: e in entries ==> e.value == c.content(e.key))
    && 0 < |entries| && c.cfg.Admits(|entries|)
    && Total(entries) <= c.cfg.target
  }

  function ContentBytes(c: World, keys: seq<Key>): nat {
    if keys == [] then 0 else ContentBytes(c, keys[..|keys| - 1]) + |c.content(keys[|keys| - 1])|
  }

  ghost predicate GoodActor(c: World, w: Walrus, a: Actor) {
    match a
    case Selected(keys) => Distinct(keys) && c.cfg.Admits(|keys|) && ContentBytes(c, keys) <= c.cfg.target
    case Claimed(entries, _) => GoodEntries(c, entries)
    case Packed(entries, _, recs, at) => GoodEntries(c, entries) && GoodRecs(c, w, recs, at)
      && KeysOf(recs) <= EntryKeys(entries)
    case Direct(key, recs, at) => GoodRecs(c, w, recs, at) && KeysOf(recs) == {key}
    case Worker(_, _, todo, phase) =>
      && Distinct(todo)
      && match phase
         case Ready => true
         case HasRead(data) => todo != [] && todo[0] in w.blobs && w.blobs[todo[0]] == data
         case HasStored(res, _, expires, at) =>
           && todo != [] && todo[0] in w.blobs && res.blobId in w.blobs && w.blobs[todo[0]] == w.blobs[res.blobId]
           && expires == c.cfg.Expiry(at)
  }

  ghost predicate Inv(c: World, s: State) {
    && GoodDb(c, s.walrus, s.db)
    && forall id :: id in s.actors ==> GoodActor(c, s.walrus, s.actors[id])
  }

  // ---- The invariant is kept by every step ----

  lemma {:induction false} ContentBytesSplit(c: World, a: seq<Key>, k: Key, b: seq<Key>)
    ensures ContentBytes(c, a + [k] + b) == ContentBytes(c, a + b) + |c.content(k)|
  {
    var all := a + [k] + b;
    if b == [] {
      assert all[..|all| - 1] == a && a + b == a;
    } else {
      ContentBytesSplit(c, a, k, b[..|b| - 1]);
      assert all[..|all| - 1] == a + [k] + b[..|b| - 1];
      assert (a + b)[..|a + b| - 1] == a + b[..|b| - 1];
    }
  }

  lemma RestIsElsewhere(c: World, entries: seq<StageEntry>, keys: seq<Key>, a: seq<Key>, b: seq<Key>)
    requires entries != [] && Distinct(EntryList(entries))
    requires forall e :: e in entries ==> e.value == c.content(e.key) && e.key in keys
    requires keys == a + [entries[|entries| - 1].key] + b
    ensures Distinct(EntryList(entries[..|entries| - 1]))
    ensures forall e :: e in entries[..|entries| - 1] ==> e.value == c.content(e.key) && e.key in a + b
  {
    var n := |entries| - 1;
    var rest := entries[..n];
    assert EntryList(rest) == EntryList(entries)[..n];
    forall e | e in rest ensures e in entries && e.key in a + b {
      var j :| 0 <= j < |rest| && rest[j] == e;
      assert EntryList(entries)[j] != EntryList(entries)[n];
      assert e in entries;
    }
  }

  /** Rows returned from among the candidates keep within the candidates' limits. */
  lemma {:induction false} SubsetKeepsLimits(c: World, entries: seq<StageEntry>, keys: seq<Key>)
    requires Distinct(keys) && Distinct(EntryList(entries))
    requires forall e :: e in entries ==> e.value == c.content(e.key) && e.key in keys
    ensures |entries| <= |keys| && Total(entries) <= ContentBytes(c, keys)
  {
    if entries != [] {
      var n := |entries| - 1;
      var k := entries[n].key;
      assert entries[n] in entries;
      var i :| 0 <= i < |keys| && keys[i] == k;
      var a, b := keys[..i], keys[i + 1..];
      assert keys == a + [k] + b;
      RestIsElsewhere(c, entries, keys, a, b);
      SubsetKeepsLimits(c, entries[..n], a + b);
      ContentBytesSplit(c, a, k, b);
    }
  }

  lemma {:induction false} KeyBytesIsContentBytes(c: World, staging: map<Key, StageRow>, keys: seq<Key>)
    requires forall k :: k in keys ==> k in staging
    requires forall k :: k in staging ==> GoodRow(c, k, staging[k])
    ensures KeyBytes(staging, keys) == ContentBytes(c, keys)
  {
    if keys != [] { KeyBytesIsContentBytes(c, staging, keys[..|keys| - 1]); }
  }

  lemma SelectionIsGood(c: World, s: State, keys: seq<Key>)
    requires c.cfg.Valid() && Inv(c, s) && IsClaim(s.db.staging, s.now, c.cfg.MaxCount(), c.cfg.target, keys)
    ensures GoodActor(c, s.walrus, Selected(keys))
  {
    var staging := s.db.staging;
    ClaimIsPrefix(staging, s.now, c.cfg.MaxCount(), c.cfg.target, keys);
    ScanKeysShape(staging, s.now, ScanKeys(staging, s.now));
    KeyBytesIsContentBytes(c, staging, keys);
    if |keys| == 1 {
      assert keys[0] in keys && keys[..0] == [];
      assert GoodRow(c, keys[0], staging[keys[0]]);
      assert ContentBytes(c, keys) == ContentBytes(c, keys[..0]) + |c.content(keys[0])|;
    }
  }

  lemma LeaseIsGood(c: World, s: State, id: nat, entries: seq<StageEntry>)
    requires Inv(c, s) && Enabled(c, s, Lease(id, entries)) && entries != []
    ensures GoodEntries(c, entries)
  {
    var keys := s.actors[id].keys;
    assert GoodActor(c, s.walrus, s.actors[id]);
    forall e | e in entries ensures e.value == c.content(e.key) && e.key in keys {
      assert e.key in EntryKeys(entries) && GoodRow(c, e.key, s.db.staging[e.key]);
    }
    SubsetKeepsLimits(c, entries, keys);
  }

  lemma RecsAreGood(c: World, w: Walrus, pack: seq<StageEntry>, reply: Reply, now: Time, recs: seq<KeyRecord>)
    requires Honest(w, Sent(c.cfg, pack), reply) && UploadRecords(c.cfg, pack, reply, now) == Ok(recs)
    requires forall e :: e in pack ==> e.value == c.content(e.key)
    ensures GoodRecs(c, w, recs, now) && KeysOf(recs) <= EntryKeys(pack)
  {
    forall kr | kr in recs
      ensures Decodes(w, kr.rec, c.content(kr.key)) && kr.rec.expiresAt == c.cfg.Expiry(now)
      ensures kr.key in EntryKeys(pack)
    {
      UploadDecodes(c.cfg, w, pack, reply, now, kr);
    }
  }

  lemma GrowthKeepsInv(c: World, s: State, w: Walrus)
    requires Inv(c, s) && Grows(s.walrus, w)
    ensures Inv(c, s.(walrus := w))
  {
    forall id | id in s.actors ensures GoodActor(c, w, s.actors[id]) {
      assert GoodActor(c, s.walrus, s.actors[id]);
    }
  }

  lemma UpsertKeepsGoodDb(c: World, w: Walrus, db: Db, recs: seq<KeyRecord>, at: Time)
    requires GoodDb(c, w, db) && GoodRecs(c, w, recs, at)
    ensures GoodDb(c, w, db.(index := Upsert(db.index, recs)))
  {
    UpsertShape(db.index, recs);
  }

  lemma PromoteKeepsGoodDb(c: World, w: Walrus, db: Db, recs: seq<KeyRecord>, at: Time)
    requires GoodDb(c, w, db) && GoodRecs(c, w, recs, at)
    ensures GoodDb(c, w, Promote(db, recs))
  {
    LiveShape(db.staging, recs);
    UpsertKeepsGoodDb(c, w, db, Live(db.staging, recs), at);
  }

  lemma DbStaysGood(c: World, s: State, l: Label)
    requires Inv(c, s) && Enabled(c, s, l)
    ensures GoodDb(c, s.walrus, NextDb(c, s, l))
  {
    match l
    case Put(entries) => StageAllShape(s.db.staging, entries, s.now);
    case EndDirect(id, _) =>
      assert GoodActor(c, s.walrus, s.actors[id]);
      UpsertKeepsGoodDb(c, s.walrus, s.db, s.actors[id].recs, s.actors[id].at);
    case Promotion(id) =>
      assert GoodActor(c, s.walrus, s.actors[id]);
      PromoteKeepsGoodDb(c, s.walrus, s.db, s.actors[id].recs, s.actors[id].at);
    case UnseenPromotion(id) =>
      assert GoodActor(c, s.walrus, s.actors[id]);
      PromoteKeepsGoodDb(c, s.walrus, s.db, s.actors[id].recs, s.actors[id].at);
    case ScanUpdate(id) =>
      assert GoodActor(c, s.walrus, s.actors[id]);
    case _ =>
  }

  lemma DirectIsGood(c: World, s: State, l: Label)
    requires Inv(c, s) && l.StartDirect? && Enabled(c, s, l)
    ensures GoodActor(c, l.w, NextActors(c, s, l)[l.id])
  {
    var recs := UploadRecords(c.cfg, Lone(c, l.key), l.reply, s.now).value;
    RecsAreGood(c, l.w, Lone(c, l.key), l.reply, s.now, recs);
    assert recs[0] in recs && EntryKeys(Lone(c, l.key)) == {l.key};
  }

  lemma UploadIsGood(c: World, s: State, l: Label)
    requires Inv(c, s) && l.Upload? && Enabled(c, s, l)
    ensures GoodActor(c, l.w, NextActors(c, s, l)[l.id])
  {
    var entries := s.actors[l.id].entries;
    assert GoodActor(c, s.walrus, s.actors[l.id]);
    RecsAreGood(c, l.w, entries, l.reply, s.now, UploadRecords(c.cfg, entries, l.reply, s.now).value);
  }

  lemma ScanListIsDistinct(c: World, s: State)
    ensures Distinct(ScanList(c, s))
  {
    DueIsDistinct(s.db.index, s.now + c.cfg.Lead(), RENEW_BATCH_SIZE);
  }

  lemma ScanStartIsGood(c: World, s: State, l: Label, todo: seq<string>)
    requires l.ScanStart? && Enabled(c, s, l) && todo == ScanList(c, s) && Distinct(todo)
    ensures GoodActor(c, s.walrus, NextActors(c, s, l)[l.id])
  {
    assert NextActors(c, s, l)[l.id] == Worker(s.actors[l.id].last, s.now, todo, Ready);
  }

  lemma ScanReadIsGood(c: World, s: State, l: Label)
    requires Inv(c, s) && Enabled(c, s, l) && l.ScanRead?
    ensures GoodActor(c, s.walrus, NextActors(c, s, l)[l.id])
  {
    assert GoodActor(c, s.walrus, s.actors[l.id]);
  }

  lemma ScanStoreIsGood(c: World, s: State, l: Label)
    requires Inv(c, s) && Enabled(c, s, l) && l.ScanStore?
    ensures GoodActor(c, l.w, NextActors(c, s, l)[l.id])
  {
    assert GoodActor(c, s.walrus, s.actors[l.id]);
  }

  lemma ScanPopIsGood(c: World, s: State, l: Label)
    requires Inv(c, s) && Enabled(c, s, l) && (l.ScanUpdate? || l.ScanSkip?)
    ensures GoodActor(c, s.walrus, NextActors(c, s, l)[l.id])
  {
    assert GoodActor(c, s.walrus, s.actors[l.id]);
    var todo := s.actors[l.id].todo;
    assert forall i, j :: 0 <= i < j < |todo[1..]| ==> todo[1..][i] == todo[i + 1] && todo[1..][j] == todo[j + 1];
  }

  lemma NewWorkerIsGood(c: World, s: State, l: Label, id: nat)
    requires Inv(c, s) && Enabled(c, s, l) && id in NextActors(c, s, l)
    requires id !in s.actors || NextActors(c, s, l)[id] != s.actors[id]
    requires !l.StartDirect? && !l.Upload? && !l.Select? && !l.Lease?
    ensures GoodActor(c, NextWalrus(s, l), NextActors(c, s, l)[id])
  {
    if l.ScanStart? {
      ScanListIsDistinct(c, s);
      ScanStartIsGood(c, s, l, ScanList(c, s));
    } else if l.ScanRead? {
      ScanReadIsGood(c, s, l);
    } else if l.ScanStore? {
      ScanStoreIsGood(c, s, l);
    } else if !l.StartWorker? {
      ScanPopIsGood(c, s, l);
    }
  }

  lemma NewActorIsGood(c: World, s: State, l: Label, id: nat)
    requires c.cfg.Valid() && Inv(c, s) && Enabled(c, s, l) && id in NextActors(c, s, l)
    ensures GoodActor(c, NextWalrus(s, l), NextActors(c, s, l)[id])
  {
    if id in s.actors && NextActors(c, s, l)[id] == s.actors[id] {
      GrowthKeepsInv(c, s, NextWalrus(s, l));
      assert GoodActor(c, NextWalrus(s, l), s.(walrus := NextWalrus(s, l)).actors[id]);
    } else if l.StartDirect? {
      DirectIsGood(c, s, l);
    } else if l.Upload? {
      UploadIsGood(c, s, l);
    } else if l.Select? {
      SelectionIsGood(c, s, l.keys);
    } else if l.Lease? {
      LeaseIsGood(c, s, l.id, l.entries);
    } else {
      NewWorkerIsGood(c, s, l, id);
    }
  }

  /** Every index row decodes to its key's block, staged rows and held packs are
      intact and within limits: kept by every step of every node, crashes included. */
  lemma StepKeepsInv(c: World, s: State, l: Label)
    requires c.cfg.Valid() && Inv(c, s) && Enabled(c, s, l)
    ensures Inv(c, Next(c, s, l))
  {
    DbStaysGood(c, s, l);
    GrowthKeepsInv(c, s.(db := NextDb(c, s, l)), NextWalrus(s, l));
    forall id | id in NextActors(c, s, l) ensures GoodActor(c, NextWalrus(s, l), NextActors(c, s, l)[id]) {
      NewActorIsGood(c, s, l, id);
    }
  }

  lemma {:induction false} RunKeepsInv(c: World, r: Run, i: nat)
    requires c.cfg.Valid() && IsRun(c, r) && i < |r.states|
    ensures Inv(c, r.states[i])
  {
    if i > 0 {
      RunKeepsInv(c, r, i - 1);
      assert StepAt(c, r, i - 1);
      StepKeepsInv(c, r.states[i - 1], r.labels[i - 1]);
    }
  }

  /** The bytes that these actors hold in packs. */
  function HeldBytes(s: State, ids: seq<nat>): nat {
    if ids == [] then 0
    else
      var n := |ids| - 1;
      HeldBytes(s, ids[..n]) + PackBytes(s, ids[n])
  }

  function PackBytes(s: State, id: nat): nat {
    if id in s.actors && Holds(s.actors[id]) then Total(s.actors[id].entries) else 0
  }

  lemma PackBytesBound(c: World, s: State, id: nat)
    requires Inv(c, s) && c.cfg.target >= 0
    ensures PackBytes(s, id) <= c.cfg.target
  {
    if id in s.actors { assert GoodActor(c, s.walrus, s.actors[id]); }
  }

  /** A node starts a claim only while it has packs to spare, so it never has more. */
  ghost predicate NodesWithinWorkers(c: World, s: State) {
    forall node :: |Busy(c, s, node)| <= c.cfg.workers
  }

  lemma StepKeepsBusy(c: World, s: State, l: Label, node: nat)
    requires Enabled(c, s, l) && |Busy(c, s, node)| <= c.cfg.workers
    ensures |Busy(c, Next(c, s, l), node)| <= c.cfg.workers
  {
    var busy, busy' := Busy(c, s, node), Busy(c, Next(c, s, l), node);
    if l.Select? && c.node(l.id) == node {
      SubsetCount(busy', busy + {l.id});
    } else {
      SubsetCount(busy', busy);
    }
  }

  lemma {:induction false} RunKeepsNodesWithinWorkers(c: World, r: Run, i: nat)
    requires c.cfg.Valid() && IsRun(c, r) && i < |r.states|
    ensures NodesWithinWorkers(c, r.states[i])
  {
    if i == 0 {
      forall node ensures |Busy(c, r.states[0], node)| <= c.cfg.workers { assert Busy(c, r.states[0], node) == {}; }
    } else {
      RunKeepsNodesWithinWorkers(c, r, i - 1);
      assert StepAt(c, r, i - 1);
      forall node ensures |Busy(c, r.states[i], node)| <= c.cfg.workers {
        StepKeepsBusy(c, r.states[i - 1], r.labels[i - 1], node);
      }
    }
  }

  /** The actors among these that hold a pack. */
  function Holders(s: State, ids: seq<nat>): set<nat> {
    set id | id in ids && id in s.actors && Holds(s.actors[id])
  }

  lemma {:induction false} HeldBytesBound(c: World, s: State, ids: seq<nat>)
    requires Inv(c, s) && c.cfg.target >= 0 && Distinct(ids)
    ensures HeldBytes(s, ids) <= |Holders(s, ids)| * c.cfg.target
  {
    if ids != [] {
      var n := |ids| - 1;
      HeldBytesBound(c, s, ids[..n]);
      OneMoreHolder(s, ids);
      if ids[n] in s.actors && Holds(s.actors[ids[n]]) {
        PackBytesBound(c, s, ids[n]);
        Encoding.OneMoreShare(HeldBytes(s, ids[..n]), |Holders(s, ids[..n])|, PackBytes(s, ids[n]), c.cfg.target);
      }
    }
  }

  lemma OneMoreHolder(s: State, ids: seq<nat>)
    requires ids != [] && Distinct(ids)
    ensures var front, last := ids[..|ids| - 1], ids[|ids| - 1];
      |Holders(s, ids)| == |Holders(s, front)| + if last in s.actors && Holds(s.actors[last]) then 1 else 0
  {
    var n := |ids| - 1;
    var front := ids[..n];
    assert ids == front + [ids[n]];
    assert ids[n] !in front;
    assert Holders(s, ids) == Holders(s, front) + if ids[n] in s.actors && Holds(s.actors[ids[n]]) then {ids[n]}
      else {};
  }

  /** Whatever other nodes write in the meantime, the actors of one node together never
      hold more than Workers times the target in packs. */
  lemma NodeStaysWithinBudget(c: World, r: Run, i: nat, node: nat, ids: seq<nat>)
    requires c.cfg.Valid() && IsRun(c, r) && i < |r.states|
    requires Distinct(ids) && forall id :: id in ids ==> c.node(id) == node
    ensures |Busy(c, r.states[i], node)| <= c.cfg.workers
    ensures HeldBytes(r.states[i], ids) <= c.cfg.workers * c.cfg.target
  {
    var s := r.states[i];
    RunKeepsInv(c, r, i);
    RunKeepsNodesWithinWorkers(c, r, i);
    assert |Busy(c, s, node)| <= c.cfg.workers;
    HeldBytesBound(c, s, ids);
    SubsetCount(Holders(s, ids), Busy(c, s, node));
    Encoding.MulAtLeast(c.cfg.workers, |Holders(s, ids)|, c.cfg.target, c.cfg.target);
  }

  // ---- Leases and times are never far ahead of the clock ----

  predicate InTime(row: StageRow, now: Time) {
    row.createdAt <= now && (row.leasedUntil.Some? ==> row.leasedUntil.value <= now + STAGE_LEASE)
  }

  predicate StagedInTime(s: State) {
    forall k :: k in s.db.staging ==> InTime(s.db.staging[k], s.now)
  }

  lemma StepKeepsStagedInTime(c: World, s: State, l: Label)
    requires Enabled(c, s, l) && StagedInTime(s)
    ensures StagedInTime(Next(c, s, l))
  {
    if l.Put? { StageAllShape(s.db.staging, l.entries, s.now); }
    forall k | k in NextDb(c, s, l).staging ensures InTime(NextDb(c, s, l).staging[k], Next(c, s, l).now) {
      if !l.Put? { assert InTime(s.db.staging[k], s.now); }
    }
  }

  /** Whoever crashed and whatever is in flight: no staged row was made in the future, and
      none is leased for longer than one lease from now. */
  lemma {:induction false} RunKeepsStagedInTime(c: World, r: Run, i: nat)
    requires IsRun(c, r) && i < |r.states|
    ensures StagedInTime(r.states[i])
  {
    if i > 0 {
      RunKeepsStagedInTime(c, r, i - 1);
      assert StepAt(c, r, i - 1);
      StepKeepsStagedInTime(c, r.states[i - 1], r.labels[i - 1]);
    }
  }
}
