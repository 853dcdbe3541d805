/** The pack flusher of one node, run to the end against an arbitrary Walrus and database
    and whatever other nodes do to the tables between its calls. */
module Flusher {
  import opened Types
  import opened Tables
  import opened Index
  import opened Queries
  import opened Packing
  import opened Protocol
  import Encoding

  /** The outside world, as it meets the flusher's calls in the order it makes them: what
      the publisher does, whether a query goes through, how a write turns out, the time,
      and what others have done to the tables just before the call. */
  datatype Outside = Outside(pub: nat -> Publisher, up: nat -> bool, tx: nat -> Tx, clock: nat -> Time,
                             others: (nat, Db) -> Db)

  predicate Ripe(cfg: Config, st: Stats, now: Time) {
    || st.bytes >= cfg.target
    || (st.oldest.Some? && now - st.oldest.value >= cfg.packMaxAge)
    || (st.newest.Some? && now - st.newest.value >= cfg.packIdleFlush)
  }

  predicate Idle(cfg: Config, staging: map<Key, StageRow>, now: Time) {
    forall k :: k in ClaimableKeys(staging, now) ==> now - staging[k].createdAt >= cfg.packIdleFlush
  }

  /** Rows hold their key's block with its true size, and none exceeds the limit. Put and
      Commit divert values of the target size or more, so that below the target is what
      they leave in the table. */
  ghost predicate Genuine(staging: map<Key, StageRow>, content: Key -> Bytes, limit: int) {
    forall k :: k in staging ==> staging[k].value == content(k) && staging[k].size == |content(k)| <= limit
  }

  /** What one pack can weigh when no row exceeds the limit: a lone row may be oversized. */
  function Cap(cfg: Config, limit: int): int { if limit > cfg.target then limit else cfg.target }

  /** The publisher accepts every upload, naming each member of a quilt once. */
  ghost predicate Accepts(cfg: Config, pub: Publisher) {
    && (forall b :: pub.store(b).Some?)
    && (forall pack :: pub.storeQuilt(Parts(pack)).Some?
         && |pub.storeQuilt(Parts(pack)).value.patches| == |pack|
         && AllKnown(|pack|, pub.storeQuilt(Parts(pack)).value.patches)
         && Distinct(Identifiers(pub.storeQuilt(Parts(pack)).value.patches)))
  }

  /** From call i on, nobody else touches the tables. */
  ghost predicate AloneFrom(out: Outside, i: nat) {
    forall j: nat, db: Db :: i <= j ==> out.others(j, db) == db
  }

  /** Whatever others do to the tables leaves the staged rows genuine. */
  ghost predicate Tame(out: Outside, content: Key -> Bytes, limit: int) {
    forall j: nat, db: Db :: Genuine(db.staging, content, limit) ==> Genuine(out.others(j, db).staging, content, limit)
  }

  /** All calls succeed, nobody else writes and the clock stands still. */
  ghost predicate Calm(cfg: Config, out: Outside, now: Time) {
    AloneFrom(out, 0) && forall i :: CalmAt(cfg, out, now, i)
  }

  ghost predicate CalmAt(cfg: Config, out: Outside, now: Time, i: nat) {
    Accepts(cfg, out.pub(i)) && out.up(i) && out.tx(i).Fine? && out.clock(i) == now
  }

  /** What is known of the outside from some call on. */
  datatype Regime = Regime(alone: bool, calm: bool, tame: bool, now: Time, content: Key -> Bytes, limit: int)

  ghost predicate Governs(cfg: Config, out: Outside, t: nat, g: Regime) {
    && (g.alone ==> AloneFrom(out, t))
    && (g.calm ==> g.alone && Calm(cfg, out, g.now))
    && (g.tame ==> Tame(out, g.content, g.limit))
  }

  predicate IsPack(cfg: Config, entries: seq<StageEntry>) {
    && entries != [] && cfg.Admits(|entries|)
    && Distinct(EntryList(entries))
  }

  /** Other nodes' steps since this node's last call. */
  method Meanwhile(idx: PostgresIndex, out: Outside, i: nat)
    modifies idx
    ensures idx.Db() == out.others(i, old(idx.Db()))
  {
    var db := out.others(i, idx.Db());
    idx.index, idx.staging := db.index, db.staging;
  }

  // ---- Claiming a pack ----

  lemma CandidateWeight(cfg: Config, staging: map<Key, StageRow>, now: Time, keys: seq<Key>, limit: int, w: World)
    requires cfg.Valid() && Genuine(staging, w.content, limit) && w.cfg == cfg.(target := limit + 1)
    requires IsClaim(staging, now, cfg.MaxCount(), cfg.target, keys)
    ensures ContentBytes(w, keys) <= Cap(cfg, limit)
  {
    ClaimIsPrefix(staging, now, cfg.MaxCount(), cfg.target, keys);
    KeyBytesIsContentBytes(w, staging, keys);
    if |keys| == 1 { LoneWeight(staging, w.content, keys, limit); }
  }

  lemma LoneWeight(staging: map<Key, StageRow>, content: Key -> Bytes, keys: seq<Key>, limit: int)
    requires |keys| == 1 && keys[0] in staging && Genuine(staging, content, limit)
    ensures (forall k :: k in keys ==> k in staging) && KeyBytes(staging, keys) <= limit
  {
    assert keys[..0] == [] && KeyBytes(staging, []) == 0;
  }

  lemma ReturnedRows(cfg: Config, selected: map<Key, StageRow>, leased: map<Key, StageRow>, t0: Time, t1: Time,
                     keys: seq<Key>, entries: seq<StageEntry>, w: World)
    requires cfg.Valid() && IsClaim(selected, t0, cfg.MaxCount(), cfg.target, keys)
    requires Returns(leased, LeasedKeys(leased, keys, t1), entries)
    requires forall k :: k in leased ==> leased[k].value == w.content(k)
    ensures |entries| <= |keys| <= cfg.MaxCount() && Total(entries) <= ContentBytes(w, keys)
  {
    ClaimIsPrefix(selected, t0, cfg.MaxCount(), cfg.target, keys);
    ScanKeysShape(selected, t0, ScanKeys(selected, t0));
    forall e | e in entries ensures e.value == w.content(e.key) && e.key in keys {
      assert e.key in EntryKeys(entries);
    }
    SubsetKeepsLimits(w, entries, keys);
  }

  lemma ClaimWeight(cfg: Config, selected: map<Key, StageRow>, leased: map<Key, StageRow>, t0: Time, t1: Time,
                    keys: seq<Key>, entries: seq<StageEntry>, content: Key -> Bytes, limit: int)
    requires cfg.Valid() && Genuine(selected, content, limit) && Genuine(leased, content, limit)
    requires IsClaim(selected, t0, cfg.MaxCount(), cfg.target, keys)
    requires Returns(leased, LeasedKeys(leased, keys, t1), entries)
    ensures Total(entries) <= Cap(cfg, limit)
  {
    var w := World(cfg.(target := limit + 1), content, (id: nat) => id);
    CandidateWeight(cfg, selected, t0, keys, limit, w);
    ReturnedRows(cfg, selected, leased, t0, t1, keys, entries, w);
  }

  /** Candidates chosen from one state of the table and leased in a later one make a pack
      of rows claimable then. It is not empty when something is claimable and nothing
      happens in between, and never outweighs the target or a lone larger row. */
  lemma ClaimFits(cfg: Config, selected: map<Key, StageRow>, leased: map<Key, StageRow>, t0: Time, t1: Time,
                  keys: seq<Key>, entries: seq<StageEntry>, content: Key -> Bytes, limit: int)
    requires cfg.Valid()
    requires IsClaim(selected, t0, cfg.MaxCount(), cfg.target, keys)
    requires Returns(leased, LeasedKeys(leased, keys, t1), entries)
    ensures entries != [] ==> IsPack(cfg, entries)
    ensures EntryKeys(entries) <= ClaimableKeys(leased, t1)
    ensures selected == leased && t0 == t1 && ClaimableKeys(leased, t0) != {} ==> entries != []
    ensures Genuine(selected, content, limit) && Genuine(leased, content, limit) ==> Total(entries) <= Cap(cfg, limit)
  {
    var values := (k: Key) => if k in leased then leased[k].value else [];
    ReturnedRows(cfg, selected, leased, t0, t1, keys, entries, World(cfg, values, (id: nat) => id));
    if Genuine(selected, content, limit) && Genuine(leased, content, limit) {
      ClaimWeight(cfg, selected, leased, t0, t1, keys, entries, content, limit);
    }
    if selected == leased && t0 == t1 && ClaimableKeys(leased, t0) != {} {
      ClaimIsNotEmpty(cfg, leased, t0, keys, entries);
    }
  }

  lemma ClaimIsNotEmpty(cfg: Config, staging: map<Key, StageRow>, now: Time, keys: seq<Key>, entries: seq<StageEntry>)
    requires cfg.Valid() && ClaimableKeys(staging, now) != {}
    requires IsClaim(staging, now, cfg.MaxCount(), cfg.target, keys)
    requires Returns(staging, LeasedKeys(staging, keys, now), entries)
    ensures entries != []
  {
    ClaimIsPrefix(staging, now, cfg.MaxCount(), cfg.target, keys);
    ScanKeysShape(staging, now, ScanKeys(staging, now));
    var k :| k in ClaimableKeys(staging, now);
    assert k in ScanKeys(staging, now);
    assert keys[0] in keys && ScanKeys(staging, now)[0] in ScanKeys(staging, now);
    assert keys[0] in LeasedKeys(staging, keys, now);
  }

  // ---- Uploading and promoting one pack ----

  lemma UploadKeys(cfg: Config, pack: seq<StageEntry>, reply: Reply, now: Time, recs: seq<KeyRecord>)
    requires pack != [] && UploadRecords(cfg, pack, reply, now) == Ok(recs)
    ensures recs != [] && KeysOf(recs) <= EntryKeys(pack)
  {
    forall kr | kr in recs ensures kr.key in EntryKeys(pack) {
      var j :| 0 <= j < |recs| && recs[j] == kr;
      match reply
      case Stored(_) => assert pack[j] in pack;
      case QuiltStored(q) =>
        PositionFinds(|pack|, q.patches[j].identifier);
        assert pack[Position(|pack|, q.patches[j].identifier).value] in pack;
    }
  }

  lemma AcceptedUpload(cfg: Config, pack: seq<StageEntry>, pub: Publisher, now: Time)
    requires Accepts(cfg, pub) && IsPack(cfg, pack)
    ensures UploadRecords(cfg, pack, Ask(cfg, pack, pub), now).Ok?
    ensures KeysOf(UploadRecords(cfg, pack, Ask(cfg, pack, pub), now).value) == EntryKeys(pack)
    ensures |UploadRecords(cfg, pack, Ask(cfg, pack, pub), now).value| == |pack|
  {
    var recs := UploadRecords(cfg, pack, Ask(cfg, pack, pub), now).value;
    match Ask(cfg, pack, pub)
    case Stored(res) =>
      forall k | k in EntryKeys(pack) ensures k in KeysOf(recs) {
        var i :| 0 <= i < |pack| && pack[i].key == k;
        assert recs[i] in recs;
      }
      UploadKeys(cfg, pack, Ask(cfg, pack, pub), now, recs);
    case QuiltStored(q) => QuiltCoversPack(cfg, pack, q, now);
    case Failed =>
  }

  /** As many records as keys: none is repeated, so the multi-row upsert goes through. */
  lemma FullCoverPromotes(db: Db, recs: seq<KeyRecord>, pack: seq<StageEntry>)
    requires KeysOf(recs) == EntryKeys(pack) && |recs| == |pack| && Distinct(EntryList(pack))
    requires EntryKeys(pack) <= db.staging.Keys
    ensures CanPromote(db, recs)
  {
    ElementsOfLists(recs, pack);
    ElementCount(EntryList(pack));
    ElementCount(KeyList(recs));
    AllLive(db.staging, recs);
    DistinctChunks(KeyList(recs), PUT_MANY_CHUNK);
  }

  lemma ElementsOfLists(recs: seq<KeyRecord>, pack: seq<StageEntry>)
    ensures Elements(KeyList(recs)) == KeysOf(recs) && Elements(EntryList(pack)) == EntryKeys(pack)
  {
    forall kr | kr in recs ensures kr.key in KeyList(recs) {
      var i :| 0 <= i < |recs| && recs[i] == kr;
      assert KeyList(recs)[i] == kr.key;
    }
    forall e | e in pack ensures e.key in EntryList(pack) {
      var i :| 0 <= i < |pack| && pack[i] == e;
      assert EntryList(pack)[i] == e.key;
    }
    forall k | k in KeyList(recs) ensures k in KeysOf(recs) {
      var i :| 0 <= i < |recs| && recs[i].key == k;
      assert recs[i] in recs;
    }
    forall k | k in EntryList(pack) ensures k in EntryKeys(pack) {
      var i :| 0 <= i < |pack| && pack[i].key == k;
      assert pack[i] in pack;
    }
  }

  lemma {:induction false} AllLive(staging: map<Key, StageRow>, recs: seq<KeyRecord>)
    requires KeysOf(recs) <= staging.Keys
    ensures Live(staging, recs) == recs
  {
    if recs != [] {
      var n := |recs| - 1;
      assert recs == recs[..n] + [recs[n]] && recs[n] in recs && recs[n].key in KeysOf(recs);
      forall k | k in KeysOf(recs[..n]) ensures k in KeysOf(recs) {
        var kr :| kr in recs[..n] && kr.key == k;
        assert kr in recs;
      }
      AllLive(staging, recs[..n]);
    }
  }

  /** Rows may go and leases may change; nothing else does. */
  predicate SameRows(after: map<Key, StageRow>, before: map<Key, StageRow>) {
    && after.Keys <= before.Keys
    && forall k :: k in after ==> after[k].(leasedUntil := None) == before[k].(leasedUntil := None)
  }

  lemma SameRowsTransitive(a: map<Key, StageRow>, b: map<Key, StageRow>, c: map<Key, StageRow>)
    requires SameRows(a, b) && SameRows(b, c)
    ensures SameRows(a, c)
  {
    forall k | k in a ensures a[k].(leasedUntil := None) == c[k].(leasedUntil := None) {
      assert b[k].(leasedUntil := None) == c[k].(leasedUntil := None);
    }
  }

  lemma LeasingKeepsRows(staging: map<Key, StageRow>, keys: set<Key>, lease: Option<Time>)
    ensures SameRows(SetLease(staging, keys, lease), staging)
  {
  }

  lemma SetLeaseStaysGenuine(staging: map<Key, StageRow>, keys: set<Key>, lease: Option<Time>, content: Key -> Bytes,
                             limit: int)
    requires Genuine(staging, content, limit)
    ensures Genuine(SetLease(staging, keys, lease), content, limit)
  {
  }

  // ---- The outcome of one pack ----

  /** The pack is promoted, unless the upload or the promotion fails. */
  function Promoted(db: Db, recs: Result<seq<KeyRecord>>, tx: Tx): Db {
    if recs.Ok? && !tx.Refused? && CanPromote(db, recs.value) then Promote(db, recs.value) else db
  }

  predicate ReportsSuccess(db: Db, recs: Result<seq<KeyRecord>>, tx: Tx) {
    recs.Ok? && tx.Fine? && CanPromote(db, recs.value)
  }

  /** Unless success is reported, the pack's keys are released, whoever leases them now. */
  function Released(db: Db, entries: seq<StageEntry>, ok: bool, up: bool): Db {
    if !ok && up then db.(staging := SetLease(db.staging, EntryKeys(entries), None)) else db
  }

  /** Everything that happens from just before the promotion to just after the release,
      the others' steps included. */
  function Flushed(entries: seq<StageEntry>, recs: Result<seq<KeyRecord>>, out: Outside, t: nat, db: Db): (bool, Db) {
    var found := out.others(t, db);
    var ok := ReportsSuccess(found, recs, out.tx(t));
    var moved := Promoted(found, recs, out.tx(t));
    (ok, if ok then moved else Released(out.others(t + 1, moved), entries, ok, out.up(t + 1)))
  }

  function UploadAt(cfg: Config, entries: seq<StageEntry>, out: Outside, t: nat): Result<seq<KeyRecord>> {
    UploadRecords(cfg, entries, Ask(cfg, entries, out.pub(t)), out.clock(t))
  }

  lemma PromotedKeepsBlocks(cfg: Config, db: Db, entries: seq<StageEntry>, out: Outside, t: nat, moved: Db)
    requires IsPack(cfg, entries) && moved == Promoted(db, UploadAt(cfg, entries, out, t), out.tx(t))
    ensures Present(moved) == Present(db) && SameRows(moved.staging, db.staging)
    ensures ReportsSuccess(db, UploadAt(cfg, entries, out, t), out.tx(t)) && EntryKeys(entries) <= db.staging.Keys ==>
      moved.staging.Keys < db.staging.Keys
  {
    if moved != db || ReportsSuccess(db, UploadAt(cfg, entries, out, t), out.tx(t)) {
      var recs := UploadAt(cfg, entries, out, t).value;
      UploadKeys(cfg, entries, Ask(cfg, entries, out.pub(t)), out.clock(t), recs);
      PromoteKeepsKeys(db, recs);
      assert recs[0] in recs && recs[0].key in KeysOf(recs);
    }
  }

  /** With nobody else at the tables: whatever the upload returned and however the
      promotion turned out, no key and no block goes away; a pack reported as promoted
      shrinks the staging table, and what is left of any other is claimable again once
      it has been released. */
  lemma FlushedKeepsBlocks(cfg: Config, db: Db, entries: seq<StageEntry>, out: Outside, t: nat, ok: bool, after: Db)
    requires IsPack(cfg, entries) && AloneFrom(out, t)
    requires (ok, after) == Flushed(entries, UploadAt(cfg, entries, out, t), out, t, db)
    ensures Present(after) == Present(db) && SameRows(after.staging, db.staging)
    ensures ok && EntryKeys(entries) <= db.staging.Keys ==> after.staging.Keys < db.staging.Keys
    ensures !ok && out.up(t + 1) ==>
      forall now :: EntryKeys(entries) * after.staging.Keys <= ClaimableKeys(after.staging, now)
  {
    var moved := Promoted(db, UploadAt(cfg, entries, out, t), out.tx(t));
    PromotedKeepsBlocks(cfg, db, entries, out, t, moved);
    LeasingKeepsRows(moved.staging, EntryKeys(entries), None);
    SameRowsTransitive(after.staging, moved.staging, db.staging);
  }

  /** A pack that is still staged and that the publisher accepts moves as a whole. */
  lemma AcceptedPackMoves(cfg: Config, db: Db, entries: seq<StageEntry>, out: Outside, t: nat, ok: bool, after: Db)
    requires IsPack(cfg, entries) && Accepts(cfg, out.pub(t)) && EntryKeys(entries) <= db.staging.Keys
    requires AloneFrom(out, t) && out.tx(t).Fine?
    requires (ok, after) == Flushed(entries, UploadAt(cfg, entries, out, t), out, t, db)
    ensures ok && after.staging == db.staging - EntryKeys(entries)
  {
    AcceptedUpload(cfg, entries, out.pub(t), out.clock(t));
    FullCoverPromotes(db, UploadAt(cfg, entries, out, t).value, entries);
  }

  lemma FlushedStaysGenuine(entries: seq<StageEntry>, recs: Result<seq<KeyRecord>>, out: Outside, t: nat, db: Db,
                            content: Key -> Bytes, limit: int)
    requires Tame(out, content, limit) && Genuine(db.staging, content, limit)
    ensures Genuine(Flushed(entries, recs, out, t, db).1.staging, content, limit)
  {
    var found := out.others(t, db);
    var moved := Promoted(found, recs, out.tx(t));
    assert Genuine(found.staging, content, limit) && Genuine(moved.staging, content, limit);
    SetLeaseStaysGenuine(out.others(t + 1, moved).staging, EntryKeys(entries), None, content, limit);
  }

  /** Upload, promote, and release if that failed; a promotion may commit and still be
      reported as failed, and then the pack is released all the same. */
  method FlushOnePack(idx: PostgresIndex, cfg: Config, entries: seq<StageEntry>, out: Outside, t: nat)
    returns (ok: bool)
    requires IsPack(cfg, entries)
    modifies idx
    ensures (ok, idx.Db()) == Flushed(entries, UploadAt(cfg, entries, out, t), out, t, old(idx.Db()))
  {
    var recs := UploadPack(cfg, entries, out.pub(t), out.clock(t));
    Meanwhile(idx, out, t);
    ok := false;
    if recs.Ok? && !out.tx(t).Refused? {
      UploadKeys(cfg, entries, Ask(cfg, entries, out.pub(t)), out.clock(t), recs.value);
      var done := idx.PromoteStaged(recs.value);
      ok := done && out.tx(t).Fine?;
    }
    if !ok {
      Meanwhile(idx, out, t + 1);
      if out.up(t + 1) { idx.StageRelease(EntryKeys(entries)); }
    }
  }

  // ---- One round: claim up to Workers packs, then upload them ----

  function AllKeys(packs: seq<seq<StageEntry>>): set<Key> {
    if packs == [] then {} else AllKeys(packs[..|packs| - 1]) + EntryKeys(packs[|packs| - 1])
  }

  function InFlight(packs: seq<seq<StageEntry>>): nat {
    if packs == [] then 0 else InFlight(packs[..|packs| - 1]) + Total(packs[|packs| - 1])
  }

  predicate PacksApart(packs: seq<seq<StageEntry>>) {
    forall i, j :: 0 <= i < j < |packs| ==> EntryKeys(packs[i]) !! EntryKeys(packs[j])
  }

  predicate ArePacks(cfg: Config, packs: seq<seq<StageEntry>>) {
    forall i :: 0 <= i < |packs| ==> IsPack(cfg, packs[i])
  }

  lemma {:induction false} AllKeysHas(packs: seq<seq<StageEntry>>)
    ensures forall i :: 0 <= i < |packs| ==> EntryKeys(packs[i]) <= AllKeys(packs)
  {
    if packs != [] { AllKeysHas(packs[..|packs| - 1]); }
  }

  predicate PacksWithin(packs: seq<seq<StageEntry>>, cap: int) {
    forall i :: 0 <= i < |packs| ==> Total(packs[i]) <= cap
  }

  lemma {:induction false} InFlightBound(packs: seq<seq<StageEntry>>, cap: int)
    requires PacksWithin(packs, cap)
    ensures InFlight(packs) <= |packs| * cap
  {
    if packs != [] {
      var n := |packs| - 1;
      InFlightBound(packs[..n], cap);
      Encoding.OneMoreShare(InFlight(packs[..n]), n, Total(packs[n]), cap);
    }
  }

  lemma RoundWeight(cfg: Config, packs: seq<seq<StageEntry>>, cap: int)
    requires PacksWithin(packs, cap) && |packs| <= cfg.workers && cap >= 0
    ensures InFlight(packs) <= cfg.workers * cap
  {
    InFlightBound(packs, cap);
    Encoding.MulAtLeast(cfg.workers, |packs|, cap, cap);
  }

  lemma LeaseMore(staging: map<Key, StageRow>, held: set<Key>, more: set<Key>, now: Time)
    ensures SetLease(SetLease(staging, held, Some(now + STAGE_LEASE)), more, Some(now + STAGE_LEASE))
         == SetLease(staging, held + more, Some(now + STAGE_LEASE))
    ensures ClaimableKeys(SetLease(staging, held, Some(now + STAGE_LEASE)), now) == ClaimableKeys(staging, now) - held
  {
  }

  lemma AddPack(cfg: Config, packs: seq<seq<StageEntry>>, entries: seq<StageEntry>)
    requires ArePacks(cfg, packs) && IsPack(cfg, entries)
    ensures ArePacks(cfg, packs + [entries]) && AllKeys(packs + [entries]) == AllKeys(packs) + EntryKeys(entries)
    ensures PacksApart(packs) && AllKeys(packs) !! EntryKeys(entries) ==> PacksApart(packs + [entries])
  {
    assert (packs + [entries])[..|packs|] == packs;
    AllKeysHas(packs);
  }

  /** What is known after StageClaim, or after the whole turn, when nobody else is about:
      the entries have been leased, or the lease was taken and never reported. */
  ghost predicate ClaimedAlone(before: map<Key, StageRow>, after: map<Key, StageRow>, entries: seq<StageEntry>,
                               at: Time) {
    && SameRows(after, before) && after.Keys == before.Keys
    && (entries != [] ==>
         && EntryKeys(entries) <= ClaimableKeys(before, at)
         && after == SetLease(before, EntryKeys(entries), Some(at + 15 * 60)))
  }

  /** First statement of StageClaim. */
  method Candidates(idx: PostgresIndex, cfg: Config, out: Outside, t: nat, ghost g: Regime)
    returns (ok: bool, keys: seq<Key>)
    requires Governs(cfg, out, t, g) && (g.tame ==> Genuine(idx.staging, g.content, g.limit))
    modifies idx
    ensures g.tame ==> Genuine(idx.staging, g.content, g.limit)
    ensures g.alone ==> idx.Db() == old(idx.Db())
    ensures ok ==> IsClaim(idx.staging, out.clock(t), cfg.MaxCount(), cfg.target, keys)
    ensures g.calm ==> ok && out.clock(t) == g.now
  {
    Meanwhile(idx, out, t);
    if g.calm { assert CalmAt(cfg, out, g.now, t); }
    ok, keys := out.up(t), [];
    if ok {
      var maxCount := QUILT_MAX_PATCHES;
      if cfg.disableQuilt { maxCount := CONCAT_MAX_BLOCKS; }
      keys := idx.SelectCandidates(out.clock(t), maxCount, cfg.target);
    }
  }

  /** Second statement of StageClaim, for candidates chosen from an earlier state. */
  method LeasePack(idx: PostgresIndex, cfg: Config, keys: seq<Key>, at: Time, tx: Tx,
                   ghost selected: map<Key, StageRow>, ghost t0: Time, ghost g: Regime)
    returns (entries: seq<StageEntry>)
    requires cfg.Valid() && IsClaim(selected, t0, cfg.MaxCount(), cfg.target, keys)
    modifies idx`staging
    ensures Genuine(old(idx.staging), g.content, g.limit) ==> Genuine(idx.staging, g.content, g.limit)
    ensures Genuine(selected, g.content, g.limit) && Genuine(old(idx.staging), g.content, g.limit) ==>
      Total(entries) <= Cap(cfg, g.limit)
    ensures entries != [] ==> IsPack(cfg, entries)
    ensures ClaimedAlone(old(idx.staging), idx.staging, entries, at)
    ensures tx.Fine? && entries == [] ==> idx.staging == old(idx.staging)
    ensures tx.Fine? && entries == [] && selected == old(idx.staging) && t0 == at ==> ClaimableKeys(selected, at) == {}
  {
    NothingYet(idx.staging);
    if tx.Refused? { return []; }
    ghost var before := idx.staging;
    entries := idx.LeaseCandidates(keys, at, STAGE_LEASE);
    LeaseOutcome(cfg, selected, before, keys, t0, at, entries, idx.staging, g);
    if tx.Lost? { return []; }
  }

  /** Both statements of StageClaim; others may act before each of them. */
  method StageClaim(idx: PostgresIndex, cfg: Config, out: Outside, t: nat, ghost g: Regime)
    returns (entries: seq<StageEntry>)
    requires cfg.Valid() && Governs(cfg, out, t, g)
    requires g.tame ==> Genuine(idx.staging, g.content, g.limit)
    modifies idx
    ensures g.tame ==> Genuine(idx.staging, g.content, g.limit) && Total(entries) <= Cap(cfg, g.limit)
    ensures entries != [] ==> IsPack(cfg, entries)
    ensures g.alone ==> idx.index == old(idx.index)
    ensures g.alone ==> ClaimedAlone(old(idx.staging), idx.staging, entries, out.clock(t + 1))
    ensures g.calm && entries == [] ==> ClaimableKeys(old(idx.staging), g.now) == {} && idx.staging == old(idx.staging)
  {
    NothingYet(idx.staging);
    var ok, keys := Candidates(idx, cfg, out, t, g);
    if !ok { return []; }
    ghost var selected := idx.staging;
    Meanwhile(idx, out, t + 1);
    if g.calm { assert CalmAt(cfg, out, g.now, t + 1); }
    entries := LeasePack(idx, cfg, keys, out.clock(t + 1), out.tx(t + 1), selected, out.clock(t), g);
  }

  lemma NothingYet(staging: map<Key, StageRow>)
    ensures SameRows(staging, staging)
    ensures Total([]) == 0
  {
  }

  lemma LeaseOutcome(cfg: Config, selected: map<Key, StageRow>, before: map<Key, StageRow>, keys: seq<Key>, t0: Time,
                     t1: Time, entries: seq<StageEntry>, after: map<Key, StageRow>, g: Regime)
    requires cfg.Valid() && IsClaim(selected, t0, cfg.MaxCount(), cfg.target, keys)
    requires Returns(before, LeasedKeys(before, keys, t1), entries)
    requires after == SetLease(before, LeasedKeys(before, keys, t1), Some(t1 + STAGE_LEASE))
    ensures Genuine(before, g.content, g.limit) ==> Genuine(after, g.content, g.limit)
    ensures Genuine(selected, g.content, g.limit) && Genuine(before, g.content, g.limit) ==>
      Total(entries) <= Cap(cfg, g.limit)
    ensures entries != [] ==> IsPack(cfg, entries)
    ensures ClaimedAlone(before, after, entries, t1) && ClaimedAlone(before, after, [], t1)
    ensures entries == [] ==> after == before && (selected == before && t0 == t1 ==> ClaimableKeys(before, t0) == {})
  {
    ClaimFits(cfg, selected, before, t0, t1, keys, entries, g.content, g.limit);
    LeasingKeepsRows(before, LeasedKeys(before, keys, t1), Some(t1 + STAGE_LEASE));
    if entries == [] { NoKeysNoLease(before, entries, Some(t1 + STAGE_LEASE)); }
  }

  lemma CountsClaimable(staging: map<Key, StageRow>, now: Time)
    ensures StageStats(staging, now).count == 0 <==> ClaimableKeys(staging, now) == {}
  {
    StageStatsMeaning(staging, now);
  }

  lemma NoKeysNoLease(staging: map<Key, StageRow>, entries: seq<StageEntry>, lease: Option<Time>)
    requires entries == []
    ensures SetLease(staging, EntryKeys(entries), lease) == staging
  {
  }

  /** One turn of the claiming loop; no entries means that the loop stops here. */
  method ClaimOne(idx: PostgresIndex, cfg: Config, out: Outside, t: nat, ghost g: Regime)
    returns (entries: seq<StageEntry>)
    requires cfg.Valid() && Governs(cfg, out, t, g)
    requires g.tame ==> Genuine(idx.staging, g.content, g.limit)
    modifies idx
    ensures g.tame ==> Genuine(idx.staging, g.content, g.limit) && Total(entries) <= Cap(cfg, g.limit)
    ensures entries != [] ==> IsPack(cfg, entries)
    ensures g.alone ==> idx.index == old(idx.index)
    ensures g.alone ==> ClaimedAlone(old(idx.staging), idx.staging, entries, out.clock(t + 2))
    ensures g.calm && entries == [] ==> idx.staging == old(idx.staging) && NothingToClaim(cfg, old(idx.staging), g.now)
    ensures g.calm && NothingToClaim(cfg, old(idx.staging), g.now) ==> entries == []
  {
    Meanwhile(idx, out, t);
    NothingYet(idx.staging);
    if g.calm { assert CalmAt(cfg, out, g.now, t); }
    if !out.up(t) { return []; }
    var st := StageStats(idx.staging, out.clock(t));
    CountsClaimable(idx.staging, out.clock(t));
    if st.count == 0 { return []; }
    var aged := st.oldest.Some? && out.clock(t) - st.oldest.value >= cfg.packMaxAge;
    var idle := st.newest.Some? && out.clock(t) - st.newest.value >= cfg.packIdleFlush;
    if st.bytes < cfg.target && !aged && !idle { return []; }
    entries := StageClaim(idx, cfg, out, t + 1, g);
  }

  /** The packs claimed so far, on a calm outside: disjoint, and leased out of start. */
  ghost predicate Claiming(packs: seq<seq<StageEntry>>, start: map<Key, StageRow>, staging: map<Key, StageRow>,
                           now: Time) {
    && PacksApart(packs) && AllKeys(packs) <= ClaimableKeys(start, now)
    && staging == SetLease(start, AllKeys(packs), Some(now + STAGE_LEASE))
  }

  lemma ClaimingOneMore(cfg: Config, packs: seq<seq<StageEntry>>, entries: seq<StageEntry>, start: map<Key, StageRow>,
                        mid: map<Key, StageRow>, now: Time)
    requires ArePacks(cfg, packs) && IsPack(cfg, entries) && Claiming(packs, start, mid, now)
    requires EntryKeys(entries) <= ClaimableKeys(mid, now)
    ensures Claiming(packs + [entries], start, SetLease(mid, EntryKeys(entries), Some(now + STAGE_LEASE)), now)
  {
    LeaseMore(start, AllKeys(packs), EntryKeys(entries), now);
    AddPack(cfg, packs, entries);
  }

  /** Where the claiming loop stands. */
  ghost predicate ClaimState(cfg: Config, packs: seq<seq<StageEntry>>, start: map<Key, StageRow>,
                             staging: map<Key, StageRow>, g: Regime) {
    && ArePacks(cfg, packs) && |packs| <= cfg.workers
    && (g.tame ==> PacksWithin(packs, Cap(cfg, g.limit)) && Genuine(staging, g.content, g.limit))
    && (g.alone ==> AllKeys(packs) <= staging.Keys && SameRows(staging, start) && staging.Keys == start.Keys)
    && (g.calm ==> Claiming(packs, start, staging, g.now))
  }

  lemma ClaimStateStart(cfg: Config, start: map<Key, StageRow>, g: Regime)
    requires cfg.Valid() && (g.tame ==> Genuine(start, g.content, g.limit))
    ensures ClaimState(cfg, [], start, start, g)
  {
    assert SetLease(start, {}, Some(g.now + STAGE_LEASE)) == start;
  }

  lemma ClaimStateNext(cfg: Config, packs: seq<seq<StageEntry>>, start: map<Key, StageRow>, mid: map<Key, StageRow>,
                       after: map<Key, StageRow>, entries: seq<StageEntry>, at: Time, g: Regime)
    requires ClaimState(cfg, packs, start, mid, g) && |packs| < cfg.workers && IsPack(cfg, entries)
    requires (g.calm ==> g.alone && at == g.now)
    requires g.tame ==> Genuine(after, g.content, g.limit) && Total(entries) <= Cap(cfg, g.limit)
    requires g.alone ==> ClaimedAlone(mid, after, entries, at)
    ensures ClaimState(cfg, packs + [entries], start, after, g)
  {
    AddPack(cfg, packs, entries);
    if g.tame { WithinOneMore(packs, entries, Cap(cfg, g.limit)); }
    if g.alone { SameRowsTransitive(after, mid, start); }
    if g.calm { ClaimingOneMore(cfg, packs, entries, start, mid, g.now); }
  }

  lemma WithinOneMore(packs: seq<seq<StageEntry>>, entries: seq<StageEntry>, cap: int)
    requires PacksWithin(packs, cap) && Total(entries) <= cap
    ensures PacksWithin(packs + [entries], cap)
  {
  }

  lemma ClaimStateStays(cfg: Config, packs: seq<seq<StageEntry>>, start: map<Key, StageRow>, mid: map<Key, StageRow>,
                        after: map<Key, StageRow>, at: Time, g: Regime)
    requires ClaimState(cfg, packs, start, mid, g) && (g.tame ==> Genuine(after, g.content, g.limit))
    requires (g.alone ==> ClaimedAlone(mid, after, [], at)) && (g.calm ==> after == mid)
    ensures ClaimState(cfg, packs, start, after, g)
  {
    if g.alone { SameRowsTransitive(after, mid, start); }
  }

  lemma NoneClaimed(cfg: Config, start: map<Key, StageRow>, mid: map<Key, StageRow>, now: Time)
    requires Claiming([], start, mid, now)
    ensures mid == start
  {
  }

  predicate NothingToClaim(cfg: Config, staging: map<Key, StageRow>, now: Time) {
    ClaimableKeys(staging, now) == {} || !Ripe(cfg, StageStats(staging, now), now)
  }

  method ClaimNext(idx: PostgresIndex, cfg: Config, out: Outside, t: nat, packs: seq<seq<StageEntry>>,
                   ghost start: map<Key, StageRow>, ghost g: Regime) returns (entries: seq<StageEntry>)
    requires cfg.Valid() && |packs| < cfg.workers && Governs(cfg, out, t, g)
    requires ClaimState(cfg, packs, start, idx.staging, g)
    modifies idx
    ensures g.alone ==> idx.index == old(idx.index)
    ensures ClaimState(cfg, if entries == [] then packs else packs + [entries], start, idx.staging, g)
    ensures entries == [] && g.calm && packs == [] ==> idx.staging == start && NothingToClaim(cfg, start, g.now)
    ensures g.calm && packs == [] && NothingToClaim(cfg, start, g.now) ==> entries == []
    ensures g.calm && entries == [] ==> NothingToClaim(cfg, idx.staging, g.now)
  {
    ghost var mid := idx.staging;
    if g.calm && packs == [] { NoneClaimed(cfg, start, mid, g.now); }
    entries := ClaimOne(idx, cfg, out, t, g);
    if g.calm { assert CalmAt(cfg, out, g.now, t + 2); }
    if entries == [] {
      ClaimStateStays(cfg, packs, start, mid, idx.staging, out.clock(t + 2), g);
    } else {
      ClaimStateNext(cfg, packs, start, mid, idx.staging, entries, out.clock(t + 2), g);
    }
  }

  /** The claiming loop: on a calm outside it goes on until Workers packs are held or
      nothing more is to be claimed. */
  method ClaimPacks(idx: PostgresIndex, cfg: Config, out: Outside, from: nat, ghost g: Regime)
    returns (packs: seq<seq<StageEntry>>, t: nat)
    requires cfg.Valid() && Governs(cfg, out, from, g)
    requires g.tame ==> Genuine(idx.staging, g.content, g.limit)
    modifies idx
    ensures t >= from && (g.alone ==> idx.index == old(idx.index))
    ensures ClaimState(cfg, packs, old(idx.staging), idx.staging, g)
    ensures g.calm && packs == [] ==> idx.staging == old(idx.staging) && NothingToClaim(cfg, old(idx.staging), g.now)
    ensures g.calm && NothingToClaim(cfg, old(idx.staging), g.now) ==> packs == []
    ensures g.calm ==> |packs| == cfg.workers || AllLeased(idx.staging, g.now) || NotYet(cfg, idx.staging, g.now)
  {
    packs, t := [], from;
    ClaimStateStart(cfg, idx.staging, g);
    while |packs| < cfg.workers
      invariant t >= from && (g.alone ==> idx.index == old(idx.index))
      invariant ClaimState(cfg, packs, old(idx.staging), idx.staging, g)
      invariant g.calm && NothingToClaim(cfg, old(idx.staging), g.now) ==> packs == []
      decreases cfg.workers - |packs|
    {
      var entries := ClaimNext(idx, cfg, out, t, packs, old(idx.staging), g);
      t := t + 3;
      if entries == [] {
        NothingToClaimIff(cfg, idx.staging, g.now);
        break;
      }
      packs := packs + [entries];
    }
  }

  /** Where the uploads of one round stand after the first i packs. */
  ghost predicate Uploading(packs: seq<seq<StageEntry>>, i: nat, start: Db, db: Db, failed: bool, g: Regime) {
    && i <= |packs|
    && (g.tame ==> Genuine(db.staging, g.content, g.limit))
    && (g.alone ==> UploadingAlone(packs, i, start, db, failed))
    && (g.calm ==> PacksApart(packs) && !failed && db.staging == start.staging - AllKeys(packs[..i]))
  }

  ghost predicate UploadingAlone(packs: seq<seq<StageEntry>>, i: nat, start: Db, db: Db, failed: bool) {
    && AllKeys(packs) <= start.staging.Keys && SameRows(db.staging, start.staging) && Present(db) == Present(start)
    && (!failed && i > 0 ==> db.staging.Keys < start.staging.Keys)
  }

  lemma UploadingStart(packs: seq<seq<StageEntry>>, start: Db, g: Regime)
    requires g.alone ==> AllKeys(packs) <= start.staging.Keys
    requires g.calm ==> PacksApart(packs)
    requires g.tame ==> Genuine(start.staging, g.content, g.limit)
    ensures Uploading(packs, 0, start, start, false, g)
  {
    assert packs[..0] == [];
    assert start.staging - {} == start.staging;
  }

  lemma AloneNext(cfg: Config, packs: seq<seq<StageEntry>>, i: nat, start: Db, mid: Db, after: Db, failed: bool,
                  ok: bool, out: Outside, t: nat)
    requires i < |packs| && IsPack(cfg, packs[i]) && UploadingAlone(packs, i, start, mid, failed) && AloneFrom(out, t)
    requires (ok, after) == Flushed(packs[i], UploadAt(cfg, packs[i], out, t), out, t, mid)
    ensures UploadingAlone(packs, i + 1, start, after, failed || !ok)
  {
    AllKeysHas(packs);
    FlushedKeepsBlocks(cfg, mid, packs[i], out, t, ok, after);
    SameRowsTransitive(after.staging, mid.staging, start.staging);
  }

  lemma CalmNext(cfg: Config, packs: seq<seq<StageEntry>>, i: nat, start: Db, mid: Db, after: Db, ok: bool,
                 out: Outside, t: nat, now: Time)
    requires i < |packs| && IsPack(cfg, packs[i]) && Calm(cfg, out, now) && PacksApart(packs)
    requires AllKeys(packs) <= start.staging.Keys && mid.staging == start.staging - AllKeys(packs[..i])
    requires (ok, after) == Flushed(packs[i], UploadAt(cfg, packs[i], out, t), out, t, mid)
    ensures ok && after.staging == start.staging - AllKeys(packs[..i + 1])
  {
    AllKeysHas(packs);
    KeysSoFar(packs, i);
    RemovedInTurn(start.staging, AllKeys(packs[..i]), EntryKeys(packs[i]));
    assert CalmAt(cfg, out, now, t);
    AcceptedPackMoves(cfg, mid, packs[i], out, t, ok, after);
  }

  lemma RemovedInTurn(start: map<Key, StageRow>, a: set<Key>, b: set<Key>)
    ensures start - a - b == start - (a + b)
    ensures a !! b && b <= start.Keys ==> b <= (start - a).Keys
  {
  }

  /** One pack's turn. */
  method UploadNext(idx: PostgresIndex, cfg: Config, packs: seq<seq<StageEntry>>, i: nat, out: Outside, t: nat,
                    ghost start: Db, ghost failed: bool, ghost g: Regime) returns (ok: bool)
    requires ArePacks(cfg, packs) && i < |packs| && Governs(cfg, out, t, g)
    requires Uploading(packs, i, start, idx.Db(), failed, g)
    modifies idx
    ensures Uploading(packs, i + 1, start, idx.Db(), failed || !ok, g)
  {
    ghost var mid := idx.Db();
    ok := FlushOnePack(idx, cfg, packs[i], out, t);
    if g.tame { FlushedStaysGenuine(packs[i], UploadAt(cfg, packs[i], out, t), out, t, mid, g.content, g.limit); }
    if g.alone { AloneNext(cfg, packs, i, start, mid, idx.Db(), failed, ok, out, t); }
    if g.calm { CalmNext(cfg, packs, i, start, mid, idx.Db(), ok, out, t, g.now); }
  }

  method UploadInOrder(idx: PostgresIndex, cfg: Config, packs: seq<seq<StageEntry>>, out: Outside, from: nat,
                       ghost g: Regime)
    returns (failed: bool, t: nat)
    requires ArePacks(cfg, packs) && Governs(cfg, out, from, g)
    requires g.alone ==> AllKeys(packs) <= idx.staging.Keys
    requires g.calm ==> PacksApart(packs)
    requires g.tame ==> Genuine(idx.staging, g.content, g.limit)
    modifies idx
    ensures t == from + 2 * |packs|
    ensures Uploading(packs, |packs|, old(idx.Db()), idx.Db(), failed, g)
  {
    failed, t := false, from;
    UploadingStart(packs, idx.Db(), g);
    for i := 0 to |packs|
      invariant t == from + 2 * i
      invariant Uploading(packs, i, old(idx.Db()), idx.Db(), failed, g)
    {
      var ok := UploadNext(idx, cfg, packs, i, out, t, old(idx.Db()), failed, g);
      failed := failed || !ok;
      t := t + 2;
    }
  }

  lemma KeysSoFar(packs: seq<seq<StageEntry>>, i: nat)
    requires i < |packs|
    ensures AllKeys(packs[..i + 1]) == AllKeys(packs[..i]) + EntryKeys(packs[i])
    ensures PacksApart(packs) ==> AllKeys(packs[..i]) !! EntryKeys(packs[i])
  {
    TakeOneMore(packs, i);
    if PacksApart(packs) { ApartSoFar(packs, i, i); }
  }

  lemma {:induction false} ApartSoFar(packs: seq<seq<StageEntry>>, n: nat, i: nat)
    requires n <= i < |packs| && PacksApart(packs)
    ensures AllKeys(packs[..n]) !! EntryKeys(packs[i])
  {
    if n > 0 {
      TakeOneMore(packs, n - 1);
      ApartSoFar(packs, n - 1, i);
    }
  }

  // ---- In any order ----

  /** done and rest together are a rearrangement of packs. */
  ghost predicate Rearranged(cfg: Config, packs: seq<seq<StageEntry>>, done: seq<seq<StageEntry>>,
                             rest: seq<seq<StageEntry>>) {
    && |done| + |rest| == |packs| && AllKeys(done) + AllKeys(rest) == AllKeys(packs)
    && (ArePacks(cfg, packs) ==> ArePacks(cfg, done) && ArePacks(cfg, rest))
    && (PacksApart(packs) ==> PacksApart(done + rest))
  }

  lemma {:induction false} AllKeysSplit(a: seq<seq<StageEntry>>, x: seq<StageEntry>, b: seq<seq<StageEntry>>)
    ensures AllKeys(a + [x] + b) == AllKeys(a + b) + EntryKeys(x)
  {
    var all := a + [x] + b;
    if b == [] {
      assert all[..|all| - 1] == a && a + b == a;
    } else {
      AllKeysSplit(a, x, b[..|b| - 1]);
      assert all[..|all| - 1] == a + [x] + b[..|b| - 1];
      assert (a + b)[..|a + b| - 1] == a + b[..|b| - 1];
    }
  }

  lemma ApartWithoutOrder(done: seq<seq<StageEntry>>, rest: seq<seq<StageEntry>>, i: nat)
    requires i < |rest| && PacksApart(done + rest)
    ensures PacksApart(done + [rest[i]] + (rest[..i] + rest[i + 1..]))
  {
    var old', new' := done + rest, done + [rest[i]] + (rest[..i] + rest[i + 1..]);
    var d := |done|;
    forall x, y | 0 <= x < y < |new'| ensures EntryKeys(new'[x]) !! EntryKeys(new'[y]) {
      var u := if x < d then x else if x == d then d + i else if x <= d + i then x - 1 else x;
      var v := if y < d then y else if y == d then d + i else if y <= d + i then y - 1 else y;
      assert new'[x] == old'[u] && new'[y] == old'[v] && u != v;
      assert EntryKeys(old'[if u < v then u else v]) !! EntryKeys(old'[if u < v then v else u]);
    }
  }

  lemma PickOne(cfg: Config, packs: seq<seq<StageEntry>>, done: seq<seq<StageEntry>>, rest: seq<seq<StageEntry>>,
                i: nat)
    requires Rearranged(cfg, packs, done, rest) && i < |rest|
    ensures Rearranged(cfg, packs, done + [rest[i]], rest[..i] + rest[i + 1..])
  {
    AllKeysSplit(rest[..i], rest[i], rest[i + 1..]);
    assert rest == rest[..i] + [rest[i]] + rest[i + 1..];
    AllKeysSplit(done, rest[i], []);
    assert done + [rest[i]] + [] == done + [rest[i]] && done + [] == done;
    if PacksApart(packs) { ApartWithoutOrder(done, rest, i); }
  }

  method FinishingOrder(cfg: Config, packs: seq<seq<StageEntry>>) returns (order: seq<seq<StageEntry>>)
    ensures Rearranged(cfg, packs, order, [])
  {
    order := [];
    var rest := packs;
    assert [] + packs == packs;
    while rest != []
      invariant Rearranged(cfg, packs, order, rest)
      decreases |rest|
    {
      var i :| 0 <= i < |rest|;
      PickOne(cfg, packs, order, rest, i);
      order, rest := order + [rest[i]], rest[..i] + rest[i + 1..];
    }
  }

  /** The packs of a round are uploaded side by side. Each touches the tables in a single
      statement or transaction at a time, so together they do what they do in the order in
      which those run; others' steps, in between, stand for the rest. */
  method UploadPacks(idx: PostgresIndex, cfg: Config, packs: seq<seq<StageEntry>>, out: Outside, from: nat,
                     ghost g: Regime)
    returns (failed: bool, t: nat)
    requires ArePacks(cfg, packs) && packs != [] && Governs(cfg, out, from, g)
    requires g.alone ==> AllKeys(packs) <= idx.staging.Keys
    requires g.calm ==> PacksApart(packs)
    requires g.tame ==> Genuine(idx.staging, g.content, g.limit)
    modifies idx
    ensures t > from && (g.tame ==> Genuine(idx.staging, g.content, g.limit))
    ensures g.alone ==> Present(idx.Db()) == old(Present(idx.Db())) && SameRows(idx.staging, old(idx.staging))
    ensures g.alone && !failed ==> idx.staging.Keys < old(idx.staging).Keys
    ensures g.calm ==> !failed && idx.staging == old(idx.staging) - AllKeys(packs)
  {
    var order := FinishingOrder(cfg, packs);
    assert order + [] == order;
    failed, t := UploadInOrder(idx, cfg, order, out, from, g);
    assert order[..|order|] == order;
  }

  // ---- The flush ----

  /** No row was touched except the claimable ones that have been promoted. */
  predicate Drained(after: map<Key, StageRow>, before: map<Key, StageRow>, now: Time) {
    && after.Keys <= before.Keys
    && (forall k :: k in after ==> after[k] == before[k])
    && before.Keys - after.Keys <= ClaimableKeys(before, now)
  }

  lemma RoundDrains(start: map<Key, StageRow>, before: map<Key, StageRow>, packs: seq<seq<StageEntry>>, now: Time)
    requires Drained(before, start, now) && AllKeys(packs) <= ClaimableKeys(before, now)
    ensures Drained(SetLease(before, AllKeys(packs), Some(now + STAGE_LEASE)) - AllKeys(packs), start, now)
  {
  }

  /** The buffer is left alone: what is claimable weighs less than a pack, none of it has
      waited too long, and some of it is recent. */
  ghost predicate NotYet(cfg: Config, staging: map<Key, StageRow>, now: Time) {
    && (forall ks :: Lists(ks, ClaimableKeys(staging, now)) ==> KeyBytes(staging, ks) < cfg.target)
    && (forall k :: k in ClaimableKeys(staging, now) ==> now - staging[k].createdAt < cfg.packMaxAge)
    && (exists k :: k in ClaimableKeys(staging, now) && now - staging[k].createdAt < cfg.packIdleFlush)
  }

  /** Nothing is free to claim: every row is under a lease that has not run out. */
  predicate AllLeased(staging: map<Key, StageRow>, now: Time) {
    forall k :: k in staging ==> staging[k].leasedUntil.Some? && staging[k].leasedUntil.value >= now
  }

  lemma NotYetIsUnripe(cfg: Config, staging: map<Key, StageRow>, now: Time)
    requires ClaimableKeys(staging, now) != {}
    ensures NotYet(cfg, staging, now) <==> !Ripe(cfg, StageStats(staging, now), now)
  {
    StageStatsMeaning(staging, now);
    ScanKeysShape(staging, now, ScanKeys(staging, now));
    assert Lists(ScanKeys(staging, now), ClaimableKeys(staging, now));
  }

  /** Exactly when a flush finds nothing to do. */
  lemma NothingToClaimIff(cfg: Config, staging: map<Key, StageRow>, now: Time)
    ensures NothingToClaim(cfg, staging, now) <==> AllLeased(staging, now) || NotYet(cfg, staging, now)
  {
    assert ClaimableKeys(staging, now) == {} <==> AllLeased(staging, now) by {
      if AllLeased(staging, now) { assert ClaimableKeys(staging, now) == {}; }
      forall k | k in staging && k !in ClaimableKeys(staging, now)
        ensures staging[k].leasedUntil.Some? && staging[k].leasedUntil.value >= now {}
    }
    if ClaimableKeys(staging, now) != {} { NotYetIsUnripe(cfg, staging, now); }
  }

  lemma IdleIsRipe(cfg: Config, staging: map<Key, StageRow>, now: Time)
    requires Idle(cfg, staging, now) && ClaimableKeys(staging, now) != {}
    ensures Ripe(cfg, StageStats(staging, now), now)
  {
    StageStatsMeaning(staging, now);
  }

  /** One round: claim up to Workers packs, then upload them. */
  method FlushRound(idx: PostgresIndex, cfg: Config, out: Outside, from: nat, ghost g: Regime)
    returns (done: bool, held: nat, t: nat)
    requires cfg.Valid() && Governs(cfg, out, from, g)
    requires g.tame ==> Genuine(idx.staging, g.content, g.limit) && g.limit >= 0
    modifies idx
    ensures t >= from && (!done ==> t > from)
    ensures g.tame ==> Genuine(idx.staging, g.content, g.limit) && held <= cfg.workers * Cap(cfg, g.limit)
    ensures g.alone ==> Present(idx.Db()) == old(Present(idx.Db())) && SameRows(idx.staging, old(idx.staging))
    ensures g.alone && !done ==> idx.staging.Keys < old(idx.staging).Keys
    ensures g.calm && done ==> idx.staging == old(idx.staging) && NothingToClaim(cfg, idx.staging, g.now)
    ensures g.calm ==> Drained(idx.staging, old(idx.staging), g.now)
    ensures g.calm && NothingToClaim(cfg, old(idx.staging), g.now) ==> done && idx.Db() == old(idx.Db())
  {
    ghost var before := idx.staging;
    var packs, t1 := ClaimPacks(idx, cfg, out, from, g);
    held := InFlight(packs);
    if g.tame { RoundWeight(cfg, packs, Cap(cfg, g.limit)); }
    if packs == [] { return true, held, t1; }
    ghost var leased := idx.staging;
    var failed, t2 := UploadPacks(idx, cfg, packs, out, t1, g);
    if g.alone { SameRowsTransitive(idx.staging, leased, before); }
    if g.calm { RoundDrains(before, before, packs, g.now); }
    return failed, held, t2;
  }

  lemma DrainedTransitive(a: map<Key, StageRow>, b: map<Key, StageRow>, c: map<Key, StageRow>, now: Time)
    requires Drained(a, b, now) && Drained(b, c, now)
    ensures Drained(a, c, now)
  {
    forall k | k in c && k !in a ensures k in ClaimableKeys(c, now) {
      if k in b { assert k in ClaimableKeys(b, now) && b[k] == c[k]; }
    }
  }

  /** flushStaged returns, whatever the uploads and the database do, once others leave the
      tables alone from some call on: every round that does not give up then promotes at
      least one row. While staged rows stay genuine, others' included, it never holds more
      than Workers packs' worth of bytes. Alone, it changes no key and no staged value; on a
      calm outside it stops only when nothing is claimable or the buffer is not ripe, so a
      buffer that is idle at the start is drained of exactly its claimable rows. */
  method FlushStaged(idx: PostgresIndex, cfg: Config, out: Outside, ghost quiet: nat, ghost now: Time,
                     ghost content: Key -> Bytes, ghost limit: nat) returns (peak: nat)
    requires cfg.Valid() && AloneFrom(out, quiet)
    modifies idx
    ensures Genuine(old(idx.staging), content, limit) && Tame(out, content, limit) ==>
      peak <= cfg.workers * Cap(cfg, limit)
    ensures AloneFrom(out, 0) ==> Present(idx.Db()) == old(Present(idx.Db())) && SameRows(idx.staging, old(idx.staging))
    ensures Calm(cfg, out, now) ==> Drained(idx.staging, old(idx.staging), now)
    ensures Calm(cfg, out, now) ==> AllLeased(idx.staging, now) || NotYet(cfg, idx.staging, now)
    ensures Calm(cfg, out, now) && (AllLeased(old(idx.staging), now) || NotYet(cfg, old(idx.staging), now)) ==>
      idx.Db() == old(idx.Db())
    ensures Calm(cfg, out, now) && Idle(cfg, old(idx.staging), now) ==>
      idx.staging == old(idx.staging) - ClaimableKeys(old(idx.staging), now)
  {
    var t := 0;
    peak := 0;
    ghost var alone, calm := AloneFrom(out, 0), Calm(cfg, out, now);
    ghost var tame := Genuine(idx.staging, content, limit) && Tame(out, content, limit);
    NothingYet(idx.staging);
    ghost var early := calm && NothingToClaim(cfg, idx.staging, now);
    NothingToClaimIff(cfg, idx.staging, now);
    var done := false;
    while !done
      invariant alone ==> Present(idx.Db()) == old(Present(idx.Db())) && SameRows(idx.staging, old(idx.staging))
      invariant tame ==> Genuine(idx.staging, content, limit) && peak <= cfg.workers * Cap(cfg, limit)
      invariant calm ==> Drained(idx.staging, old(idx.staging), now) && (done ==> NothingToClaim(cfg, idx.staging, now))
      invariant early ==> idx.Db() == old(idx.Db())
      decreases !done, if t < quiet then quiet - t else 0, idx.staging.Keys
    {
      ghost var before := idx.staging;
      ghost var g := Regime(alone || quiet <= t, calm, tame, now, content, limit);
      var held;
      done, held, t := FlushRound(idx, cfg, out, t, g);
      if held > peak { peak := held; }
      if alone { SameRowsTransitive(idx.staging, before, old(idx.staging)); }
      if calm { DrainedTransitive(idx.staging, before, old(idx.staging), now); }
    }
    NothingToClaimIff(cfg, idx.staging, now);
    if calm && Idle(cfg, old(idx.staging), now) { StopsEmpty(cfg, old(idx.staging), idx.staging, now); }
  }

  lemma StopsEmpty(cfg: Config, start: map<Key, StageRow>, end: map<Key, StageRow>, now: Time)
    requires Idle(cfg, start, now) && Drained(end, start, now)
    requires NothingToClaim(cfg, end, now)
    ensures end == start - ClaimableKeys(start, now)
  {
    assert Idle(cfg, end, now);
    if ClaimableKeys(end, now) != {} { IdleIsRipe(cfg, end, now); }
    assert end.Keys == start.Keys - ClaimableKeys(start, now);
  }
}
