/** Concrete runs: the reversed probe order fails, and so do disjoint packs without
    either of their two hypotheses. */
module Scenarios {
  import opened Types
  import opened Ordering
  import opened Tables
  import opened Packing
  import opened Protocol
  import opened Leases

  const CFG: Config := Config(1024, 1, false, 1000, false, 1, 0, 300, 30, 0)
  const BLOCK: Bytes := [7]
  const KEY: Key := "/blocks/A"
  const ENTRY: StageEntry := StageEntry(KEY, BLOCK)
  const WORLD: World := World(CFG, (k: Key) => BLOCK, (id: nat) => id)
  const RES: StoreResult := StoreResult("blob", "object", 1, 0, 0)
  const STORED: Walrus := Walrus(map["blob" := BLOCK], map[])

  const REC: KeyRecord := KeyRecord(KEY, PlainRecord(CFG, RES, 0, 1, 1, 0))
  const FRESH: map<Key, StageRow> := map[KEY := StageRow(BLOCK, 1, 0, None)]
  const LEASED: map<Key, StageRow> := map[KEY := StageRow(BLOCK, 1, 0, Some(STAGE_LEASE))]
  const EMPTY: Walrus := Walrus(map[], map[])

  const S0: State := State(Db(map[], map[]), EMPTY, 0, map[])
  const S1: State := State(Db(map[], FRESH), EMPTY, 0, map[])
  const S2: State := State(Db(map[], FRESH), EMPTY, 0, map[0 := Selected([KEY])])
  const S3: State := State(Db(map[], LEASED), EMPTY, 0, map[0 := Claimed([ENTRY], STAGE_LEASE)])

  lemma LoneEntry()
    ensures ChunksDistinct(EntryList([ENTRY]), STAGE_PUT_CHUNK) && EntryKeys([ENTRY]) == {KEY}
    ensures forall staging :: StageAll(staging, [ENTRY], 0) == staging[KEY := StageRow(BLOCK, 1, 0, None)]
  {
    assert [ENTRY][..0] == [];
  }

  lemma LoneRowClaim(staging: map<Key, StageRow>, now: Time)
    requires staging.Keys == {KEY} && Claimable(staging[KEY], now)
    ensures IsClaim(staging, now, CFG.MaxCount(), CFG.target, [KEY])
  {
    var row := StageScanRow(staging, KEY);
    var rows := [row];
    assert ClaimableKeys(staging, now) == {KEY};
    assert (set k | k in ClaimableKeys(staging, now) :: StageScanRow(staging, k)) == {row};
    AscendingIsUnique(ClaimScan(staging, now), rows);
    assert rows[..1] == rows && RowKeys(rows) == [KEY];
    assert ByteCut(rows, CFG.target, 1);
    assert FirstN(ClaimScan(staging, now), CFG.MaxCount()) == rows;
  }

  lemma PutStep(s: State)
    requires s.now == 0 && s.db.index == map[] && s.db.staging.Keys <= {KEY}
    ensures Step(WORLD, s, Put([ENTRY]), s.(db := Db(map[], FRESH)))
  {
    LoneEntry();
    assert s.db.staging[KEY := StageRow(BLOCK, 1, 0, None)] == FRESH;
  }

  lemma SelectStep(s: State, id: nat)
    requires s.db.staging.Keys == {KEY} && Claimable(s.db.staging[KEY], s.now) && id !in s.actors
    ensures Step(WORLD, s, Select(id, [KEY]), s.(actors := s.actors[id := Selected([KEY])]))
  {
    LoneRowClaim(s.db.staging, s.now);
    assert Busy(WORLD, s, id) == {};
  }

  lemma LeaseStep(s: State, id: nat, leased: map<Key, StageRow>)
    requires s.db.staging.Keys == {KEY} && Claimable(s.db.staging[KEY], s.now) && s.db.staging[KEY].value == BLOCK
    requires id in s.actors && s.actors[id] == Selected([KEY])
    requires leased == map[KEY := s.db.staging[KEY].(leasedUntil := Some(s.now + STAGE_LEASE))]
    ensures Step(WORLD, s, Lease(id, [ENTRY]),
                 s.(db := s.db.(staging := leased), actors := s.actors[id := Claimed([ENTRY], s.now + STAGE_LEASE)]))
  {
    LoneEntry();
    assert LeasedKeys(s.db.staging, [KEY], s.now) == {KEY};
    assert SetLease(s.db.staging, {KEY}, Some(s.now + STAGE_LEASE)) == leased;
  }

  const S4: State := State(Db(map[], LEASED), STORED, 0, map[0 := Packed([ENTRY], STAGE_LEASE, [REC], 0)])
  const S5: State := State(Db(map[KEY := REC.rec], map[]), STORED, 0, map[])

  lemma LoneBytes(pack: seq<StageEntry>, e: StageEntry)
    requires pack == [e]
    ensures Joined(pack) == e.value && Total(pack) == |e.value| && Total(pack[..0]) == 0
  {
    assert pack[..0] == [];
    assert Joined([]) == [] && Total([]) == 0;
    assert Joined(pack) == Joined(pack[..0]) + e.value;
    assert Total(pack) == Total(pack[..0]) + |e.value|;
  }

  lemma UploadStep()
    ensures Step(WORLD, S3, Upload(0, Stored(RES), STORED), S4)
  {
    LoneBytes([ENTRY], ENTRY);
    assert ConcatRecords(CFG, [ENTRY], RES, 0) == [REC];
  }

  lemma PromoteLone(db: Db, kr: KeyRecord)
    requires db == Db(map[], LEASED) && kr.key == KEY
    ensures CanPromote(db, [kr]) && Promote(db, [kr]) == Db(map[KEY := kr.rec], map[])
  {
    assert [kr][..0] == [];
    assert Live(LEASED, [kr]) == [kr] && KeysOf([kr]) == {KEY};
    assert Upsert(map[], [kr]) == map[KEY := kr.rec];
    assert LEASED - {KEY} == map[];
  }

  lemma PromotionStep()
    ensures Step(WORLD, S4, Promotion(0), S5)
  {
    PromoteLone(S4.db, REC);
    assert S4.actors - {0} == map[];
  }

  lemma Start(c: World, s: State)
    requires Init(s)
    ensures IsRun(c, Run([s], []))
  {
  }

  lemma Extend(c: World, r: Run, l: Label, s: State) returns (r': Run)
    requires IsRun(c, r) && Step(c, r.states[|r.labels|], l, s)
    ensures r' == Run(r.states + [s], r.labels + [l]) && IsRun(c, r')
  {
    r' := Run(r.states + [s], r.labels + [l]);
    forall i | 0 <= i < |r'.labels| ensures StepAt(c, r', i) {
      if i < |r.labels| { assert StepAt(c, r, i); }
    }
  }

  lemma PutRun() returns (r: Run)
    ensures IsRun(WORLD, r) && r.states == [S0, S1] && r.labels == [Put([ENTRY])]
  {
    Start(WORLD, S0);
    PutStep(S0);
    r := Extend(WORLD, Run([S0], []), Put([ENTRY]), S1);
  }

  lemma PutAndSelect() returns (r: Run)
    ensures IsRun(WORLD, r)
    ensures r.states == [S0, S1, S2] && r.labels == [Put([ENTRY]), Select(0, [KEY])]
  {
    r := PutRun();
    SelectStep(S1, 0);
    r := Extend(WORLD, r, Select(0, [KEY]), S2);
  }

  lemma PutAndClaim() returns (r: Run)
    ensures IsRun(WORLD, r)
    ensures r.states == [S0, S1, S2, S3] && r.labels == [Put([ENTRY]), Select(0, [KEY]), Lease(0, [ENTRY])]
  {
    r := PutAndSelect();
    LeaseStep(S2, 0, LEASED);
    r := Extend(WORLD, r, Lease(0, [ENTRY]), S3);
  }

  /** Probing the index first and staging second would miss a block on the move: in
      this run the block is present throughout, and both probes find nothing. */
  lemma ReversedProbesMissABlock() returns (r: Run)
    ensures IsRun(WORLD, r) && |r.states| == 6
    ensures KEY !in r.states[4].db.index && KEY !in r.states[5].db.staging
    ensures KEY in Present(r.states[4].db) && KEY in Present(r.states[5].db)
  {
    r := PutAndClaim();
    UploadStep();
    r := Extend(WORLD, r, Upload(0, Stored(RES), STORED), S4);
    PromotionStep();
    r := Extend(WORLD, r, Promotion(0), S5);
  }

  const T4: State := S3.(db := Db(map[], FRESH))
  const T5: State := T4.(actors := T4.actors[1 := Selected([KEY])])
  const T6: State := T5.(db := T5.db.(staging := LEASED), actors := T5.actors[1 := Claimed([ENTRY], STAGE_LEASE)])

  lemma PutAgain() returns (r: Run)
    ensures IsRun(WORLD, r) && r.states == [S0, S1, S2, S3, T4] && |r.labels| == 4
  {
    r := PutAndClaim();
    PutStep(S3);
    r := Extend(WORLD, r, Put([ENTRY]), T4);
  }

  lemma PutAgainAndSelect() returns (r: Run)
    ensures IsRun(WORLD, r) && r.states == [S0, S1, S2, S3, T4, T5] && |r.labels| == 5
  {
    r := PutAgain();
    SelectStep(T4, 1);
    r := Extend(WORLD, r, Select(1, [KEY]), T5);
  }

  lemma ReputRun() returns (r: Run)
    ensures IsRun(WORLD, r) && r.states == [S0, S1, S2, S3, T4, T5, T6]
  {
    r := PutAgainAndSelect();
    LeaseStep(T5, 1, LEASED);
    r := Extend(WORLD, r, Lease(1, [ENTRY]), T6);
  }

  /** Without the re-put hypothesis two timely flushes can hold the same block: putting
      a claimed key again clears its lease. */
  lemma ReputLetsPacksOverlap() returns (r: Run)
    ensures IsRun(WORLD, r) && (exists s :: s in r.states && !Disjoint(s))
    ensures forall s :: s in r.states ==> Timely(s)
  {
    r := ReputRun();
    PacksOverlap();
    assert T6 in r.states;
  }

  lemma PacksOverlap()
    ensures !Disjoint(T6) && forall s :: s in [S0, S1, S2, S3, T4, T5, T6] ==> Timely(s)
  {
    LoneEntry();
    assert KEY in Held(T6, 0) && KEY in Held(T6, 1);
  }

  const LATE: Time := STAGE_LEASE + 1
  const AGAIN: map<Key, StageRow> := map[KEY := StageRow(BLOCK, 1, 0, Some(LATE + STAGE_LEASE))]

  const U4: State := S3.(now := LATE)
  const U5: State := U4.(actors := U4.actors[1 := Selected([KEY])])
  const U6: State := U5.(db := U5.db.(staging := AGAIN), actors := U5.actors[1 := Claimed([ENTRY], LATE + STAGE_LEASE)])

  lemma Wait() returns (r: Run)
    ensures IsRun(WORLD, r) && r.states == [S0, S1, S2, S3, U4]
    ensures r.labels == [Put([ENTRY]), Select(0, [KEY]), Lease(0, [ENTRY]), Tick(LATE)]
  {
    r := PutAndClaim();
    r := Extend(WORLD, r, Tick(LATE), U4);
  }

  lemma WaitAndSelect() returns (r: Run)
    ensures IsRun(WORLD, r) && r.states == [S0, S1, S2, S3, U4, U5]
    ensures r.labels == [Put([ENTRY]), Select(0, [KEY]), Lease(0, [ENTRY]), Tick(LATE), Select(1, [KEY])]
  {
    r := Wait();
    SelectStep(U4, 1);
    r := Extend(WORLD, r, Select(1, [KEY]), U5);
  }

  lemma SlowRun() returns (r: Run)
    ensures IsRun(WORLD, r) && r.states == [S0, S1, S2, S3, U4, U5, U6]
    ensures r.labels == [Put([ENTRY]), Select(0, [KEY]), Lease(0, [ENTRY]), Tick(LATE), Select(1, [KEY]),
      Lease(1, [ENTRY])]
  {
    r := WaitAndSelect();
    LeaseStep(U5, 1, AGAIN);
    r := Extend(WORLD, r, Lease(1, [ENTRY]), U6);
  }

  /** Without the hypothesis that flushes beat their lease packs can overlap too: here no
      key is put twice, and a second flush takes the block once the first is late. */
  lemma SlowFlushLetsPacksOverlap() returns (r: Run)
    ensures IsRun(WORLD, r) && (exists s :: s in r.states && !Disjoint(s))
    ensures |r.labels| + 1 == |r.states| && forall m :: 0 <= m < |r.labels| ==> NoReput(r.states[m], r.labels[m])
  {
    r := SlowRun();
    LoneEntry();
    assert KEY in Held(U6, 0) && KEY in Held(U6, 1);
    assert U6 in r.states;
  }
}
