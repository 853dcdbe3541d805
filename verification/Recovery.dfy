/** Nothing stays stuck: whatever actors crashed and whatever leases they left, all that is
    staged can be flushed once the leases have run out. */
module Recovery {
  import opened Types
  import opened Tables
  import opened Index
  import opened Protocol
  import opened Flusher

  /** From any reachable state, once a lease and an idle span have passed with no new
      blocks, every staged row is claimable and the buffer is idle. */
  lemma AllClaimableAgain(c: World, r: Run, i: nat, now: Time)
    requires IsRun(c, r) && i < |r.states|
    requires now > r.states[i].now + STAGE_LEASE && now >= r.states[i].now + c.cfg.packIdleFlush
    ensures ClaimableKeys(r.states[i].db.staging, now) == r.states[i].db.staging.Keys
    ensures Idle(c.cfg, r.states[i].db.staging, now)
  {
    RunKeepsStagedInTime(c, r, i);
    forall k | k in r.states[i].db.staging ensures k in ClaimableKeys(r.states[i].db.staging, now) {
      assert InTime(r.states[i].db.staging[k], r.states[i].now);
    }
    forall k | k in ClaimableKeys(r.states[i].db.staging, now)
      ensures now - r.states[i].db.staging[k].createdAt >= c.cfg.packIdleFlush
    {
      assert InTime(r.states[i].db.staging[k], r.states[i].now);
    }
  }

  /** One flush by any node then empties the staging table and keeps every key, although
      the actors of the run that got there are never heard of again. */
  method FlushWhatIsLeft(idx: PostgresIndex, c: World, out: Outside, ghost r: Run, ghost i: nat, ghost now: Time)
    returns (peak: nat)
    requires c.cfg.Valid() && IsRun(c, r) && i < |r.states| && idx.Db() == r.states[i].db
    requires now > r.states[i].now + STAGE_LEASE && now >= r.states[i].now + c.cfg.packIdleFlush
    requires Calm(c.cfg, out, now)
    modifies idx
    ensures idx.staging == map[] && idx.index.Keys == Present(r.states[i].db)
    ensures peak <= c.cfg.workers * c.cfg.target
  {
    AllClaimableAgain(c, r, i, now);
    RunKeepsInv(c, r, i);
    GenuineInRuns(c, r.states[i]);
    CalmIsTame(c, out, now);
    peak := FlushStaged(idx, c.cfg, out, 0, now, c.content, c.cfg.target);
    assert idx.staging.Keys == {};
  }

  lemma GenuineInRuns(c: World, s: State)
    requires Inv(c, s)
    ensures Genuine(s.db.staging, c.content, c.cfg.target)
  {
    forall k | k in s.db.staging
      ensures s.db.staging[k].value == c.content(k) && s.db.staging[k].size == |c.content(k)| <= c.cfg.target
    {
      assert GoodRow(c, k, s.db.staging[k]);
    }
  }

  lemma CalmIsTame(c: World, out: Outside, now: Time)
    requires Calm(c.cfg, out, now)
    ensures Tame(out, c.content, c.cfg.target)
  {
  }
}
