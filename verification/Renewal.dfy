/** Renewal: it changes no meaning, handles every due blob once, and — run often
    enough — never lets a row reach its expiry. */
module Renewal {
  import opened Types
  import opened Tables
  import opened Queries
  import opened Protocol
  import opened Safety

  // ---- Renewal preserves meaning ----

  /** The update repoints rows, whatever has happened since the blob was read and stored
      again: no key appears or vanishes, and each row decodes as before. */
  lemma UpdatePreservesMeaning(c: World, s: State, l: Label, k: Key)
    requires Inv(c, s) && l.ScanUpdate? && Enabled(c, s, l)
    ensures NextDb(c, s, l).index.Keys == s.db.index.Keys && NextDb(c, s, l).staging == s.db.staging
    ensures k in s.db.index ==>
      var old', new' := s.db.index[k], NextDb(c, s, l).index[k];
      && ReadRecord(s.walrus, new') == ReadRecord(s.walrus, old') == Some(c.content(k))
      && (new'.patchId, new'.offset, new'.size) == (old'.patchId, old'.offset, old'.size)
  {
    assert GoodActor(c, s.walrus, s.actors[l.id]);
    if k in s.db.index { assert Decodes(s.walrus, s.db.index[k], c.content(k)); }
  }

  predicate IsWorker(s: State, id: nat) { id in s.actors && s.actors[id].Worker? }

  // ---- Each scan handles each due blob exactly once ----

  predicate Pops(l: Label, id: nat) { (l.ScanUpdate? || l.ScanSkip?) && l.id == id }

  predicate Restarts(l: Label, id: nat) {
    (l.ScanStart? || l.Crash? || l.StartWorker?) && l.id == id
  }

  /** The blobs worker id has dealt with in steps i..j, in order. */
  ghost function Handled(r: Run, id: nat, i: nat, j: nat): seq<string>
    requires i <= j <= |r.labels| && |r.states| == |r.labels| + 1
    requires forall m :: i <= m <= j ==> id in r.states[m].actors && r.states[m].actors[id].Worker?
    requires forall m :: i <= m < j && Pops(r.labels[m], id) ==> r.states[m].actors[id].todo != []
  {
    if i == j then []
    else Handled(r, id, i, j - 1) + if Pops(r.labels[j - 1], id) then [r.states[j - 1].actors[id].todo[0]] else []
  }

  lemma WorkerStep(c: World, s: State, l: Label, id: nat)
    requires Enabled(c, s, l) && id in s.actors && s.actors[id].Worker? && !Restarts(l, id)
    ensures id in Next(c, s, l).actors && Next(c, s, l).actors[id].Worker?
    ensures Pops(l, id) ==> s.actors[id].todo != []
    ensures Next(c, s, l).actors[id].todo == if Pops(l, id) then s.actors[id].todo[1..] else s.actors[id].todo
  {
  }

  lemma {:induction false} StaysWorker(c: World, r: Run, id: nat, i: nat, j: nat)
    requires IsRun(c, r) && i <= j <= |r.labels| && id in r.states[i].actors && r.states[i].actors[id].Worker?
    requires forall m :: i <= m < j ==> !Restarts(r.labels[m], id)
    ensures forall m :: i <= m <= j ==> id in r.states[m].actors && r.states[m].actors[id].Worker?
    ensures forall m :: i <= m < j && Pops(r.labels[m], id) ==> r.states[m].actors[id].todo != []
    decreases j - i
  {
    if i < j {
      StaysWorker(c, r, id, i, j - 1);
      assert StepAt(c, r, j - 1);
      WorkerStep(c, r.states[j - 1], r.labels[j - 1], id);
    }
  }

  /** What a worker has handled and what is left always make up what it set out with. */
  lemma {:induction false} HandledAndLeft(c: World, r: Run, id: nat, i: nat, j: nat)
    requires IsRun(c, r) && i <= j <= |r.labels| && id in r.states[i].actors && r.states[i].actors[id].Worker?
    requires forall m :: i <= m < j ==> !Restarts(r.labels[m], id)
    requires forall m :: i <= m <= j ==> id in r.states[m].actors && r.states[m].actors[id].Worker?
    requires forall m :: i <= m < j && Pops(r.labels[m], id) ==> r.states[m].actors[id].todo != []
    ensures Handled(r, id, i, j) + r.states[j].actors[id].todo == r.states[i].actors[id].todo
    decreases j - i
  {
    if i < j {
      HandledAndLeft(c, r, id, i, j - 1);
      assert StepAt(c, r, j - 1);
      WorkerStep(c, r.states[j - 1], r.labels[j - 1], id);
    }
  }

  lemma StartedScan(c: World, s: State, id: nat, todo: seq<string>)
    requires Enabled(c, s, ScanStart(id)) && todo == ScanList(c, s)
    ensures IsWorker(Next(c, s, ScanStart(id)), id)
    ensures Next(c, s, ScanStart(id)).actors[id].todo == todo
  {
  }

  /** A scan started in state i works off its list in order, and no blob is on it twice. */
  lemma ScanHandlesEachBlobOnce(c: World, r: Run, id: nat, i: nat, j: nat, due: seq<string>)
    requires IsRun(c, r) && i < j <= |r.labels| && r.labels[i] == ScanStart(id)
    requires forall m :: i < m < j ==> !Restarts(r.labels[m], id)
    requires due == ScanList(c, r.states[i])
    ensures forall m :: i < m <= j ==> id in r.states[m].actors && r.states[m].actors[id].Worker?
    ensures forall m :: i < m < j && Pops(r.labels[m], id) ==> r.states[m].actors[id].todo != []
    ensures Distinct(due) && Handled(r, id, i + 1, j) + r.states[j].actors[id].todo == due
  {
    ScanListIsDistinct(c, r.states[i]);
    assert StepAt(c, r, i);
    StartedScan(c, r.states[i], id, due);
    StaysWorker(c, r, id, i + 1, j);
    HandledAndLeft(c, r, id, i + 1, j);
  }

  // ---- Timed safety ----

  /** gap bounds the time from one scan's start to the next scan's finish; delay bounds
      the time from computing an expiry to writing it. */
  datatype Timing = Timing(id: nat, gap: int, delay: int)

  /** The lead counts from the configured one, or from one epoch when none is configured. */
  predicate FastEnough(c: World, t: Timing) {
    && c.cfg.epochDuration > 0 && t.gap >= 0 && t.delay >= 0
    && (c.cfg.renewLead > 0 ==> c.cfg.renewLead > t.gap)
    && (c.cfg.renewLead <= 0 ==> c.cfg.epochDuration > t.gap)
    && c.cfg.epochs * c.cfg.epochDuration > t.gap + t.delay
  }

  /** The blobs with a row that expires by then. */
  function ExpiringBy(index: map<Key, Record>, t: Time): set<string> {
    set k | k in index && index[k].expiresAt.Some? && index[k].expiresAt.value <= t :: index[k].blobId
  }

  lemma DueAreExpiring(index: map<Key, Record>, t: Time)
    ensures DueBlobs(index, t) == ExpiringBy(index, t)
  {
  }

  /** No more than a batch of blobs expires within the lead from now. */
  predicate AtMostABatchDue(cfg: Config, index: map<Key, Record>, now: Time) {
    && (cfg.renewLead > 0 ==> |ExpiringBy(index, now + cfg.renewLead)| <= 256)
    && (cfg.renewLead <= 0 ==> |ExpiringBy(index, now + cfg.epochDuration)| <= 256)
  }

  lemma BatchIsEnough(cfg: Config, index: map<Key, Record>, now: Time)
    requires AtMostABatchDue(cfg, index, now)
    ensures |DueBlobs(index, now + cfg.Lead())| <= RENEW_BATCH_SIZE
  {
    DueAreExpiring(index, now + cfg.Lead());
  }

  /** The worker is not late: while it scans, the gap counts from the scan before. */
  predicate OnTime(s: State, t: Timing) {
    IsWorker(s, t.id) && s.now <= (if s.actors[t.id].todo != [] then s.actors[t.id].prev
      else s.actors[t.id].last) + t.gap
  }

  /** When the expiry that the actor is about to write was computed. */
  function ComputedAt(a: Actor): Time {
    match a
    case Packed(_, _, _, at) => at
    case Direct(_, _, at) => at
    case Worker(_, _, _, HasStored(_, _, _, at)) => at
    case _ => 0
  }

  ghost predicate GoodStep(c: World, s: State, l: Label, t: Timing) {
    && !(l.ScanSkip? && l.id == t.id)
    && !(l.Crash? && l.id == t.id)
    && (l == ScanStart(t.id) ==> AtMostABatchDue(c.cfg, s.db.index, s.now))
    && (l.EndDirect? || l.Promotion? || l.UnseenPromotion? || l.ScanUpdate? ==>
      l.id in s.actors && s.now <= ComputedAt(s.actors[l.id]) + t.delay)
  }

  /** A row is safe until the next scan is over, or its turn in this scan is still to come. */
  predicate Covered(a: Actor, rec: Record, t: Timing)
    requires a.Worker?
  {
    rec.expiresAt.Some? ==>
      || rec.expiresAt.value > a.last + t.gap
      || (rec.blobId in a.todo && rec.expiresAt.value > a.prev + t.gap)
  }

  ghost predicate TimedInv(s: State, t: Timing) {
    && IsWorker(s, t.id)
    && s.actors[t.id].prev <= s.actors[t.id].last <= s.now
    && forall k :: k in s.db.index ==> Covered(s.actors[t.id], s.db.index[k], t)
  }

  lemma NothingExpires(s: State, t: Timing, k: Key)
    requires TimedInv(s, t) && OnTime(s, t) && k in s.db.index && s.db.index[k].expiresAt.Some?
    ensures s.now < s.db.index[k].expiresAt.value
  {
    assert Covered(s.actors[t.id], s.db.index[k], t);
  }

  /** Rows written now, with an expiry computed a short while ago, outlast the next scan. */
  lemma FreshIsCovered(c: World, s: State, t: Timing, rec: Record, at: Time)
    requires FastEnough(c, t) && TimedInv(s, t)
    requires rec.expiresAt == c.cfg.Expiry(at) && s.now <= at + t.delay
    ensures rec.expiresAt.value > s.now + t.gap >= s.actors[t.id].last + t.gap
  {
  }

  lemma PromotedRowsLast(c: World, s: State, t: Timing, l: Label, k: Key)
    requires FastEnough(c, t) && Inv(c, s) && TimedInv(s, t) && Enabled(c, s, l) && GoodStep(c, s, l, t)
    requires (l.Promotion? || l.UnseenPromotion?) && k in NextDb(c, s, l).index
    ensures var rec := NextDb(c, s, l).index[k];
      || (k in s.db.index && rec == s.db.index[k])
      || (rec.expiresAt.Some? && rec.expiresAt.value > s.now + t.gap)
  {
    var a := s.actors[l.id];
    assert GoodActor(c, s.walrus, a);
    LiveShape(s.db.staging, a.recs);
    UpsertShape(s.db.index, Live(s.db.staging, a.recs));
    if KeyRecord(k, NextDb(c, s, l).index[k]) in a.recs { FreshIsCovered(c, s, t, NextDb(c, s, l).index[k], a.at); }
  }

  lemma RowsStayCovered(c: World, s: State, t: Timing, l: Label, k: Key)
    requires FastEnough(c, t) && Inv(c, s) && TimedInv(s, t) && Enabled(c, s, l) && GoodStep(c, s, l, t)
    requires k in NextDb(c, s, l).index
    ensures var rec := NextDb(c, s, l).index[k];
      || (k in s.db.index && rec == s.db.index[k] && (l.ScanUpdate? ==> rec.blobId != s.actors[l.id].todo[0]))
      || (rec.expiresAt.Some? && rec.expiresAt.value > s.now + t.gap)
  {
    match l
    case EndDirect(id, _) =>
      var a := s.actors[id];
      assert GoodActor(c, s.walrus, a);
      UpsertShape(s.db.index, a.recs);
      if KeyRecord(k, NextDb(c, s, l).index[k]) in a.recs { FreshIsCovered(c, s, t, NextDb(c, s, l).index[k], a.at); }
    case UnseenPromotion(id) => PromotedRowsLast(c, s, t, l, k);
    case Promotion(id) => PromotedRowsLast(c, s, t, l, k);
    case ScanUpdate(id) =>
      var a := s.actors[id];
      assert GoodActor(c, s.walrus, a);
      if s.db.index[k].blobId == a.todo[0] { FreshIsCovered(c, s, t, NextDb(c, s, l).index[k], a.phase.at); }
    case _ =>
  }

  lemma DueIsListed(index: map<Key, Record>, before: Time, k: Key, b: string)
    requires |DueBlobs(index, before)| <= RENEW_BATCH_SIZE
    requires k in index && IsDue(index[k], before) && b == index[k].blobId
    ensures b in DueForRenewal(index, before, RENEW_BATCH_SIZE)
  {
    DueForRenewalIsExact(index, before, RENEW_BATCH_SIZE);
    assert b in DueBlobs(index, before);
  }

  /** At a scan's start every row is safe till its finish; the ones that are not safe
      till the finish after that are due, so this scan renews them. */
  lemma NewScanCovers(idle: Actor, started: Actor, lead: int, t: Timing, rec: Record)
    requires idle.Worker? && idle.todo == [] && Covered(idle, rec, t) && lead > t.gap
    requires started.Worker? && started.prev == idle.last
    requires IsDue(rec, started.last + lead) ==> rec.blobId in started.todo
    ensures Covered(started, rec, t)
  {
  }

  lemma AllDueAreListed(index: map<Key, Record>, before: Time, todo: seq<string>, k: Key)
    requires |DueBlobs(index, before)| <= RENEW_BATCH_SIZE && todo == DueForRenewal(index, before, RENEW_BATCH_SIZE)
    ensures k in index && IsDue(index[k], before) ==> index[k].blobId in todo
  {
    if k in index && IsDue(index[k], before) { DueIsListed(index, before, k, index[k].blobId); }
  }

  lemma ScanStartCovers(c: World, s: State, t: Timing, k: Key, todo: seq<string>)
    requires FastEnough(c, t) && TimedInv(s, t) && s.actors[t.id].todo == [] && k in s.db.index
    requires IsDue(s.db.index[k], s.now + c.cfg.Lead()) ==> s.db.index[k].blobId in todo
    ensures Covered(Worker(s.actors[t.id].last, s.now, todo, Ready), s.db.index[k], t)
  {
    assert Covered(s.actors[t.id], s.db.index[k], t);
    NewScanCovers(s.actors[t.id], Worker(s.actors[t.id].last, s.now, todo, Ready), c.cfg.Lead(), t, s.db.index[k]);
  }

  lemma NewListCovers(c: World, s: State, t: Timing, k: Key, todo: seq<string>)
    requires FastEnough(c, t) && TimedInv(s, t) && s.actors[t.id].todo == [] && k in s.db.index
    requires AtMostABatchDue(c.cfg, s.db.index, s.now) && todo == ScanList(c, s)
    ensures Covered(Worker(s.actors[t.id].last, s.now, todo, Ready), s.db.index[k], t)
  {
    BatchIsEnough(c.cfg, s.db.index, s.now);
    AllDueAreListed(s.db.index, s.now + c.cfg.Lead(), todo, k);
    ScanStartCovers(c, s, t, k, todo);
  }

  lemma StepKeepsTimedInv(c: World, s: State, t: Timing, l: Label)
    requires FastEnough(c, t) && Inv(c, s) && TimedInv(s, t) && Enabled(c, s, l) && GoodStep(c, s, l, t)
    ensures TimedInv(Next(c, s, l), t)
  {
    var s' := Next(c, s, l);
    forall k | k in s'.db.index ensures Covered(s'.actors[t.id], s'.db.index[k], t) {
      RowsStayCovered(c, s, t, l, k);
      if k in s.db.index { assert Covered(s.actors[t.id], s.db.index[k], t); }
      if l == ScanStart(t.id) { NewListCovers(c, s, t, k, ScanList(c, s)); }
    }
  }

  ghost predicate Outlasts(s: State, t: Time) {
    forall k :: k in s.db.index && s.db.index[k].expiresAt.Some? ==> s.db.index[k].expiresAt.value > t
  }

  lemma StartKeepsTime(c: World, s: State, t: Timing)
    requires Enabled(c, s, StartWorker(t.id)) && Outlasts(s, s.now + t.gap)
    ensures TimedInv(Next(c, s, StartWorker(t.id)), t)
  {
  }

  lemma {:induction false} TimedInvHolds(c: World, r: Run, t: Timing, i: nat, j: nat)
    requires c.cfg.Valid() && FastEnough(c, t) && IsRun(c, r) && i < j < |r.states|
    requires r.labels[i] == StartWorker(t.id) && Outlasts(r.states[i], r.states[i].now + t.gap)
    requires forall m :: i < m < j ==> GoodStep(c, r.states[m], r.labels[m], t)
    ensures TimedInv(r.states[j], t)
    decreases j
  {
    var s, l := r.states[j - 1], r.labels[j - 1];
    assert StepAt(c, r, j - 1);
    if i < j - 1 {
      TimedInvHolds(c, r, t, i, j - 1);
      RunKeepsInv(c, r, j - 1);
      assert GoodStep(c, s, l, t);
      StepKeepsTimedInv(c, s, t, l);
    } else {
      StartKeepsTime(c, s, t);
    }
  }

  /** If every row outlasts the gap when the worker starts, and from then on no scan is
      late, at most a batch is due per scan and this worker's renewals succeed, then no
      row ever reaches its expiry — whatever else the nodes do. */
  lemma NoRowReachesItsExpiry(c: World, r: Run, t: Timing, i: nat, j: nat)
    requires c.cfg.Valid() && FastEnough(c, t) && IsRun(c, r) && i < j < |r.states|
    requires r.labels[i] == StartWorker(t.id) && Outlasts(r.states[i], r.states[i].now + t.gap)
    requires forall m :: i < m <= j ==> OnTime(r.states[m], t)
    requires forall m :: i < m < j ==> GoodStep(c, r.states[m], r.labels[m], t)
    ensures TimedInv(r.states[j], t) && Outlasts(r.states[j], r.states[j].now)
  {
    TimedInvHolds(c, r, t, i, j);
    forall k | k in r.states[j].db.index && r.states[j].db.index[k].expiresAt.Some?
      ensures r.states[j].now < r.states[j].db.index[k].expiresAt.value
    {
      NothingExpires(r.states[j], t, k);
    }
  }

  // ---- No expiry is made up ----

  /** An expiry is recorded exactly when epochs have a known length, and never one later
      than a storage bought now would have. */
  predicate PaidAtMost(cfg: Config, rec: Record, now: Time) {
    && (cfg.epochDuration <= 0 ==> rec.expiresAt == None)
    && (cfg.epochDuration > 0 ==>
          rec.expiresAt.Some? && rec.expiresAt.value <= now + cfg.epochs * cfg.epochDuration)
  }

  predicate NotAhead(a: Actor, now: Time) {
    match a
    case Packed(_, _, _, at) => at <= now
    case Direct(_, _, at) => at <= now
    case Worker(_, _, _, HasStored(_, _, _, at)) => at <= now
    case _ => true
  }

  ghost predicate PaidInv(c: World, s: State) {
    && (forall k :: k in s.db.index ==> PaidAtMost(c.cfg, s.db.index[k], s.now))
    && (forall id :: id in s.actors ==> NotAhead(s.actors[id], s.now))
  }

  lemma BoughtBefore(cfg: Config, rec: Record, at: Time, now: Time)
    requires rec.expiresAt == cfg.Expiry(at) && at <= now
    ensures PaidAtMost(cfg, rec, now)
  {
  }

  lemma RowsArePaid(c: World, s: State, l: Label, k: Key)
    requires Inv(c, s) && PaidInv(c, s) && Enabled(c, s, l) && k in NextDb(c, s, l).index
    ensures PaidAtMost(c.cfg, NextDb(c, s, l).index[k], s.now)
  {
    match l
    case EndDirect(id, _) =>
      UpsertShape(s.db.index, s.actors[id].recs);
      WrittenArePaid(c, s, id, s.actors[id].recs, s.actors[id].at);
    case Promotion(id) => PromotedArePaid(c, s, id, k);
    case UnseenPromotion(id) => PromotedArePaid(c, s, id, k);
    case ScanUpdate(id) =>
      var a := s.actors[id];
      assert GoodActor(c, s.walrus, a) && NotAhead(a, s.now);
      if s.db.index[k].blobId == a.todo[0] { BoughtBefore(c.cfg, NextDb(c, s, l).index[k], a.phase.at, s.now); }
    case _ =>
  }

  lemma WrittenArePaid(c: World, s: State, id: nat, recs: seq<KeyRecord>, at: Time)
    requires Inv(c, s) && PaidInv(c, s) && id in s.actors && (s.actors[id].Packed? || s.actors[id].Direct?)
    requires recs == s.actors[id].recs && at == s.actors[id].at
    ensures forall kr :: kr in recs ==> PaidAtMost(c.cfg, kr.rec, s.now)
  {
    assert GoodActor(c, s.walrus, s.actors[id]) && NotAhead(s.actors[id], s.now);
    forall kr | kr in recs ensures PaidAtMost(c.cfg, kr.rec, s.now) { BoughtBefore(c.cfg, kr.rec, at, s.now); }
  }

  lemma PromotedArePaid(c: World, s: State, id: nat, k: Key)
    requires Inv(c, s) && PaidInv(c, s) && id in s.actors && s.actors[id].Packed?
    requires k in Promote(s.db, s.actors[id].recs).index
    ensures PaidAtMost(c.cfg, Promote(s.db, s.actors[id].recs).index[k], s.now)
  {
    var recs := s.actors[id].recs;
    LiveShape(s.db.staging, recs);
    UpsertShape(s.db.index, Live(s.db.staging, recs));
    WrittenArePaid(c, s, id, recs, s.actors[id].at);
  }

  lemma StepKeepsPaidInv(c: World, s: State, l: Label)
    requires Inv(c, s) && PaidInv(c, s) && Enabled(c, s, l)
    ensures PaidInv(c, Next(c, s, l))
  {
    var s' := Next(c, s, l);
    forall k | k in s'.db.index ensures PaidAtMost(c.cfg, s'.db.index[k], s'.now) { RowsArePaid(c, s, l, k); }
    forall id | id in s'.actors ensures NotAhead(s'.actors[id], s'.now) {
      assert id in s.actors ==> NotAhead(s.actors[id], s.now);
    }
  }

  /** In every reachable state: a recorded expiry lies within one paid window from now. */
  lemma {:induction false} NoExpiryIsMadeUp(c: World, r: Run, i: nat)
    requires c.cfg.Valid() && IsRun(c, r) && i < |r.states|
    ensures PaidInv(c, r.states[i])
  {
    if i > 0 {
      NoExpiryIsMadeUp(c, r, i - 1);
      RunKeepsInv(c, r, i - 1);
      assert StepAt(c, r, i - 1);
      StepKeepsPaidInv(c, r.states[i - 1], r.labels[i - 1]);
    }
  }
}
