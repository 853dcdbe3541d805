/** Exactly when two flushes come to hold the same block, and why they do not as long as
    flushes beat their lease and claimed keys are not put again. Safety does not rest on
    this; economy does. */
module Leases {
  import opened Types
  import opened Tables
  import opened Protocol

  function Held(s: State, id: nat): set<Key> {
    if id in s.actors && Holds(s.actors[id]) then EntryKeys(s.actors[id].entries) else {}
  }

  ghost predicate Disjoint(s: State) {
    forall i, j :: i in s.actors && j in s.actors && i != j ==> Held(s, i) !! Held(s, j)
  }

  /** No flush has outlived its lease. */
  ghost predicate Timely(s: State) {
    forall id :: id in s.actors && Holds(s.actors[id]) ==> s.now <= s.actors[id].until
  }

  /** The step does not put a key that some flush holds. */
  ghost predicate NoReput(s: State, l: Label) {
    l.Put? ==> forall id :: id in s.actors ==> Held(s, id) !! EntryKeys(l.entries)
  }

  ghost predicate LeaseMatches(s: State, id: nat) {
    forall k :: k in Held(s, id) && k in s.db.staging ==> s.db.staging[k].leasedUntil == Some(s.actors[id].until)
  }

  ghost predicate LeaseInv(s: State) {
    Disjoint(s) && forall id :: id in s.actors ==> LeaseMatches(s, id)
  }

  lemma HeldAfter(c: World, s: State, l: Label, id: nat)
    requires Enabled(c, s, l) && id in Next(c, s, l).actors
    ensures var s' := Next(c, s, l);
      || (l.Lease? && l.id == id && Held(s', id) == LeasedKeys(s.db.staging, s.actors[id].keys, s.now))
      || (Held(s', id) <= Held(s, id) && (Held(s, id) != {} ==>
        Holds(s.actors[id]) && Holds(s'.actors[id]) && s'.actors[id].until == s.actors[id].until))
      || Held(s', id) == {}
  {
  }

  // ---- When a held block can be leased again ----

  /** Actor id took its lease in step p and has held its pack ever since. */
  ghost predicate HeldSince(r: Run, id: nat, p: nat, n: nat) {
    && p < n < |r.states| == |r.labels| + 1
    && r.labels[p].Lease? && r.labels[p].id == id
    && forall m :: p < m <= n ==> Holding(r, id, m)
  }

  ghost predicate Holding(r: Run, id: nat, m: nat)
    requires m < |r.states|
  {
    id in r.states[m].actors && Holds(r.states[m].actors[id])
  }

  ghost predicate PutSince(r: Run, k: Key, p: nat, n: nat)
    requires n <= |r.labels|
  {
    exists m :: p < m < n && Puts(r.labels[m], k)
  }

  predicate Puts(l: Label, k: Key) { l.Put? && k in EntryKeys(l.entries) }

  ghost predicate DisjointTo(r: Run, n: nat)
    requires n < |r.states|
  {
    forall m :: 0 <= m <= n ==> Disjoint(r.states[m])
  }

  lemma {:induction false} HolderHasLease(c: World, r: Run, id: nat, n: nat) returns (p: nat)
    requires IsRun(c, r) && n < |r.states| && Holding(r, id, n)
    ensures HeldSince(r, id, p, n)
  {
    assert n > 0;
    assert StepAt(c, r, n - 1);
    if Holding(r, id, n - 1) {
      p := HolderHasLease(c, r, id, n - 1);
    } else {
      p := n - 1;
    }
  }

  /** One step of any actor, seen from the row of a block that id holds and nobody else does. */
  lemma LeaseStays(c: World, s: State, l: Label, id: nat, k: Key)
    requires Enabled(c, s, l) && Disjoint(s) && Disjoint(Next(c, s, l))
    requires id in s.actors && Holds(s.actors[id]) && id in Next(c, s, l).actors && Holds(Next(c, s, l).actors[id])
    requires k in Held(s, id) && k in NextDb(c, s, l).staging
    ensures Puts(l, k) ==> NextDb(c, s, l).staging[k].leasedUntil == None
    ensures !Puts(l, k) ==> k in s.db.staging && NextDb(c, s, l).staging[k].leasedUntil == s.db.staging[k].leasedUntil
  {
    match l
    case Put(entries) => StageAllShape(s.db.staging, entries, s.now);
    case Lease(j, entries) => LeasedElsewhere(c, s, j, entries, id);
    case Release(j) => assert j != id && Held(s, j) !! Held(s, id);
    case _ =>
  }

  lemma LeasedElsewhere(c: World, s: State, j: nat, entries: seq<StageEntry>, id: nat)
    requires Enabled(c, s, Lease(j, entries)) && Disjoint(Next(c, s, Lease(j, entries)))
    requires id in s.actors && Holds(s.actors[id])
    ensures LeasedKeys(s.db.staging, s.actors[j].keys, s.now) !! Held(s, id)
  {
    var s' := Next(c, s, Lease(j, entries));
    assert Held(s', id) == Held(s, id);
    if entries != [] { assert Held(s', j) == EntryKeys(entries); }
    assert j in s'.actors ==> Held(s', j) !! Held(s', id);
  }

  /** While packs are disjoint, a held block's row keeps the lease it was given until the
      key is put again, and from then on has none. */
  lemma {:induction false} HeldRowLease(c: World, r: Run, id: nat, p: nat, n: nat, k: Key)
    requires IsRun(c, r) && HeldSince(r, id, p, n) && DisjointTo(r, n)
    requires k in Held(r.states[n], id)
    ensures r.states[n].actors[id].until == r.states[p].now + STAGE_LEASE
    ensures k in r.states[n].db.staging ==>
      r.states[n].db.staging[k].leasedUntil == if PutSince(r, k, p, n) then None
        else Some(r.states[p].now + STAGE_LEASE)
    decreases n
  {
    var s, l := r.states[n - 1], r.labels[n - 1];
    assert StepAt(c, r, n - 1);
    if p < n - 1 {
      assert Holding(r, id, n - 1) && Holding(r, id, n);
      HeldIsKept(c, s, l, id);
      HeldRowLease(c, r, id, p, n - 1, k);
      if k in r.states[n].db.staging { LeaseStays(c, s, l, id, k); }
      if Puts(l, k) { assert PutSince(r, k, p, n); }
    } else {
      assert Holding(r, id, n);
    }
  }

  lemma HeldIsKept(c: World, s: State, l: Label, id: nat)
    requires Enabled(c, s, l)
    requires id in s.actors && Holds(s.actors[id]) && id in Next(c, s, l).actors && Holds(Next(c, s, l).actors[id])
    ensures Held(Next(c, s, l), id) == Held(s, id) && Next(c, s, l).actors[id].until == s.actors[id].until
  {
  }

  /** While packs are disjoint, a block that id has held since step p can be claimed by
      somebody else if and only if it was put again or its lease has run out. */
  lemma HeldIsClaimableIff(c: World, r: Run, id: nat, p: nat, n: nat, k: Key)
    requires IsRun(c, r) && HeldSince(r, id, p, n) && DisjointTo(r, n)
    requires k in Held(r.states[n], id) && k in r.states[n].db.staging
    ensures Claimable(r.states[n].db.staging[k], r.states[n].now)
       <==> PutSince(r, k, p, n) || r.states[n].now > r.states[p].now + 15 * 60
  {
    HeldRowLease(c, r, id, p, n, k);
  }

  // ---- Exactly when packs overlap ----

  /** Step n leases a candidate that is still staged and that somebody took in step p and
      holds, although it was put again since or its lease has run out. */
  ghost predicate Retakes(r: Run, n: nat, id: nat, p: nat, k: Key)
    requires n < |r.labels| && |r.states| == |r.labels| + 1
  {
    && r.labels[n].Lease? && r.labels[n].id in r.states[n].actors && r.states[n].actors[r.labels[n].id].Selected?
    && HeldSince(r, id, p, n) && k in Held(r.states[n], id)
    && k in r.states[n].actors[r.labels[n].id].keys && k in r.states[n].db.staging
    && (PutSince(r, k, p, n) || r.states[n].now > r.states[p].now + 15 * 60)
  }

  ghost predicate Retaken(r: Run, n: nat)
    requires n < |r.labels| && |r.states| == |r.labels| + 1
  {
    exists id, p, k :: Retakes(r, n, id, p, k)
  }

  lemma RetakingOverlaps(c: World, r: Run, n: nat, id: nat, p: nat, k: Key)
    requires IsRun(c, r) && n < |r.labels| && DisjointTo(r, n) && Retakes(r, n, id, p, k)
    ensures !Disjoint(r.states[n + 1])
  {
    HeldIsClaimableIff(c, r, id, p, n, k);
    assert StepAt(c, r, n);
    var j := r.labels[n].id;
    assert Holding(r, id, n);
    assert k in Held(r.states[n + 1], id) && k in Held(r.states[n + 1], j);
  }

  /** Two holders after a step: if they share a block, the step leased it to one of them
      while the other held it. */
  lemma SharedWasHeld(c: World, s: State, l: Label, i: nat, j: nat, k: Key) returns (id: nat)
    requires Enabled(c, s, l) && Disjoint(s)
    requires i in Next(c, s, l).actors && j in Next(c, s, l).actors && i != j
    requires k in Held(Next(c, s, l), i) && k in Held(Next(c, s, l), j)
    ensures l.Lease? && id in s.actors && Holds(s.actors[id]) && k in Held(s, id)
    ensures k in LeasedKeys(s.db.staging, s.actors[l.id].keys, s.now)
  {
    HeldAfter(c, s, l, i);
    HeldAfter(c, s, l, j);
    assert i in s.actors && j in s.actors ==> Held(s, i) !! Held(s, j);
    id := if l.Lease? && l.id == i then j else i;
  }

  /** From states disjoint so far, a step makes packs overlap if and only if it leases a
      held block that was put again since or whose lease has run out. */
  lemma OverlapsIff(c: World, r: Run, n: nat)
    requires IsRun(c, r) && n < |r.labels| && DisjointTo(r, n)
    ensures !Disjoint(r.states[n + 1]) <==> Retaken(r, n)
  {
    assert StepAt(c, r, n);
    var s, s' := r.states[n], r.states[n + 1];
    if !Disjoint(s') {
      var i, j :| i in s'.actors && j in s'.actors && i != j && !(Held(s', i) !! Held(s', j));
      var k :| k in Held(s', i) && k in Held(s', j);
      var id := SharedWasHeld(c, s, r.labels[n], i, j, k);
      assert Holding(r, id, n);
      var p := HolderHasLease(c, r, id, n);
      HeldIsClaimableIff(c, r, id, p, n, k);
      assert Retakes(r, n, id, p, k);
    }
    if Retaken(r, n) {
      var id, p, k :| Retakes(r, n, id, p, k);
      RetakingOverlaps(c, r, n, id, p, k);
    }
  }

  /** Over whole runs: no two nodes ever hold the same block if and only if no lease
      step retakes a held block. */
  lemma {:induction false} DisjointIffNeverRetaken(c: World, r: Run, i: nat)
    requires IsRun(c, r) && i < |r.states|
    ensures DisjointTo(r, i) <==> forall n :: 0 <= n < i ==> !Retaken(r, n)
  {
    if i > 0 {
      DisjointIffNeverRetaken(c, r, i - 1);
      if DisjointTo(r, i - 1) { OverlapsIff(c, r, i - 1); }
      assert DisjointTo(r, i) ==> DisjointTo(r, i - 1);
    }
  }

  // ---- Two hypotheses that suffice ----

  lemma {:induction false} NotPutWhileHeld(c: World, r: Run, id: nat, p: nat, n: nat, k: Key)
    requires IsRun(c, r) && HeldSince(r, id, p, n) && k in Held(r.states[n], id)
    requires forall m :: 0 <= m < n ==> NoReput(r.states[m], r.labels[m])
    ensures !PutSince(r, k, p, n)
    decreases n
  {
    if p < n - 1 {
      assert StepAt(c, r, n - 1) && Holding(r, id, n - 1) && Holding(r, id, n);
      HeldIsKept(c, r.states[n - 1], r.labels[n - 1], id);
      NotPutWhileHeld(c, r, id, p, n - 1, k);
      assert NoReput(r.states[n - 1], r.labels[n - 1]);
    }
  }

  lemma NotRetaken(c: World, r: Run, n: nat)
    requires IsRun(c, r) && n < |r.labels| && DisjointTo(r, n)
    requires forall m :: 0 <= m <= n ==> Timely(r.states[m]) && NoReput(r.states[m], r.labels[m])
    ensures !Retaken(r, n)
  {
    forall id, p, k | Retakes(r, n, id, p, k) ensures false {
      assert Holding(r, id, n) && Timely(r.states[n]);
      HeldRowLease(c, r, id, p, n, k);
      NotPutWhileHeld(c, r, id, p, n, k);
    }
  }

  lemma {:induction false} HypothesesSuffice(c: World, r: Run, i: nat)
    requires IsRun(c, r) && i < |r.states|
    requires forall m :: 0 <= m < i ==> Timely(r.states[m]) && NoReput(r.states[m], r.labels[m])
    ensures DisjointTo(r, i)
  {
    if i > 0 {
      HypothesesSuffice(c, r, i - 1);
      NotRetaken(c, r, i - 1);
      OverlapsIff(c, r, i - 1);
    }
  }

  /** Two nodes never hold the same block, though candidates are chosen in one statement
      and leased in another, if flushes beat their lease and held keys are not put again. */
  lemma InFlightPacksAreDisjoint(c: World, r: Run, i: nat)
    requires IsRun(c, r) && i < |r.states|
    requires forall m :: 0 <= m < i ==> Timely(r.states[m]) && NoReput(r.states[m], r.labels[m])
    ensures LeaseInv(r.states[i])
  {
    HypothesesSuffice(c, r, i);
    assert Disjoint(r.states[i]);
    forall id | id in r.states[i].actors ensures LeaseMatches(r.states[i], id) {
      if Holding(r, id, i) { HeldRowsMatch(c, r, id, i); }
    }
  }

  lemma HeldRowsMatch(c: World, r: Run, id: nat, i: nat)
    requires IsRun(c, r) && i < |r.states| && Holding(r, id, i) && DisjointTo(r, i)
    requires forall m :: 0 <= m < i ==> NoReput(r.states[m], r.labels[m])
    ensures LeaseMatches(r.states[i], id)
  {
    var p := HolderHasLease(c, r, id, i);
    forall k | k in Held(r.states[i], id) && k in r.states[i].db.staging
      ensures r.states[i].db.staging[k].leasedUntil == Some(r.states[i].actors[id].until)
    {
      HeldRowLease(c, r, id, p, i, k);
      NotPutWhileHeld(c, r, id, p, i, k);
    }
  }
}
