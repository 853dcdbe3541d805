/** What a user sees over whole runs: the readable blocks change only at puts and
    deletes, and two-probe reads are linearizable. */
module Safety {
  import opened Types
  import opened Tables
  import opened Queries
  import opened Protocol

  // ---- The abstract store ----

  /** Which steps a user would call a write, and what each does to the set of keys. */
  function Effect(present: set<Key>, l: Label): set<Key> {
    match l
    case Put(entries) => present + EntryKeys(entries)
    case EndDirect(_, key) => present + {key}
    case Delete(gone) => present - gone
    case _ => present
  }

  function Effects(labels: seq<Label>): set<Key> {
    if labels == [] then {} else Effect(Effects(labels[..|labels| - 1]), labels[|labels| - 1])
  }

  function ReadRecord(w: Walrus, rec: Record): Option<Bytes> {
    if rec.patchId != "" then
      if rec.patchId in w.patches then Some(w.patches[rec.patchId]) else None
    else if rec.blobId in w.blobs && 0 <= rec.offset && 0 <= rec.size
      && rec.offset + rec.size <= |w.blobs[rec.blobId]| then
      Some(w.blobs[rec.blobId][rec.offset..rec.offset + rec.size])
    else None
  }

  /** Get, with nothing happening in between. */
  function Lookup(s: State, k: Key): Option<Bytes> {
    if k in s.db.staging then Some(s.db.staging[k].value)
    else if k in s.db.index then ReadRecord(s.walrus, s.db.index[k])
    else None
  }

  function Readable(s: State): map<Key, Bytes> {
    map k | k in Present(s.db) && Lookup(s, k).Some? :: Lookup(s, k).value
  }

  function Blocks(c: World, keys: set<Key>): map<Key, Bytes> { map k | k in keys :: c.content(k) }

  lemma LookupIsContent(c: World, s: State, k: Key)
    requires Inv(c, s)
    ensures Lookup(s, k) == if k in Present(s.db) then Some(c.content(k)) else None
    ensures k in Present(s.db) ==> SizeOf(s.db, k) == |c.content(k)|
  {
    if k in s.db.staging {
      assert GoodRow(c, k, s.db.staging[k]);
    }
  }

  lemma ReadableIsBlocks(c: World, s: State)
    requires Inv(c, s)
    ensures Readable(s) == Blocks(c, Present(s.db))
  {
    forall k ensures Lookup(s, k) == if k in Present(s.db) then Some(c.content(k)) else None {
      LookupIsContent(c, s, k);
    }
  }

  /** Only a put or a delete changes which keys are present. */
  lemma StepRefines(c: World, s: State, l: Label)
    requires Inv(c, s) && Enabled(c, s, l)
    ensures Present(NextDb(c, s, l)) == Effect(Present(s.db), l)
  {
    match l
    case Put(entries) => StageAllShape(s.db.staging, entries, s.now);
    case EndDirect(id, key) =>
      assert GoodActor(c, s.walrus, s.actors[id]);
      UpsertShape(s.db.index, s.actors[id].recs);
    case Promotion(id) => PromoteKeepsKeys(s.db, s.actors[id].recs);
    case UnseenPromotion(id) => PromoteKeepsKeys(s.db, s.actors[id].recs);
    case _ =>
  }

  lemma {:induction false} PresentIsEffects(c: World, r: Run, i: nat)
    requires c.cfg.Valid() && IsRun(c, r) && i < |r.states|
    ensures Present(r.states[i].db) == Effects(r.labels[..i])
  {
    if i == 0 {
      assert r.labels[..0] == [];
    } else {
      PresentIsEffects(c, r, i - 1);
      RunKeepsInv(c, r, i - 1);
      assert StepAt(c, r, i - 1);
      StepRefines(c, r.states[i - 1], r.labels[i - 1]);
      assert r.labels[..i][..i - 1] == r.labels[..i - 1];
    }
  }

  /** In every state of every run the readable blocks are those that the puts and
      deletes so far leave behind, each with its own bytes. */
  lemma RunRefinesStore(c: World, r: Run, i: nat)
    requires c.cfg.Valid() && IsRun(c, r) && i < |r.states|
    ensures Readable(r.states[i]) == Blocks(c, Effects(r.labels[..i]))
  {
    RunKeepsInv(c, r, i);
    ReadableIsBlocks(c, r.states[i]);
    PresentIsEffects(c, r, i);
  }

  predicate Writes(l: Label, k: Key) {
    (l.Put? && k in EntryKeys(l.entries)) || (l.EndDirect? && l.key == k)
  }

  predicate Deletes(l: Label, k: Key) { l.Delete? && k in l.gone }

  ghost predicate LastWritten(labels: seq<Label>, k: Key) {
    exists i :: 0 <= i < |labels| && Writes(labels[i], k) && forall m :: i < m < |labels| ==> !Deletes(labels[m], k)
  }

  lemma LastWrittenStep(labels: seq<Label>, last: Label, k: Key)
    ensures LastWritten(labels + [last], k) <==> Writes(last, k) || (LastWritten(labels, k) && !Deletes(last, k))
  {
    var all, n := labels + [last], |labels|;
    if LastWritten(all, k) {
      var i :| 0 <= i <= n && Writes(all[i], k) && forall m :: i < m <= n ==> !Deletes(all[m], k);
      if i < n {
        assert !Deletes(all[n], k) && Writes(labels[i], k);
        assert forall m :: i < m < n ==> labels[m] == all[m];
      }
    }
    if LastWritten(labels, k) && !Deletes(last, k) {
      var i :| 0 <= i < n && Writes(labels[i], k) && forall m :: i < m < n ==> !Deletes(labels[m], k);
      assert Writes(all[i], k);
    }
    if Writes(last, k) { assert Writes(all[n], k); }
  }

  lemma {:induction false} EffectsAreLastWrites(labels: seq<Label>, k: Key)
    ensures k in Effects(labels) <==> LastWritten(labels, k)
  {
    if labels != [] {
      var n := |labels| - 1;
      EffectsAreLastWrites(labels[..n], k);
      LastWrittenStep(labels[..n], labels[n], k);
      assert labels == labels[..n] + [labels[n]];
    }
  }

  /** An acknowledged block stays readable until it is deleted, and a deleted one stays
      gone until it is put again, whatever packs and renewals are in flight. */
  lemma NeverLostNeverResurrected(c: World, r: Run, i: nat, k: Key)
    requires c.cfg.Valid() && IsRun(c, r) && i < |r.states|
    ensures Lookup(r.states[i], k) == if LastWritten(r.labels[..i], k) then Some(c.content(k)) else None
  {
    RunKeepsInv(c, r, i);
    LookupIsContent(c, r.states[i], k);
    PresentIsEffects(c, r, i);
    EffectsAreLastWrites(r.labels[..i], k);
  }

  /** Listing and sizes: in every reachable state the tables agree, so List is exact. */
  lemma ListIsExactInEveryState(c: World, r: Run, i: nat, prefix: string)
    requires c.cfg.Valid() && IsRun(c, r) && i < |r.states|
    ensures AscendingKeys(Listing(r.states[i].db, prefix))
    ensures forall k :: k in RowKeys(Listing(r.states[i].db, prefix)) <==>
      k in Readable(r.states[i]) && Under(prefix, k)
    ensures forall row :: row in Listing(r.states[i].db, prefix) ==>
      row.key in Readable(r.states[i])
        && row.size == SizeOf(r.states[i].db, row.key) == |Readable(r.states[i])[row.key]|
  {
    var s := r.states[i];
    RunKeepsInv(c, r, i);
    ReadableIsBlocks(c, s);
    forall k | k in s.db.index && k in s.db.staging ensures s.db.index[k].size == s.db.staging[k].size {
      assert GoodRow(c, k, s.db.staging[k]);
    }
    ListingIsExact(s.db, prefix);
    forall row | row in Listing(s.db, prefix) ensures SizeOf(s.db, row.key) == |c.content(row.key)| {
      LookupIsContent(c, s, row.key);
    }
  }

  // ---- Two-probe reads ----

  function HasAnswer(atStaging: State, atIndex: State, k: Key): bool {
    k in atStaging.db.staging || k in atIndex.db.index
  }

  function SizeAnswer(atStaging: State, atIndex: State, k: Key): Option<int> {
    if k in atStaging.db.staging then Some(atStaging.db.staging[k].size)
    else if k in atIndex.db.index then Some(atIndex.db.index[k].size)
    else None
  }

  /** Get reads Walrus some time after its index probe. */
  function GetAnswer(atStaging: State, atIndex: State, atWalrus: State, k: Key): Option<Bytes> {
    if k in atStaging.db.staging then Some(atStaging.db.staging[k].value)
    else if k in atIndex.db.index then ReadRecord(atWalrus.walrus, atIndex.db.index[k])
    else None
  }

  lemma {:induction false} WalrusOnlyGrows(c: World, r: Run, i: nat, j: nat)
    requires IsRun(c, r) && i <= j < |r.states|
    ensures Grows(r.states[i].walrus, r.states[j].walrus)
    decreases j - i
  {
    if i < j {
      WalrusOnlyGrows(c, r, i, j - 1);
      assert StepAt(c, r, j - 1);
    }
  }

  /** A key that is indexed and stays present stays indexed: nothing moves back to staging. */
  lemma {:induction false} IndexedStaysIndexed(c: World, r: Run, i: nat, j: nat, k: Key)
    requires c.cfg.Valid() && IsRun(c, r) && i <= j < |r.states|
    requires k in r.states[i].db.index
    requires forall m :: i <= m <= j ==> k in Present(r.states[m].db)
    ensures k in r.states[j].db.index
    decreases j - i
  {
    if i < j {
      IndexedStaysIndexed(c, r, i, j - 1, k);
      assert StepAt(c, r, j - 1);
      var s, l := r.states[j - 1], r.labels[j - 1];
      match l
      case EndDirect(id, _) => UpsertShape(s.db.index, s.actors[id].recs);
      case Promotion(id) => UpsertShape(s.db.index, Live(s.db.staging, s.actors[id].recs));
      case UnseenPromotion(id) => UpsertShape(s.db.index, Live(s.db.staging, s.actors[id].recs));
      case Delete(gone) => assert k in Present(r.states[j].db);
      case _ =>
    }
  }

  /** Has, GetSize and Get answer as some single state between call and return would:
      staging is probed in state i, the index in state j, and Walrus in state n. */
  lemma ReadsAreLinearizable(c: World, r: Run, i: nat, j: nat, n: nat, k: Key) returns (m: nat)
    requires c.cfg.Valid() && IsRun(c, r) && i <= j <= n < |r.states|
    ensures i <= m <= j
    ensures HasAnswer(r.states[i], r.states[j], k) <==> k in Readable(r.states[m])
    ensures GetAnswer(r.states[i], r.states[j], r.states[n], k) == Lookup(r.states[m], k)
    ensures SizeAnswer(r.states[i], r.states[j], k) ==
      if k in Readable(r.states[m]) then Some(|Readable(r.states[m])[k]|) else None
  {
    if HasAnswer(r.states[i], r.states[j], k) {
      m := if k in r.states[i].db.staging then i else j;
      WalrusOnlyGrows(c, r, j, n);
    } else if forall x :: i <= x <= j ==> k in Present(r.states[x].db) {
      IndexedStaysIndexed(c, r, i, j, k);
      m := i;
    } else {
      m :| i <= m <= j && k !in Present(r.states[m].db);
    }
    RunKeepsInv(c, r, m);
    LookupIsContent(c, r.states[m], k);
    if k in r.states[m].db.staging { assert GoodRow(c, k, r.states[m].db.staging[k]); }
  }
}
