/** One renewal scan run to its end with no concurrent writer, step by step; module
    Renewal treats it as an actor among others. */
module Renewer {
  import opened Types
  import opened Tables
  import opened Index
  import opened Queries
  import opened Client
  import opened Renewal
  import Encoding

  /** What the outside answers while one blob is renewed: the aggregators, the
      publisher, the database, and the clock when the expiry is computed. */
  datatype Upkeep = Upkeep(answers: seq<Answer>, store: Bytes -> Option<StoreResult>, up: bool, now: Time,
                           cancelled: bool)

  datatype Fresh = Fresh(res: StoreResult, encoded: int, expiresAt: Option<Time>)

  function Outcome(cfg: Config, u: Upkeep): Option<Fresh> {
    match FirstWhole(u.answers)
    case Err(_) => None
    case Ok(data) =>
      match u.store(data)
      case None => None
      case Some(res) =>
        if u.up then Some(Fresh(res, Encoding.EncodedSize(res.encodedSize, |data|, cfg.nShards), cfg.Expiry(u.now)))
          else None
  }

  function Refreshed(rec: Record, f: Fresh): Record {
    rec.(blobId := f.res.blobId, objectId := f.res.objectId, encodedSize := f.encoded,
         cost := f.res.cost, endEpoch := f.res.endEpoch, expiresAt := f.expiresAt)
  }

  function RenewOne(cfg: Config, index: map<Key, Record>, blob: string, u: Upkeep): map<Key, Record> {
    match Outcome(cfg, u)
    case None => index
    case Some(f) => UpdateBlob(index, blob, f.res, f.encoded, f.expiresAt)
  }

  function RenewFirst(cfg: Config, index: map<Key, Record>, due: seq<string>, world: nat -> Upkeep): map<Key, Record> {
    if due == [] then index
    else RenewOne(cfg, RenewFirst(cfg, index, due[..|due| - 1], world), due[|due| - 1], world(|due| - 1))
  }

  method RenewBlob(idx: PostgresIndex, cfg: Config, blob: string, u: Upkeep) returns (ok: bool)
    modifies idx`index
    ensures idx.index == RenewOne(cfg, old(idx.index), blob, u)
    ensures ok <==> Outcome(cfg, u).Some?
  {
    var data := Read(u.answers);
    if data.Err? { return false; }
    var stored := u.store(data.value[..]);
    if stored.None? { return false; }
    var res := stored.value;
    var encoded := res.encodedSize;
    if encoded <= 0 { encoded := Encoding.EncodedBlobLength(data.value.Length, cfg.nShards); }
    var expiresAt := if cfg.epochDuration > 0 then Some(u.now + cfg.epochs * cfg.epochDuration) else None;
    if !u.up { return false; }
    idx.UpdateBlobAfterRenewal(blob, res, encoded, expiresAt);
    ok := true;
  }

  /** The scan: every due blob in turn, failures skipped, until cancelled; nothing at all
      when the listing query fails. */
  method RenewExpiring(idx: PostgresIndex, cfg: Config, start: Time, listed: bool, world: nat -> Upkeep)
    returns (ok: bool, handled: nat, ghost due: seq<string>)
    modifies idx`index
    ensures TakesOn(cfg, old(idx.index), start, due)
    ensures due == DueForRenewal(old(idx.index), start + cfg.Lead(), RENEW_BATCH_SIZE)
    ensures !listed ==> !ok && handled == 0
    ensures handled <= |due| && idx.index == RenewFirst(cfg, old(idx.index), due[..handled], world)
    ensures ok <==> listed && handled == |due|
    ensures !ok ==> !listed || world(handled).cancelled
  {
    var lead := cfg.renewLead;
    if lead <= 0 { lead := cfg.epochDuration; }
    var items := ListDue(idx, start + lead);
    due := items;
    ScanTakesOn(cfg, idx.index, start, due);
    if !listed { return false, 0, due; }
    ok, handled := RenewItems(idx, cfg, items, world);
  }

  /** The listing query. */
  method ListDue(idx: PostgresIndex, before: Time) returns (items: seq<string>)
    ensures items == DueForRenewal(idx.index, before, RENEW_BATCH_SIZE)
    ensures Distinct(items) && |items| <= 256 && NamesAll(DueBlobs(idx.index, before), items)
  {
    items := DueForRenewal(idx.index, before, RENEW_BATCH_SIZE);
    ListNames(idx.index, before, DueBlobs(idx.index, before), items);
  }

  /** A scan names blobs with a row that expires within the lead, which is one epoch when
      none is configured: each once, at most a batch, and all of them when they fit one. */
  predicate TakesOn(cfg: Config, index: map<Key, Record>, start: Time, due: seq<string>) {
    && Distinct(due) && |due| <= 256
    && (cfg.renewLead <= 0 ==> NamesAll(ExpiringBy(index, start + cfg.epochDuration), due))
    && (cfg.renewLead > 0 ==> NamesAll(ExpiringBy(index, start + cfg.renewLead), due))
  }

  predicate NamesAll(blobs: set<string>, due: seq<string>) {
    && (forall b :: b in due ==> b in blobs)
    && (|blobs| <= 256 ==> forall b :: b in blobs ==> b in due)
  }

  lemma ScanTakesOn(cfg: Config, index: map<Key, Record>, start: Time, due: seq<string>)
    requires Distinct(due) && |due| <= 256 && NamesAll(DueBlobs(index, start + cfg.Lead()), due)
    ensures TakesOn(cfg, index, start, due)
  {
    DueAreExpiring(index, start + cfg.Lead());
  }

  lemma ListNames(index: map<Key, Record>, before: Time, blobs: set<string>, due: seq<string>)
    requires blobs == DueBlobs(index, before) && due == DueForRenewal(index, before, RENEW_BATCH_SIZE)
    ensures Distinct(due) && |due| <= 256 && NamesAll(blobs, due)
  {
    DueForRenewalIsExact(index, before, RENEW_BATCH_SIZE);
  }

  /** The loop of the scan. */
  method RenewItems(idx: PostgresIndex, cfg: Config, items: seq<string>, world: nat -> Upkeep)
    returns (ok: bool, handled: nat)
    modifies idx`index
    ensures handled <= |items| && idx.index == RenewFirst(cfg, old(idx.index), items[..handled], world)
    ensures (ok <==> handled == |items|) && (!ok ==> world(handled).cancelled)
  {
    handled := 0;
    while handled < |items|
      invariant handled <= |items|
      invariant idx.index == RenewFirst(cfg, old(idx.index), items[..handled], world)
    {
      if world(handled).cancelled { return false, handled; }
      TakeOneMore(items, handled);
      var renewed := RenewBlob(idx, cfg, items[handled], world(handled));
      handled := handled + 1;
    }
    ok := true;
  }

  // ---- What a scan means ----

  /** Walrus as it stands after the scan: reads are honest, and what was stored is there. */
  ghost predicate Faithful(w: Walrus, blob: string, u: Upkeep) {
    && (blob in w.blobs ==> AllServeWhole(u.answers, w.blobs[blob]))
    && forall v :: u.store(v).Some? ==> u.store(v).value.blobId in w.blobs && w.blobs[u.store(v).value.blobId] == v
  }

  lemma OneKeepsMeaning(cfg: Config, w: Walrus, index: map<Key, Record>, blob: string, u: Upkeep, k: Key, v: Bytes)
    requires Faithful(w, blob, u) && k in index && Decodes(w, index[k], v)
    ensures k in RenewOne(cfg, index, blob, u) && Decodes(w, RenewOne(cfg, index, blob, u)[k], v)
  {
    if index[k].blobId == blob && Outcome(cfg, u).Some? {
      FailoverReadsTheWhole(u.answers, w.blobs[blob]);
    }
  }

  /** A scan adds and removes no key, and every row decodes to the bytes it decoded to. */
  lemma {:induction false} ScanKeepsMeaning(cfg: Config, w: Walrus, index: map<Key, Record>, due: seq<string>,
                                            world: nat -> Upkeep, k: Key, v: Bytes)
    requires forall i :: 0 <= i < |due| ==> Faithful(w, due[i], world(i))
    requires k in index && Decodes(w, index[k], v)
    ensures RenewFirst(cfg, index, due, world).Keys == index.Keys
    ensures Decodes(w, RenewFirst(cfg, index, due, world)[k], v)
  {
    if due != [] {
      var n := |due| - 1;
      ScanKeepsMeaning(cfg, w, index, due[..n], world, k, v);
      OneKeepsMeaning(cfg, w, RenewFirst(cfg, index, due[..n], world), due[n], world(n), k, v);
    }
  }

  /** Blob ids are derived from content: storing a blob's bytes again gives its own id. */
  ghost predicate SameId(cfg: Config, blob: string, u: Upkeep) {
    Outcome(cfg, u).Some? ==> Outcome(cfg, u).value.res.blobId == blob
  }

  /** Which outcome, if any, a row on this blob ends up with. */
  ghost predicate EndsAs(cfg: Config, before: Record, after: Record, due: seq<string>, world: nat -> Upkeep) {
    && (before.blobId !in due ==> after == before)
    && forall i :: 0 <= i < |due| && due[i] == before.blobId ==>
         after == match Outcome(cfg, world(i)) { case None => before case Some(f) => Refreshed(before, f) }
  }

  /** Each due blob is renewed exactly once, by its own outcome and for all its rows at
      once; rows of other blobs, and of blobs whose renewal failed, stay as they were. */
  lemma {:induction false} EachDueBlobOnce(cfg: Config, index: map<Key, Record>, due: seq<string>,
                                           world: nat -> Upkeep, k: Key)
    requires Distinct(due) && k in index
    requires forall i :: 0 <= i < |due| ==> SameId(cfg, due[i], world(i))
    ensures k in RenewFirst(cfg, index, due, world)
    ensures EndsAs(cfg, index[k], RenewFirst(cfg, index, due, world)[k], due, world)
  {
    if due != [] {
      var n := |due| - 1;
      var front := due[..n];
      EachDueBlobOnce(cfg, index, front, world, k);
      LastOfScan(cfg, index[k], RenewFirst(cfg, index, front, world), due, world, k);
    }
  }

  lemma LastOfScan(cfg: Config, before: Record, mid: map<Key, Record>, due: seq<string>, world: nat -> Upkeep, k: Key)
    requires due != [] && Distinct(due) && k in mid
    requires forall i :: 0 <= i < |due| ==> SameId(cfg, due[i], world(i))
    requires EndsAs(cfg, before, mid[k], due[..|due| - 1], world)
    ensures EndsAs(cfg, before, RenewOne(cfg, mid, due[|due| - 1], world(|due| - 1))[k], due, world)
  {
    var n := |due| - 1;
    var front := due[..n];
    if before.blobId in front {
      var j :| 0 <= j < |front| && front[j] == before.blobId;
      assert due[j] != due[n];
      assert mid[k].blobId == before.blobId by { assert SameId(cfg, due[j], world(j)); }
    }
    forall i | 0 <= i < |due| && due[i] == before.blobId
      ensures RenewOne(cfg, mid, due[n], world(n))[k] == match Outcome(cfg, world(i)) {
        case None => before case Some(f) => Refreshed(before, f)
      }
    {
      if i < n { assert front[i] == before.blobId; } else { assert before.blobId !in front; }
    }
    assert due == front + [due[n]];
  }

  /** Every renewal on the list succeeds and keeps its blob's id. */
  ghost predicate AllRenewed(cfg: Config, due: seq<string>, world: nat -> Upkeep) {
    forall i :: 0 <= i < |due| ==> SameId(cfg, due[i], world(i)) && Outcome(cfg, world(i)).Some?
  }

  /** A scan that is not cancelled, finds at most a batch due and renews all of it
      leaves every row that was due with a full paid window from its renewal. */
  lemma DueRowsAreExtended(cfg: Config, index: map<Key, Record>, start: Time, world: nat -> Upkeep, k: Key,
                           due: seq<string>) returns (i: nat)
    requires due == DueForRenewal(index, start + cfg.Lead(), RENEW_BATCH_SIZE)
    requires |DueBlobs(index, start + cfg.Lead())| <= RENEW_BATCH_SIZE
    requires AllRenewed(cfg, due, world)
    requires k in index && IsDue(index[k], start + cfg.Lead())
    ensures i < |due| && due[i] == index[k].blobId
    ensures k in RenewFirst(cfg, index, due, world)
    ensures RenewFirst(cfg, index, due, world)[k].expiresAt == cfg.Expiry(world(i).now)
  {
    ListNamesOnce(index, start + cfg.Lead(), k, due, index[k].blobId);
    i := RowIsExtended(cfg, index, world, k, due);
  }

  lemma ListNamesOnce(index: map<Key, Record>, before: Time, k: Key, due: seq<string>, b: string)
    requires due == DueForRenewal(index, before, RENEW_BATCH_SIZE) && |DueBlobs(index, before)| <= RENEW_BATCH_SIZE
    requires k in index && IsDue(index[k], before) && b == index[k].blobId
    ensures Distinct(due) && b in due
  {
    DueIsListed(index, before, k, b);
    DueIsDistinct(index, before, RENEW_BATCH_SIZE);
  }

  lemma RowIsExtended(cfg: Config, index: map<Key, Record>, world: nat -> Upkeep, k: Key, due: seq<string>)
    returns (i: nat)
    requires Distinct(due) && k in index && index[k].blobId in due && AllRenewed(cfg, due, world)
    ensures i < |due| && due[i] == index[k].blobId
    ensures k in RenewFirst(cfg, index, due, world)
    ensures RenewFirst(cfg, index, due, world)[k].expiresAt == cfg.Expiry(world(i).now)
  {
    EachDueBlobOnce(cfg, index, due, world, k);
    i :| 0 <= i < |due| && due[i] == index[k].blobId;
    RenewedExpiry(cfg, index[k], RenewFirst(cfg, index, due, world)[k], due, world, i);
  }

  lemma RenewedExpiry(cfg: Config, before: Record, after: Record, due: seq<string>, world: nat -> Upkeep, i: nat)
    requires i < |due| && due[i] == before.blobId && EndsAs(cfg, before, after, due, world)
    requires Outcome(cfg, world(i)).Some?
    ensures after.expiresAt == cfg.Expiry(world(i).now)
  {
  }
}
