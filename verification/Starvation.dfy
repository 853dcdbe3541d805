/** Which due blobs a renewal scan takes on, and which it leaves waiting: a scan names
    at most a batch, so blobs whose renewal keeps failing can keep others out for ever. */
module Starvation {
  import opened Types
  import opened Ordering
  import opened Tables
  import opened Queries
  import opened Packing
  import opened Renewer

  /** Some row of blob a is due before every due row of blob b. */
  ghost predicate Sooner(index: map<Key, Record>, before: Time, a: string, b: string) {
    exists x :: DueRowOf(index, before, x, a) && AheadOfAll(index, before, x, b)
  }

  predicate DueRowOf(index: map<Key, Record>, before: Time, k: Key, b: string) {
    k in index && IsDue(index[k], before) && index[k].blobId == b
  }

  ghost predicate AheadOfAll(index: map<Key, Record>, before: Time, x: Key, b: string)
    requires x in index && IsDue(index[x], before)
  {
    forall k :: DueRowOf(index, before, k, b) ==> Before(DueRow(index, x), DueRow(index, k))
  }

  /** The due blobs that are waiting in front of b. */
  ghost function AheadOf(index: map<Key, Record>, before: Time, b: string): set<string> {
    set a | a in DueBlobs(index, before) && Sooner(index, before, a, b)
  }

  // ---- A due blob is on the list exactly when less than a batch is ahead of it ----

  lemma {:induction false} FirstIndex(keys: seq<string>, b: string) returns (i: nat)
    requires b in keys
    ensures i < |keys| && keys[i] == b && b !in keys[..i]
  {
    var n := |keys| - 1;
    var front := keys[..n];
    if b in front {
      i := FirstIndex(front, b);
      assert front[..i] == keys[..i];
    } else {
      i := n;
      assert keys == front + [keys[n]];
    }
  }

  /** Where b stands in the list: right after the blobs that occur before it first does. */
  lemma PlaceInLine(keys: seq<string>, b: string, i: nat)
    requires i < |keys| && keys[i] == b && b !in keys[..i]
    ensures FirstSeen(keys[..i]) + [b] <= FirstSeen(keys)
  {
    FirstSeenShape(keys[..i]);
    FirstSeenPrefix(keys, i + 1);
    assert keys[..i + 1][..i] == keys[..i];
  }

  lemma RowAt(index: map<Key, Record>, before: Time, k: Key, rows: seq<Row>) returns (q: nat)
    requires rows == DueRows(index, before) && k in index && IsDue(index[k], before)
    ensures q < |rows| && rows[q] == DueRow(index, k) && RowKeys(rows)[q] == index[k].blobId
  {
    assert DueRow(index, k) in rows;
    q :| 0 <= q < |rows| && rows[q] == DueRow(index, k);
  }

  lemma KeyAt(index: map<Key, Record>, before: Time, rows: seq<Row>, q: nat) returns (k: Key)
    requires rows == DueRows(index, before) && q < |rows|
    ensures k in index && IsDue(index[k], before) && rows[q] == DueRow(index, k) && index[k].blobId == RowKeys(rows)[q]
  {
    assert rows[q] in rows;
    k :| k in index && IsDue(index[k], before) && rows[q] == DueRow(index, k);
  }

  lemma EarlierIsSooner(index: map<Key, Record>, before: Time, rows: seq<Row>, b: string, i: nat, m: nat)
    requires rows == DueRows(index, before) && m < i < |rows|
    requires b !in RowKeys(rows)[..i]
    ensures Sooner(index, before, RowKeys(rows)[m], b)
  {
    var x := KeyAt(index, before, rows, m);
    var head := RowKeys(rows)[..i];
    assert forall p :: 0 <= p < i ==> head[p] == RowKeys(rows)[p] && head[p] in head;
    forall k | DueRowOf(index, before, k, b) ensures Before(DueRow(index, x), DueRow(index, k)) {
      var q := RowAt(index, before, k, rows);
      assert q >= i;
    }
    assert AheadOfAll(index, before, x, b);
  }

  lemma SoonerIsEarlier(index: map<Key, Record>, before: Time, rows: seq<Row>, a: string, i: nat)
    requires rows == DueRows(index, before) && i < |rows| && Sooner(index, before, a, RowKeys(rows)[i])
    ensures a in RowKeys(rows)[..i]
  {
    var b := RowKeys(rows)[i];
    var x :| DueRowOf(index, before, x, a) && AheadOfAll(index, before, x, b);
    var m := RowAt(index, before, x, rows);
    var k := KeyAt(index, before, rows, i);
    assert DueRowOf(index, before, k, b);
    EarlierRow(rows, m, i);
    assert RowKeys(rows)[..i][m] == a;
  }

  lemma EarlierRow(rows: seq<Row>, m: nat, i: nat)
    requires Ascending(rows) && m < |rows| && i < |rows| && Before(rows[m], rows[i])
    ensures m < i
  {
    BeforeIsStrictOrder();
  }

  lemma LineBefore(index: map<Key, Record>, before: Time, rows: seq<Row>, b: string) returns (line: seq<string>)
    requires rows == DueRows(index, before) && b in RowKeys(rows)
    ensures line + [b] <= FirstSeen(RowKeys(rows)) && |line| == |AheadOf(index, before, b)|
    ensures forall a :: a in line ==> a in AheadOf(index, before, b)
  {
    var i := FirstIndex(RowKeys(rows), b);
    PlaceInLine(RowKeys(rows), b, i);
    var head := RowKeys(rows)[..i];
    forall a ensures a in head <==> Sooner(index, before, a, b) {
      if a in head {
        var m :| 0 <= m < |head| && head[m] == a;
        EarlierIsSooner(index, before, rows, b, i, m);
      }
      if Sooner(index, before, a, b) { SoonerIsEarlier(index, before, rows, a, i); }
    }
    LineIsAhead(index, before, rows, b, i);
    line := FirstSeen(RowKeys(rows)[..i]);
  }

  /** A blob is on the list of a scan if and only if it is due and less than a batch of
      due blobs is ahead of it. */
  lemma ListedIff(index: map<Key, Record>, before: Time, limit: nat, b: string)
    ensures b in DueForRenewal(index, before, limit) <==>
      b in DueBlobs(index, before) && |AheadOf(index, before, b)| < limit
  {
    var seen := FirstSeen(RowKeys(DueRows(index, before)));
    DueRowsShape(index, before);
    FirstSeenShape(RowKeys(DueRows(index, before)));
    if b in DueBlobs(index, before) {
      var line := LineBefore(index, before, DueRows(index, before), b);
      PlaceDecides(line, seen, limit, b);
    } else {
      assert b !in seen;
    }
  }

  lemma LineIsAhead(index: map<Key, Record>, before: Time, rows: seq<Row>, b: string, i: nat)
    requires rows == DueRows(index, before) && i < |rows|
    requires forall a :: a in RowKeys(rows)[..i] <==> Sooner(index, before, a, b)
    ensures |FirstSeen(RowKeys(rows)[..i])| == |AheadOf(index, before, b)|
    ensures forall a :: a in FirstSeen(RowKeys(rows)[..i]) ==> a in AheadOf(index, before, b)
  {
    DueRowsShape(index, before);
    FirstSeenShape(RowKeys(rows)[..i]);
    DistinctCount(FirstSeen(RowKeys(rows)[..i]), AheadOf(index, before, b));
  }

  lemma PlaceDecides(line: seq<string>, seen: seq<string>, limit: nat, b: string)
    requires line + [b] <= seen && Distinct(seen)
    ensures b in FirstN(seen, limit) <==> |line| < limit
  {
    assert seen[|line|] == b;
    var due := FirstN(seen, limit);
    if b in due {
      var n :| 0 <= n < |due| && due[n] == b;
      assert seen[n] == b;
    }
    if |line| < limit { assert due[|line|] == b; }
  }

  // ---- From one scan to the next ----

  /** The rows of the blobs in gone are no longer due then; all others are as they were. */
  ghost predicate AfterScan(index: map<Key, Record>, after: map<Key, Record>, gone: set<string>, before: Time) {
    && after.Keys == index.Keys
    && forall k :: k in index ==>
         if index[k].blobId in gone then after[k].blobId == index[k].blobId && !IsDue(after[k], before)
         else after[k] == index[k]
  }

  lemma SoonerAfter(index: map<Key, Record>, after: map<Key, Record>, gone: set<string>, before: Time, before': Time,
                    a: string, b: string)
    requires AfterScan(index, after, gone, before) && before <= before'
    requires b in DueBlobs(index, before) && b !in gone
    ensures Sooner(after, before', a, b) <==> a !in gone && Sooner(index, before, a, b)
  {
    if a !in gone && Sooner(index, before, a, b) {
      var x :| DueRowOf(index, before, x, a) && AheadOfAll(index, before, x, b);
      forall k | DueRowOf(after, before', k, b) ensures Before(DueRow(after, x), DueRow(after, k)) {
        assert index[k] == after[k] && index[x] == after[x];
        if IsDue(index[k], before) { assert DueRowOf(index, before, k, b); }
      }
      assert DueRowOf(after, before', x, a) && AheadOfAll(after, before', x, b);
    }
    if Sooner(after, before', a, b) {
      var x :| DueRowOf(after, before', x, a) && AheadOfAll(after, before', x, b);
      var k0 :| k0 in index && IsDue(index[k0], before) && index[k0].blobId == b;
      assert DueRowOf(after, before', k0, b);
      assert Before(DueRow(after, x), DueRow(after, k0));
      assert DueRowOf(index, before, x, a);
      forall k | DueRowOf(index, before, k, b) ensures Before(DueRow(index, x), DueRow(index, k)) {
        assert DueRowOf(after, before', k, b);
      }
      assert AheadOfAll(index, before, x, b);
    }
  }

  lemma StillDue(index: map<Key, Record>, after: map<Key, Record>, gone: set<string>, before: Time, before': Time,
                 b: string)
    requires AfterScan(index, after, gone, before) && before <= before'
    requires b in DueBlobs(index, before) && b !in gone
    ensures b in DueBlobs(after, before')
  {
    var k :| k in index && IsDue(index[k], before) && index[k].blobId == b;
    assert IsDue(after[k], before') && after[k].blobId == b;
  }

  /** Nobody overtakes: what is ahead of a waiting blob later is what was ahead of it
      before, less what has been renewed. */
  lemma LineShrinks(index: map<Key, Record>, after: map<Key, Record>, gone: set<string>, before: Time, before': Time,
                    b: string)
    requires AfterScan(index, after, gone, before) && before <= before'
    requires b in DueBlobs(index, before) && b !in gone
    ensures AheadOf(after, before', b) == AheadOf(index, before, b) - gone
  {
    forall a ensures a in AheadOf(after, before', b) <==> a in AheadOf(index, before, b) - gone {
      SoonerAfter(index, after, gone, before, before', a, b);
      if a in AheadOf(index, before, b) - gone { StillDue(index, after, gone, before, before', a); }
      if Sooner(index, before, a, b) {
        var x :| DueRowOf(index, before, x, a) && AheadOfAll(index, before, x, b);
        assert a in DueBlobs(index, before);
      }
    }
  }

  /** The blobs of this list that were renewed. */
  function Renewed(cfg: Config, due: seq<string>, world: nat -> Upkeep): set<string> {
    set i | 0 <= i < |due| && Outcome(cfg, world(i)).Some? :: due[i]
  }

  lemma RenewedAt(cfg: Config, due: seq<string>, world: nat -> Upkeep, i: nat)
    requires Distinct(due) && i < |due|
    ensures due[i] in Renewed(cfg, due, world) <==> Outcome(cfg, world(i)).Some?
  {
    forall j | 0 <= j < |due| && due[j] == due[i] ensures j == i {}
  }

  /** Every renewal on the list keeps its blob's id and pays past the scan's deadline. */
  ghost predicate PaidPast(cfg: Config, due: seq<string>, world: nat -> Upkeep, before: Time) {
    forall i :: 0 <= i < |due| ==> SameId(cfg, due[i], world(i)) && RenewalPaysPast(cfg, world(i), before)
  }

  predicate RenewalPaysPast(cfg: Config, u: Upkeep, before: Time) {
    Outcome(cfg, u).Some? && cfg.Expiry(u.now).Some? ==> cfg.Expiry(u.now).value > before
  }

  lemma RowAfterScan(cfg: Config, index: map<Key, Record>, after: map<Key, Record>, due: seq<string>,
                     world: nat -> Upkeep, before: Time, k: Key)
    requires Distinct(due) && PaidPast(cfg, due, world, before) && after == RenewFirst(cfg, index, due, world)
    requires k in index
    ensures k in after
    ensures if index[k].blobId in Renewed(cfg, due, world) then after[k].blobId == index[k].blobId
      && !IsDue(after[k], before)
            else after[k] == index[k]
  {
    forall i | 0 <= i < |due| ensures SameId(cfg, due[i], world(i)) {
      assert RenewalPaysPast(cfg, world(i), before);
    }
    EachDueBlobOnce(cfg, index, due, world, k);
    if index[k].blobId in due {
      var i :| 0 <= i < |due| && due[i] == index[k].blobId;
      assert SameId(cfg, due[i], world(i)) && RenewalPaysPast(cfg, world(i), before);
      RenewedAt(cfg, due, world, i);
    }
  }

  lemma {:induction false} ScanKeepsKeys(cfg: Config, index: map<Key, Record>, due: seq<string>, world: nat -> Upkeep)
    ensures RenewFirst(cfg, index, due, world).Keys == index.Keys
  {
    if due != [] { ScanKeepsKeys(cfg, index, due[..|due| - 1], world); }
  }

  lemma ScanAfter(cfg: Config, index: map<Key, Record>, before: Time, due: seq<string>, world: nat -> Upkeep)
    requires Distinct(due) && PaidPast(cfg, due, world, before)
    ensures AfterScan(index, RenewFirst(cfg, index, due, world), Renewed(cfg, due, world), before)
  {
    var after := RenewFirst(cfg, index, due, world);
    ScanKeepsKeys(cfg, index, due, world);
    forall k | k in index
      ensures if index[k].blobId in Renewed(cfg, due, world) then after[k].blobId == index[k].blobId
        && !IsDue(after[k], before)
              else after[k] == index[k]
    {
      RowAfterScan(cfg, index, after, due, world, before, k);
    }
  }

  /** After any scan, whatever failed in it: a blob that was due and has not been renewed
      is on the next list if and only if less than a batch of those ahead of it is left. */
  lemma NextScanLists(cfg: Config, index: map<Key, Record>, before: Time, before': Time, due: seq<string>,
                      world: nat -> Upkeep, b: string)
    requires due == DueForRenewal(index, before, RENEW_BATCH_SIZE) && before <= before'
    requires PaidPast(cfg, due, world, before)
    requires b in DueBlobs(index, before) && b !in Renewed(cfg, due, world)
    ensures b in DueForRenewal(RenewFirst(cfg, index, due, world), before', RENEW_BATCH_SIZE)
       <==> |AheadOf(index, before, b) - Renewed(cfg, due, world)| < RENEW_BATCH_SIZE
  {
    DueIsDistinct(index, before, RENEW_BATCH_SIZE);
    ScanAfter(cfg, index, before, due, world);
    Consecutive(index, RenewFirst(cfg, index, due, world), Renewed(cfg, due, world), before, before', b);
  }

  lemma Consecutive(index: map<Key, Record>, after: map<Key, Record>, gone: set<string>, before: Time, before': Time,
                    b: string)
    requires AfterScan(index, after, gone, before) && before <= before'
    requires b in DueBlobs(index, before) && b !in gone
    ensures b in DueForRenewal(after, before', RENEW_BATCH_SIZE) <==>
      |AheadOf(index, before, b) - gone| < RENEW_BATCH_SIZE
  {
    LineShrinks(index, after, gone, before, before', b);
    StillDue(index, after, gone, before, before', b);
    ListedIff(after, before', RENEW_BATCH_SIZE, b);
  }

  // ---- Scans that fail ----

  /** The index after a number of scans, one per deadline. */
  function Scans(cfg: Config, index: map<Key, Record>, deadlines: seq<Time>, worlds: nat -> nat -> Upkeep): map<Key,
                 Record> {
    if deadlines == [] then index
    else
      var n := |deadlines| - 1;
      var mid := Scans(cfg, index, deadlines[..n], worlds);
      RenewFirst(cfg, mid, DueForRenewal(mid, deadlines[n], RENEW_BATCH_SIZE), worlds(n))
  }

  ghost predicate AllFail(cfg: Config, world: nat -> Upkeep) {
    forall i: nat :: Outcome(cfg, world(i)).None?
  }

  lemma {:induction false} FailuresChangeNothing(cfg: Config, index: map<Key, Record>, due: seq<string>,
                                                 world: nat -> Upkeep)
    requires AllFail(cfg, world)
    ensures RenewFirst(cfg, index, due, world) == index
  {
    if due != [] { FailuresChangeNothing(cfg, index, due[..|due| - 1], world); }
  }

  /** A due blob with a batch or more ahead of it is on no list, however many scans
      follow, as long as renewals fail; with less ahead of it, it is on every list. */
  lemma {:induction false} WaitsWhileScansFail(cfg: Config, index: map<Key, Record>, before: Time,
                                               deadlines: seq<Time>, worlds: nat -> nat -> Upkeep, b: string,
                                               next: Time)
    requires b in DueBlobs(index, before) && before <= next
    requires forall n: nat :: n < |deadlines| ==> AllFail(cfg, worlds(n))
    ensures Scans(cfg, index, deadlines, worlds) == index
    ensures b in DueForRenewal(Scans(cfg, index, deadlines, worlds), next, RENEW_BATCH_SIZE) <==>
      |AheadOf(index, before, b)| < RENEW_BATCH_SIZE
  {
    if deadlines != [] {
      var n := |deadlines| - 1;
      WaitsWhileScansFail(cfg, index, before, deadlines[..n], worlds, b, next);
      FailuresChangeNothing(cfg, index, DueForRenewal(index, deadlines[n], RENEW_BATCH_SIZE), worlds(n));
    }
    Consecutive(index, index, {}, before, next, b);
    assert AheadOf(index, before, b) - {} == AheadOf(index, before, b);
  }

  // ---- Scans that fail in part ----

  /** The index, and the list, that scan n of these finds. */
  function IndexAt(cfg: Config, index: map<Key, Record>, deadlines: seq<Time>, worlds: nat -> nat -> Upkeep,
                   n: nat): map<Key, Record>
    requires n < |deadlines|
  {
    Scans(cfg, index, deadlines[..n], worlds)
  }

  function ListAt(cfg: Config, index: map<Key, Record>, deadlines: seq<Time>, worlds: nat -> nat -> Upkeep,
                  n: nat): seq<string>
    requires n < |deadlines|
  {
    DueForRenewal(IndexAt(cfg, index, deadlines, worlds, n), deadlines[n], RENEW_BATCH_SIZE)
  }

  function Failed(cfg: Config, due: seq<string>, world: nat -> Upkeep): set<string> {
    set i | 0 <= i < |due| && Outcome(cfg, world(i)).None? :: due[i]
  }

  /** What is renewed is paid past the deadline, and at most f renewals fail. */
  ghost predicate MostlyWorks(cfg: Config, due: seq<string>, world: nat -> Upkeep, before: Time, f: nat) {
    PaidPast(cfg, due, world, before) && |Failed(cfg, due, world)| <= f
  }

  /** A due blob that is not on the list has a full list ahead of it. */
  lemma FullListAhead(index: map<Key, Record>, before: Time, limit: nat, b: string, due: seq<string>)
    requires due == DueForRenewal(index, before, limit) && b in DueBlobs(index, before) && b !in due
    ensures |due| == limit && Distinct(due) && forall a :: a in due ==> a in AheadOf(index, before, b)
  {
    var seen := FirstSeen(RowKeys(DueRows(index, before)));
    DueIsDistinct(index, before, limit);
    ListedIff(index, before, limit, b);
    DueRowsShape(index, before);
    var line := LineBefore(index, before, DueRows(index, before), b);
    FirstOfLine(line, seen, limit, b, due);
  }

  lemma FirstOfLine(line: seq<string>, seen: seq<string>, limit: nat, b: string, due: seq<string>)
    requires line + [b] <= seen && |line| >= limit && due == FirstN(seen, limit)
    ensures |due| == limit && forall a :: a in due ==> a in line
  {
    assert forall i :: 0 <= i < limit ==> due[i] == line[i];
  }

  lemma RenewedCount(cfg: Config, due: seq<string>, world: nat -> Upkeep, f: nat)
    requires Distinct(due) && |Failed(cfg, due, world)| <= f
    ensures |Renewed(cfg, due, world)| + f >= |due|
  {
    var renewed, failed := Renewed(cfg, due, world), Failed(cfg, due, world);
    forall b | b in due ensures b in renewed + failed {
      var i :| 0 <= i < |due| && due[i] == b;
    }
    assert Elements(due) <= renewed + failed;
    ElementCount(due);
    SubsetCount(Elements(due), renewed + failed);
  }

  /** One scan that leaves a due blob off its list takes a batch, less what fails, out of
      the line ahead of it. */
  lemma OneScanForward(cfg: Config, index: map<Key, Record>, before: Time, before': Time, due: seq<string>,
                       world: nat -> Upkeep, b: string, f: nat)
    requires due == DueForRenewal(index, before, RENEW_BATCH_SIZE) && before <= before'
    requires b in DueBlobs(index, before) && b !in due && MostlyWorks(cfg, due, world, before, f)
    ensures b in DueBlobs(RenewFirst(cfg, index, due, world), before')
    ensures |AheadOf(RenewFirst(cfg, index, due, world), before', b)| <= |AheadOf(index, before,
      b)| - (RENEW_BATCH_SIZE - f)
  {
    FullListAhead(index, before, RENEW_BATCH_SIZE, b, due);
    ScanAfter(cfg, index, before, due, world);
    RenewedCount(cfg, due, world, f);
    OneScanShrinks(index, RenewFirst(cfg, index, due, world), Renewed(cfg, due, world), before, before', b, due);
  }

  lemma OneScanShrinks(index: map<Key, Record>, after: map<Key, Record>, gone: set<string>, before: Time,
                       before': Time, b: string, due: seq<string>)
    requires AfterScan(index, after, gone, before) && before <= before'
    requires b in DueBlobs(index, before) && b !in due && (forall a :: a in gone ==> a in due)
    requires forall a :: a in due ==> a in AheadOf(index, before, b)
    ensures b in DueBlobs(after, before') && |AheadOf(after, before', b)| == |AheadOf(index, before, b)| - |gone|
  {
    LineShrinks(index, after, gone, before, before', b);
    StillDue(index, after, gone, before, before', b);
    assert gone <= AheadOf(index, before, b);
  }

  ghost predicate Ordered(deadlines: seq<Time>) {
    forall i :: 0 <= i < |deadlines| - 1 ==> deadlines[i] <= deadlines[i + 1]
  }

  /** Scan m does not take b on and mostly works. */
  ghost predicate PassesBy(cfg: Config, index: map<Key, Record>, deadlines: seq<Time>, worlds: nat -> nat -> Upkeep,
                           b: string, f: nat, m: nat)
    requires m < |deadlines|
  {
    && b !in ListAt(cfg, index, deadlines, worlds, m)
    && MostlyWorks(cfg, ListAt(cfg, index, deadlines, worlds, m), worlds(m), deadlines[m], f)
  }

  /** When scan n starts, b is due with at most so many ahead of it. */
  ghost predicate WaitsBehind(cfg: Config, index: map<Key, Record>, deadlines: seq<Time>,
                              worlds: nat -> nat -> Upkeep, b: string, n: nat, most: int)
    requires n < |deadlines|
  {
    var at := IndexAt(cfg, index, deadlines, worlds, n);
    b in DueBlobs(at, deadlines[n]) && |AheadOf(at, deadlines[n], b)| <= most
  }

  lemma WaitingStep(cfg: Config, index: map<Key, Record>, deadlines: seq<Time>, worlds: nat -> nat -> Upkeep,
                    b: string, f: nat, n: nat, most: int)
    requires n + 1 < |deadlines| && deadlines[n] <= deadlines[n + 1]
    requires PassesBy(cfg, index, deadlines, worlds, b, f, n) && WaitsBehind(cfg, index, deadlines, worlds, b, n, most)
    ensures WaitsBehind(cfg, index, deadlines, worlds, b, n + 1, most - (RENEW_BATCH_SIZE - f))
  {
    NextIndex(cfg, index, deadlines, worlds, n);
    OneScanForward(cfg, IndexAt(cfg, index, deadlines, worlds, n), deadlines[n], deadlines[n + 1],
                   ListAt(cfg, index, deadlines, worlds, n), worlds(n), b, f);
  }

  /** While a blob waits, every scan shortens the line ahead of it by a batch less f. */
  lemma {:induction false} WaitingLineShrinks(cfg: Config, index: map<Key, Record>, deadlines: seq<Time>,
                                              worlds: nat -> nat -> Upkeep, b: string, f: nat, n: nat, most: int)
    requires n < |deadlines| && Ordered(deadlines) && WaitsBehind(cfg, index, deadlines, worlds, b, 0, most)
    requires forall m :: 0 <= m < n ==> PassesBy(cfg, index, deadlines, worlds, b, f, m)
    ensures WaitsBehind(cfg, index, deadlines, worlds, b, n, most - Shares(n, RENEW_BATCH_SIZE - f))
  {
    if n > 0 {
      WaitingLineShrinks(cfg, index, deadlines, worlds, b, f, n - 1, most);
      assert PassesBy(cfg, index, deadlines, worlds, b, f, n - 1);
      WaitingStep(cfg, index, deadlines, worlds, b, f, n - 1, most - Shares(n - 1, RENEW_BATCH_SIZE - f));
    }
  }

  function Shares(n: nat, share: int): int { if n == 0 then 0 else Shares(n - 1, share) + share }

  lemma {:induction false} SharesMultiply(n: nat, share: int)
    ensures Shares(n, share) == n * share
  {
    if n > 0 {
      SharesMultiply(n - 1, share);
      assert (n - 1) * share + share == n * share;
    }
  }

  lemma NextIndex(cfg: Config, index: map<Key, Record>, deadlines: seq<Time>, worlds: nat -> nat -> Upkeep, n: nat)
    requires n + 1 < |deadlines|
    ensures IndexAt(cfg, index, deadlines, worlds, n + 1)
         == RenewFirst(cfg, IndexAt(cfg, index, deadlines, worlds, n), ListAt(cfg, index, deadlines, worlds, n),
           worlds(n))
  {
    assert deadlines[..n + 1][..n] == deadlines[..n];
  }

  /** Every one of these scans mostly works. */
  ghost predicate AllMostlyWork(cfg: Config, index: map<Key, Record>, deadlines: seq<Time>,
                                worlds: nat -> nat -> Upkeep, f: nat) {
    forall m :: 0 <= m < |deadlines| ==>
      MostlyWorks(cfg, ListAt(cfg, index, deadlines, worlds, m), worlds(m), deadlines[m], f)
  }

  lemma ListedAtLast(cfg: Config, index: map<Key, Record>, deadlines: seq<Time>, worlds: nat -> nat -> Upkeep,
                     b: string, f: nat, last: nat, most: int)
    requires last < |deadlines| && Ordered(deadlines) && WaitsBehind(cfg, index, deadlines, worlds, b, 0, most)
    requires AllMostlyWork(cfg, index, deadlines, worlds, f)
    requires forall m :: 0 <= m < last ==> b !in ListAt(cfg, index, deadlines, worlds, m)
    requires most - Shares(last, RENEW_BATCH_SIZE - f) < RENEW_BATCH_SIZE
    ensures b in ListAt(cfg, index, deadlines, worlds, last)
  {
    WaitingLineShrinks(cfg, index, deadlines, worlds, b, f, last, most);
    ListedIff(IndexAt(cfg, index, deadlines, worlds, last), deadlines[last], RENEW_BATCH_SIZE, b);
  }

  /** Progress: if at most f renewals fail per scan, then enough further scans to clear the
      line down to a batch, at a batch less f each, put a due blob on some list. */
  lemma ListedInTime(cfg: Config, index: map<Key, Record>, deadlines: seq<Time>, worlds: nat -> nat -> Upkeep,
                     b: string, f: nat, last: nat) returns (n: nat)
    requires last < |deadlines| && Ordered(deadlines) && b in DueBlobs(index, deadlines[0])
    requires AllMostlyWork(cfg, index, deadlines, worlds, f)
    requires |AheadOf(index, deadlines[0], b)| < RENEW_BATCH_SIZE + last * (RENEW_BATCH_SIZE - f)
    ensures n <= last && b in ListAt(cfg, index, deadlines, worlds, n)
  {
    if m :| 0 <= m < last && b in ListAt(cfg, index, deadlines, worlds, m) {
      n := m;
    } else {
      n := last;
      assert deadlines[..0] == [];
      SharesMultiply(last, RENEW_BATCH_SIZE - f);
      ListedAtLast(cfg, index, deadlines, worlds, b, f, last, |AheadOf(index, deadlines[0], b)|);
    }
  }

  // ---- A concrete index ----

  function Names(n: nat): set<string> {
    if n == 0 then {} else Names(n - 1) + {Itoa(n - 1)}
  }

  lemma {:induction false} NamesShape(n: nat)
    ensures |Names(n)| == n
    ensures forall b :: b in Names(n) <==> Position(n, b).Some?
  {
    if n > 0 {
      NamesShape(n - 1);
      PositionFinds(n - 1, Itoa(n - 1));
      if Position(n - 1, Itoa(n - 1)).Some? {
        ItoaIsInjective(Position(n - 1, Itoa(n - 1)).value, n - 1);
      }
    }
  }

  /** n plain blobs, the i-th expiring at time i. */
  function Crowd(n: nat): map<Key, Record> {
    map b | b in Names(n) ::
      Record(b, "", "", 0, 0, 0, 0, false, 0, match Position(n, b) case None => None case Some(i) => Some(i))
  }

  lemma CrowdRow(n: nat, i: nat)
    requires i < n
    ensures Itoa(i) in Crowd(n) && Crowd(n)[Itoa(i)].blobId == Itoa(i) && Crowd(n)[Itoa(i)].expiresAt == Some(i)
  {
    NamesShape(n);
    PositionOf(n, Itoa(i), i);
  }

  lemma CrowdIsAhead(n: nat, index: map<Key, Record>, last: string)
    requires index == Crowd(n + 1) && last == Itoa(n)
    ensures last in DueBlobs(index, n) && |AheadOf(index, n, last)| >= n
  {
    CrowdRow(n + 1, n);
    assert index[last].blobId in DueBlobs(index, n);
    NamesShape(n);
    forall b | b in Names(n) ensures b in AheadOf(index, n, last) { AheadInCrowd(index, n, b, last); }
    SubsetCount(Names(n), AheadOf(index, n, last));
  }

  /** With a batch of blobs that cannot be renewed and one more that expires after them,
      the last is due and yet never tried. */
  lemma LastOfCrowdStarves(cfg: Config, n: nat, deadlines: seq<Time>, worlds: nat -> nat -> Upkeep, next: Time)
    requires n == RENEW_BATCH_SIZE && next >= n
    requires forall m: nat :: m < |deadlines| ==> AllFail(cfg, worlds(m))
    ensures Itoa(n) in DueBlobs(Crowd(n + 1), n)
    ensures Itoa(n) !in DueForRenewal(Scans(cfg, Crowd(n + 1), deadlines, worlds), next, RENEW_BATCH_SIZE)
  {
    CrowdIsAhead(n, Crowd(n + 1), Itoa(n));
    WaitsWhileScansFail(cfg, Crowd(n + 1), n, deadlines, worlds, Itoa(n), next);
  }

  lemma AheadInCrowd(index: map<Key, Record>, n: nat, b: string, last: string)
    requires index == Crowd(n + 1) && last == Itoa(n) && b in Names(n)
    ensures b in AheadOf(index, n, last)
  {
    NamesShape(n);
    PositionFinds(n, b);
    var i := Position(n, b).value;
    CrowdRow(n + 1, i);
    CrowdRow(n + 1, n);
    assert DueRowOf(index, n, b, b);
    forall k | DueRowOf(index, n, k, last) ensures k == last {}
    assert AheadOfAll(index, n, b, last);
    assert index[b].blobId in DueBlobs(index, n);
  }
}
