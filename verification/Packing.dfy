/** Turning a pack of blocks into one Walrus upload and the index rows that lead
    back to each block. */
module Packing {
  import opened Types
  import opened Tables
  import opened Index
  import Encoding

  // ---- Decimal identifiers ----

  const DIGITS: string := "0123456789"

  function Itoa(n: nat): (s: string) {
    if n < 10 then [DIGITS[n]] else Itoa(n / 10) + [DIGITS[n % 10]]
  }

  lemma {:induction false} ItoaIsInjective(a: nat, b: nat)
    requires Itoa(a) == Itoa(b)
    ensures a == b
  {
    assert forall i, j :: 0 <= i < j < 10 ==> DIGITS[i] != DIGITS[j];
    ItoaLength(a);
    ItoaLength(b);
    var s := Itoa(a);
    assert s[|s| - 1] == DIGITS[a % 10] && s[|s| - 1] == DIGITS[b % 10];
    if a >= 10 {
      assert Itoa(a)[..|s| - 1] == Itoa(a / 10) && Itoa(b)[..|s| - 1] == Itoa(b / 10);
      ItoaIsInjective(a / 10, b / 10);
    }
  }

  lemma ItoaLength(n: nat)
    ensures |Itoa(n)| >= 1 && (|Itoa(n)| == 1 <==> n < 10)
  {
  }

  /** Which member an identifier names, among the first n. */
  function Position(n: nat, id: string): Option<nat> {
    if n == 0 then None else if Itoa(n - 1) == id then Some(n - 1) else Position(n - 1, id)
  }

  lemma {:induction false} PositionFinds(n: nat, id: string)
    ensures Position(n, id).Some? ==> Position(n, id).value < n && Itoa(Position(n, id).value) == id
    ensures forall i: nat :: i < n && Itoa(i) == id ==> Position(n, id) == Some(i)
  {
    if n > 0 { PositionFinds(n - 1, id); }
    forall i: nat | i < n && Itoa(i) == id ensures Position(n, id) == Some(i) { PositionOf(n, id, i); }
  }

  lemma {:induction false} PositionOf(n: nat, id: string, i: nat)
    requires i < n && Itoa(i) == id
    ensures Position(n, id) == Some(i)
  {
    if Itoa(n - 1) == id { ItoaIsInjective(i, n - 1); } else { PositionOf(n - 1, id, i); }
  }

  // ---- What is sent, what comes back ----

  datatype QuiltPart = QuiltPart(identifier: string, data: Bytes)

  /** The write API as the datastore sees it; None is a failure on every publisher. */
  datatype Publisher = Publisher(store: Bytes -> Option<StoreResult>, storeQuilt: seq<QuiltPart> -> Option<QuiltResult>)

  datatype Request = Nothing | StoreOf(bytes: Bytes) | QuiltOf(parts: seq<QuiltPart>)

  datatype Reply = Failed | Stored(res: StoreResult) | QuiltStored(quilt: QuiltResult)

  function Total(pack: seq<StageEntry>): nat {
    if pack == [] then 0 else Total(pack[..|pack| - 1]) + |pack[|pack| - 1].value|
  }

  function Joined(pack: seq<StageEntry>): Bytes {
    if pack == [] then [] else Joined(pack[..|pack| - 1]) + pack[|pack| - 1].value
  }

  function Parts(pack: seq<StageEntry>): seq<QuiltPart> {
    seq(|pack|, i requires 0 <= i < |pack| => QuiltPart(Itoa(i), pack[i].value))
  }

  /** What is sent for a pack: one block as it is, several as one blob or as a quilt. */
  function Sent(cfg: Config, pack: seq<StageEntry>): Request {
    if pack == [] then Nothing
    else if |pack| == 1 then StoreOf(pack[0].value)
    else if cfg.disableQuilt then StoreOf(Joined(pack))
    else QuiltOf(Parts(pack))
  }

  function Replied(pub: Publisher, sent: Request): Reply {
    match sent
    case Nothing => Failed
    case StoreOf(bytes) => (match pub.store(bytes) case None => Failed case Some(res) => Stored(res))
    case QuiltOf(parts) => (match pub.storeQuilt(parts) case None => Failed case Some(q) => QuiltStored(q))
  }

  function Ask(cfg: Config, pack: seq<StageEntry>, pub: Publisher): Reply {
    Replied(pub, Sent(cfg, pack))
  }

  // ---- The rows ----

  function BlockRecord(cfg: Config, res: StoreResult, patchId: string, offset: int, size: int, encoded: int,
                       now: Time): Record {
    Record(res.blobId, res.objectId, patchId, offset, size, encoded, res.cost, cfg.deletable, res.endEpoch,
      cfg.Expiry(now))
  }

  function PlainRecord(cfg: Config, res: StoreResult, offset: int, size: int, blobSize: int, now: Time): Record {
    BlockRecord(cfg, res, "", offset, size, Encoding.EncodedSize(res.encodedSize, blobSize, cfg.nShards), now)
  }

  function ConcatRecords(cfg: Config, pack: seq<StageEntry>, res: StoreResult, now: Time): seq<KeyRecord> {
    seq(|pack|, i requires 0 <= i < |pack| =>
      KeyRecord(pack[i].key, PlainRecord(cfg, res, Total(pack[..i]), |pack[i].value|, Total(pack), now)))
  }

  function QuiltRecord(cfg: Config, pack: seq<StageEntry>, q: QuiltResult, p: QuiltPatch, now: Time): KeyRecord
    requires Position(|pack|, p.identifier).Some?
  {
    PositionFinds(|pack|, p.identifier);
    var e := pack[Position(|pack|, p.identifier).value];
    KeyRecord(e.key, BlockRecord(cfg, q.blob, p.patchId, 0, |e.value|,
                                 Encoding.EncodedSize(q.blob.encodedSize, Total(pack), cfg.nShards), now))
  }

  predicate AllKnown(n: nat, patches: seq<QuiltPatch>) {
    forall i :: 0 <= i < |patches| ==> Position(n, patches[i].identifier).Some?
  }

  function QuiltRecords(cfg: Config, pack: seq<StageEntry>, q: QuiltResult, now: Time): Result<seq<KeyRecord>> {
    if |q.patches| != |pack| then Err(PatchCount)
    else if !AllKnown(|pack|, q.patches) then Err(UnknownPatch)
    else Ok(seq(|q.patches|, i requires 0 <= i < |q.patches| => QuiltRecord(cfg, pack, q, q.patches[i], now)))
  }

  function UploadRecords(cfg: Config, pack: seq<StageEntry>, reply: Reply, now: Time): Result<seq<KeyRecord>> {
    if pack == [] then Ok([])
    else match reply
      case Failed => Err(WalrusFailed)
      case Stored(res) => Ok(ConcatRecords(cfg, pack, res, now))
      case QuiltStored(q) => QuiltRecords(cfg, pack, q, now)
  }

  // ---- The upload, step by step ----

  method UploadSingleBlock(cfg: Config, e: StageEntry, pub: Publisher, now: Time) returns (r: Result<seq<KeyRecord>>)
    ensures r == UploadRecords(cfg, [e], Ask(cfg, [e], pub), now)
  {
    match pub.store(e.value)
    case None => r := Err(WalrusFailed);
    case Some(res) =>
      var encoded := Encoding.EncodedSize(res.encodedSize, |e.value|, cfg.nShards);
      r := Ok([KeyRecord(e.key, Record(res.blobId, res.objectId, "", 0, |e.value|, encoded, res.cost,
                                       cfg.deletable, res.endEpoch, cfg.Expiry(now)))]);
      assert [e][..0] == [] && Total([]) == 0;
      assert Total([e]) == Total([e][..0]) + |e.value|;
      assert r.value == ConcatRecords(cfg, [e], res, now);
  }

  lemma OneMoreBlock(pack: seq<StageEntry>, i: nat)
    requires i < |pack|
    ensures Joined(pack[..i + 1]) == Joined(pack[..i]) + pack[i].value
    ensures Total(pack[..i + 1]) == Total(pack[..i]) + |pack[i].value|
  {
    TakeOneMore(pack, i);
  }

  /** ranges notes key, offset and size of the first i blocks. */
  ghost predicate AreRanges(pack: seq<StageEntry>, i: nat, ranges: seq<(Key, int, int)>) {
    i == |ranges| <= |pack|
    && forall j :: 0 <= j < i ==> ranges[j] == (pack[j].key, Total(pack[..j]), |pack[j].value|)
  }

  lemma OneMoreRange(pack: seq<StageEntry>, i: nat, ranges: seq<(Key, int, int)>, offset: int)
    requires i < |pack| && AreRanges(pack, i, ranges) && offset == Total(pack[..i])
    ensures AreRanges(pack, i + 1, ranges + [(pack[i].key, offset, |pack[i].value|)])
  {
  }

  method SumSizes(pack: seq<StageEntry>) returns (total: int)
    ensures total == Total(pack)
  {
    total := 0;
    for i := 0 to |pack|
      invariant total == Total(pack[..i])
    {
      OneMoreBlock(pack, i);
      total := total + |pack[i].value|;
    }
    assert pack[..|pack|] == pack;
  }

  /** Middle loop of the concatenated upload: join the blocks, note where each begins. */
  method JoinBlocks(pack: seq<StageEntry>) returns (buf: Bytes, ranges: seq<(Key, int, int)>)
    ensures buf == Joined(pack) && AreRanges(pack, |pack|, ranges)
  {
    buf, ranges := [], [];
    var offset := 0;
    for i := 0 to |pack|
      invariant buf == Joined(pack[..i]) && offset == Total(pack[..i])
      invariant AreRanges(pack, i, ranges)
    {
      OneMoreBlock(pack, i);
      OneMoreRange(pack, i, ranges, offset);
      buf := buf + pack[i].value;
      ranges := ranges + [(pack[i].key, offset, |pack[i].value|)];
      offset := offset + |pack[i].value|;
    }
    assert pack[..|pack|] == pack;
  }

  /** Last loop: one row per range. */
  method RangeRecords(cfg: Config, ghost pack: seq<StageEntry>, ranges: seq<(Key, int, int)>, total: int,
                      res: StoreResult, now: Time)
    returns (recs: seq<KeyRecord>)
    requires total == Total(pack) && AreRanges(pack, |pack|, ranges)
    ensures recs == ConcatRecords(cfg, pack, res, now)
  {
    recs := [];
    for i := 0 to |ranges|
      invariant recs == ConcatRecords(cfg, pack, res, now)[..i]
    {
      var encoded := Encoding.EncodedSize(res.encodedSize, total, cfg.nShards);
      recs := recs + [KeyRecord(ranges[i].0,
                                Record(res.blobId, res.objectId, "", ranges[i].1, ranges[i].2, encoded, res.cost,
                                       cfg.deletable, res.endEpoch, cfg.Expiry(now)))];
    }
  }

  method UploadConcatPack(cfg: Config, pack: seq<StageEntry>, pub: Publisher, now: Time)
    returns (r: Result<seq<KeyRecord>>)
    requires |pack| > 1 && cfg.disableQuilt
    ensures r == UploadRecords(cfg, pack, Ask(cfg, pack, pub), now)
    ensures Uploaded(cfg, pack, pub, now, r)
  {
    UploadMeaning(cfg, pack, pub, now);
    var total := SumSizes(pack);
    var buf, ranges := JoinBlocks(pack);
    match pub.store(buf)
    case None => r := Err(WalrusFailed);
    case Some(res) =>
      var recs := RangeRecords(cfg, pack, ranges, total, res, now);
      r := Ok(recs);
  }

  ghost predicate IsMemberTable(pack: seq<StageEntry>, n: nat, table: map<string, (Key, int)>)
    requires n <= |pack|
  {
    && (forall id :: id in table <==> Position(n, id).Some?)
    && (forall id :: id in table ==> Position(n, id).value < n)
    && (forall id :: id in table ==>
         table[id] == (pack[Position(n, id).value].key, |pack[Position(n, id).value].value|))
  }

  /** First loop of the quilt upload: name the members by their position. */
  method NameMembers(pack: seq<StageEntry>)
    returns (parts: seq<QuiltPart>, memberById: map<string, (Key, int)>, total: int)
    ensures parts == Parts(pack) && total == Total(pack)
    ensures IsMemberTable(pack, |pack|, memberById)
  {
    parts, memberById, total := [], map[], 0;
    for i := 0 to |pack|
      invariant parts == Parts(pack)[..i] && total == Total(pack[..i])
      invariant IsMemberTable(pack, i, memberById)
    {
      var id := Itoa(i);
      parts := parts + [QuiltPart(id, pack[i].value)];
      memberById := memberById[id := (pack[i].key, |pack[i].value|)];
      TakeOneMore(pack, i);
      total := total + |pack[i].value|;
    }
    assert pack[..|pack|] == pack && Parts(pack)[..|pack|] == Parts(pack);
  }

  /** Second loop: turn the echoed identifiers back into keys. */
  method ResolveMembers(cfg: Config, pack: seq<StageEntry>, q: QuiltResult, memberById: map<string, (Key, int)>,
                        encoded: int, now: Time) returns (r: Result<seq<KeyRecord>>)
    requires |q.patches| == |pack| && IsMemberTable(pack, |pack|, memberById)
    requires encoded == Encoding.EncodedSize(q.blob.encodedSize, Total(pack), cfg.nShards)
    ensures r == QuiltRecords(cfg, pack, q, now)
  {
    var recs: seq<KeyRecord> := [];
    for i := 0 to |q.patches|
      invariant |recs| == i && forall j :: 0 <= j < i ==> IsPatchRow(cfg, pack, q, now, j, recs[j])
    {
      var p := q.patches[i];
      if p.identifier !in memberById {
        assert !AllKnown(|pack|, q.patches);
        return Err(UnknownPatch);
      }
      var (key, size) := memberById[p.identifier];
      recs := recs + [KeyRecord(key, Record(q.blob.blobId, q.blob.objectId, p.patchId, 0, size, encoded, q.blob.cost,
                                            cfg.deletable, q.blob.endEpoch, cfg.Expiry(now)))];
      assert IsPatchRow(cfg, pack, q, now, i, recs[i]);
    }
    PatchRows(cfg, pack, q, now, recs);
    r := Ok(recs);
  }

  ghost predicate IsPatchRow(cfg: Config, pack: seq<StageEntry>, q: QuiltResult, now: Time, j: nat, kr: KeyRecord)
    requires j < |q.patches|
  {
    Position(|pack|, q.patches[j].identifier).Some? && kr == QuiltRecord(cfg, pack, q, q.patches[j], now)
  }

  lemma PatchRows(cfg: Config, pack: seq<StageEntry>, q: QuiltResult, now: Time, recs: seq<KeyRecord>)
    requires |recs| == |q.patches| == |pack|
    requires forall j :: 0 <= j < |recs| ==> IsPatchRow(cfg, pack, q, now, j, recs[j])
    ensures QuiltRecords(cfg, pack, q, now) == Ok(recs)
  {
    forall j | 0 <= j < |recs| ensures Position(|pack|, q.patches[j].identifier).Some? {
      assert IsPatchRow(cfg, pack, q, now, j, recs[j]);
    }
    assert recs == QuiltRecords(cfg, pack, q, now).value;
  }

  method UploadQuiltPack(cfg: Config, pack: seq<StageEntry>, pub: Publisher, now: Time)
    returns (r: Result<seq<KeyRecord>>)
    requires |pack| > 1 && !cfg.disableQuilt
    ensures r == UploadRecords(cfg, pack, Ask(cfg, pack, pub), now)
    ensures Uploaded(cfg, pack, pub, now, r)
  {
    UploadMeaning(cfg, pack, pub, now);
    var parts, memberById, total := NameMembers(pack);
    match pub.storeQuilt(parts)
    case None => r := Err(WalrusFailed);
    case Some(q) =>
      if |q.patches| != |pack| { return Err(PatchCount); }
      r := ResolveMembers(cfg, pack, q, memberById, Encoding.EncodedSize(q.blob.encodedSize, total, cfg.nShards), now);
  }

  method UploadPack(cfg: Config, pack: seq<StageEntry>, pub: Publisher, now: Time) returns (r: Result<seq<KeyRecord>>)
    ensures r == UploadRecords(cfg, pack, Ask(cfg, pack, pub), now)
    ensures Uploaded(cfg, pack, pub, now, r)
  {
    UploadMeaning(cfg, pack, pub, now);
    if |pack| == 0 {
      r := Ok([]);
    } else if |pack| == 1 {
      assert pack == [pack[0]];
      r := UploadSingleBlock(cfg, pack[0], pub, now);
    } else if cfg.disableQuilt {
      r := UploadConcatPack(cfg, pack, pub, now);
    } else {
      r := UploadQuiltPack(cfg, pack, pub, now);
    }
  }

  // ---- Reading back ----

  /** Walrus stored what it was sent: the reply's blob holds the bytes, or each patch that
      the reply names holds the part sent under that identifier. */
  ghost predicate Honest(w: Walrus, sent: Request, reply: Reply) {
    match reply
    case Failed => true
    case Stored(res) => sent.StoreOf? && res.blobId in w.blobs && w.blobs[res.blobId] == sent.bytes
    case QuiltStored(q) =>
      && sent.QuiltOf? && q.blob.blobId in w.blobs
      && forall p, part :: p in q.patches && part in sent.parts && part.identifier == p.identifier ==>
           p.patchId != "" && p.patchId in w.patches && w.patches[p.patchId] == part.data
  }

  lemma {:induction false} JoinedSlices(pack: seq<StageEntry>, i: nat)
    requires i < |pack|
    ensures |Joined(pack)| == Total(pack)
    ensures Total(pack[..i]) + |pack[i].value| <= Total(pack)
    ensures Joined(pack)[Total(pack[..i])..Total(pack[..i]) + |pack[i].value|] == pack[i].value
  {
    var n := |pack| - 1;
    if i < n {
      JoinedSlices(pack[..n], i);
      assert pack[..n][..i] == pack[..i];
    } else {
      if n > 0 { JoinedSlices(pack[..n], 0); }
      assert pack[..n] == pack[..i];
    }
  }

  predicate SliceIs(blob: Bytes, offset: int, size: int, v: Bytes) {
    0 <= offset && 0 <= size && offset + size <= |blob| && blob[offset..offset + size] == v
  }

  /** The recorded ranges of a concatenated pack tile the blob in order, empty blocks included. */
  lemma ConcatTiles(cfg: Config, pack: seq<StageEntry>, res: StoreResult, now: Time, recs: seq<KeyRecord>)
    requires pack != [] && recs == ConcatRecords(cfg, pack, res, now)
    ensures |recs| == |pack| && recs[0].rec.offset == 0
    ensures forall i :: 0 <= i < |recs| - 1 ==> recs[i + 1].rec.offset == recs[i].rec.offset + recs[i].rec.size
    ensures recs[|recs| - 1].rec.offset + recs[|recs| - 1].rec.size == |Joined(pack)|
    ensures forall i :: 0 <= i < |recs| ==> recs[i].key == pack[i].key
    ensures forall i :: 0 <= i < |recs| ==> SliceIs(Joined(pack), recs[i].rec.offset, recs[i].rec.size, pack[i].value)
  {
    forall i | 0 <= i < |recs| - 1 ensures recs[i + 1].rec.offset == recs[i].rec.offset + recs[i].rec.size {
      OneMoreBlock(pack, i);
    }
    forall i | 0 <= i < |recs| ensures SliceIs(Joined(pack), recs[i].rec.offset, recs[i].rec.size, pack[i].value) {
      JoinedSlices(pack, i);
    }
    LastTile(pack);
  }

  lemma LastTile(pack: seq<StageEntry>)
    requires pack != []
    ensures Total(pack[..|pack| - 1]) + |pack[|pack| - 1].value| == |Joined(pack)| && Total(pack[..0]) == 0
  {
    JoinedSlices(pack, 0);
    assert pack[..0] == [];
  }

  /** Every row of an honest upload, of whichever kind, decodes to a block of the pack. */
  lemma UploadDecodes(cfg: Config, w: Walrus, pack: seq<StageEntry>, reply: Reply, now: Time, kr: KeyRecord)
    requires Honest(w, Sent(cfg, pack), reply)
    requires UploadRecords(cfg, pack, reply, now).Ok? && kr in UploadRecords(cfg, pack, reply, now).value
    ensures exists e :: e in pack && e.key == kr.key && Decodes(w, kr.rec, e.value)
    ensures kr.rec.expiresAt == cfg.Expiry(now)
  {
    var recs := UploadRecords(cfg, pack, reply, now).value;
    var j :| 0 <= j < |recs| && recs[j] == kr;
    match reply
    case Stored(res) =>
      if |pack| == 1 { LoneBlock(pack); }
      JoinedSlices(pack, j);
      assert pack[j] in pack && Decodes(w, kr.rec, pack[j].value);
    case QuiltStored(q) =>
      PositionFinds(|pack|, q.patches[j].identifier);
      var i := Position(|pack|, q.patches[j].identifier).value;
      assert Parts(pack)[i] in Parts(pack);
      assert q.patches[j] in q.patches && pack[i] in pack && Decodes(w, kr.rec, pack[i].value);
  }

  lemma LoneBlock(pack: seq<StageEntry>)
    requires |pack| == 1
    ensures Joined(pack) == pack[0].value && Total(pack) == |pack[0].value| && Total(pack[..0]) == 0
  {
    assert pack[..0] == [] && Joined([]) == [] && Total([]) == 0;
    assert Joined(pack) == Joined(pack[..0]) + pack[0].value;
    assert Total(pack) == Total(pack[..0]) + |pack[0].value|;
  }

  // ---- What a row says, column by column ----

  /** The row of one block: which blob, object and patch, where in it, what was charged and
      until when, and the billed size of the blob that holds unencoded bytes. */
  ghost predicate RowSays(cfg: Config, kr: KeyRecord, key: Key, res: StoreResult, patchId: string, offset: int,
                          size: int, unencoded: int, now: Time) {
    && kr.key == key && kr.rec.blobId == res.blobId && kr.rec.objectId == res.objectId
    && kr.rec.patchId == patchId && kr.rec.offset == offset && kr.rec.size == size
    && kr.rec.cost == res.cost && kr.rec.endEpoch == res.endEpoch && kr.rec.deletable == cfg.deletable
    && (res.encodedSize > 0 ==> kr.rec.encodedSize == res.encodedSize)
    && (res.encodedSize <= 0 ==> kr.rec.encodedSize == Encoding.EncodedBlobLength(unencoded, cfg.nShards))
    && (cfg.epochDuration <= 0 ==> kr.rec.expiresAt == None)
    && (cfg.epochDuration > 0 ==> kr.rec.expiresAt == Some(now + cfg.epochs * cfg.epochDuration))
  }

  /** The rows of an accepted upload of one block. */
  ghost predicate PlainRows(cfg: Config, pack: seq<StageEntry>, res: StoreResult, now: Time, recs: seq<KeyRecord>) {
    && |recs| == |pack| == 1
    && RowSays(cfg, recs[0], pack[0].key, res, "", 0, |pack[0].value|, |pack[0].value|, now)
  }

  /** Those of a concatenated pack: each block begins where the ones before it end. */
  ghost predicate ConcatRows(cfg: Config, pack: seq<StageEntry>, res: StoreResult, now: Time, recs: seq<KeyRecord>) {
    && |recs| == |pack|
    && forall i :: 0 <= i < |pack| ==>
         RowSays(cfg, recs[i], pack[i].key, res, "", |Joined(pack[..i])|, |pack[i].value|, |Joined(pack)|, now)
  }

  /** Those of a quilt: row j belongs to the member whose decimal position patch j names. */
  ghost predicate QuiltRows(cfg: Config, pack: seq<StageEntry>, q: QuiltResult, now: Time, recs: seq<KeyRecord>) {
    && |recs| == |q.patches| == |pack|
    && forall j :: 0 <= j < |recs| ==> IsMemberRow(cfg, pack, q, now, recs, j)
  }

  ghost predicate IsMemberRow(cfg: Config, pack: seq<StageEntry>, q: QuiltResult, now: Time, recs: seq<KeyRecord>,
                              j: nat)
    requires j < |recs| && j < |q.patches|
  {
    exists i :: 0 <= i < |pack| && MemberRow(cfg, pack, q, now, recs, j, i)
  }

  ghost predicate MemberRow(cfg: Config, pack: seq<StageEntry>, q: QuiltResult, now: Time, recs: seq<KeyRecord>,
                            j: nat, i: nat)
    requires j < |recs| && j < |q.patches| && i < |pack|
  {
    && q.patches[j].identifier == Itoa(i)
    && RowSays(cfg, recs[j], pack[i].key, q.blob, q.patches[j].patchId, 0, |pack[i].value|, |Joined(pack)|, now)
  }

  lemma {:induction false} JoinedLength(pack: seq<StageEntry>)
    ensures |Joined(pack)| == Total(pack)
  {
    if pack != [] { JoinedLength(pack[..|pack| - 1]); }
  }

  lemma PlainUpload(cfg: Config, pack: seq<StageEntry>, res: StoreResult, now: Time)
    requires |pack| == 1
    ensures PlainRows(cfg, pack, res, now, ConcatRecords(cfg, pack, res, now))
  {
    LoneBlock(pack);
  }

  lemma ConcatUpload(cfg: Config, pack: seq<StageEntry>, res: StoreResult, now: Time)
    ensures ConcatRows(cfg, pack, res, now, ConcatRecords(cfg, pack, res, now))
  {
    JoinedLength(pack);
    forall i | 0 <= i < |pack| ensures |Joined(pack[..i])| == Total(pack[..i]) { JoinedLength(pack[..i]); }
  }

  lemma QuiltUpload(cfg: Config, pack: seq<StageEntry>, q: QuiltResult, now: Time, recs: seq<KeyRecord>)
    requires QuiltRecords(cfg, pack, q, now) == Ok(recs)
    ensures QuiltRows(cfg, pack, q, now, recs)
  {
    JoinedLength(pack);
    forall j | 0 <= j < |recs| ensures IsMemberRow(cfg, pack, q, now, recs, j) {
      PositionFinds(|pack|, q.patches[j].identifier);
      assert MemberRow(cfg, pack, q, now, recs, j, Position(|pack|, q.patches[j].identifier).value);
    }
  }

  predicate Names(pack: seq<StageEntry>, id: string) { exists i :: 0 <= i < |pack| && Itoa(i) == id }

  /** What the upload of a quilt returns: the rows, or an error that says what is wrong. */
  ghost predicate QuiltOutcome(cfg: Config, pack: seq<StageEntry>, q: QuiltResult, now: Time,
                               r: Result<seq<KeyRecord>>) {
    if |q.patches| != |pack| then r == Err(PatchCount)
    else if exists j :: 0 <= j < |q.patches| && !Names(pack, q.patches[j].identifier) then r == Err(UnknownPatch)
    else r.Ok? && QuiltRows(cfg, pack, q, now, r.value)
  }

  lemma QuiltReply(cfg: Config, pack: seq<StageEntry>, q: QuiltResult, now: Time)
    ensures QuiltOutcome(cfg, pack, q, now, QuiltRecords(cfg, pack, q, now))
  {
    forall j | 0 <= j < |q.patches|
      ensures Names(pack, q.patches[j].identifier) <==> Position(|pack|, q.patches[j].identifier).Some?
    {
      PositionFinds(|pack|, q.patches[j].identifier);
    }
    if QuiltRecords(cfg, pack, q, now).Ok? { QuiltUpload(cfg, pack, q, now, QuiltRecords(cfg, pack, q, now).value); }
  }

  /** What the upload of a pack returns, by its size and the configuration: nothing for an
      empty one, the plain blob of a single block, one concatenated blob, or a quilt of the
      blocks under their decimal positions. */
  ghost predicate Uploaded(cfg: Config, pack: seq<StageEntry>, pub: Publisher, now: Time, r: Result<seq<KeyRecord>>) {
    if pack == [] then r == Ok([])
    else if |pack| == 1 then
      match pub.store(pack[0].value)
      case None => r == Err(WalrusFailed)
      case Some(res) => r.Ok? && PlainRows(cfg, pack, res, now, r.value)
    else if cfg.disableQuilt then
      match pub.store(Joined(pack))
      case None => r == Err(WalrusFailed)
      case Some(res) => r.Ok? && ConcatRows(cfg, pack, res, now, r.value)
    else
      match pub.storeQuilt(Parts(pack))
      case None => r == Err(WalrusFailed)
      case Some(q) => QuiltOutcome(cfg, pack, q, now, r)
  }

  lemma UploadMeaning(cfg: Config, pack: seq<StageEntry>, pub: Publisher, now: Time)
    ensures Uploaded(cfg, pack, pub, now, UploadRecords(cfg, pack, Ask(cfg, pack, pub), now))
  {
    if pack != [] {
      match Ask(cfg, pack, pub)
      case Failed =>
      case Stored(res) =>
        if |pack| == 1 { PlainUpload(cfg, pack, res, now); } else { ConcatUpload(cfg, pack, res, now); }
      case QuiltStored(q) => QuiltReply(cfg, pack, q, now);
    }
  }

  // ---- Decimal identifiers are decimal ----

  function Digit(c: char): int { c as int - '0' as int }

  function Numeral(s: string): int {
    if s == "" then 0 else 10 * Numeral(s[..|s| - 1]) + Digit(s[|s| - 1])
  }

  /** Itoa writes the number in decimal: digits only, worth n, and no leading zero. */
  lemma {:induction false} ItoaIsDecimal(n: nat)
    ensures Itoa(n) != "" && Numeral(Itoa(n)) == n
    ensures forall i :: 0 <= i < |Itoa(n)| ==> '0' <= Itoa(n)[i] <= '9'
    ensures Itoa(n)[0] == '0' ==> n == 0
  {
    assert forall d :: 0 <= d < 10 ==> Digit(DIGITS[d]) == d && (DIGITS[d] == '0' ==> d == 0);
    var s := Itoa(n);
    if n >= 10 {
      ItoaIsDecimal(n / 10);
      assert s[..|s| - 1] == Itoa(n / 10);
    } else {
      assert s[..0] == "";
    }
  }

  // ---- Quilts: which replies give every block its row ----

  function Identifiers(patches: seq<QuiltPatch>): seq<string> {
    seq(|patches|, i requires 0 <= i < |patches| => patches[i].identifier)
  }

  function Elements<T(==)>(s: seq<T>): set<T> { set x | x in s }

  lemma {:induction false} ElementCount<T>(s: seq<T>)
    ensures |Elements(s)| <= |s|
    ensures |Elements(s)| == |s| <==> Distinct(s)
  {
    if s == [] {
      assert Elements(s) == {};
    } else {
      ElementCount(s[1..]);
      assert Elements(s) == Elements(s[1..]) + {s[0]};
      if s[0] in s[1..] {
        assert Elements(s) == Elements(s[1..]);
        var i :| 0 <= i < |s[1..]| && s[1..][i] == s[0];
        assert s[i + 1] == s[0];
      } else {
        assert forall i :: 0 < i < |s| ==> s[i] == s[1..][i - 1];
        if Distinct(s[1..]) {
          forall i, j | 0 <= i < j < |s| ensures s[i] != s[j] {
            assert s[j] in s[1..];
            if i > 0 { assert s[1..][i - 1] != s[1..][j - 1]; }
          }
        }
        if Distinct(s) {
          forall i, j | 0 <= i < j < |s[1..]| ensures s[1..][i] != s[1..][j] { assert s[i + 1] != s[j + 1]; }
        }
      }
    }
  }

  lemma SubsetOfEqualSize<T>(a: set<T>, b: set<T>)
    requires a <= b && |a| == |b|
    ensures a == b
  {
    if x :| x in b && x !in a { SubsetCount(a, b - {x}); }
  }

  lemma SubsetCount<T>(a: set<T>, b: set<T>)
    requires a <= b
    ensures |a| <= |b|
  {
    if x :| x in a { SubsetCount(a - {x}, b - {x}); }
  }

  function Positions(n: nat, patches: seq<QuiltPatch>): seq<nat>
    requires AllKnown(n, patches)
  {
    seq(|patches|, i requires 0 <= i < |patches| => Position(n, patches[i].identifier).value)
  }

  /** An accepted reply gives every block of the pack its own row exactly when it
      repeats no identifier; a repeated one leaves some other block without a row. */
  lemma QuiltCoversPack(cfg: Config, pack: seq<StageEntry>, q: QuiltResult, now: Time)
    requires QuiltRecords(cfg, pack, q, now).Ok? && Distinct(EntryList(pack))
    ensures KeysOf(QuiltRecords(cfg, pack, q, now).value) == EntryKeys(pack) <==> Distinct(Identifiers(q.patches))
  {
    var n, recs := |pack|, QuiltRecords(cfg, pack, q, now).value;
    var ps, ids := Positions(n, q.patches), Identifiers(q.patches);
    forall i | 0 <= i < n ensures ps[i] < n && Itoa(ps[i]) == ids[i] && recs[i].key == pack[ps[i]].key {
      PositionFinds(n, ids[i]);
    }
    SamePositions(n, ids, ps);
    if Distinct(ps) { DistinctRowsCover(pack, recs, ps); }
    if KeysOf(recs) == EntryKeys(pack) { CoveringRowsAreDistinct(pack, recs, ps); }
  }

  lemma DistinctRowsCover(pack: seq<StageEntry>, recs: seq<KeyRecord>, ps: seq<nat>)
    requires |ps| == |recs| == |pack| && Distinct(ps)
    requires forall i :: 0 <= i < |ps| ==> ps[i] < |pack| && recs[i].key == pack[ps[i]].key
    ensures KeysOf(recs) == EntryKeys(pack)
  {
    ElementCount(ps);
    SubsetOfEqualSize(Elements(ps), Below(|pack|));
    forall k | k in EntryKeys(pack) ensures k in KeysOf(recs) {
      var i: nat :| i < |pack| && pack[i].key == k;
      assert i in Elements(ps);
      var j :| 0 <= j < |ps| && ps[j] == i;
      assert recs[j] in recs;
    }
    forall k | k in KeysOf(recs) ensures k in EntryKeys(pack) {
      var j :| 0 <= j < |recs| && recs[j].key == k;
      assert pack[ps[j]] in pack;
    }
  }

  lemma CoveringRowsAreDistinct(pack: seq<StageEntry>, recs: seq<KeyRecord>, ps: seq<nat>)
    requires |ps| == |recs| == |pack| && Distinct(EntryList(pack))
    requires forall i :: 0 <= i < |ps| ==> ps[i] < |pack| && recs[i].key == pack[ps[i]].key
    requires KeysOf(recs) == EntryKeys(pack)
    ensures Distinct(ps)
  {
    forall i: nat | i < |pack| ensures i in Elements(ps) {
      assert pack[i] in pack && pack[i].key in KeysOf(recs);
      var j :| 0 <= j < |recs| && recs[j].key == pack[i].key;
      assert EntryList(pack)[ps[j]] == EntryList(pack)[i];
      assert ps[j] == i;
    }
    assert Elements(ps) == Below(|pack|);
    ElementCount(ps);
  }

  lemma SamePositions(n: nat, ids: seq<string>, ps: seq<nat>)
    requires |ids| == |ps| && forall i :: 0 <= i < |ps| ==> Itoa(ps[i]) == ids[i]
    ensures Distinct(ids) <==> Distinct(ps)
  {
    forall i, j | 0 <= i < j < |ps| && ids[i] == ids[j] ensures ps[i] == ps[j] { ItoaIsInjective(ps[i], ps[j]); }
    forall i, j | 0 <= i < j < |ps| && ps[i] == ps[j] ensures ids[i] == ids[j] {}
    if !Distinct(ids) {
      var i, j :| 0 <= i < j < |ids| && ids[i] == ids[j];
      assert ps[i] == ps[j];
    }
    if !Distinct(ps) {
      var i, j :| 0 <= i < j < |ps| && ps[i] == ps[j];
      assert ids[i] == ids[j];
    }
  }

  function Below(n: nat): (r: set<nat>)
    ensures |r| == n && forall i: nat :: i in r <==> i < n
  {
    if n == 0 then {} else Below(n - 1) + {n - 1}
  }

  // ---- Billing ----

  function Lengths(pack: seq<StageEntry>): seq<nat> {
    seq(|pack|, i requires 0 <= i < |pack| => |pack[i].value|)
  }

  lemma {:induction false} TotalIsSum(pack: seq<StageEntry>)
    ensures Encoding.Sum(Lengths(pack)) == Total(pack)
  {
    if pack != [] {
      TotalIsSum(pack[..|pack| - 1]);
      assert Lengths(pack)[..|pack| - 1] == Lengths(pack[..|pack| - 1]);
    }
  }

  /** When the publisher reports no size, the size billed for a concatenated pack
      undercuts its blocks stored apart by |pack| - 1 copies of the metadata. */
  lemma ConcatPackSaves(cfg: Config, pack: seq<StageEntry>, res: StoreResult, now: Time, kr: KeyRecord, metadata: int)
    requires res.encodedSize <= 0 && kr in ConcatRecords(cfg, pack, res, now)
    requires metadata == Encoding.Metadata(Encoding.Shards(cfg.nShards))
    ensures kr.rec.encodedSize + (|pack| - 1) * metadata <= Encoding.EncodedSum(Lengths(pack), cfg.nShards)
  {
    TotalIsSum(pack);
    Encoding.PackingSaves(Lengths(pack), cfg.nShards, metadata);
  }
}
