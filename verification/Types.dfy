/** The values that the datastore passes around: index rows, staged rows, the
    two Postgres tables, and Walrus seen as an append-only store. */
module Types {
  newtype byte = x: int | 0 <= x < 256
  type Bytes = seq<byte>
  type Key = string
  type Time = int

  datatype Option<+T> = None | Some(value: T)

  datatype Error =
    | WalrusFailed | NotFound | PatchCount | UnknownPatch
    | BadStatus | ShortBody | OutOfRange | NoAggregator | BadBoundary

  datatype Result<+T> = Ok(value: T) | Err(error: Error)

  const STAGE_LEASE: Time := 15 * 60
  const PUT_MANY_CHUNK: nat := 500
  const STAGE_PUT_CHUNK: nat := 200
  const QUILT_MAX_PATCHES: nat := 666
  const CONCAT_MAX_BLOCKS: nat := 10000
  const RENEW_BATCH_SIZE: nat := 256

  /** Times and durations are whole seconds on one clock. */
  datatype Config = Config(
    target: int, workers: int, disableQuilt: bool, nShards: int, deletable: bool,
    epochs: int, epochDuration: int, packMaxAge: int, packIdleFlush: int, renewLead: int)
  {
    /** What NewWalrusDatastore guarantees once its defaults are applied. */
    predicate Valid() {
      target > 0 && workers > 0 && epochs > 0 && packMaxAge > 0 && packIdleFlush > 0
    }

    function MaxCount(): nat { if disableQuilt then CONCAT_MAX_BLOCKS else QUILT_MAX_PATCHES }

    /** How many blocks a pack may have: a quilt has at most 666 members. */
    predicate Admits(n: int) { n <= if disableQuilt then 10000 else 666 }

    function Lead(): int { if renewLead <= 0 then epochDuration else renewLead }

    function Expiry(now: Time): Option<Time> {
      if epochDuration <= 0 then None else Some(now + epochs * epochDuration)
    }
  }

  /** patchId == "" marks a plain or concatenated row, as in the table. */
  datatype Record = Record(
    blobId: string, objectId: string, patchId: string, offset: int, size: int,
    encodedSize: int, cost: nat, deletable: bool, endEpoch: nat, expiresAt: Option<Time>)

  datatype KeyRecord = KeyRecord(key: Key, rec: Record)
  /** How a write to the database turns out for the caller: it commits, it does not, or it
      commits and an error is reported all the same. */
  datatype Tx = Fine | Refused | Lost

  datatype StageEntry = StageEntry(key: Key, value: Bytes)
  datatype StageRow = StageRow(value: Bytes, size: int, createdAt: Time, leasedUntil: Option<Time>)
  datatype Db = Db(index: map<Key, Record>, staging: map<Key, StageRow>)

  function Present(db: Db): set<Key> { db.index.Keys + db.staging.Keys }

  datatype StoreResult = StoreResult(blobId: string, objectId: string, endEpoch: nat, encodedSize: int, cost: nat)
  datatype QuiltPatch = QuiltPatch(identifier: string, patchId: string)
  datatype QuiltResult = QuiltResult(blob: StoreResult, patches: seq<QuiltPatch>)

  /** Blobs and quilt members that Walrus holds; nothing in it is ever changed. */
  datatype Walrus = Walrus(blobs: map<string, Bytes>, patches: map<string, Bytes>)

  ghost predicate Grows(w: Walrus, w': Walrus) {
    && (forall b :: b in w.blobs ==> b in w'.blobs && w'.blobs[b] == w.blobs[b])
    && (forall p :: p in w.patches ==> p in w'.patches && w'.patches[p] == w.patches[p])
  }

  /** The row leads a reader to exactly these bytes. */
  ghost predicate Decodes(w: Walrus, rec: Record, v: Bytes) {
    && rec.size == |v|
    && rec.blobId in w.blobs
    && if rec.patchId != "" then
         rec.patchId in w.patches && w.patches[rec.patchId] == v
       else
         && 0 <= rec.offset
         && rec.offset + rec.size <= |w.blobs[rec.blobId]|
         && w.blobs[rec.blobId][rec.offset..rec.offset + rec.size] == v
  }
}
