# Verified model of the Walrus datastore

A Dafny model of a key-value datastore that keeps blocks durable in Postgres and packs
them into large Walrus blobs in the background, on many nodes that share one index. The
code relies on content addressing (a key has one value for ever) and so does the model: a
run fixes one function from keys to bytes.

Verify everything with `dafny verify dfyconfig.toml`.

## Layout

| file | what it holds |
|---|---|
| `Types.dfy`, `Ordering.dfy`, `Tables.dfy` | rows, the two tables, Walrus; SQL ordering; what each statement or transaction does, as functions on tables |
| `Index.dfy` | `PostgresIndex`, the class whose methods compute those functions, chunk by chunk and row by row |
| `Queries.dfy` | claims, statistics, listings, pages and renewal scans, and what their answers mean |
| `Encoding.dfy` | the billed size of a blob |
| `Packing.dfy` | a pack as one upload: identifiers, offsets, rows, and reading back |
| `Protocol.dfy`, `Conformance.dfy` | the state machine of all nodes, its invariant, and that the code takes its steps |
| `Safety.dfy`, `Leases.dfy`, `Renewal.dfy`, `Scenarios.dfy` | statements over all its runs, and three concrete runs |
| `Renewer.dfy` | one renewal scan as it runs, step by step |
| `Starvation.dfy` | which due blobs a scan takes on, and what failing renewals do to the rest |
| `Batch.dfy`, `Flusher.dfy`, `Recovery.dfy` | a commit and a flush as they run, step by step, and a flush after crashes |
| `Cache.dfy`, `Client.dfy` | the LRU and reads through it |
| `Multipart.dfy`, `MultipartReader.dfy` | the quilt request body, and reading it back |

## How the system is modelled

Each SQL transaction and each single SQL statement is one step. A claim is two steps
(select, lease), a flush goes on with an upload and a promotion or release, an oversize
`Put` is an upload and an index write, a renewal is a read, a store and an update, and
`Get`, `Has` and `GetSize` probe staging in one state and the index in a later one. Between
any two steps every other actor may move, time may pass (so leases expire), an actor may
crash, a promotion may commit and still be reported as failed, and Walrus may gain blobs
nobody indexed. A claim, an upload or a renewal can stay in flight for any length of time:
the safety results hold for holders of expired leases, for releases that clear somebody
else's lease, and for keys put again while claimed. Nothing in `Safety.dfy` mentions leases.

Walrus only grows; an honest publisher's reply names a blob that holds the bytes sent, and
quilt members that hold the parts sent under those identifiers. Any call may fail. Blob ids
and patch ids are kept apart where one cache holds both (`Client.IdsApart`).

The statements' effects are functions on tables (`Tables.dfy`). The methods of
`Index.PostgresIndex`, with their loops, are proved to compute them, and the state machine's
steps are built from the same functions; `Conformance.dfy` runs the methods against the
machine, step by step. What a method promises is stated in rows, columns and configuration
fields, and not through the helpers that its body calls.

## What is proved

* The readable blocks, with their bytes, are at every moment of every run exactly what the
  puts and deletes so far leave behind. No pack, renewal, release or crash changes them.
* Two-probe reads are linearizable; the opposite probe order is not, and a run shows it.
* Every index row decodes to its block, through range responses, whole bodies, quilt
  patches and a cache in any state. A read succeeds if and only if the bytes are cached or
  an aggregator that has them is reached before one that denies them.
* Renewals repoint rows without changing their meaning; scans that come often enough keep
  every row from its expiry.
* No two nodes ever hold the same block in flight if and only if no lease step takes a
  candidate that somebody holds and that either was put again since it was leased or is
  past its lease (`Leases.DisjointIffNeverRetaken`). The comment at `index.go:569-572`
  promises disjoint packs outright. Flushes that beat their lease and keys that are not put
  again while held are enough; `Scenarios` has a run against the promise for either
  hypothesis dropped, with the other one kept. Blocks stay safe all the same.
* A due blob is on a scan's list if and only if less than a batch of due blobs is ahead of
  it, and on the next one if and only if less than a batch of those is left unrenewed. So a
  batch of blobs that keep failing keeps every later one out for good
  (`Starvation.LastOfCrowdStarves` is such an index), although `renewal.go:15-20` has the
  worker keep blobs alive.
* If at most f renewals fail per scan, a due blob is taken on within a bounded number of
  scans (`Starvation.ListedInTime`).
* A commit refines its operations in issue order, and what it leaves is known exactly
  whichever of its calls fail. A flush terminates once others stop writing, stays within its
  memory bound while they do, and drains an idle buffer. After any crashes, a lease and an
  idle span later, one flush empties staging.

Where the sources disagree among themselves the model follows the code:

* The comment at `walrus.go:49-51` has packs triggered by a block count too; the code
  (`walrus.go:629-633`) looks at bytes, age and idleness only.
* `README.md:306-308` says that a lone `Put` writes its own blob; the code stages it
  (`walrus.go:308-321`).
* `CONTEXT.md:48` gives the cache 256 MiB by default; the constant at `walrus.go:61` is 1 GiB.
* `index.go:391-394` says that UNION removes the duplicate of a key in both tables. It does so
  only because the sizes agree: `Queries.ListingIsExact` is an if-and-only-if.
* `client.go:280-285` promises an exact length; it is exact if and only if no identifier holds a
  quote or a backslash (`Multipart.MultipartBodyLength`), which decimal identifiers never do.

## Model

| member | source | states |
|---|---|---|
| Safety.RunRefinesStore | index.go:645-700 | In every state of every run, the map of readable keys to bytes equals the fold of the puts, oversize puts and deletes so far; claims, leases, uploads, promotions, releases, renewals, ticks and crashes contribute nothing |
| Safety.NeverLostNeverResurrected | index.go:358-389 | A lookup gives the key's block if and only if some write of it has not been followed by a delete of it, and nothing otherwise |
| Safety.StepRefines | index.go:645-700 | One step of any actor changes the set of present keys only as a put, an oversize put or a delete would |
| Safety.ReadsAreLinearizable | walrus.go:338-412 | Whatever happens between the staging probe, the index probe and the Walrus read, `Has`, `GetSize` and `Get` answer as one single state between the two probes would |
| Safety.IndexedStaysIndexed | walrus.go:342-345 | A key that is indexed and stays present throughout is still indexed later: nothing moves from the index back to staging, which is why the probe order matters |
| Safety.ListIsExactInEveryState | index.go:391-431 | In every reachable state a listing names exactly the readable keys that are the prefix or continue it after a slash (all keys for "" and "/"), once each, in dictionary order, with the length of their bytes as size |
| Scenarios.ReversedProbesMissABlock | walrus.go:342-345 | A run in which a block is present throughout and yet an index probe followed by a staging probe finds nothing |
| Protocol.StepKeepsInv | walrus.go:699-704 | Every step keeps: each index row decodes to its key's block, staged sizes are the values' lengths and below the target, and every pack in flight is intact, without repeats and within the byte and member limits |
| Protocol.RunKeepsInv | walrus.go:699-704 | That invariant holds in every reachable state, crashes included |
| Conformance.TakePut | index.go:481-530 | On the tables of any state, the staging method takes the machine's put step, or refuses and changes nothing exactly when that step is not allowed |
| Conformance.TakeDelete | index.go:367-389 | The delete method takes the delete step, from any state |
| Conformance.TakeSelect | index.go:578-610 | The candidate loop takes the select step of a node with packs to spare |
| Conformance.TakeLease | index.go:613-631 | The lease statement takes the lease step: the pack held is the rows returned, for fifteen minutes |
| Conformance.TakeUpload | walrus.go:705-846 | An upload to a publisher that stores what it is sent takes the upload step, and the rows held are the ones returned |
| Conformance.TakePromotion | index.go:650-700 | The promotion takes the promotion step, seen or unseen, or changes nothing exactly when that step is not allowed |
| Conformance.TakeRelease | index.go:634-643 | The release method takes the release step |
| Conformance.TakeDirectUpload | walrus.go:308-315 | The upload of an oversize put takes its step |
| Conformance.TakeDirectWrite | walrus.go:308-315 | Its index write takes the next one |
| Conformance.TakeScanStart | renewal.go:46-52 | A scan starts with the list that the machine gives it, the lead taken from the configuration |
| Conformance.TakeScanStore | renewal.go:103-123 | After the store, the worker holds the reply, the billed size and the new expiry |
| Conformance.TakeUpdate | index.go:466-472 | The index update takes the update step |
| Conformance.AlwaysAllowed | walrus.go:577-581 | No state refuses a delete, a crash, the passing of time or a blob that nobody indexes, nor a put of different keys with their own bytes |
| Conformance.WorkersGoOn | renewal.go:53-60 | A worker can start, pass over the blob at hand and go on with the rest, and read any blob that Walrus has |
| Protocol.SelectionIsGood | index.go:578-607 | A selected pack has distinct keys and stays within the member limit and the target size, the lone-row exception included, because larger values never reach staging |
| Protocol.SubsetKeepsLimits | index.go:613-631 | Rows returned by the lease statement number no more, and weigh no more, than the candidates |
| Leases.DisjointIffNeverRetaken | index.go:569-632 | Over every run, no two actors ever hold the same block if and only if no lease step retakes a block: a candidate, still staged, that another actor leased and holds, and that was put again since or whose lease has run out |
| Leases.OverlapsIff | index.go:613-631 | The same for one step: from states disjoint so far, packs overlap next if and only if the step is a lease that retakes a held block |
| Leases.HeldIsClaimableIff | index.go:573-616 | While packs are disjoint, a block held since some step can be claimed by somebody else if and only if it was put since that step or the clock is past that step plus the lease |
| Leases.InFlightPacksAreDisjoint | index.go:569-572 | Hence: if no flush has outlived its lease and no held key is put again, no two actors ever hold the same block, and held rows carry their holder's lease |
| Scenarios.ReputLetsPacksOverlap | index.go:511-519 | Without the second hypothesis it fails: a run, every flush within its lease, that ends with two actors holding the same block |
| Scenarios.SlowFlushLetsPacksOverlap | walrus.go:90-94 | Without the first it fails too: a run in which no held key is put again, and a second flush takes the block of a first that is late |
| Protocol.NodeStaysWithinBudget | walrus.go:610-644 | In every state of every run, with all nodes writing, a node is busy with at most Workers packs and its actors together hold at most workers times the target in bytes |
| Protocol.RunKeepsNodesWithinWorkers | walrus.go:617-644 | Every step of every actor keeps each node within Workers packs, candidates included, because a claim starts only while fewer are held |
| Protocol.RunKeepsStagedInTime | index.go:613-616 | In every reachable state, crashes included, no staged row was made in the future and none is leased past one lease from now |
| Recovery.AllClaimableAgain | walrus.go:577-581 | From any reachable state, once a lease and an idle span have passed without new blocks, every staged row is claimable and the buffer is idle |
| Recovery.FlushWhatIsLeft | walrus.go:577-581 | One calm flush then empties staging and indexes every key that was present, whoever crashed before |
| Renewal.UpdatePreservesMeaning | renewal.go:98-125 | A renewal's index update, after anything at all has happened since its read and its store, adds and removes no key, touches no staged row, and leaves every row reading the same bytes at the same patch, offset and size |
| Renewal.ScanHandlesEachBlobOnce | renewal.go:46-62 | What a scan has handled followed by what it has left is always the list it set out with, and that list repeats no blob |
| Renewal.NoRowReachesItsExpiry | renewal.go:21-44 | If the configured lead, or one epoch when none is configured, exceeds the gap, the paid window exceeds gap plus write delay, scans are on time, at most one batch expires within the lead per scan and renewals succeed, then in every later state of every run no row has reached its expiry |
| Renewal.NoExpiryIsMadeUp | walrus.go:290-300 | In every reachable state a row has an expiry exactly when the epoch length is known, and none later than a window of all epochs bought now |
| Renewal.StepKeepsTimedInv | renewal.go:46-62 | Each step keeps every row either safe till the next scan's end or safe till this scan's end and still on its list |
| Renewer.RenewBlob | renewal.go:98-125 | One renewal changes the index by its outcome and by nothing when the read, the store or the update fails; it reports which |
| Renewer.RenewExpiring | renewal.go:46-62 | Its list names blobs with a row that expires by the start plus the configured lead, or plus one epoch when none is configured: each once, at most 256, all of them when there are no more; nothing happens when the listing query fails; otherwise the outcomes are applied in order, failed ones passed over, and it stops early only when cancelled |
| Renewer.EachDueBlobOnce | renewal.go:64-76 | With content-derived ids, a row ends up exactly as its own blob's outcome says, and rows of other blobs or of failed renewals are untouched |
| Renewer.ScanKeepsMeaning | renewal.go:87-97 | A whole scan keeps the key set, and every row decodes to what it decoded to, even if ids change |
| Renewer.DueRowsAreExtended | renewal.go:46-62 | A scan that is not cut short, with at most a batch due and every renewal successful, gives every due row a full window counted from its own renewal |
| Queries.DueForRenewalIsExact | index.go:433-457 | The scan names each due blob at most once, all of them when the limit allows, and otherwise those whose first expiry comes first |
| Starvation.ListedIff | index.go:433-457 | A blob is on a scan's list if and only if it is due and fewer due blobs than the limit are ahead of it |
| Starvation.NextScanLists | renewal.go:46-62 | After a scan in which any renewals failed, a blob still due is on the next list if and only if fewer than a batch of those ahead of it are left unrenewed; nobody overtakes it |
| Starvation.WaitsWhileScansFail | renewal.go:46-62 | However many scans fail in a row, they change nothing, and a due blob is on the next list if and only if fewer than a batch were ahead of it at the start |
| Starvation.OneScanForward | renewal.go:46-62 | A scan that leaves a due blob off its list, and in which at most f renewals fail, shortens the line ahead of that blob by a batch less f |
| Starvation.ListedInTime | renewal.go:15-20 | Progress: if at most f renewals fail per scan, a due blob is on some list within as many scans as clear the line ahead of it at a batch less f each |
| Starvation.LastOfCrowdStarves | renewal.go:10-13 | A concrete index: one blob more than a batch, all due; while the batch fails, the last is on no list |
| Queries.ClaimIsLongestFifoPrefix | index.go:569-607 | The candidates are distinct claimable rows, all older than any row left out, within both limits unless alone, and the next row in order would break the byte limit |
| Queries.ClaimIsPrefix | index.go:578-607 | The same as a prefix of the ordered scan, with the exact stopping condition |
| Index.PostgresIndex.SelectCandidates | index.go:573-610 | The row loop settles on a cut of the ordered scan as the byte limit demands, and on nothing for limits of zero or less |
| Index.PostgresIndex.LeaseCandidates | index.go:613-631 | Row by row: each candidate that is staged and free, or past its lease, is leased from now and returned once with its value; every other row is as it was |
| Index.PostgresIndex.StageRelease | index.go:634-643 | Every staged row with one of these keys keeps value, size and time and is claimable at any time from now on, whoever held it; every other row, and the key set, is unchanged |
| Index.PostgresIndex.PromoteStaged | index.go:650-700 | Succeeds exactly when no statement names a surviving key twice; then, row by row, exactly the staged keys that a record names leave staging and have such a record in the index, and every other row of either table is as it was; otherwise nothing changes |
| Tables.PromoteKeepsKeys | index.go:645-649 | Whatever records promotion is given, repeated or foreign keys included, no key appears or disappears, and a row leaves staging only if its index row is written |
| Index.PostgresIndex.PutManyTx | index.go:296-337 | The chunked upsert equals a row-by-row upsert, and is refused exactly when one chunk repeats a key |
| Index.PostgresIndex.PutMany | index.go:273-292 | The whole batch or nothing, staging untouched |
| Index.PostgresIndex.StagePutMany | index.go:481-530 | The whole list is staged, fresh and unleased, or nothing is; refused exactly when one chunk repeats a key |
| Index.PostgresIndex.DeleteMany | index.go:367-389 | Afterwards a key is present if and only if it was and is not among these; every row left, in either table, is the row it was |
| Index.PostgresIndex.UpdateBlobAfterRenewal | index.go:466-472 | Every row on the old blob gets the new blob, object, cost, encoded size, epoch and expiry and keeps its patch, offset, size and deletable flag; every row on another blob, and the key set, is unchanged |
| Queries.StageStatsMeaning | index.go:559-567 | The count is the number of claimable rows and the bytes are their total size, summed in any order; oldest and newest are attained bounds of their times |
| Queries.ListingIsExact | index.go:395-431 | A listing names exactly the present keys that are the prefix or continue it after a slash, all of them for "" and "/"; it names each once, in dictionary order, if and only if the tables agree on the sizes they share |
| Queries.MatchesIsUnder | index.go:401-409 | The query's condition holds of a key exactly when the key is the prefix, or is longer, begins with it and goes on with a slash; always for "" and "/" |
| Ordering.StrLessIsPrecedes | index.go:401-409 | The sort order is that of a dictionary: at the first difference the smaller character, or the end of the shorter string, comes first |
| Queries.PagesConcatenate | index.go:411-416 | For any database and prefix, successive queries of one positive limit concatenate to the rest of the full listing |
| Queries.PagesMakeTheListing | index.go:411-416 | From offset 0 they return together exactly what one query without a limit returns |
| Queries.ListIsPage | index.go:411-416 | A page is the listing from its offset on, cut at its limit, where an offset or a limit that is not positive does not count |
| Flusher.FlushStaged | walrus.go:612-674 | Terminates whatever the uploads and the database do, in whatever order a round's packs finish, and whatever others write between its calls, once they stop; while all staged rows are genuine and none exceeds a limit, the bytes in flight never exceed workers times the larger of target and limit, with others writing too; alone, it keeps every key and every staged value. With all calls succeeding and a fixed clock it returns only when every row is leased, or when the claimable rows weigh less than the target, each is younger than the maximal age, and some one is younger than the idle span; when that holds at entry it changes neither table; and an idle buffer is drained completely |
| Flusher.ClaimPacks | walrus.go:617-644 | Each round claims packs until it holds as many as there are workers or nothing more is to be claimed; every one is within the limits, and on a calm outside they are disjoint |
| Flusher.NothingToClaimIff | walrus.go:619-633 | A turn finds nothing to do exactly when every row is leased, or the claimable ones are too light, none is too old and some one is recent |
| Flusher.FlushOnePack | walrus.go:678-697 | The pack is promoted or not as the upload's records and the database decide; unless success is reported, the promotion having committed or not, its keys are released if that goes through; others may act before either write |
| Flusher.FlushedKeepsBlocks | walrus.go:606-611 | Whatever the publisher replied and however the promotion turned out, no key and no staged value is lost; reported success shrinks staging, and after a release what is left of the pack is claimable at any time |
| Flusher.AcceptedPackMoves | walrus.go:676-697 | A pack still staged whose upload is accepted, without repeated identifiers, leaves staging as a whole |
| Flusher.ClaimFits | index.go:569-610 | Candidates chosen in one state and leased in a later one make a pack of distinct rows claimable then, within the member limit, no heavier than the target or a lone larger row, and not empty when something is claimable and nothing happens in between |
| Batch.GroupsRefineSequence | walrus.go:499-507 | For every sequence of operations, applying the buffered last operation of each key group by group equals applying all of them in issue order |
| Batch.WalrusBatch.Group | walrus.go:525-539 | In any iteration order of the map, the three groups partition the buffer, without repeats |
| Batch.WalrusBatch.Commit | walrus.go:524-567 | Whichever calls fail, or commit without reporting it, both tables are known exactly: the staging group is all or nothing, each oversize block is written or is not, the deletes are all or nothing even after failed writes, and nothing else changes; success is reported if and only if every call needed succeeds, and then every value below the target is staged as it is, every larger one has a row of its own blob, column by column, and every deleted key is nowhere |
| Batch.CommitRefinesOperations | walrus.go:515-523 | After a successful commit the present keys are those that the issued operations, one by one, leave |
| Batch.CommitRefinesBlocks | walrus.go:515-523 | Their bytes too: for content-addressed keys and an honest Walrus the tables hold exactly the blocks of the operations one by one |
| Batch.PutBlock | walrus.go:302-321 | A lone put leaves exactly what a batch of one leaves, succeeds exactly when that would, and changes nothing when it fails, unless the write committed unreported |
| Packing.UploadPack | walrus.go:705-846 | By size and configuration: nothing for an empty pack, the plain blob of one block, one concatenated blob, or a quilt; every row, column by column, has the reply's blob, object, cost and end epoch, the configured deletable flag, the window from now as expiry, the reported billed size or else that of the pack's bytes, and its block's patch, offset and size; every error is the one its cause calls for |
| Packing.UploadConcatPack | walrus.go:804-846 | The joined blob is what is sent, and each row, column by column, says where the joined blocks before its own end |
| Packing.UploadQuiltPack | walrus.go:745-799 | Each row, column by column, belongs to the block whose decimal position its patch names; a wrong count or a name that is no position is an error, and only that |
| Packing.ConcatTiles | walrus.go:801-846 | The recorded ranges start at 0, follow on one another, end at the blob's end, and each cuts out its own block, empty ones included |
| Packing.UploadDecodes | walrus.go:699-704 | When Walrus holds what was sent, every row of an upload, plain, concatenated or quilt, decodes to a block of the pack under that block's key |
| Packing.ItoaIsInjective | walrus.go:746-754 | Different positions have different decimal identifiers |
| Packing.ItoaIsDecimal | walrus.go:746-754 | An identifier is its position in decimal: digits only, worth the position, with no leading zero |
| Packing.QuiltCoversPack | walrus.go:769-797 | An accepted reply gives every block its own row if and only if it repeats no identifier |
| Packing.ConcatPackSaves | walrus.go:323-332 | When no size is reported, the size recorded for a concatenated pack undercuts its blocks stored apart by one metadata copy per extra block |
| Encoding.PackingSaves | encoding.go:29-60 | For every shard count and every list of k lengths, the encoded length of the sum plus k - 1 copies of the metadata is at most the sum of the encoded lengths |
| Encoding.CodeIsNeverEmpty | encoding.go:37-42 | The guard against empty codes never fires |
| Encoding.LengthByShards | encoding.go:29-60 | From first principles: with f just under a third of the n shards (1000 by default) and s the least even size at which n - 2f by n - f symbols hold the blob, the length is n times both slivers of a shard, two 32-byte digests per shard and one 32-byte id |
| Encoding.DocumentedLength | encoding.go:26-28 | Hence the documented 66,034,000 for 17 bytes on 1000 shards, and by default |
| Encoding.EncodedBlobLengthMonotone | encoding.go:44-60 | A longer blob is never billed less |
| Encoding.SymbolSizeIsLeastEven | encoding.go:44-51 | The symbol size is the least even number whose multiple by the symbol count holds the blob |
| Encoding.ExpansionBound | encoding.go:3-5 | Twice the part that is not metadata is at most nine times the data plus two paddings |
| Encoding.FitsInt64 | encoding.go:52-60 | For blobs up to 2^60 bytes on up to 2^20 shards the result is positive and fits in 64 bits |
| Encoding.UnitsRoundUp | encoding.go:62-69 | The units are the least whole number that covers the size |
| Cache.BlobCache.Add | cache.go:62-95 | An entry over the cap changes nothing; any other is followed by the old entries less its namesake, in the order they had, and the list is the longest run from the front of these that fits; map, list and byte count stay consistent and within the budget |
| Cache.BlobCache.Get | cache.go:48-60 | A key that is not cached changes nothing; a hit at place i gives that entry's buffer and moves it to the front, all others in the order they had |
| Cache.NewBlobCache | cache.go:31-46 | No cache for a budget of zero or less, and otherwise an empty one |
| Cache.TrimIsLongestPrefix | cache.go:84-94 | What eviction leaves is the longest most-recent prefix that fits |
| Cache.AddedKeepsTheNewEntry | cache.go:75-94 | An entry within the budget survives its own add, in front, and appears once |
| Client.ReadRow | walrus.go:356-372 | For a row that decodes to a block, any cache state and any honest mix of answers: the read succeeds if and only if the row is empty, its data cached, or a useful answer comes before any denial; it then yields exactly the block, in a fresh buffer; otherwise it says not found if and only if a denial comes before any useful answer |
| Client.ReadRange | client.go:349-396 | The result is the cached blob's slice or the first good answer's; the cache still agrees with Walrus and gains at most this blob; the buffer is fresh and never a cached one |
| Client.ReadRangeResponse | client.go:398-424 | One response, by status: not found, a partial body of exactly the right length, a whole body cached and sliced, or an error |
| Client.ReadQuiltPatch | client.go:426-472 | The cached patch or the first good answer's, copied; the cache still agrees with Walrus and now holds the patch if it is not too large |
| Client.SliceBlob | client.go:474-487 | A fresh copy of the range, cut at the blob's end, and an error exactly for an offset before its start or past its end |
| Client.Read | client.go:313-347 | The first good answer, unless a denial comes first or nobody can be asked |
| Client.FailoverReadsTheRange | client.go:367-395 | A range inside the blob is read if and only if a useful answer precedes any denial, and then exactly, whichever response kind each aggregator chose |
| Client.FailoverDenies | client.go:315-347 | A whole read says not found if and only if a denial comes before any useful answer, and otherwise succeeds or fails as a whole |
| Client.PathsAgreeExactlyInside | client.go:403-419 | The partial and the whole-body path agree if and only if the range lies inside the blob |
| Client.ConcatReadsBack | client.go:349-353 | Every block of a concatenated pack is read back by its recorded range, through either path |
| Client.ReadsSurviveCallerWrites | client.go:474-487 | Rows are read one after another in any cache state while the caller overwrites every buffer it has been given: each read that succeeds still yields exactly its block |
| Multipart.WriteMultipartBody | client.go:263-278 | The body of the parts, or an error exactly for a boundary that section 5.1.1 of RFC 2046 does not allow |
| MultipartReader.BodyReadsBack | client.go:259-278 | A reader of the layout of section 5.1.1 of RFC 2046 and section 4.2 of RFC 7578 gets every part back, name and data, whatever the names, for every boundary that does not occur in the data |
| MultipartReader.QuiltRequestReadsBack | walrus.go:746-754 | So a quilt request carries each block under its decimal position |
| Multipart.MultipartBodyLength | client.go:280-301 | The length falls short of the body's by exactly what escaping adds, so it is exact if and only if no identifier holds a quote or a backslash |
| Multipart.QuiltRequest | client.go:193-257 | For every pack and every boundary the client draws, the announced length is the body's |
| Multipart.QuiltPartsNeedNoEscaping | client.go:284-285 | Decimal identifiers need no escaping |
| Multipart.HexBoundaryIsValid | client.go:303-311 | Every boundary drawn is one the writer accepts |

## Left out

- Transactions are atomic here. `DeleteMany` empties the index before staging at default isolation; a statement-level interleaving inside one transaction is not modelled, and nothing is claimed for it.
- Values that change under one key: two different values for a key are outside the runs.
- Driver and SQL text: the schema, parameter encoding (a lease is the intended duration added to the clock), collation (keys are ordered by character code) and the wildcards `%` and `_` in prefixes.
- Queries.DueForRenewalIsExact: blobs with the same first expiry are listed in order of their ids, where the query leaves the order open.
- Clocks: one clock for all nodes and the database.
- Transport: HTTP, retries, backoff, JSON and streaming. Failures are arbitrary outcomes; a parsed reply is assumed to carry the ids that `client.go:590-682` insists on.
- Values in listings: `Query` fetches each value lazily; its key listing is modelled, the iterator is not.
- Threads: `FlushStaged` takes the packs of one round in every order in which they may finish, since each changes the tables in a single statement or transaction; mutexes of the cache are not modelled.
- Client.ReadRange: lengths are natural numbers, since a negative one makes the original panic when it allocates; no row has one.
- Client.ReadRow: the aggregators' answers are fixed before the call, so an answer cannot depend on when it is asked for.
- Flusher.FlushStaged: it need not end while others keep writing, so termination is claimed only once they stop.
- Leases.InFlightPacksAreDisjoint: it assumes that flushes end before their lease does; that fifteen minutes suffice for that is not derived from timeouts.
- Renewal.NoRowReachesItsExpiry: it assumes that the recorded expiry does not exceed the true one on the chain.
- Cache.BlobCache.Add: recency is a sequence reassigned by the methods; the identity of list elements is not modelled.
- Multipart.WriteMultipartBody: the multipart writer is not part of the repository; the model follows the wire format its comments describe, with `\` and `"` escaped, and says nothing about line breaks inside identifiers.
- Equal cost and encoded size for all rows of a blob: true of one upload, not of all runs.
- Plugin configuration, build scripts, disk specifications and URL handling: easy and self-contained.
