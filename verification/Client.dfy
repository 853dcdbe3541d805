/** Reading back: whole and partial responses, failover between aggregators, and
    the cache in front of them. */
module Client {
  import opened Types
  import opened Cache
  import opened Packing

  /** What one aggregator says, retries included: Failed when no complete response came. */
  datatype Answer = Failed | Reply(status: int, body: Bytes)

  // ---- One response ----

  predicate Success(status: int) { 200 <= status < 300 }

  predicate Denied(a: Answer) { a.Reply? && a.status == 404 }

  predicate Useful(a: Answer) { a.Reply? && Success(a.status) }

  function Slice(full: Bytes, offset: int, length: nat): Result<Bytes> {
    if offset < 0 || offset > |full| then Err(OutOfRange)
    else Ok(full[offset..if offset + length > |full| then |full| else offset + length])
  }

  function OneRange(a: Answer, offset: int, length: nat): Result<Bytes> {
    if a.Failed? then Err(WalrusFailed)
    else if a.status == 404 then Err(NotFound)
    else if a.status == 206 then if |a.body| == length then Ok(a.body) else Err(ShortBody)
    else if Success(a.status) then Slice(a.body, offset, length)
    else Err(BadStatus)
  }

  function OneWhole(a: Answer): Result<Bytes> {
    if a.Failed? then Err(WalrusFailed)
    else if a.status == 404 then Err(NotFound)
    else if Success(a.status) then Ok(a.body)
    else Err(BadStatus)
  }

  // ---- Failover: the first good answer, unless a not-found comes before it ----

  function FirstRange(answers: seq<Answer>, offset: int, length: nat): Result<Bytes> {
    if answers == [] then Err(WalrusFailed) else
      var r := OneRange(answers[0], offset, length);
      if r.Ok? || r.error == NotFound then r else FirstRange(answers[1..], offset, length)
  }

  function FirstWhole(answers: seq<Answer>): Result<Bytes> {
    if answers == [] then Err(WalrusFailed) else
      var r := OneWhole(answers[0]);
      if r.Ok? || r.error == NotFound then r else FirstWhole(answers[1..])
  }

  // ---- Aggregators that serve what they hold ----

  /** The bytes of "bytes=first-last": both ends included, the last one clamped
      (section 14.1.2 of RFC 9110). */
  function Served(full: Bytes, first: int, last: int): Bytes
    requires 0 <= first < |full| && first <= last
  {
    full[first..if last >= |full| then |full| else last + 1]
  }

  ghost predicate ServesRange(a: Answer, full: Bytes, offset: int, length: nat) {
    Useful(a) ==>
      if a.status == 206 then
        0 <= offset < |full| && 0 < length && a.body == Served(full, offset, offset + length - 1)
      else a.body == full
  }

  ghost predicate ServesWhole(a: Answer, full: Bytes) { Useful(a) ==> a.body == full }

  ghost predicate AllServeRange(answers: seq<Answer>, full: Bytes, offset: int, length: nat) {
    forall i :: 0 <= i < |answers| ==> ServesRange(answers[i], full, offset, length)
  }

  ghost predicate AllServeWhole(answers: seq<Answer>, full: Bytes) {
    forall i :: 0 <= i < |answers| ==> ServesWhole(answers[i], full)
  }

  /** Answer i is the first one that ends the search, and it carries data. */
  ghost predicate ReachedAt(answers: seq<Answer>, i: nat) {
    i < |answers| && Useful(answers[i]) && forall j :: 0 <= j < i ==> !Denied(answers[j])
  }

  /** Some aggregator answers with data and none before it says not found. */
  ghost predicate Reachable(answers: seq<Answer>) { exists i :: ReachedAt(answers, i) }

  lemma ReachableStep(answers: seq<Answer>)
    requires answers != []
    ensures Reachable(answers) <==> Useful(answers[0]) || (!Denied(answers[0]) && Reachable(answers[1..]))
  {
    var rest := answers[1..];
    if Useful(answers[0]) { assert ReachedAt(answers, 0); }
    forall i: nat | i > 0 && ReachedAt(answers, i) ensures ReachedAt(rest, i - 1) {
      assert rest[i - 1] == answers[i];
    }
    forall i: nat | !Denied(answers[0]) && ReachedAt(rest, i) ensures ReachedAt(answers, i + 1) {
      forall j | 0 <= j < i + 1 ensures !Denied(answers[j]) {
        if j > 0 { assert answers[j] == rest[j - 1]; }
      }
    }
  }

  /** Answer i says not found, and none before it carries data. */
  ghost predicate DeniedAt(answers: seq<Answer>, i: nat) {
    i < |answers| && Denied(answers[i]) && forall j :: 0 <= j < i ==> !Useful(answers[j])
  }

  ghost predicate DeniedFirst(answers: seq<Answer>) { exists i :: DeniedAt(answers, i) }

  lemma DeniedStep(answers: seq<Answer>)
    requires answers != []
    ensures DeniedFirst(answers) <==> Denied(answers[0]) || (!Useful(answers[0]) && DeniedFirst(answers[1..]))
  {
    var rest := answers[1..];
    if Denied(answers[0]) { assert DeniedAt(answers, 0); }
    forall i: nat | i > 0 && DeniedAt(answers, i) ensures DeniedAt(rest, i - 1) {
      assert rest[i - 1] == answers[i];
    }
    forall i: nat | !Useful(answers[0]) && DeniedAt(rest, i) ensures DeniedAt(answers, i + 1) {
      forall j | 0 <= j < i + 1 ensures !Useful(answers[j]) {
        if j > 0 { assert answers[j] == rest[j - 1]; }
      }
    }
  }

  /** A read that gives no data says not found exactly when a denial comes before any data,
      and is otherwise a failure of every aggregator. */
  lemma {:induction false} FailoverDenies(answers: seq<Answer>)
    ensures FirstWhole(answers) == Err(NotFound) <==> DeniedFirst(answers)
    ensures FirstWhole(answers).Ok? || FirstWhole(answers) == Err(NotFound) || FirstWhole(answers) == Err(WalrusFailed)
  {
    if answers != [] {
      DeniedStep(answers);
      FailoverDenies(answers[1..]);
    }
  }

  lemma {:induction false} RangeFailoverDenies(answers: seq<Answer>, full: Bytes, offset: int, length: nat)
    requires 0 <= offset && 0 < length && offset + length <= |full|
    requires AllServeRange(answers, full, offset, length)
    ensures FirstRange(answers, offset, length) == Err(NotFound) <==> DeniedFirst(answers)
    ensures FirstRange(answers, offset, length).Ok? || FirstRange(answers, offset, length) == Err(NotFound)
         || FirstRange(answers, offset, length) == Err(WalrusFailed)
  {
    if answers != [] {
      assert ServesRange(answers[0], full, offset, length);
      DeniedStep(answers);
      RangeFailoverDenies(answers[1..], full, offset, length);
    }
  }

  /** A range read of bytes inside the blob succeeds exactly when an aggregator that
      holds them is reached, and then gives exactly those bytes, whichever kind of
      response each aggregator chose. */
  lemma {:induction false} FailoverReadsTheRange(answers: seq<Answer>, full: Bytes, offset: int, length: nat)
    requires 0 <= offset && 0 < length && offset + length <= |full|
    requires AllServeRange(answers, full, offset, length)
    ensures FirstRange(answers, offset, length).Ok? <==> Reachable(answers)
    ensures FirstRange(answers, offset, length).Ok? ==>
              FirstRange(answers, offset, length).value == full[offset..offset + length]
  {
    if answers != [] {
      assert ServesRange(answers[0], full, offset, length);
      ReachableStep(answers);
      FailoverReadsTheRange(answers[1..], full, offset, length);
    }
  }

  lemma {:induction false} FailoverReadsTheWhole(answers: seq<Answer>, full: Bytes)
    requires AllServeWhole(answers, full)
    ensures FirstWhole(answers).Ok? <==> Reachable(answers)
    ensures FirstWhole(answers).Ok? ==> FirstWhole(answers).value == full
  {
    if answers != [] {
      assert ServesWhole(answers[0], full);
      ReachableStep(answers);
      FailoverReadsTheWhole(answers[1..], full);
    }
  }

  /** The partial-content and the whole-body path give the same outcome exactly for
      ranges inside the blob: past its end one refuses and the other clamps. */
  lemma PathsAgreeExactlyInside(full: Bytes, offset: int, length: nat)
    requires 0 <= offset < |full| && 0 < length
    ensures OneRange(Reply(206, Served(full, offset, offset + length - 1)), offset, length)
         == OneRange(Reply(200, full), offset, length)
       <==> offset + length <= |full|
  {
    var part := Served(full, offset, offset + length - 1);
    if offset + length <= |full| {
      assert part == full[offset..offset + length];
    } else {
      assert |part| < length;
    }
  }

  /** Every block of a concatenated pack is read back by its recorded range, through
      whole bodies, partial ones, or any mix of them across aggregators. */
  lemma ConcatReadsBack(cfg: Config, pack: seq<StageEntry>, res: StoreResult, now: Time, i: nat, answers: seq<Answer>)
    requires i < |pack| && pack[i].value != []
    requires AllServeRange(answers, Joined(pack), Total(pack[..i]), |pack[i].value|)
    ensures var rec := ConcatRecords(cfg, pack, res, now)[i].rec;
      rec.size == |pack[i].value|
        && (FirstRange(answers, rec.offset, rec.size) == Ok(pack[i].value) <==> Reachable(answers))
  {
    JoinedSlices(pack, i);
    FailoverReadsTheRange(answers, Joined(pack), Total(pack[..i]), |pack[i].value|);
  }

  // ---- The cache beside the store ----

  ghost predicate SameAsStored(w: Walrus, key: string, data: Bytes) {
    && (key in w.blobs ==> data == w.blobs[key])
    && (key in w.patches ==> data == w.patches[key])
  }

  predicate IdsApart(w: Walrus) { w.blobs.Keys !! w.patches.Keys }

  ghost predicate Agree(c: BlobCache?, w: Walrus)
    reads c, if c == null then {} else set e | e in c.ll :: e.data
  {
    c != null ==> c.Valid() && forall e :: e in c.ll ==> SameAsStored(w, e.key, e.data[..])
  }

  /** No cached entry uses this buffer. */
  predicate Private(c: BlobCache?, a: array<byte>)
    reads c
  {
    c != null ==> forall e :: e in c.ll ==> e.data != a
  }

  predicate Cached(c: BlobCache?, key: string)
    reads c
  {
    c != null && Has(c.ll, key)
  }

  method ReadAll(body: Bytes) returns (a: array<byte>)
    ensures fresh(a) && a[..] == body
  {
    a := new byte[|body|](i requires 0 <= i < |body| => body[i]);
  }

  method SliceBlob(full: array<byte>, offset: int, length: nat) returns (r: Result<array<byte>>)
    ensures r.Ok? <==> Slice(full[..], offset, length).Ok?
    ensures r.Ok? ==> fresh(r.value) && r.value[..] == Slice(full[..], offset, length).value
    ensures r.Err? <==> offset < 0 || offset > full.Length
    ensures r.Err? ==> r.error == OutOfRange
    ensures r.Ok? && offset + length <= full.Length ==> r.value[..] == full[offset..offset + length]
    ensures r.Ok? && offset + length > full.Length ==> r.value[..] == full[offset..]
  {
    if offset < 0 || offset > full.Length { return Err(OutOfRange); }
    var end := offset + length;
    if end > full.Length { end := full.Length; }
    var out := new byte[end - offset](i requires 0 <= i < end - offset reads full => full[offset + i]);
    return Ok(out);
  }

  method FromCache(c: BlobCache?, ghost w: Walrus, key: string) returns (r: Option<array<byte>>)
    requires Agree(c, w)
    modifies c
    ensures Agree(c, w) && (r.Some? <==> old(Cached(c, key)))
    ensures r.Some? ==> Cached(c, key) && !Private(c, r.value) && SameAsStored(w, key, r.value[..])
    ensures c != null ==> Within(c.ll, old(c.ll))
  {
    if c == null { return None; }
    r := c.Get(key);
    ToFrontShape(old(c.ll), key);
    if r.Some? { assert CacheEntry(key, r.value) in c.ll; }
  }

  method Remember(c: BlobCache?, ghost w: Walrus, key: string, data: array<byte>)
    requires Agree(c, w) && SameAsStored(w, key, data[..])
    modifies c
    ensures Agree(c, w)
    ensures c != null ==> Within(c.ll, [CacheEntry(key, data)] + old(c.ll))
    ensures c != null && data.Length <= c.maxEntrySize ==> Cached(c, key)
  {
    if c == null { return; }
    c.Add(key, data);
    if data.Length <= c.maxEntrySize {
      AddedKeepsTheNewEntry(old(c.ll), CacheEntry(key, data), c.maxBytes);
      assert CacheEntry(key, data) in c.ll;
    }
  }

  // ---- The reads ----

  /** Whatever the cache has gained is a buffer made since. */
  twostate predicate GainsFresh(c: BlobCache?)
    reads c
  {
    c != null ==> forall e :: e in c.ll ==> e in old(c.ll) || fresh(e.data)
  }

  ghost predicate OnlyGains(before: seq<CacheEntry>, after: seq<CacheEntry>, key: string) {
    forall e :: e in after ==> e in before || e.key == key
  }

  /** What a range read returns: the cached blob's slice when there is one, else the
      first good response. */
  ghost function RangeOutcome(c: BlobCache?, w: Walrus, answers: seq<Answer>, blobId: string, offset: int,
                              length: nat): Result<Bytes>
    requires blobId in w.blobs
    reads c
  {
    if length == 0 then Ok([])
    else if answers == [] then Err(NoAggregator)
    else if Cached(c, blobId) then Slice(w.blobs[blobId], offset, length)
    else FirstRange(answers, offset, length)
  }

  ghost function PatchOutcome(c: BlobCache?, w: Walrus, answers: seq<Answer>, patchId: string): Result<Bytes>
    requires patchId in w.patches
    reads c
  {
    if answers == [] then Err(NoAggregator)
    else if Cached(c, patchId) then Ok(w.patches[patchId])
    else FirstWhole(answers)
  }

  ghost predicate Delivers(r: Result<array<byte>>, spec: Result<Bytes>)
    reads if r.Ok? then {r.value} else {}
  {
    if r.Ok? then spec == Ok(r.value[..]) else spec == Err(r.error)
  }

  method ReadRangeResponse(c: BlobCache?, ghost w: Walrus, a: Answer, blobId: string, offset: int, length: nat)
    returns (r: Result<array<byte>>)
    requires Agree(c, w) && IdsApart(w) && blobId in w.blobs
    requires ServesRange(a, w.blobs[blobId], offset, length)
    modifies c
    ensures Agree(c, w) && Delivers(r, OneRange(a, offset, length))
    ensures c != null ==> OnlyGains(old(c.ll), c.ll, blobId)
    ensures GainsFresh(c)
    ensures r.Ok? ==> fresh(r.value) && Private(c, r.value)
    ensures c != null && Useful(a) && a.status != 206 && |a.body| <= c.maxEntrySize ==> Cached(c, blobId)
  {
    if a.Failed? { return Err(WalrusFailed); }
    if a.status == 404 { return Err(NotFound); }
    if a.status == 206 {
      if |a.body| != length { return Err(ShortBody); }
      var body := ReadAll(a.body);
      return Ok(body);
    }
    if a.status < 200 || a.status >= 300 { return Err(BadStatus); }
    var body := ReadAll(a.body);
    Remember(c, w, blobId, body);
    r := SliceBlob(body, offset, length);
  }

  method ReadBlobResponse(a: Answer) returns (r: Result<array<byte>>)
    ensures Delivers(r, OneWhole(a))
    ensures r.Ok? ==> fresh(r.value)
  {
    if a.Failed? { return Err(WalrusFailed); }
    if a.status == 404 { return Err(NotFound); }
    if a.status < 200 || a.status >= 300 { return Err(BadStatus); }
    var body := ReadAll(a.body);
    return Ok(body);
  }

  method Read(answers: seq<Answer>) returns (r: Result<array<byte>>)
    ensures Delivers(r, if answers == [] then Err(NoAggregator) else FirstWhole(answers))
    ensures r.Ok? ==> fresh(r.value)
  {
    if |answers| == 0 { return Err(NoAggregator); }
    for i := 0 to |answers|
      invariant FirstWhole(answers) == FirstWhole(answers[i..])
    {
      r := ReadBlobResponse(answers[i]);
      if r.Ok? || r.error == NotFound { return; }
    }
    return Err(WalrusFailed);
  }

  method ReadRange(c: BlobCache?, ghost w: Walrus, answers: seq<Answer>, blobId: string, offset: int, length: nat)
    returns (r: Result<array<byte>>)
    requires Agree(c, w) && IdsApart(w) && blobId in w.blobs
    requires AllServeRange(answers, w.blobs[blobId], offset, length)
    modifies c
    ensures Agree(c, w)
    ensures Delivers(r, old(RangeOutcome(c, w, answers, blobId, offset, length)))
    ensures r.Ok? ==> fresh(r.value) && Private(c, r.value)
    ensures c != null ==> OnlyGains(old(c.ll), c.ll, blobId)
    ensures GainsFresh(c)
  {
    if length == 0 {
      var out := new byte[0];
      assert out[..] == [];
      return Ok(out);
    }
    if |answers| == 0 { return Err(NoAggregator); }
    var full := FromCache(c, w, blobId);
    if full.Some? {
      r := SliceBlob(full.value, offset, length);
      return;
    }
    r := RangeFromAggregators(c, w, answers, blobId, offset, length);
  }

  method RangeFromAggregators(c: BlobCache?, ghost w: Walrus, answers: seq<Answer>, blobId: string, offset: int,
                              length: nat)
    returns (r: Result<array<byte>>)
    requires Agree(c, w) && IdsApart(w) && blobId in w.blobs
    requires AllServeRange(answers, w.blobs[blobId], offset, length)
    modifies c
    ensures Agree(c, w) && Delivers(r, FirstRange(answers, offset, length))
    ensures r.Ok? ==> fresh(r.value) && Private(c, r.value)
    ensures c != null ==> OnlyGains(old(c.ll), c.ll, blobId)
    ensures GainsFresh(c)
  {
    for i := 0 to |answers|
      invariant Agree(c, w) && (c != null ==> OnlyGains(old(c.ll), c.ll, blobId)) && GainsFresh(c)
      invariant FirstRange(answers, offset, length) == FirstRange(answers[i..], offset, length)
    {
      assert ServesRange(answers[i], w.blobs[blobId], offset, length);
      r := ReadRangeResponse(c, w, answers[i], blobId, offset, length);
      if r.Ok? || r.error == NotFound { return; }
    }
    return Err(WalrusFailed);
  }

  method CopyOf(data: array<byte>) returns (out: array<byte>)
    ensures fresh(out) && out[..] == data[..]
  {
    out := new byte[data.Length](i requires 0 <= i < data.Length reads data => data[i]);
  }

  method ReadQuiltPatch(c: BlobCache?, ghost w: Walrus, answers: seq<Answer>, patchId: string)
    returns (r: Result<array<byte>>)
    requires Agree(c, w) && IdsApart(w) && patchId in w.patches
    requires AllServeWhole(answers, w.patches[patchId])
    modifies c
    ensures Agree(c, w)
    ensures Delivers(r, old(PatchOutcome(c, w, answers, patchId)))
    ensures r.Ok? ==> fresh(r.value) && Private(c, r.value)
    ensures r.Ok? && c != null && r.value.Length <= c.maxEntrySize ==> Cached(c, patchId)
    ensures c != null ==> OnlyGains(old(c.ll), c.ll, patchId)
    ensures GainsFresh(c)
  {
    if |answers| == 0 { return Err(NoAggregator); }
    var data := FromCache(c, w, patchId);
    if data.Some? {
      var out := CopyOf(data.value);
      return Ok(out);
    }
    r := PatchFromAggregators(c, w, answers, patchId);
  }

  method PatchFromAggregators(c: BlobCache?, ghost w: Walrus, answers: seq<Answer>, patchId: string)
    returns (r: Result<array<byte>>)
    requires Agree(c, w) && IdsApart(w) && patchId in w.patches
    requires AllServeWhole(answers, w.patches[patchId])
    modifies c
    ensures Agree(c, w) && Delivers(r, FirstWhole(answers))
    ensures r.Ok? ==> fresh(r.value) && Private(c, r.value)
    ensures r.Ok? && c != null && r.value.Length <= c.maxEntrySize ==> Cached(c, patchId)
    ensures c != null ==> OnlyGains(old(c.ll), c.ll, patchId)
    ensures GainsFresh(c)
  {
    for i := 0 to |answers|
      invariant Agree(c, w) && (c != null ==> OnlyGains(old(c.ll), c.ll, patchId)) && GainsFresh(c)
      invariant FirstWhole(answers) == FirstWhole(answers[i..])
    {
      assert ServesWhole(answers[i], w.patches[patchId]);
      r := ReadBlobResponse(answers[i]);
      if r.Ok? {
        Remember(c, w, patchId, r.value);
        var out := CopyOf(r.value);
        return Ok(out);
      }
      if r.error == NotFound { return; }
    }
    return Err(WalrusFailed);
  }

  // ---- Reading one indexed block ----

  ghost predicate AllServe(answers: seq<Answer>, w: Walrus, rec: Record) {
    if rec.patchId != "" then rec.patchId in w.patches && AllServeWhole(answers, w.patches[rec.patchId])
    else rec.size >= 0 && rec.blobId in w.blobs && AllServeRange(answers, w.blobs[rec.blobId], rec.offset, rec.size)
  }

  /** When a read of the row must succeed: it is empty, cached, or reachable. */
  ghost predicate CanServe(c: BlobCache?, answers: seq<Answer>, rec: Record)
    reads c
  {
    (rec.patchId == "" && rec.size == 0)
    || (answers != [] && (Cached(c, if rec.patchId != "" then rec.patchId else rec.blobId) || Reachable(answers)))
  }

  /** With any cache, any failures and any mix of responses, a row is read back as its
      block or not at all, and it is read back whenever an aggregator allows it. */
  method ReadRow(c: BlobCache?, ghost w: Walrus, answers: seq<Answer>, rec: Record, ghost v: Bytes)
    returns (r: Result<array<byte>>)
    requires Agree(c, w) && IdsApart(w) && Decodes(w, rec, v) && AllServe(answers, w, rec)
    modifies c
    ensures Agree(c, w)
    ensures GainsFresh(c)
    ensures r.Ok? <==> old(CanServe(c, answers, rec))
    ensures r.Ok? ==> r.value[..] == v && fresh(r.value) && Private(c, r.value)
    ensures r == Err(NotFound) <==> !old(CanServe(c, answers, rec)) && DeniedFirst(answers)
    ensures r == Err(NoAggregator) <==> !old(CanServe(c, answers, rec)) && answers == []
  {
    if rec.patchId != "" {
      FailoverReadsTheWhole(answers, v);
      FailoverDenies(answers);
      r := ReadQuiltPatch(c, w, answers, rec.patchId);
    } else {
      if rec.size > 0 {
        FailoverReadsTheRange(answers, w.blobs[rec.blobId], rec.offset, rec.size);
        RangeFailoverDenies(answers, w.blobs[rec.blobId], rec.offset, rec.size);
      }
      r := ReadRange(c, w, answers, rec.blobId, rec.offset, rec.size);
    }
  }

  // ---- Callers that write to what they were given ----

  datatype Request = Request(rec: Record, answers: seq<Answer>)

  /** A caller overwrites every buffer it has. */
  method Scribble(c: BlobCache?, ghost w: Walrus, given: seq<array<byte>>, junk: nat -> byte)
    requires Agree(c, w) && forall a :: a in given ==> Private(c, a)
    modifies set a | a in given
    ensures Agree(c, w)
  {
    for i := 0 to |given|
      invariant Agree(c, w)
    {
      assert given[i] in given;
      for j := 0 to given[i].Length
        invariant Agree(c, w)
      {
        given[i][j] := junk(j);
      }
    }
  }

  /** Reads of any rows one after another, the caller overwriting every buffer it has
      received before it reads on: each read that succeeds still yields its block. */
  method ReadsSurviveCallerWrites(c: BlobCache?, ghost w: Walrus, requests: seq<Request>, ghost blocks: seq<Bytes>,
                                  junk: nat -> nat -> byte)
    returns (got: seq<Option<Bytes>>)
    requires Agree(c, w) && IdsApart(w) && |blocks| == |requests|
    requires forall i :: 0 <= i < |requests| ==>
      Decodes(w, requests[i].rec, blocks[i]) && AllServe(requests[i].answers, w, requests[i].rec)
    modifies c
    ensures Agree(c, w) && |got| == |requests|
    ensures forall i :: 0 <= i < |got| && got[i].Some? ==> got[i].value == blocks[i]
  {
    got := [];
    var given: seq<array<byte>> := [];
    for i := 0 to |requests|
      invariant Agree(c, w) && |got| == i
      invariant forall a :: a in given ==> fresh(a) && Private(c, a)
      invariant forall j :: 0 <= j < i && got[j].Some? ==> got[j].value == blocks[j]
    {
      var r := ReadRow(c, w, requests[i].answers, requests[i].rec, blocks[i]);
      if r.Ok? {
        got, given := got + [Some(r.value[..])], given + [r.value];
      } else {
        got := got + [None];
      }
      Scribble(c, w, given, junk(i));
    }
  }
}
