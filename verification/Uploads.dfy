/**
 Resumable uploads: one upload session on disk, and the operations on it as
 sequences of durable writes. A crash keeps the writes made so far.
 */
module Uploads {
  import opened MapSums
  import opened Wrappers

  // ---- Disk

  datatype Chunk = Chunk(hash: string, size: nat)

  /** The contents of session.json. */
  datatype Manifest = Manifest(
    complete: bool,
    owner: string,
    key: string,
    blobHash: string,
    total: nat,
    metadata: string,
    chunkBytes: nat,
    chunkCount: nat,
    received: map<nat, Chunk>,
    receivedBytes: int,
    starts: nat,
    resumes: nat,
    replays: nat,
    blobRef: Option<string>)

  /**
   What survives a crash: the session manifest, the chunk directory and its files,
   the completed copy, and the content-addressed store other sessions share.
   */
  datatype Disk = Disk(
    manifest: Option<Manifest>,
    chunkDir: bool,
    chunks: map<nat, Bytes>,
    completed: Option<Bytes>,
    blobs: map<string, Bytes>)

  datatype Write =
    | MakeChunkDir
    | SaveManifest(m: Manifest)
    | SaveChunk(i: nat, bytes: Bytes)
    | SaveBlob(hash: string, blob: Bytes)
    | SaveCompleted(copy: Bytes)
    | DropChunk(i: nat)
    | DropChunkDir

  function Apply(d: Disk, w: Write): Disk {
    match w
    case MakeChunkDir => d.(chunkDir := true)
    case SaveManifest(m) => d.(manifest := Some(m))
    case SaveChunk(i, bytes) => d.(chunks := d.chunks[i := bytes])
    case SaveBlob(hash, blob) => d.(blobs := d.blobs[hash := blob])
    case SaveCompleted(copy) => d.(completed := Some(copy))
    case DropChunk(i) => d.(chunks := d.chunks - {i})
    case DropChunkDir => d.(chunks := map[], chunkDir := false)
  }

  function ApplyAll(d: Disk, writes: seq<Write>): Disk {
    if writes == [] then d else Apply(ApplyAll(d, writes[..|writes| - 1]), writes[|writes| - 1])
  }

  // ---- Chunk arithmetic

  function Min(a: int, b: int): int { if a < b then a else b }

  /** Where the client's sequential reads of `chunkBytes` stand after `i` of them. */
  function Offset(chunkBytes: nat, total: nat, i: nat): (r: nat)
    ensures r <= total
  {
    if i == 0 then 0 else Min(Offset(chunkBytes, total, i - 1) + chunkBytes, total)
  }

  function ChunkCount(chunkBytes: nat, total: nat): nat
    requires chunkBytes >= 1
  {
    (total + chunkBytes - 1) / chunkBytes
  }

  /** The size the server expects of chunk `i`. */
  function SizeAt(chunkBytes: nat, total: nat, i: nat): int { Min(chunkBytes, total - i * chunkBytes) }

  /** The size of the client's read number `i`. */
  function ReadSize(chunkBytes: nat, total: nat, i: nat): nat {
    Offset(chunkBytes, total, i + 1) - Offset(chunkBytes, total, i)
  }

  /** What the client reads for chunk `i`. */
  function Piece(file: Bytes, chunkBytes: nat, i: nat): (p: Bytes)
    ensures |p| == ReadSize(chunkBytes, |file|, i)
  {
    file[Offset(chunkBytes, |file|, i)..Offset(chunkBytes, |file|, i + 1)]
  }

  /** `n` reads reach the end of the file, and the last one is not empty. */
  predicate Covers(chunkBytes: nat, total: nat, n: nat) {
    Offset(chunkBytes, total, n) == total && (n > 0 ==> Offset(chunkBytes, total, n - 1) < total)
  }

  lemma {:induction false} OffsetIsMin(chunkBytes: nat, total: nat, i: nat)
    ensures Offset(chunkBytes, total, i) == Min(i * chunkBytes, total)
  {
    if i > 0 {
      OffsetIsMin(chunkBytes, total, i - 1);
      assert i * chunkBytes == (i - 1) * chunkBytes + chunkBytes;
    }
  }

  lemma CountBounds(chunkBytes: nat, total: nat, n: nat)
    requires chunkBytes >= 1 && n == ChunkCount(chunkBytes, total)
    ensures (n - 1) * chunkBytes < total || n == 0
    ensures n * chunkBytes >= total
  {
    var r := (total + chunkBytes - 1) % chunkBytes;
    assert total + chunkBytes - 1 == n * chunkBytes + r;
    assert (n - 1) * chunkBytes == n * chunkBytes - chunkBytes;
  }

  /** The server's chunk count is the number of reads the client needs. */
  lemma CountCovers(chunkBytes: nat, total: nat)
    requires chunkBytes >= 1
    ensures Covers(chunkBytes, total, ChunkCount(chunkBytes, total))
  {
    var n := ChunkCount(chunkBytes, total);
    CountBounds(chunkBytes, total, n);
    OffsetIsMin(chunkBytes, total, n);
    if n > 0 {
      OffsetIsMin(chunkBytes, total, n - 1);
    }
  }

  lemma {:induction false} OffsetsGrow(chunkBytes: nat, total: nat, i: nat, n: nat)
    requires i <= n
    ensures Offset(chunkBytes, total, i) <= Offset(chunkBytes, total, n)
  {
    if i < n {
      OffsetsGrow(chunkBytes, total, i, n - 1);
    }
  }

  /** The size the server expects of a chunk is the size of the client's read. */
  lemma SizesAgree(chunkBytes: nat, total: nat, n: nat, i: nat)
    requires chunkBytes >= 1 && Covers(chunkBytes, total, n) && i < n
    ensures SizeAt(chunkBytes, total, i) == ReadSize(chunkBytes, total, i) >= 1
  {
    OffsetsGrow(chunkBytes, total, i, n - 1);
    OffsetIsMin(chunkBytes, total, i);
  }

  // ---- Requests

  /** The SHA-256 of bytes in its text form, and the configured upload limit. */
  datatype Env = Env(hash: Bytes -> string, maxUploadBytes: nat)

  predicate StartsWith(s: string, prefix: string) { prefix <= s }

  predicate IsDigest(s: string) {
    && StartsWith(s, "sha256:") && |s| == 71
    && forall i :: 7 <= i < 71 ==> '0' <= s[i] <= '9' || 'a' <= s[i] <= 'f'
  }

  datatype StartRequest = StartRequest(owner: string, key: string, blobHash: string, total: int, metadata: string)

  datatype Op =
    | Start(request: StartRequest, chunkBytes: nat)
    | PutChunk(owner: string, index: int, chunkHash: string, bytes: Bytes)
    | Complete(owner: string, dropOrder: seq<nat>)
    | OtherUpload(blob: Bytes)

  datatype Reply =
    | Refused(code: string)
    | Broken(error: string)
    | Public(manifest: Manifest)
    | Elsewhere

  datatype Outcome = Outcome(writes: seq<Write>, reply: Reply)

  function Refuse(code: string): Outcome { Outcome([], Refused(code)) }

  predicate SameUpload(m: Manifest, r: StartRequest) {
    m.owner == r.owner && m.key == r.key && m.blobHash == r.blobHash && m.total == r.total && m.metadata == r.metadata
  }

  function NewManifest(r: StartRequest, chunkBytes: nat): Manifest
    requires r.total >= 1 && chunkBytes >= 1
  {
    Manifest(false, r.owner, r.key, r.blobHash, r.total, r.metadata, chunkBytes, ChunkCount(chunkBytes, r.total),
             map[], 0, 1, 0, 0, None)
  }

  function PlanStart(env: Env, d: Disk, r: StartRequest, chunkBytes: nat): Outcome
    requires chunkBytes >= 1
  {
    if !IsDigest(r.blobHash) then Refuse("volunteer_blob_hash_invalid")
    else if r.total < 1 || r.total > env.maxUploadBytes then Refuse("volunteer_upload_size_out_of_bounds")
    else if !StartsWith(r.owner, "sha256:") || r.key == "" then Refuse("volunteer_upload_identity_invalid")
    else if d.manifest.Some? then
      var m := d.manifest.value;
      if !SameUpload(m, r) then Refuse("volunteer_upload_idempotency_collision")
      else
        var again := m.(starts := m.starts + 1, resumes := m.resumes + 1);
        Outcome([SaveManifest(again)], Public(again))
    else if d.chunkDir then Outcome([], Broken("FileExistsError"))
    else
      var m := NewManifest(r, chunkBytes);
      Outcome([MakeChunkDir, SaveManifest(m)], Public(m))
  }

  function Sizes(received: map<nat, Chunk>): map<nat, int> {
    map i | i in received :: received[i].size
  }

  ghost function WithChunk(m: Manifest, i: nat, hash: string, size: nat): Manifest {
    var received := m.received[i := Chunk(hash, size)];
    m.(received := received, receivedBytes := Sum(Sizes(received)))
  }

  ghost function PlanPut(env: Env, d: Disk, owner: string, index: int, chunkHash: string, bytes: Bytes): Outcome {
    if !IsDigest(chunkHash) then Refuse("volunteer_blob_hash_invalid")
    else if d.manifest.None? then Refuse("volunteer_upload_not_found")
    else
      var m := d.manifest.value;
      if m.owner != owner then Refuse("volunteer_upload_owner_mismatch")
      else if m.complete then Outcome([], Public(m))
      else if index < 0 || index >= m.chunkCount then Refuse("volunteer_upload_chunk_index_invalid")
      else if |bytes| != SizeAt(m.chunkBytes, m.total, index) || env.hash(bytes) != chunkHash then
        Refuse("volunteer_upload_chunk_integrity_failed")
      else if index in m.received then
        if m.received[index].hash != chunkHash || index !in d.chunks then Refuse("volunteer_upload_chunk_collision")
        else
          var again := m.(replays := m.replays + 1);
          Outcome([SaveManifest(again)], Public(again))
      else
        var stored := WithChunk(m, index, chunkHash, |bytes|);
        Outcome([SaveChunk(index, bytes), SaveManifest(stored)], Public(stored))
  }

  /** The chunk files in index order; `None` when one is missing. */
  function Assembled(chunks: map<nat, Bytes>, n: nat): Option<Bytes> {
    if n == 0 then Some([])
    else
      var front := Assembled(chunks, n - 1);
      if front.None? || n - 1 !in chunks then None else Some(front.value + chunks[n - 1])
  }

  /** Storing a blob that is already there only checks it. */
  function PlanBlob(env: Env, d: Disk, blob: Bytes): Option<seq<Write>> {
    var h := env.hash(blob);
    if h !in d.blobs then Some([SaveBlob(h, blob)])
    else if env.hash(d.blobs[h]) != h then None
    else Some([])
  }

  function Drops(order: seq<nat>): seq<Write> {
    seq(|order|, k requires 0 <= k < |order| => DropChunk(order[k])) + [DropChunkDir]
  }

  function Finished(m: Manifest): Manifest {
    m.(complete := true, blobRef := Some(m.blobHash))
  }

  function PlanComplete(env: Env, d: Disk, owner: string, dropOrder: seq<nat>): Outcome {
    if d.manifest.None? then Refuse("volunteer_upload_not_found")
    else
      var m := d.manifest.value;
      if m.owner != owner then Refuse("volunteer_upload_owner_mismatch")
      else if m.complete then Outcome([], Public(m))
      else if |m.received| != m.chunkCount then Refuse("volunteer_upload_chunks_incomplete")
      else
        var assembled := Assembled(d.chunks, m.chunkCount);
        if assembled.None? then Outcome([], Broken("FileNotFoundError"))
        else
          var blob := assembled.value;
          if |blob| != m.total || env.hash(blob) != m.blobHash then Refuse("volunteer_upload_assembled_hash_mismatch")
          else
            var stored := PlanBlob(env, d, blob);
            if stored.None? then Refuse("volunteer_blob_collision")
            else
              Outcome(stored.value + [SaveCompleted(blob), SaveManifest(Finished(m))] + Drops(dropOrder),
                Public(Finished(m)))
  }

  ghost function Plan(env: Env, d: Disk, op: Op): Outcome
    requires op.Start? ==> op.chunkBytes >= 1
  {
    match op
    case Start(r, chunkBytes) => PlanStart(env, d, r, chunkBytes)
    case PutChunk(owner, index, chunkHash, bytes) => PlanPut(env, d, owner, index, chunkHash, bytes)
    case Complete(owner, dropOrder) => PlanComplete(env, d, owner, dropOrder)
    case OtherUpload(blob) =>
      var stored := PlanBlob(env, d, blob);
      if stored.None? then Refuse("volunteer_blob_collision") else Outcome(stored.value, Elsewhere)
  }

  /** The bytes behind `completed_blob_path`. */
  function CompletedBlob(env: Env, d: Disk, owner: string): (r: Option<Bytes>) {
    if d.manifest.None? || d.manifest.value.owner != owner || !d.manifest.value.complete then None
    else
      var h := d.manifest.value.blobHash;
      if d.completed.Some? && env.hash(d.completed.value) == h then d.completed
      else if h in d.blobs then Some(d.blobs[h])
      else None
  }

  // ---- Runs

  /** The writes a process with `power` writes left gets through. */
  datatype Power = Endless | Left(count: nat)

  function Through(writes: seq<Write>, power: Power): seq<Write> {
    if power.Endless? || power.count >= |writes| then writes else writes[..power.count]
  }

  /** An operation, cut off after `power` of its durable writes. */
  datatype Event = Event(op: Op, power: Power)

  ghost predicate WellFormed(e: Event) { e.op.Start? ==> e.op.chunkBytes >= 1 }

  ghost function After(env: Env, d: Disk, e: Event): Disk
    requires WellFormed(e)
  {
    ApplyAll(d, Through(Plan(env, d, e.op).writes, e.power))
  }

  ghost function Run(env: Env, d: Disk, events: seq<Event>): Disk
    requires forall k :: 0 <= k < |events| ==> WellFormed(events[k])
  {
    if events == [] then d else After(env, Run(env, d, events[..|events| - 1]), events[|events| - 1])
  }

  const EMPTY := Disk(None, false, map[], None, map[])
}
