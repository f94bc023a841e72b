/** The manager object on its disk, and the client loop that resumes an interrupted upload. */
module UploadClient {
  import opened Arithmetic
  import opened MapSums
  import opened Uploads
  import opened UploadSafety
  import opened Wrappers

  function Spent(power: Power, n: nat): Power {
    if power.Endless? then Endless else Left(if power.count >= n then power.count - n else 0)
  }

  /** Writes in two batches spend the power of the process the same way. */
  lemma ThroughConcat(d: Disk, a: seq<Write>, b: seq<Write>, power: Power)
    ensures ApplyAll(d, Through(a + b, power))
            == ApplyAll(ApplyAll(d, Through(a, power)), Through(b, Spent(power, |a|)))
    ensures Spent(power, |a + b|) == Spent(Spent(power, |a|), |b|)
  {
    ApplyConcat(d, Through(a, power), Through(b, Spent(power, |a|)));
    if power.Left? && power.count < |a| {
      assert Through(a + b, power) == Through(a, power) + [];
      assert Through(b, Spent(power, |a|)) == [];
      assert Through(a, power) + [] == Through(a, power);
    } else {
      assert Through(a + b, power) == a + Through(b, Spent(power, |a|));
    }
  }

  method SumReceived(received: map<nat, Chunk>) returns (total: int)
    ensures total == Sum(Sizes(received))
  {
    total := 0;
    var rest := received;
    while rest != map[]
      invariant Sum(Sizes(received)) == total + Sum(Sizes(rest))
      decreases |rest|
    {
      var i :| i in rest;
      SumAny(Sizes(rest), i);
      assert Sizes(rest - {i}) == Sizes(rest) - {i};
      total := total + rest[i].size;
      rest := rest - {i};
    }
    assert Sizes(rest) == map[];
  }

  class UploadManager {
    const env: Env
    var disk: Disk
    /** Durable writes the running process still gets through before it dies. */
    var power: Power

    constructor (env: Env, disk: Disk, power: Power)
      ensures this.env == env && this.disk == disk && this.power == power
    {
      this.env := env;
      this.disk := disk;
      this.power := power;
    }

    twostate predicate Carried(writes: seq<Write>)
      reads this
    {
      disk == ApplyAll(old(disk), Through(writes, old(power))) && power == Spent(old(power), |writes|)
    }

    method Commit(w: Write)
      modifies this
      ensures Carried([w])
    {
      assert [w][..0] == [];
      if power.Endless? {
        disk := Apply(disk, w);
      } else if power.count > 0 {
        disk := Apply(disk, w);
        power := Left(power.count - 1);
      }
    }

    method Commit2(a: Write, b: Write)
      modifies this
      ensures Carried([a, b])
    {
      ThroughConcat(disk, [a], [b], power);
      assert [a] + [b] == [a, b];
      Commit(a);
      Commit(b);
    }

    method StartUpload(r: StartRequest, chunkBytes: nat) returns (reply: Reply)
      requires chunkBytes >= 1
      modifies this
      ensures Carried(PlanStart(env, old(disk), r, chunkBytes).writes)
      ensures reply == PlanStart(env, old(disk), r, chunkBytes).reply
    {
      if !IsDigest(r.blobHash) {
        return Refused("volunteer_blob_hash_invalid");
      }
      if r.total < 1 || r.total > env.maxUploadBytes {
        return Refused("volunteer_upload_size_out_of_bounds");
      }
      if !StartsWith(r.owner, "sha256:") || r.key == "" {
        return Refused("volunteer_upload_identity_invalid");
      }
      if disk.manifest.Some? {
        var m := disk.manifest.value;
        if !SameUpload(m, r) {
          return Refused("volunteer_upload_idempotency_collision");
        }
        m := m.(starts := m.starts + 1, resumes := m.resumes + 1);
        Commit(SaveManifest(m));
        return Public(m);
      }
      if disk.chunkDir {
        return Broken("FileExistsError");
      }
      var m := NewManifest(r, chunkBytes);
      Commit2(MakeChunkDir, SaveManifest(m));
      reply := Public(m);
    }

    method PutChunkBytes(owner: string, index: int, chunkHash: string, bytes: Bytes) returns (reply: Reply)
      modifies this
      ensures Carried(PlanPut(env, old(disk), owner, index, chunkHash, bytes).writes)
      ensures reply == PlanPut(env, old(disk), owner, index, chunkHash, bytes).reply
    {
      if !IsDigest(chunkHash) {
        return Refused("volunteer_blob_hash_invalid");
      }
      if disk.manifest.None? {
        return Refused("volunteer_upload_not_found");
      }
      var m := disk.manifest.value;
      if m.owner != owner {
        return Refused("volunteer_upload_owner_mismatch");
      }
      if m.complete {
        return Public(m);
      }
      if index < 0 || index >= m.chunkCount {
        return Refused("volunteer_upload_chunk_index_invalid");
      }
      if |bytes| != SizeAt(m.chunkBytes, m.total, index) || env.hash(bytes) != chunkHash {
        return Refused("volunteer_upload_chunk_integrity_failed");
      }
      if index in m.received {
        if m.received[index].hash != chunkHash || index !in disk.chunks {
          return Refused("volunteer_upload_chunk_collision");
        }
        m := m.(replays := m.replays + 1);
        Commit(SaveManifest(m));
        return Public(m);
      }
      var received := m.received[index := Chunk(chunkHash, |bytes|)];
      var sum := SumReceived(received);
      m := m.(received := received, receivedBytes := sum);
      Commit2(SaveChunk(index, bytes), SaveManifest(m));
      reply := Public(m);
    }

    method Assemble(n: nat) returns (r: Option<Bytes>)
      ensures r == Assembled(disk.chunks, n)
    {
      var bytes: Bytes := [];
      for index := 0 to n
        invariant Assembled(disk.chunks, index) == Some(bytes)
      {
        if index !in disk.chunks {
          MissingStays(disk.chunks, index + 1, n);
          return None;
        }
        bytes := bytes + disk.chunks[index];
      }
      r := Some(bytes);
    }

    method DropChunks(order: seq<nat>)
      modifies this
      ensures Carried(Drops(order))
    {
      ghost var before, first := disk, power;
      ghost var all := Drops(order);
      for k := 0 to |order|
        invariant disk == ApplyAll(before, Through(all[..k], first)) && power == Spent(first, k)
      {
        ThroughConcat(before, all[..k], [DropChunk(order[k])], first);
        assert all[..k + 1] == all[..k] + [DropChunk(order[k])];
        Commit(DropChunk(order[k]));
      }
      ThroughConcat(before, all[..|order|], [DropChunkDir], first);
      assert all == all[..|order|] + [DropChunkDir];
      Commit(DropChunkDir);
    }

    method StoreBlob(blob: Bytes) returns (ok: bool)
      modifies this
      ensures ok == PlanBlob(env, old(disk), blob).Some?
      ensures Carried(if ok then PlanBlob(env, old(disk), blob).value else [])
    {
      var h := env.hash(blob);
      if h in disk.blobs {
        return env.hash(disk.blobs[h]) == h;
      }
      Commit(SaveBlob(h, blob));
      ok := true;
    }

    method CompleteUpload(owner: string, dropOrder: seq<nat>) returns (reply: Reply)
      modifies this
      ensures Carried(PlanComplete(env, old(disk), owner, dropOrder).writes)
      ensures reply == PlanComplete(env, old(disk), owner, dropOrder).reply
    {
      if disk.manifest.None? {
        return Refused("volunteer_upload_not_found");
      }
      var m := disk.manifest.value;
      if m.owner != owner {
        return Refused("volunteer_upload_owner_mismatch");
      }
      if m.complete {
        return Public(m);
      }
      if |m.received| != m.chunkCount {
        return Refused("volunteer_upload_chunks_incomplete");
      }
      var assembled := Assemble(m.chunkCount);
      if assembled.None? {
        return Broken("FileNotFoundError");
      }
      var blob := assembled.value;
      if |blob| != m.total || env.hash(blob) != m.blobHash {
        return Refused("volunteer_upload_assembled_hash_mismatch");
      }
      ghost var before, first := disk, power;
      var ok := StoreBlob(blob);
      if !ok {
        return Refused("volunteer_blob_collision");
      }
      ghost var stored := PlanBlob(env, before, blob).value;
      ThroughConcat(before, stored, [SaveCompleted(blob), SaveManifest(Finished(m))], first);
      Commit2(SaveCompleted(blob), SaveManifest(Finished(m)));
      ThroughConcat(before, stored + [SaveCompleted(blob), SaveManifest(Finished(m))], Drops(dropOrder), first);
      DropChunks(dropOrder);
      reply := Public(Finished(m));
    }
  }

  lemma {:induction false} MissingStays(chunks: map<nat, Bytes>, k: nat, n: nat)
    requires k <= n && Assembled(chunks, k).None?
    ensures Assembled(chunks, n).None?
    decreases n - k
  {
    if k < n {
      assert Assembled(chunks, k + 1).None?;
      MissingStays(chunks, k + 1, n);
    }
  }

  // ---- The client

  datatype Sending = AllSent(count: nat) | Stopped(count: nat) | Turned(reply: Reply)

  datatype Result = Delivered(manifest: Manifest) | Interrupted(count: nat) | Rejected(reply: Reply)

  /**
   The chunk loop from `index` on: skip what the server had when the upload was
   started, send the rest, stop after `k` new chunks unless `k` is zero.
   */
  ghost function SendFrom(env: Env, d: Disk, owner: string, file: Bytes, chunkBytes: nat, n: nat,
                          skip: set<nat>, index: nat, sent: nat, k: nat): (Disk, Sending)
    decreases n - index
  {
    if index >= n then (d, AllSent(sent))
    else if index in skip then SendFrom(env, d, owner, file, chunkBytes, n, skip, index + 1, sent, k)
    else
      var piece := Piece(file, chunkBytes, index);
      var plan := PlanPut(env, d, owner, index, env.hash(piece), piece);
      var after := ApplyAll(d, plan.writes);
      if !plan.reply.Public? then (after, Turned(plan.reply))
      else if k > 0 && sent + 1 >= k then (after, Stopped(sent + 1))
      else SendFrom(env, after, owner, file, chunkBytes, n, skip, index + 1, sent + 1, k)
  }

  /** One attempt: start or resume, send, complete. */
  ghost function Attempt(
    env: Env, d: Disk, file: Bytes, r: StartRequest, chunkBytes: nat, k: nat, order: seq<nat>): (Disk, Result)
    requires chunkBytes >= 1
  {
    var started := PlanStart(env, d, r, chunkBytes);
    var begun := ApplyAll(d, started.writes);
    if !started.reply.Public? then (begun, Rejected(started.reply))
    else
      var m := started.reply.manifest;
      var (sent, sending) := SendFrom(env, begun, r.owner, file, m.chunkBytes, m.chunkCount, m.received.Keys, 0, 0, k);
      Conclude(env, sent, sending, r.owner, order)
  }

  function Conclude(env: Env, d: Disk, sending: Sending, owner: string, order: seq<nat>): (Disk, Result) {
    match sending
    case Turned(reply) => (d, Rejected(reply))
    case Stopped(count) => (d, Interrupted(count))
    case AllSent(_) =>
      var finish := PlanComplete(env, d, owner, order);
      (ApplyAll(d, finish.writes),
        if finish.reply.Public? then Delivered(finish.reply.manifest) else Rejected(finish.reply))
  }

  method PutPiece(server: UploadManager, owner: string, file: Bytes, chunkBytes: nat, index: nat) returns (reply: Reply)
    requires server.power.Endless?
    modifies server
    ensures server.power.Endless?
    ensures var piece := Piece(file, chunkBytes, index);
            var plan := PlanPut(server.env, old(server.disk), owner, index, server.env.hash(piece), piece);
            server.disk == ApplyAll(old(server.disk), plan.writes) && reply == plan.reply
  {
    var piece := Piece(file, chunkBytes, index);
    reply := server.PutChunkBytes(owner, index, server.env.hash(piece), piece);
  }

  method SendChunks(
    server: UploadManager, owner: string, file: Bytes, chunkBytes: nat, n: nat, receivedBefore: set<nat>, k: nat)
    returns (sending: Sending)
    requires server.power.Endless?
    modifies server
    ensures server.power.Endless?
    ensures (server.disk, sending)
            == SendFrom(server.env, old(server.disk), owner, file, chunkBytes, n, receivedBefore, 0, 0, k)
  {
    var uploadedNow := 0;
    for index := 0 to n
      invariant server.power.Endless?
      invariant SendFrom(server.env, old(server.disk), owner, file, chunkBytes, n, receivedBefore, 0, 0, k)
             == SendFrom(server.env, server.disk, owner, file, chunkBytes, n, receivedBefore, index, uploadedNow, k)
    {
      if index !in receivedBefore {
        var reply := PutPiece(server, owner, file, chunkBytes, index);
        if !reply.Public? {
          return Turned(reply);
        }
        uploadedNow := uploadedNow + 1;
        if k > 0 && uploadedNow >= k {
          return Stopped(uploadedNow);
        }
      }
    }
    sending := AllSent(uploadedNow);
  }

  method FinishUpload(server: UploadManager, sending: Sending, owner: string, order: seq<nat>) returns (result: Result)
    requires server.power.Endless?
    modifies server
    ensures server.power.Endless?
    ensures (server.disk, result) == Conclude(server.env, old(server.disk), sending, owner, order)
  {
    match sending
    case Turned(reply) => result := Rejected(reply);
    case Stopped(count) => result := Interrupted(count);
    case AllSent(_) =>
      var reply := server.CompleteUpload(owner, order);
      result := if reply.Public? then Delivered(reply.manifest) else Rejected(reply);
  }

  method SubmitResumable(server: UploadManager, file: Bytes, r: StartRequest, chunkBytes: nat, k: nat, order: seq<nat>)
    returns (result: Result)
    requires chunkBytes >= 1 && server.power.Endless?
    modifies server
    ensures server.power.Endless?
    ensures (server.disk, result) == Attempt(server.env, old(server.disk), file, r, chunkBytes, k, order)
  {
    var started := server.StartUpload(r, chunkBytes);
    if !started.Public? {
      return Rejected(started);
    }
    var m := started.manifest;
    var sending := SendChunks(server, r.owner, file, m.chunkBytes, m.chunkCount, m.received.Keys, k);
    result := FinishUpload(server, sending, r.owner, order);
  }

  // ---- What an attempt achieves

  /** The request asks to upload `file`, under a hash that yields digests. */
  ghost predicate For(env: Env, r: StartRequest, file: Bytes) {
    && (forall b :: IsDigest(env.hash(b)))
    && GoodRequest(env, r) && r.blobHash == env.hash(file) && r.total == |file|
  }

  /** Any file but the empty one can be asked for, even under a hash that tells nothing apart. */
  lemma EveryFileCanBeAskedFor(file: Bytes) returns (env: Env, r: StartRequest)
    requires file != []
    ensures For(env, r, file)
  {
    var digest := "sha256:" + seq(64, _ => '0');
    env := Env(_ => digest, |file|);
    r := StartRequest("sha256:", "k", digest, |file|, "");
  }

  /** A session in progress, fed only with pieces of `file`. */
  ghost predicate Sound(env: Env, d: Disk, file: Bytes, r: StartRequest) {
    && Inv(env, d) && d.manifest.Some? && SameUpload(d.manifest.value, r) && Honest(env, d, file)
  }

  ghost predicate Open(env: Env, d: Disk, file: Bytes, r: StartRequest) {
    Inv(env, d) && !Stuck(d) && (d.manifest.Some? ==> Sound(env, d, file, r))
  }

  function Have(d: Disk): nat {
    if d.manifest.None? then 0 else |d.manifest.value.received|
  }

  function Need(d: Disk, file: Bytes, chunkBytes: nat): nat
    requires chunkBytes >= 1
  {
    if d.manifest.None? then ChunkCount(chunkBytes, |file|) else d.manifest.value.chunkCount
  }

  ghost predicate Added(a: Manifest, b: Manifest, i: nat) {
    && b.chunkBytes == a.chunkBytes && b.chunkCount == a.chunkCount && b.complete == a.complete
    && i !in a.received && b.received.Keys == a.received.Keys + {i}
  }

  /** A piece of the file that is still missing is stored and recorded. */
  lemma PieceIsTaken(env: Env, d: Disk, file: Bytes, r: StartRequest, i: nat, piece: Bytes)
    requires For(env, r, file) && Sound(env, d, file, r) && !d.manifest.value.complete
    requires i < d.manifest.value.chunkCount && i !in d.manifest.value.received
             && piece == Piece(file, d.manifest.value.chunkBytes, i)
    ensures var stored := WithChunk(d.manifest.value, i, env.hash(piece), |piece|);
            PlanPut(env, d, r.owner, i, env.hash(piece), piece)
            == Outcome([SaveChunk(i, piece), SaveManifest(stored)], Public(stored))
  {
    var m := d.manifest.value;
    SizesAgree(m.chunkBytes, m.total, m.chunkCount, i);
  }

  /** The stored piece keeps the session honest. */
  lemma StoredPieceIsHonest(env: Env, d: Disk, file: Bytes, i: nat, piece: Bytes)
    requires d.manifest.Some? && !d.manifest.value.complete && Honest(env, d, file)
    requires piece == Piece(file, d.manifest.value.chunkBytes, i) && i !in d.manifest.value.received
    ensures var stored := WithChunk(d.manifest.value, i, env.hash(piece), |piece|);
            var after := d.(chunks := d.chunks[i := piece], manifest := Some(stored));
            Honest(env, after, file) && Added(d.manifest.value, stored, i)
  {
    var m := d.manifest.value;
    var stored := WithChunk(m, i, env.hash(piece), |piece|);
    var after := d.(chunks := d.chunks[i := piece], manifest := Some(stored));
    forall j | j in stored.received ensures HoldsPiece(after, file, m.chunkBytes, j) {
      assert j != i ==> HoldsPiece(d, file, m.chunkBytes, j);
    }
  }

  lemma PutOnePiece(env: Env, d: Disk, file: Bytes, r: StartRequest, i: nat)
    requires For(env, r, file) && Sound(env, d, file, r) && !d.manifest.value.complete
    requires i < d.manifest.value.chunkCount && i !in d.manifest.value.received
    ensures var piece := Piece(file, d.manifest.value.chunkBytes, i);
            var plan := PlanPut(env, d, r.owner, i, env.hash(piece), piece);
            && plan.reply.Public? && Sound(env, ApplyAll(d, plan.writes), file, r)
            && Added(d.manifest.value, ApplyAll(d, plan.writes).manifest.value, i)
  {
    var piece := Piece(file, d.manifest.value.chunkBytes, i);
    var stored := WithChunk(d.manifest.value, i, env.hash(piece), |piece|);
    PieceIsTaken(env, d, file, r, i, piece);
    ApplyTwo(d, SaveChunk(i, piece), SaveManifest(stored));
    PutKeepsInv(env, d, r.owner, i, env.hash(piece), piece);
    StoredPieceIsHonest(env, d, file, i, piece);
  }

  lemma PutKeepsInv(env: Env, d: Disk, owner: string, index: int, chunkHash: string, bytes: Bytes)
    requires Inv(env, d)
    ensures Inv(env, ApplyAll(d, PlanPut(env, d, owner, index, chunkHash, bytes).writes))
  {
    var writes := PlanPut(env, d, owner, index, chunkHash, bytes).writes;
    PutIsSafe(env, d, owner, index, chunkHash, bytes);
    SafePrefix(InvOf(env), d, writes, |writes|);
    assert writes[..|writes|] == writes;
  }

  ghost function SoundFor(env: Env, file: Bytes, r: StartRequest): Disk -> bool {
    (d: Disk) => Sound(env, d, file, r)
  }

  /** Putting a missing piece keeps `good` and adds just that chunk. */
  ghost predicate PutAdds(env: Env, good: Disk -> bool, file: Bytes, owner: string, d: Disk, i: nat) {
    good(d) && d.manifest.Some? && !d.manifest.value.complete && i < d.manifest.value.chunkCount
      && i !in d.manifest.value.received
    ==>
      var piece := Piece(file, d.manifest.value.chunkBytes, i);
      var plan := PlanPut(env, d, owner, i, env.hash(piece), piece);
      var after := ApplyAll(d, plan.writes);
      plan.reply.Public? && good(after) && after.manifest.Some? && Added(d.manifest.value, after.manifest.value, i)
  }

  ghost predicate PutsAdd(env: Env, good: Disk -> bool, file: Bytes, owner: string) {
    forall d, i :: PutAdds(env, good, file, owner, d, i)
  }

  lemma PiecesAdd(env: Env, file: Bytes, r: StartRequest)
    requires For(env, r, file)
    ensures PutsAdd(env, SoundFor(env, file, r), file, r.owner)
  {
    forall d, i: nat ensures PutAdds(env, SoundFor(env, file, r), file, r.owner, d, i) {
      if Sound(env, d, file, r) && !d.manifest.value.complete && i < d.manifest.value.chunkCount
         && i !in d.manifest.value.received
      {
        PutOnePiece(env, d, file, r, i);
      }
    }
  }

  /** How a chunk loop that started with `had` chunks ends. */
  ghost predicate EndsWell(good: Disk -> bool, before: Manifest, after: Disk, sending: Sending, had: nat, k: nat) {
    && good(after) && after.manifest.Some?
    && !after.manifest.value.complete && after.manifest.value.chunkCount == before.chunkCount
    && match sending
       case AllSent(_) => Have(after) >= before.chunkCount && (k == 0 || before.chunkCount - had < k)
       case Stopped(count) => k > 0 && count == k && Have(after) == had + k
       case Turned(_) => false
  }

  ghost predicate Underway(d: Disk, skip: set<nat>, index: nat, sent: nat)
    requires d.manifest.Some?
  {
    var m := d.manifest.value;
    && !m.complete && index <= m.chunkCount
    && (forall i: nat :: i in m.received <==> i in skip || (i < index && i < m.chunkCount))
    && (forall i :: i in skip ==> i < m.chunkCount)
    && |m.received| == |skip| + sent
  }

  lemma UnderwayOneMore(d: Disk, after: Disk, skip: set<nat>, index: nat, sent: nat)
    requires d.manifest.Some? && after.manifest.Some? && Underway(d, skip, index, sent)
    requires index < d.manifest.value.chunkCount && Added(d.manifest.value, after.manifest.value, index)
    ensures Underway(after, skip, index + 1, sent + 1)
  {
    var m, stored := d.manifest.value, after.manifest.value;
    assert |stored.received.Keys| == |m.received.Keys| + 1;
    assert |stored.received| == |stored.received.Keys| && |m.received| == |m.received.Keys|;
    forall i: nat ensures i in stored.received <==> i in skip || (i < index + 1 && i < stored.chunkCount) {
      assert i in stored.received.Keys <==> i in m.received.Keys || i == index;
    }
  }

  lemma UnderwaySkips(d: Disk, skip: set<nat>, index: nat, sent: nat)
    requires d.manifest.Some? && Underway(d, skip, index, sent) && index < d.manifest.value.chunkCount
    ensures index in skip ==> Underway(d, skip, index + 1, sent)
    ensures index !in skip ==> index !in d.manifest.value.received
  {
  }

  lemma AllUnderway(d: Disk, skip: set<nat>, sent: nat)
    requires d.manifest.Some? && Underway(d, skip, d.manifest.value.chunkCount, sent)
    ensures Have(d) >= d.manifest.value.chunkCount
  {
    var m := d.manifest.value;
    SubsetOfSameSize(Indexes(m.chunkCount), m.received.Keys);
    assert |m.received.Keys| == |m.received|;
  }

  lemma {:induction false} SendEffect(
    env: Env, good: Disk -> bool, d: Disk, file: Bytes, owner: string,
    m: Manifest, skip: set<nat>, index: nat, sent: nat, k: nat)
    requires PutsAdd(env, good, file, owner) && good(d) && d.manifest.Some?
    requires m.chunkBytes == d.manifest.value.chunkBytes && m.chunkCount == d.manifest.value.chunkCount
    requires Underway(d, skip, index, sent) && (k > 0 ==> sent < k)
    ensures var (after, sending) := SendFrom(env, d, owner, file, m.chunkBytes, m.chunkCount, skip, index, sent, k);
            EndsWell(good, m, after, sending, |skip|, k)
    decreases m.chunkCount - index
  {
    if index >= m.chunkCount {
      AllUnderway(d, skip, sent);
    } else if index in skip {
      UnderwaySkips(d, skip, index, sent);
      SendEffect(env, good, d, file, owner, m, skip, index + 1, sent, k);
    } else {
      UnderwaySkips(d, skip, index, sent);
      assert PutAdds(env, good, file, owner, d, index);
      var piece := Piece(file, m.chunkBytes, index);
      var after := ApplyAll(d, PlanPut(env, d, owner, index, env.hash(piece), piece).writes);
      UnderwayOneMore(d, after, skip, index, sent);
      if !(k > 0 && sent + 1 >= k) {
        SendEffect(env, good, after, file, owner, m, skip, index + 1, sent + 1, k);
      }
    }
  }

  lemma {:induction false} SkipEverything(
    env: Env, d: Disk, owner: string, file: Bytes, chunkBytes: nat, n: nat, skip: set<nat>, index: nat, k: nat)
    requires index <= n && forall i :: index <= i < n ==> i in skip
    ensures SendFrom(env, d, owner, file, chunkBytes, n, skip, index, 0, k) == (d, AllSent(0))
    decreases n - index
  {
    if index < n {
      SkipEverything(env, d, owner, file, chunkBytes, n, skip, index + 1, k);
    }
  }

  lemma OpenEffect(env: Env, d: Disk, file: Bytes, r: StartRequest, chunkBytes: nat)
    requires chunkBytes >= 1 && For(env, r, file) && Open(env, d, file, r)
    ensures var started := PlanStart(env, d, r, chunkBytes); var begun := ApplyAll(d, started.writes);
            && started.reply.Public? && begun.manifest == Some(started.reply.manifest) && Sound(env, begun, file, r)
            && Have(begun) == Have(d) && begun.manifest.value.chunkCount == Need(d, file, chunkBytes)
            && begun.manifest.value.complete == (d.manifest.Some? && d.manifest.value.complete)
  {
    var plan := PlanStart(env, d, r, chunkBytes);
    StartIsSafe(env, d, r, chunkBytes);
    SafePrefix(InvOf(env), d, plan.writes, |plan.writes|);
    assert plan.writes[..|plan.writes|] == plan.writes;
    if d.manifest.Some? {
      ApplyFirst(d, plan.writes);
    } else {
      ApplyTwo(d, MakeChunkDir, SaveManifest(NewManifest(r, chunkBytes)));
    }
  }

  /** What an attempt does, with `had` of `n` chunks on the server before it. */
  ghost predicate Achieves(
    env: Env, after: Disk, result: Result, file: Bytes, r: StartRequest, n: nat, had: nat, k: nat)
  {
    && had <= n && Open(env, after, file, r) && after.manifest.Some?
    && if k > 0 && n - had >= k then
         result == Interrupted(k) && Have(after) == had + k && after.manifest.value.chunkCount == n
       else
         && result.Delivered? && after.manifest.value.complete
         && after.completed == Some(file) && CompletedBlob(env, after, r.owner) == Some(file)
  }

  lemma SendAll(env: Env, begun: Disk, file: Bytes, r: StartRequest, k: nat, order: seq<nat>)
    requires For(env, r, file) && Sound(env, begun, file, r) && !begun.manifest.value.complete
    ensures var m := begun.manifest.value;
            var (sent, sending) :=
              SendFrom(env, begun, r.owner, file, m.chunkBytes, m.chunkCount, m.received.Keys, 0, 0, k);
            EndsWell(SoundFor(env, file, r), m, sent, sending, Have(begun), k)
  {
    PiecesAdd(env, file, r);
    SendEffect(env, SoundFor(env, file, r), begun, file, r.owner, begun.manifest.value,
      begun.manifest.value.received.Keys, 0, 0, k);
  }

  lemma AfterOpening(
    env: Env, begun: Disk, sent: Disk, sending: Sending, file: Bytes, r: StartRequest, k: nat, order: seq<nat>)
    requires For(env, r, file) && Sound(env, begun, file, r) && !begun.manifest.value.complete
    requires EndsWell(SoundFor(env, file, r), begun.manifest.value, sent, sending, Have(begun), k)
    ensures sending.AllSent? ==>
              var finish := PlanComplete(env, sent, r.owner, order);
              && finish.reply.Public?
              && Achieves(env, ApplyAll(sent, finish.writes), Delivered(finish.reply.manifest), file, r,
                 begun.manifest.value.chunkCount, Have(begun), k)
    ensures sending.Stopped? ==>
              var result := Interrupted(sending.count);
              Achieves(env, sent, result, file, r, begun.manifest.value.chunkCount, Have(begun), k)
    ensures !sending.Turned?
  {
    AllInExactlyWhenCounted(begun.manifest.value);
    AllInExactlyWhenCounted(sent.manifest.value);
    if sending.AllSent? {
      FinishEffect(env, sent, file, r, order);
    }
  }

  /** An attempt is interrupted exactly when at least `k` chunks are still missing; otherwise it delivers the file. */
  lemma AttemptEffect(env: Env, d: Disk, file: Bytes, r: StartRequest, chunkBytes: nat, k: nat, order: seq<nat>)
    requires chunkBytes >= 1 && For(env, r, file) && Open(env, d, file, r)
    ensures var (after, result) := Attempt(env, d, file, r, chunkBytes, k, order);
            Achieves(env, after, result, file, r, Need(d, file, chunkBytes), Have(d), k)
  {
    OpenEffect(env, d, file, r, chunkBytes);
    var begun := ApplyAll(d, PlanStart(env, d, r, chunkBytes).writes);
    var m := begun.manifest.value;
    if m.complete {
      AllInExactlyWhenCounted(m);
      SkipEverything(env, begun, r.owner, file, m.chunkBytes, m.chunkCount, m.received.Keys, 0, k);
      CompletedIsOriginal(env, begun, file);
    } else {
      var (sent, sending) := SendFrom(env, begun, r.owner, file, m.chunkBytes, m.chunkCount, m.received.Keys, 0, 0, k);
      SendAll(env, begun, file, r, k, order);
      AfterOpening(env, begun, sent, sending, file, r, k, order);
    }
  }

  lemma FinishEffect(env: Env, d: Disk, file: Bytes, r: StartRequest, order: seq<nat>)
    requires For(env, r, file) && Sound(env, d, file, r) && !d.manifest.value.complete
             && Have(d) == d.manifest.value.chunkCount
    ensures var finish := PlanComplete(env, d, r.owner, order); var after := ApplyAll(d, finish.writes);
            && finish.reply.Public? && Sound(env, after, file, r) && after.manifest.value.complete
            && after.completed == Some(file) && CompletedBlob(env, after, r.owner) == Some(file)
  {
    HonestCompletion(env, d, file, order);
    var writes := PlanComplete(env, d, r.owner, order).writes;
    CompleteIsSafe(env, d, r.owner, order);
    SafePrefix(InvOf(env), d, writes, |writes|);
    assert writes[..|writes|] == writes;
    CompletedIsOriginal(env, ApplyAll(d, writes), file);
  }

  /** How often a client interrupted after every `k` new chunks has to try. */
  ghost function AttemptsToDeliver(
    env: Env, d: Disk, file: Bytes, r: StartRequest, chunkBytes: nat, k: nat, order: seq<nat>): nat
    requires chunkBytes >= 1 && k >= 1 && For(env, r, file) && Open(env, d, file, r)
    decreases Need(d, file, chunkBytes) - Have(d)
  {
    AttemptEffect(env, d, file, r, chunkBytes, k, order);
    var (after, result) := Attempt(env, d, file, r, chunkBytes, k, order);
    if result.Delivered? then 1 else 1 + AttemptsToDeliver(env, after, file, r, chunkBytes, k, order)
  }

  lemma AttemptsUnroll(env: Env, d: Disk, file: Bytes, r: StartRequest, chunkBytes: nat, k: nat, order: seq<nat>)
    requires chunkBytes >= 1 && k >= 1 && For(env, r, file) && Open(env, d, file, r)
    ensures var missing := Need(d, file, chunkBytes) - Have(d);
            var after := Attempt(env, d, file, r, chunkBytes, k, order).0;
            && missing >= 0
            && (missing < k ==> AttemptsToDeliver(env, d, file, r, chunkBytes, k, order) == 1)
            && (missing >= k ==>
                  && Open(env, after, file, r) && Need(after, file, chunkBytes) - Have(after) == missing - k
                  && AttemptsToDeliver(env, d, file, r, chunkBytes, k, order)
                     == 1 + AttemptsToDeliver(env, after, file, r, chunkBytes, k, order))
  {
    AttemptEffect(env, d, file, r, chunkBytes, k, order);
  }

  /** Attempts that clear `k` chunks each, and the one that finds fewer than `k` left. */
  function Tries(missing: nat, k: nat): nat
    requires k >= 1
  {
    if missing < k then 1 else 1 + Tries(missing - k, k)
  }

  lemma {:induction false} TriesAre(missing: nat, k: nat)
    requires k >= 1
    ensures Tries(missing, k) == missing / k + 1
  {
    if missing < k {
      DivUnique(missing, k, 0, missing);
    } else {
      TriesAre(missing - k, k);
      var q, m := (missing - k) / k, (missing - k) % k;
      assert (q + 1) * k == q * k + k;
      DivUnique(missing, k, q + 1, m);
    }
  }

  /** Each round that finds at least `k` missing clears `k` of them, and one that finds fewer is the last. */
  ghost predicate CountsDown<D>(
    good: D -> bool, missing: D -> int, next: D -> D, rounds: D -> nat, k: nat, d: D)
  {
    good(d) ==>
      && missing(d) >= 0
      && (missing(d) < k ==> rounds(d) == 1)
      && (missing(d) >= k ==>
            good(next(d)) && missing(next(d)) == missing(d) - k && rounds(d) == 1 + rounds(next(d)))
  }

  lemma {:induction false} RoundsAreTries<D(!new)>(
    good: D -> bool, missing: D -> int, next: D -> D, rounds: D -> nat, k: nat, d: D)
    requires k >= 1 && good(d) && forall x :: CountsDown(good, missing, next, rounds, k, x)
    ensures missing(d) >= 0 && rounds(d) == Tries(missing(d), k)
    decreases missing(d)
  {
    assert CountsDown(good, missing, next, rounds, k, d);
    if missing(d) >= k {
      RoundsAreTries(good, missing, next, rounds, k, next(d));
    }
  }

  /** Everything an upload needs besides the disk. */
  datatype Client = Client(env: Env, file: Bytes, r: StartRequest, chunkBytes: nat, k: nat, order: seq<nat>)

  ghost predicate Able(c: Client) { c.chunkBytes >= 1 && c.k >= 1 && For(c.env, c.r, c.file) }

  ghost function Opened(c: Client): Disk -> bool { (d: Disk) => Open(c.env, d, c.file, c.r) }

  /** Chunks the server still lacks. */
  ghost function Lacking(c: Client): Disk -> int
    requires Able(c)
  {
    (d: Disk) => Need(d, c.file, c.chunkBytes) - Have(d)
  }

  ghost function Retried(c: Client): Disk -> Disk
    requires Able(c)
  {
    (d: Disk) => Attempt(c.env, d, c.file, c.r, c.chunkBytes, c.k, c.order).0
  }

  /** Attempts until the file is delivered. */
  ghost function Deliveries(c: Client): Disk -> nat
    requires Able(c)
  {
    (d: Disk) =>
      if Open(c.env, d, c.file, c.r) then AttemptsToDeliver(c.env, d, c.file, c.r, c.chunkBytes, c.k, c.order) else 0
  }

  lemma DeliveriesCountDown(c: Client, d: Disk)
    requires Able(c)
    ensures CountsDown(Opened(c), Lacking(c), Retried(c), Deliveries(c), c.k, d)
  {
    if Opened(c)(d) {
      AttemptsUnroll(c.env, d, c.file, c.r, c.chunkBytes, c.k, c.order);
    }
  }

  /** With m chunks missing it takes `Tries(m, k)` attempts, which is m divided by `k`, rounded down, plus one. */
  lemma AttemptsNeeded(c: Client, d: Disk)
    requires Able(c) && Opened(c)(d)
    ensures Lacking(c)(d) >= 0 && Deliveries(c)(d) == Tries(Lacking(c)(d), c.k)
  {
    forall x ensures CountsDown(Opened(c), Lacking(c), Retried(c), Deliveries(c), c.k, x) {
      DeliveriesCountDown(c, x);
    }
    RoundsAreTries(Opened(c), Lacking(c), Retried(c), Deliveries(c), c.k, d);
  }

  /** A fresh upload of a file takes the number of its chunks divided by `k`, rounded down, plus one attempts. */
  lemma FreshUploadAttempts(env: Env, file: Bytes, r: StartRequest, chunkBytes: nat, k: nat, order: seq<nat>)
    requires chunkBytes >= 1 && k >= 1 && For(env, r, file)
    ensures Open(env, EMPTY, file, r)
    ensures AttemptsToDeliver(env, EMPTY, file, r, chunkBytes, k, order) == ChunkCount(chunkBytes, |file|) / k + 1
  {
    AttemptsNeeded(Client(env, file, r, chunkBytes, k, order), EMPTY);
    TriesAre(ChunkCount(chunkBytes, |file|), k);
  }
}
