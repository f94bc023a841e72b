/**
 When starting, sending a chunk and completing succeed, what they change, and
 that only the owner of a session changes it or is told about it.
 */
module UploadRules {
  import opened MapSums
  import opened Hurdles
  import opened Uploads
  import opened UploadSafety
  import opened Wrappers

  /** The text form of a SHA-256 digest. */
  predicate DigestText(s: string) {
    |s| == 71 && s[..7] == "sha256:" && forall i :: 7 <= i < 71 ==> s[i] in "0123456789abcdef"
  }

  lemma DigestTextIsDigest(s: string)
    ensures DigestText(s) <==> IsDigest(s)
  {
    var hex := "0123456789abcdef";
    forall c: char ensures c in hex <==> '0' <= c <= '9' || 'a' <= c <= 'f' {
      if '0' <= c <= '9' {
        assert hex[c as int - '0' as int] == c;
      }
      if 'a' <= c <= 'f' {
        assert hex[10 + (c as int - 'a' as int)] == c;
      }
    }
    if |s| == 71 {
      assert s[..7] == "sha256:" <==> "sha256:" <= s;
    }
  }

  // ---- Who may act on a session

  /** The cell an operation on the session is for. */
  function CallerOf(op: Op): Option<string> {
    match op
    case Start(r, _) => Some(r.owner)
    case PutChunk(owner, _, _, _) => Some(owner)
    case Complete(owner, _) => Some(owner)
    case OtherUpload(_) => None
  }

  predicate Stranger(op: Op, owner: string) {
    CallerOf(op).Some? && CallerOf(op).value != owner
  }

  /** Another cell changes nothing of a session, wherever its operation is cut off, and gets nothing back. */
  lemma StrangersAreRefused(env: Env, d: Disk, e: Event)
    requires WellFormed(e) && d.manifest.Some? && Stranger(e.op, d.manifest.value.owner)
    ensures After(env, d, e) == d
    ensures !Plan(env, d, e.op).reply.Public?
    ensures CompletedBlob(env, d, CallerOf(e.op).value) == None
  {
    assert Plan(env, d, e.op).writes == [];
    assert Through([], e.power) == [];
  }

  /** The events of a run without those of other cells. */
  function WithoutStrangers(events: seq<Event>, owner: string): seq<Event> {
    if events == [] then []
    else
      var k := |events| - 1;
      WithoutStrangers(events[..k], owner) + (if Stranger(events[k].op, owner) then [] else [events[k]])
  }

  /**
   Noninterference: leaving out everything that other cells do to a session makes
   no difference to it.
   */
  lemma {:induction false} StrangersMakeNoDifference(env: Env, d: Disk, events: seq<Event>)
    requires d.manifest.Some? && forall k :: 0 <= k < |events| ==> WellFormed(events[k])
    ensures var kept := WithoutStrangers(events, d.manifest.value.owner);
            && (forall k :: 0 <= k < |kept| ==> WellFormed(kept[k]))
            && Run(env, d, events) == Run(env, d, kept)
    ensures Run(env, d, events).manifest.Some? && Run(env, d, events).manifest.value.owner == d.manifest.value.owner
  {
    if events != [] {
      var k, owner := |events| - 1, d.manifest.value.owner;
      StrangersMakeNoDifference(env, d, events[..k]);
      var before, e := Run(env, d, events[..k]), events[k];
      var kept := WithoutStrangers(events[..k], owner);
      EventGoesForward(env, before, e);
      if Stranger(e.op, owner) {
        StrangersAreRefused(env, before, e);
        assert kept + [] == kept;
      } else {
        assert (kept + [e])[..|kept|] == kept;
      }
    }
  }

  // ---- Chunks

  /** The bytes of chunk `index`, of which only the last may be short. */
  predicate RightSize(m: Manifest, index: int, size: nat) {
    var from_ := index * m.chunkBytes;
    if from_ + m.chunkBytes <= m.total then size == m.chunkBytes else size == m.total - from_
  }

  /** What a chunk must pass; a completed session takes note of none. */
  function PutHurdles(
    env: Env, d: Disk, m: Manifest, owner: string, index: int, chunkHash: string, bytes: Bytes): seq<Hurdle<string>>
  {
    [Hurdle(DigestText(chunkHash), "volunteer_blob_hash_invalid"),
     Hurdle(m.owner == owner, "volunteer_upload_owner_mismatch"),
     Hurdle(m.complete || 0 <= index < m.chunkCount, "volunteer_upload_chunk_index_invalid"),
     Hurdle(m.complete || (RightSize(m, index, |bytes|) && env.hash(bytes) == chunkHash),
            "volunteer_upload_chunk_integrity_failed"),
     Hurdle(m.complete || !(index in m.received && (m.received[index].hash != chunkHash || index !in d.chunks)),
            "volunteer_upload_chunk_collision")]
  }

  /** The session after a chunk was taken. */
  ghost predicate ChunkTaken(d: Disk, after: Disk, m: Manifest, index: int, chunkHash: string, bytes: Bytes) {
    if m.complete then after == d
    else if index in m.received then after == d.(manifest := Some(m.(replays := m.replays + 1)))
    else
      && index >= 0
      && after == d.(chunks := d.chunks[index := bytes],
                     manifest := Some(m.(received := m.received[index := Chunk(chunkHash, |bytes|)],
                                         receivedBytes := m.receivedBytes + |bytes|)))
  }

  lemma SizeIsRight(m: Manifest, index: nat, size: nat)
    ensures RightSize(m, index, size) <==> size == SizeAt(m.chunkBytes, m.total, index)
  {
  }

  /** A chunk is taken exactly when it passes, and refused without a write by the first hurdle it does not pass. */
  lemma PutExactly(env: Env, d: Disk, owner: string, index: int, chunkHash: string, bytes: Bytes)
    requires Inv(env, d) && d.manifest.Some?
    ensures var m, plan := d.manifest.value, Plan(env, d, PutChunk(owner, index, chunkHash, bytes));
            var h := PutHurdles(env, d, m, owner, index, chunkHash, bytes);
            && (AllPassed(h) <==> plan.reply.Public?)
            && (AllPassed(h) ==>
                  && ChunkTaken(d, ApplyAll(d, plan.writes), m, index, chunkHash, bytes)
                  && ApplyAll(d, plan.writes).manifest == Some(plan.reply.manifest))
            && (forall k: nat :: StopsAt(h, k) ==> plan == Outcome([], Refused(h[k].refusal)))
  {
    var m := d.manifest.value;
    var h := PutHurdles(env, d, m, owner, index, chunkHash, bytes);
    DigestTextIsDigest(chunkHash);
    if index >= 0 {
      SizeIsRight(m, index, |bytes|);
    }
    SomewhereStops(h);
    forall k: nat | StopsAt(h, k)
      ensures Plan(env, d, PutChunk(owner, index, chunkHash, bytes)) == Outcome([], Refused(h[k].refusal))
    {
      assert (k > 0 ==> h[0].passed) && (k > 1 ==> h[1].passed) && (k > 2 ==> h[2].passed) && (k > 3 ==> h[3].passed);
    }
    if AllPassed(h) {
      assert h[0].passed && h[1].passed && h[2].passed && h[3].passed && h[4].passed;
      ChunkIsTaken(env, d, owner, index, chunkHash, bytes);
    }
  }

  lemma NewChunk(m: Manifest, index: nat, hash: string, size: nat)
    requires index !in m.received && m.receivedBytes == Sum(Sizes(m.received))
    ensures WithChunk(m, index, hash, size)
            == m.(received := m.received[index := Chunk(hash, size)], receivedBytes := m.receivedBytes + size)
  {
    assert Sizes(m.received[index := Chunk(hash, size)]) == Sizes(m.received)[index := size];
    SumPut(Sizes(m.received), index, size);
  }

  lemma NewChunkIsTaken(d: Disk, m: Manifest, index: nat, hash: string, bytes: Bytes, writes: seq<Write>)
    requires d.manifest == Some(m) && !m.complete && index !in m.received && m.receivedBytes == Sum(Sizes(m.received))
    requires writes == [SaveChunk(index, bytes), SaveManifest(WithChunk(m, index, hash, |bytes|))]
    ensures ChunkTaken(d, ApplyAll(d, writes), m, index, hash, bytes)
  {
    ApplyTwo(d, writes[0], writes[1]);
    NewChunk(m, index, hash, |bytes|);
  }

  lemma ChunkIsTaken(env: Env, d: Disk, owner: string, index: int, chunkHash: string, bytes: Bytes)
    requires d.manifest.Some? && d.manifest.value.receivedBytes == Sum(Sizes(d.manifest.value.received))
    requires PlanPut(env, d, owner, index, chunkHash, bytes).reply.Public?
    ensures var m, plan := d.manifest.value, PlanPut(env, d, owner, index, chunkHash, bytes);
            && ChunkTaken(d, ApplyAll(d, plan.writes), m, index, chunkHash, bytes)
            && ApplyAll(d, plan.writes).manifest == Some(plan.reply.manifest)
  {
    var m, plan := d.manifest.value, PlanPut(env, d, owner, index, chunkHash, bytes);
    if m.complete {
    } else if index in m.received {
      assert plan.writes[..0] == [];
    } else {
      NewChunkIsTaken(d, m, index, chunkHash, bytes, plan.writes);
      ApplyTwo(d, plan.writes[0], plan.writes[1]);
    }
  }

  // ---- Completion

  /** What completing must pass on any disk: all chunks recorded, their files there, the file right, the store sound. */
  function CompleteHurdles(env: Env, d: Disk, m: Manifest, owner: string): seq<Hurdle<Reply>> {
    var file := Assembled(d.chunks, m.chunkCount);
    [Hurdle(m.owner == owner, Refused("volunteer_upload_owner_mismatch")),
     Hurdle(m.complete || |m.received| == m.chunkCount, Refused("volunteer_upload_chunks_incomplete")),
     Hurdle(m.complete || forall i: nat :: i < m.chunkCount ==> i in d.chunks, Broken("FileNotFoundError")),
     Hurdle(m.complete || (file.Some? && |file.value| == m.total && env.hash(file.value) == m.blobHash),
            Refused("volunteer_upload_assembled_hash_mismatch")),
     Hurdle(m.complete || m.blobHash !in d.blobs || env.hash(d.blobs[m.blobHash]) == m.blobHash,
            Refused("volunteer_blob_collision"))]
  }

  /** The session after it was completed: the file in place and in the store, the chunks gone. */
  ghost predicate Completed(d: Disk, after: Disk, m: Manifest) {
    if m.complete then after == d
    else
      && Assembled(d.chunks, m.chunkCount).Some?
      && var blob := Assembled(d.chunks, m.chunkCount).value;
         && after.manifest == Some(m.(complete := true, blobRef := Some(m.blobHash)))
         && after.completed == Some(blob) && after.chunks == map[] && !after.chunkDir
         && m.blobHash in after.blobs
         && after.blobs == (if m.blobHash in d.blobs then d.blobs else d.blobs[m.blobHash := blob])
  }

  lemma {:induction false} AssembledExactly(chunks: map<nat, Bytes>, n: nat)
    ensures Assembled(chunks, n).Some? <==> forall i: nat :: i < n ==> i in chunks
  {
    if n > 0 {
      AssembledExactly(chunks, n - 1);
    }
  }

  lemma CompletionOf(env: Env, d: Disk, owner: string, order: seq<nat>)
    requires d.manifest.Some? && PlanComplete(env, d, owner, order).reply.Public?
    ensures Completed(d, ApplyAll(d, PlanComplete(env, d, owner, order).writes), d.manifest.value)
  {
    var m := d.manifest.value;
    if !m.complete {
      var blob := Assembled(d.chunks, m.chunkCount).value;
      var stored := PlanBlob(env, d, blob).value;
      FinishedDisk(d, stored, blob, Finished(m), order);
      StoreExactly(env, d, blob);
    }
  }

  /** Completing succeeds exactly when it passes, and is refused without a write by the first hurdle not passed. */
  lemma CompleteExactly(env: Env, d: Disk, owner: string, order: seq<nat>)
    requires d.manifest.Some?
    ensures var m, plan := d.manifest.value, Plan(env, d, Complete(owner, order));
            var h := CompleteHurdles(env, d, m, owner);
            && (AllPassed(h) <==> plan.reply.Public?)
            && (AllPassed(h) ==> Completed(d, ApplyAll(d, plan.writes), m))
            && (forall k: nat :: StopsAt(h, k) ==> plan == Outcome([], h[k].refusal))
  {
    var m := d.manifest.value;
    var h := CompleteHurdles(env, d, m, owner);
    AssembledExactly(d.chunks, m.chunkCount);
    SomewhereStops(h);
    forall k: nat | StopsAt(h, k) ensures PlanComplete(env, d, owner, order) == Outcome([], h[k].refusal) {
      assert (k > 0 ==> h[0].passed) && (k > 1 ==> h[1].passed) && (k > 2 ==> h[2].passed) && (k > 3 ==> h[3].passed);
    }
    if AllPassed(h) {
      assert h[0].passed && h[1].passed && h[2].passed && h[3].passed && h[4].passed;
      CompletionOf(env, d, owner, order);
    }
  }

  /** In a session that was kept as it should be, neither a missing file nor the store stands in the way. */
  lemma OnlyTheFileCounts(env: Env, d: Disk, owner: string)
    requires Inv(env, d) && d.manifest.Some?
    ensures var m := d.manifest.value;
            var h := CompleteHurdles(env, d, m, owner);
            && (h[1].passed <==> m.complete || forall i: nat :: i < m.chunkCount ==> i in m.received)
            && (h[1].passed ==> h[2].passed) && h[4].passed
  {
    var m := d.manifest.value;
    AllInExactlyWhenCounted(m);
    if !m.complete && |m.received| == m.chunkCount {
      forall i: nat | i < m.chunkCount ensures i in d.chunks {
        assert FileMatches(env, m.received, d.chunks, i);
      }
    }
  }

  /** Without a session there is nothing to send to, to complete or to hand out. */
  lemma NoSession(env: Env, d: Disk, owner: string, index: int, chunkHash: string, bytes: Bytes, order: seq<nat>)
    requires d.manifest.None?
    ensures Plan(env, d, PutChunk(owner, index, chunkHash, bytes))
            == Outcome([], Refused(if DigestText(chunkHash) then "volunteer_upload_not_found"
                                   else "volunteer_blob_hash_invalid"))
    ensures Plan(env, d, Complete(owner, order)) == Outcome([], Refused("volunteer_upload_not_found"))
    ensures CompletedBlob(env, d, owner) == None
  {
    DigestTextIsDigest(chunkHash);
  }

  /** Whatever becomes of the completed copy, what is handed out has the hash of the file, and only once complete. */
  lemma DamagedCopyFallsBack(env: Env, d: Disk, copy: Option<Bytes>)
    requires Inv(env, d) && d.manifest.Some?
    ensures var m, blob := d.manifest.value, CompletedBlob(env, d.(completed := copy), d.manifest.value.owner);
            && (blob.Some? <==> m.complete)
            && (m.complete ==> env.hash(blob.value) == m.blobHash)
            && (m.complete && copy.Some? && env.hash(copy.value) == m.blobHash ==> blob == copy)
  {
  }

  // ---- Starting

  /** What starting must pass, given what is on the disk. */
  function StartHurdles(env: Env, d: Disk, r: StartRequest): seq<Hurdle<Reply>> {
    [Hurdle(DigestText(r.blobHash), Refused("volunteer_blob_hash_invalid")),
     Hurdle(1 <= r.total <= env.maxUploadBytes, Refused("volunteer_upload_size_out_of_bounds")),
     Hurdle(|r.owner| >= 7 && r.owner[..7] == "sha256:" && r.key != "", Refused("volunteer_upload_identity_invalid")),
     Hurdle(d.manifest.None? || (&& d.manifest.value.owner == r.owner && d.manifest.value.key == r.key
                                 && d.manifest.value.blobHash == r.blobHash && d.manifest.value.total == r.total
                                 && d.manifest.value.metadata == r.metadata),
            Refused("volunteer_upload_idempotency_collision")),
     Hurdle(d.manifest.Some? || !d.chunkDir, Broken("FileExistsError"))]
  }

  /** A new session, of as many chunks as the file needs. */
  ghost predicate NewSession(m: Manifest, r: StartRequest, chunkBytes: nat) {
    && !m.complete && m.owner == r.owner && m.key == r.key && m.blobHash == r.blobHash && m.total == r.total
    && m.metadata == r.metadata && m.chunkBytes == chunkBytes && m.received == map[] && m.receivedBytes == 0
    && m.starts == 1 && m.resumes == 0 && m.replays == 0 && m.blobRef.None?
    && (m.chunkCount - 1) * chunkBytes < m.total <= m.chunkCount * chunkBytes
  }

  lemma OwnerTextStarts(s: string)
    ensures StartsWith(s, "sha256:") <==> |s| >= 7 && s[..7] == "sha256:"
  {
  }

  /** Starting makes a new session or resumes the one there is, exactly when it passes. */
  lemma StartExactly(env: Env, d: Disk, r: StartRequest, chunkBytes: nat)
    requires chunkBytes >= 1
    ensures var plan, h := Plan(env, d, Start(r, chunkBytes)), StartHurdles(env, d, r);
            && (AllPassed(h) <==> plan.reply.Public?)
            && (AllPassed(h) ==>
                  var m := plan.reply.manifest;
                  if d.manifest.None? then
                    && NewSession(m, r, chunkBytes)
                    && ApplyAll(d, plan.writes) == d.(chunkDir := true, manifest := Some(m))
                  else
                    && m == d.manifest.value.(starts := d.manifest.value.starts + 1,
                                              resumes := d.manifest.value.resumes + 1)
                    && ApplyAll(d, plan.writes) == d.(manifest := Some(m)))
            && (forall k: nat :: StopsAt(h, k) ==> plan == Outcome([], h[k].refusal))
  {
    var h := StartHurdles(env, d, r);
    DigestTextIsDigest(r.blobHash);
    OwnerTextStarts(r.owner);
    SomewhereStops(h);
    forall k: nat | StopsAt(h, k) ensures PlanStart(env, d, r, chunkBytes) == Outcome([], h[k].refusal) {
      assert (k > 0 ==> h[0].passed) && (k > 1 ==> h[1].passed) && (k > 2 ==> h[2].passed) && (k > 3 ==> h[3].passed);
    }
    if AllPassed(h) {
      assert h[0].passed && h[1].passed && h[2].passed && h[3].passed && h[4].passed;
      var writes := PlanStart(env, d, r, chunkBytes).writes;
      if d.manifest.None? {
        CountBounds(chunkBytes, r.total, ChunkCount(chunkBytes, r.total));
        ApplyTwo(d, writes[0], writes[1]);
      } else {
        assert writes[..0] == [];
      }
    }
  }

  // ---- The blob store

  /** Storing fails only if something else sits under the hash, and otherwise leaves the blob, or what was there. */
  lemma StoreExactly(env: Env, d: Disk, blob: Bytes)
    ensures var h, plan := env.hash(blob), Plan(env, d, OtherUpload(blob));
            && (plan == Outcome([], Refused("volunteer_blob_collision"))
                <==> h in d.blobs && env.hash(d.blobs[h]) != h)
            && (!(h in d.blobs && env.hash(d.blobs[h]) != h) ==>
                  && plan.reply == Elsewhere
                  && ApplyAll(d, plan.writes) == d.(blobs := if h in d.blobs then d.blobs else d.blobs[h := blob]))
  {
    var h := env.hash(blob);
    assert [SaveBlob(h, blob)][..0] == [];
  }
}
