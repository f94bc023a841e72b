/** What every crash, restart, repeat and order of uploads keeps. */
module UploadSafety {
  import opened MapSums
  import opened Uploads
  import opened Wrappers

  // ---- The invariant

  ghost predicate ChunkRecorded(m: Manifest, i: nat)
    requires m.chunkBytes >= 1
  {
    i in m.received && i < m.chunkCount && m.received[i].size == ReadSize(m.chunkBytes, m.total, i)
  }

  ghost predicate ManifestOk(m: Manifest) {
    && m.chunkBytes >= 1 && m.total >= 1 && Covers(m.chunkBytes, m.total, m.chunkCount)
    && (forall i :: i in m.received ==> ChunkRecorded(m, i))
    && m.receivedBytes == Sum(Sizes(m.received))
  }

  /** A recorded chunk has its file, with the recorded hash and size. */
  ghost predicate FileMatches(env: Env, received: map<nat, Chunk>, chunks: map<nat, Bytes>, i: nat)
    requires i in received
  {
    i in chunks && env.hash(chunks[i]) == received[i].hash && |chunks[i]| == received[i].size
  }

  ghost predicate FilesMatch(env: Env, received: map<nat, Chunk>, chunks: map<nat, Bytes>) {
    forall i :: i in received ==> FileMatches(env, received, chunks, i)
  }

  ghost predicate BlobsAddressed(env: Env, blobs: map<string, Bytes>) {
    forall h :: h in blobs ==> env.hash(blobs[h]) == h
  }

  ghost predicate CompletedOk(env: Env, m: Manifest, d: Disk) {
    && |m.received| == m.chunkCount
    && d.completed.Some? && env.hash(d.completed.value) == m.blobHash && |d.completed.value| == m.total
    && m.blobHash in d.blobs
  }

  ghost predicate Inv(env: Env, d: Disk) {
    && BlobsAddressed(env, d.blobs)
    && match d.manifest
       case None => d.chunks == map[] && d.completed.None?
       case Some(m) =>
         && ManifestOk(m)
         && (m.complete ==> CompletedOk(env, m, d))
         && (!m.complete ==> d.chunkDir && FilesMatch(env, m.received, d.chunks))
  }

  // ---- Every prefix of a sequence of writes is safe

  ghost function InvOf(env: Env): Disk -> bool { (d: Disk) => Inv(env, d) }

  /** `ok` holds now and after each of the writes. */
  ghost predicate Safe(ok: Disk -> bool, d: Disk, writes: seq<Write>)
    decreases |writes|
  {
    ok(d) && (writes != [] ==> Safe(ok, Apply(d, writes[0]), writes[1..]))
  }

  lemma {:induction false} ApplyFirst(d: Disk, writes: seq<Write>)
    requires writes != []
    ensures ApplyAll(d, writes) == ApplyAll(Apply(d, writes[0]), writes[1..])
    decreases |writes|
  {
    if |writes| == 1 {
      assert writes[..0] == [] && writes[1..] == [];
    } else {
      ApplyFirst(d, writes[..|writes| - 1]);
      assert writes[..|writes| - 1][1..] == writes[1..][..|writes| - 2];
    }
  }

  lemma {:induction false} SafePrefix(ok: Disk -> bool, d: Disk, writes: seq<Write>, k: nat)
    requires Safe(ok, d, writes) && k <= |writes|
    ensures ok(ApplyAll(d, writes[..k]))
    decreases k
  {
    if k == 0 {
      assert writes[..0] == [];
    } else {
      SafePrefix(ok, Apply(d, writes[0]), writes[1..], k - 1);
      ApplyFirst(d, writes[..k]);
      assert writes[..k][1..] == writes[1..][..k - 1];
    }
  }

  lemma SafeOne(ok: Disk -> bool, d: Disk, a: Write)
    requires ok(d) && ok(Apply(d, a))
    ensures Safe(ok, d, [a])
  {
    assert [a][1..] == [];
    assert Safe(ok, Apply(d, a), []);
  }

  lemma ApplyTwo(d: Disk, a: Write, b: Write)
    ensures ApplyAll(d, [a, b]) == Apply(Apply(d, a), b)
  {
    assert [a, b][..1] == [a] && [a][..0] == [];
    assert ApplyAll(d, [a]) == Apply(d, a);
  }

  lemma SafeTwo(ok: Disk -> bool, d: Disk, a: Write, b: Write)
    requires ok(d) && ok(Apply(d, a)) && ok(Apply(Apply(d, a), b))
    ensures Safe(ok, d, [a, b])
    ensures ApplyAll(d, [a, b]) == Apply(Apply(d, a), b)
  {
    SafeOne(ok, Apply(d, a), b);
    assert [a, b][1..] == [b];
    ApplyTwo(d, a, b);
  }

  lemma {:induction false} SafeConcat(ok: Disk -> bool, d: Disk, a: seq<Write>, b: seq<Write>)
    requires Safe(ok, d, a) && Safe(ok, ApplyAll(d, a), b)
    ensures Safe(ok, d, a + b)
    decreases |a|
  {
    if a == [] {
      assert a + b == b;
    } else {
      ApplyFirst(d, a);
      SafeConcat(ok, Apply(d, a[0]), a[1..], b);
      assert (a + b)[1..] == a[1..] + b;
    }
  }

  // ---- Start and put

  lemma StartIsSafe(env: Env, d: Disk, r: StartRequest, chunkBytes: nat)
    requires Inv(env, d) && chunkBytes >= 1
    ensures Safe(InvOf(env), d, PlanStart(env, d, r, chunkBytes).writes)
  {
    var plan := PlanStart(env, d, r, chunkBytes);
    if plan.writes != [] {
      if d.manifest.Some? {
        SafeOne(InvOf(env), d, plan.writes[0]);
      } else {
        assert Sizes(map[]) == map[];
        CountCovers(chunkBytes, r.total);
        SafeTwo(InvOf(env), d, MakeChunkDir, SaveManifest(NewManifest(r, chunkBytes)));
      }
    }
  }

  lemma StoredChunkIsOk(m: Manifest, i: nat, hash: string, size: nat)
    requires ManifestOk(m) && i < m.chunkCount && size == ReadSize(m.chunkBytes, m.total, i)
    ensures ManifestOk(WithChunk(m, i, hash, size))
  {
    var stored := WithChunk(m, i, hash, size);
    forall j | j in stored.received ensures ChunkRecorded(stored, j) {
      assert j != i ==> ChunkRecorded(m, j);
    }
  }

  lemma PutIsSafe(env: Env, d: Disk, owner: string, index: int, chunkHash: string, bytes: Bytes)
    requires Inv(env, d)
    ensures Safe(InvOf(env), d, PlanPut(env, d, owner, index, chunkHash, bytes).writes)
  {
    var writes := PlanPut(env, d, owner, index, chunkHash, bytes).writes;
    if writes != [] {
      var m := d.manifest.value;
      if index in m.received {
        SafeOne(InvOf(env), d, writes[0]);
      } else {
        var stored := WithChunk(m, index, chunkHash, |bytes|);
        SizesAgree(m.chunkBytes, m.total, m.chunkCount, index);
        StoredChunkIsOk(m, index, chunkHash, |bytes|);
        var filed := Apply(d, SaveChunk(index, bytes));
        assert FilesMatch(env, m.received, filed.chunks) by {
          forall i | i in m.received ensures FileMatches(env, m.received, filed.chunks, i) {
            assert FileMatches(env, m.received, d.chunks, i);
          }
        }
        assert FilesMatch(env, stored.received, filed.chunks) by {
          forall i | i in stored.received ensures FileMatches(env, stored.received, filed.chunks, i) {
            assert i != index ==> FileMatches(env, m.received, d.chunks, i);
          }
        }
        SafeTwo(InvOf(env), d, SaveChunk(index, bytes), SaveManifest(stored));
      }
    }
  }

  // ---- Complete

  lemma {:induction false} DropsAreSafe(env: Env, d: Disk, order: seq<nat>)
    requires Inv(env, d) && d.manifest.Some? && d.manifest.value.complete
    ensures Safe(InvOf(env), d, Drops(order))
    decreases |order|
  {
    if order == [] {
      assert Drops(order) == [DropChunkDir];
      SafeOne(InvOf(env), d, DropChunkDir);
    } else {
      assert Drops(order)[0] == DropChunk(order[0]) && Drops(order)[1..] == Drops(order[1..]);
      DropsAreSafe(env, Apply(d, DropChunk(order[0])), order[1..]);
    }
  }

  lemma BlobIsSafe(env: Env, d: Disk, blob: Bytes)
    requires Inv(env, d)
    ensures PlanBlob(env, d, blob).Some?
    ensures Safe(InvOf(env), d, PlanBlob(env, d, blob).value)
    ensures env.hash(blob) in ApplyAll(d, PlanBlob(env, d, blob).value).blobs
    ensures ApplyAll(d, PlanBlob(env, d, blob).value) == d.(blobs := ApplyAll(d, PlanBlob(env, d, blob).value).blobs)
  {
    var h := env.hash(blob);
    if h !in d.blobs {
      assert [SaveBlob(h, blob)][..0] == [];
      SafeOne(InvOf(env), d, SaveBlob(h, blob));
    }
  }

  lemma FinishIsSafe(env: Env, d: Disk, m: Manifest, blob: Bytes, order: seq<nat>)
    requires Inv(env, d) && d.manifest == Some(m) && !m.complete && |m.received| == m.chunkCount
    requires |blob| == m.total && env.hash(blob) == m.blobHash && m.blobHash in d.blobs
    ensures Safe(InvOf(env), d, [SaveCompleted(blob), SaveManifest(Finished(m))] + Drops(order))
  {
    var copied := Apply(d, SaveCompleted(blob));
    var finished := Apply(copied, SaveManifest(Finished(m)));
    assert ManifestOk(Finished(m)) by {
      forall i | i in m.received ensures ChunkRecorded(Finished(m), i) {
        assert ChunkRecorded(m, i);
      }
    }
    SafeTwo(InvOf(env), d, SaveCompleted(blob), SaveManifest(Finished(m)));
    DropsAreSafe(env, finished, order);
    SafeConcat(InvOf(env), d, [SaveCompleted(blob), SaveManifest(Finished(m))], Drops(order));
  }

  lemma CompleteIsSafe(env: Env, d: Disk, owner: string, order: seq<nat>)
    requires Inv(env, d)
    ensures Safe(InvOf(env), d, PlanComplete(env, d, owner, order).writes)
  {
    var writes := PlanComplete(env, d, owner, order).writes;
    if writes != [] {
      var m := d.manifest.value;
      var blob := Assembled(d.chunks, m.chunkCount).value;
      var stored := PlanBlob(env, d, blob).value;
      BlobIsSafe(env, d, blob);
      SafePrefix(InvOf(env), d, stored, |stored|);
      assert stored[..|stored|] == stored;
      FinishIsSafe(env, ApplyAll(d, stored), m, blob, order);
      SafeConcat(InvOf(env), d, stored, [SaveCompleted(blob), SaveManifest(Finished(m))] + Drops(order));
      assert writes == stored + ([SaveCompleted(blob), SaveManifest(Finished(m))] + Drops(order));
    }
  }

  /** No crash point of any operation breaks the invariant. */
  lemma EventKeepsInv(env: Env, d: Disk, e: Event)
    requires Inv(env, d) && WellFormed(e)
    ensures Inv(env, After(env, d, e))
  {
    var writes := Plan(env, d, e.op).writes;
    match e.op {
      case Start(r, chunkBytes) => StartIsSafe(env, d, r, chunkBytes);
      case PutChunk(owner, index, chunkHash, bytes) => PutIsSafe(env, d, owner, index, chunkHash, bytes);
      case Complete(owner, order) => CompleteIsSafe(env, d, owner, order);
      case OtherUpload(blob) => BlobIsSafe(env, d, blob);
    }
    assert Safe(InvOf(env), d, writes);
    SafePrefix(InvOf(env), d, writes, |Through(writes, e.power)|);
    assert writes[..|Through(writes, e.power)|] == Through(writes, e.power);
  }

  /** In every run with chunks in any order, repeats, restarts and crashes. */
  lemma {:induction false} RunKeepsInv(env: Env, d: Disk, events: seq<Event>)
    requires Inv(env, d) && forall k :: 0 <= k < |events| ==> WellFormed(events[k])
    ensures Inv(env, Run(env, d, events))
  {
    if events != [] {
      RunKeepsInv(env, d, events[..|events| - 1]);
      EventKeepsInv(env, Run(env, d, events[..|events| - 1]), events[|events| - 1]);
    }
  }

  // ---- Received bytes

  function Below(received: map<nat, Chunk>, n: nat): map<nat, Chunk> {
    map i | i in received && i < n :: received[i]
  }

  lemma BelowOneMore(received: map<nat, Chunk>, n: nat)
    ensures Sum(Sizes(Below(received, n + 1)))
         == Sum(Sizes(Below(received, n))) + (if n in received then received[n].size else 0)
  {
    if n in received {
      assert Sizes(Below(received, n + 1)) == Sizes(Below(received, n))[n := received[n].size];
      SumPut(Sizes(Below(received, n)), n, received[n].size);
    } else {
      assert Below(received, n + 1) == Below(received, n);
    }
  }

  /** Read number `i` is not empty, and chunk `i`, if recorded, has its size. */
  ghost predicate FitsAt(received: map<nat, Chunk>, chunkBytes: nat, total: nat, i: nat) {
    && Offset(chunkBytes, total, i) < Offset(chunkBytes, total, i + 1)
    && (i in received ==> received[i].size == Offset(chunkBytes, total, i + 1) - Offset(chunkBytes, total, i))
  }

  lemma RecordedChunksFit(m: Manifest, i: nat)
    requires ManifestOk(m) && i < m.chunkCount
    ensures FitsAt(m.received, m.chunkBytes, m.total, i)
  {
    SizesAgree(m.chunkBytes, m.total, m.chunkCount, i);
    assert i in m.received ==> ChunkRecorded(m, i);
  }

  ghost predicate GrowsAt(sum: nat -> int, all: nat -> int, present: nat -> bool, i: nat) {
    all(i) < all(i + 1) && sum(i + 1) == sum(i) + (if present(i) then all(i + 1) - all(i) else 0)
  }

  ghost predicate AllPresent(present: nat -> bool, n: nat) {
    forall i: nat :: i < n ==> present(i)
  }

  /** A partial sum of positive terms reaches the full sum exactly when no term is missing. */
  lemma {:induction false} PartialSums(sum: nat -> int, all: nat -> int, present: nat -> bool, n: nat)
    requires sum(0) == all(0) && forall i: nat :: i < n ==> GrowsAt(sum, all, present, i)
    ensures sum(n) <= all(n) && (sum(n) == all(n) <==> AllPresent(present, n))
  {
    if n > 0 {
      PartialSums(sum, all, present, n - 1);
      assert GrowsAt(sum, all, present, n - 1);
    }
  }

  /** The bytes of the received chunks before `n`, against the bytes of the file before `n`. */
  lemma BytesBelow(received: map<nat, Chunk>, chunkBytes: nat, total: nat, n: nat)
    requires forall i: nat :: i < n ==> FitsAt(received, chunkBytes, total, i)
    ensures Sum(Sizes(Below(received, n))) <= Offset(chunkBytes, total, n)
    ensures Sum(Sizes(Below(received, n))) == Offset(chunkBytes, total, n) <==> forall i: nat :: i < n ==> i in received
  {
    ghost var sum: nat -> int := (i: nat) => Sum(Sizes(Below(received, i)));
    ghost var all: nat -> int := (i: nat) => Offset(chunkBytes, total, i);
    var present := (i: nat) => i in received;
    assert Below(received, 0) == map[] && Sizes(map[]) == map[];
    forall i: nat | i < n ensures GrowsAt(sum, all, present, i) {
      assert FitsAt(received, chunkBytes, total, i);
      BelowOneMore(received, i);
    }
    PartialSums(sum, all, present, n);
    if AllPresent(present, n) {
      forall i: nat | i < n ensures i in received { assert present(i); }
    }
  }

  function Indexes(n: nat): (s: set<nat>)
    ensures |s| == n && forall i: nat :: i in s <==> i < n
  {
    if n == 0 then {} else Indexes(n - 1) + {n - 1}
  }

  lemma SubsetOfSameSize<T>(a: set<T>, b: set<T>)
    requires a <= b
    ensures |a| <= |b| && (|a| == |b| <==> a == b)
  {
    assert b == a + (b - a);
    if a != b {
      var x :| x in b - a;
      assert |b - a| >= 1;
    }
  }

  lemma AllInExactlyWhenCounted(m: Manifest)
    requires ManifestOk(m)
    ensures |m.received| <= m.chunkCount
    ensures |m.received| == m.chunkCount <==> forall i :: 0 <= i < m.chunkCount ==> i in m.received
  {
    forall i | i in m.received ensures i in Indexes(m.chunkCount) {
      assert ChunkRecorded(m, i);
    }
    SubsetOfSameSize(m.received.Keys, Indexes(m.chunkCount));
    assert |m.received.Keys| == |m.received|;
    if forall i :: 0 <= i < m.chunkCount ==> i in m.received {
      assert m.received.Keys == Indexes(m.chunkCount);
    }
  }

  /** The received byte count reaches the total exactly when every chunk is in. */
  lemma ReceivedBytesAreExact(env: Env, d: Disk)
    requires Inv(env, d) && d.manifest.Some?
    ensures var m := d.manifest.value;
            && 0 <= m.receivedBytes <= m.total && |m.received| <= m.chunkCount
            && (m.receivedBytes == m.total <==> |m.received| == m.chunkCount)
            && (m.receivedBytes == m.total <==> forall i :: 0 <= i < m.chunkCount ==> i in m.received)
  {
    var m := d.manifest.value;
    forall i: nat | i < m.chunkCount ensures FitsAt(m.received, m.chunkBytes, m.total, i) {
      RecordedChunksFit(m, i);
    }
    BytesBelow(m.received, m.chunkBytes, m.total, m.chunkCount);
    forall i | i in m.received ensures i < m.chunkCount {
      assert ChunkRecorded(m, i);
    }
    assert Below(m.received, m.chunkCount) == m.received;
    AllInExactlyWhenCounted(m);
    SumNonNegative(Sizes(m.received));
  }

  // ---- The completed blob

  /** A completed session hands out something with the file's hash, which is the file unless the two collide. */
  lemma CompletedIsOriginal(env: Env, d: Disk, file: Bytes)
    requires Inv(env, d) && d.manifest.Some? && d.manifest.value.complete
    requires d.manifest.value.blobHash == env.hash(file)
    ensures var blob := CompletedBlob(env, d, d.manifest.value.owner);
            && blob.Some? && env.hash(blob.value) == env.hash(file)
            && (blob == Some(file) <==> !Collide(env.hash, blob.value, file))
            && (blob == Some(file) ==> d.manifest.value.total == d.manifest.value.receivedBytes == |file|)
  {
    ReceivedBytesAreExact(env, d);
  }

  ghost predicate HoldsPiece(d: Disk, file: Bytes, chunkBytes: nat, i: nat) {
    i in d.chunks && d.chunks[i] == Piece(file, chunkBytes, i)
  }

  /** The session was opened for `file`, every recorded chunk is a piece of it, and a completed copy is the file. */
  ghost predicate Honest(env: Env, d: Disk, file: Bytes)
    requires d.manifest.Some?
  {
    var m := d.manifest.value;
    && m.blobHash == env.hash(file) && m.total == |file|
    && (m.complete ==> d.completed == Some(file))
    && (!m.complete ==> forall i :: i in m.received ==> HoldsPiece(d, file, m.chunkBytes, i))
  }

  lemma PieceExtends(file: Bytes, chunkBytes: nat, n: nat)
    ensures file[..Offset(chunkBytes, |file|, n)] + Piece(file, chunkBytes, n)
            == file[..Offset(chunkBytes, |file|, n + 1)]
  {
  }

  lemma {:induction false} AssembledIsPrefix(chunks: map<nat, Bytes>, file: Bytes, chunkBytes: nat, n: nat)
    requires forall i :: 0 <= i < n ==> i in chunks && chunks[i] == Piece(file, chunkBytes, i)
    ensures Assembled(chunks, n) == Some(file[..Offset(chunkBytes, |file|, n)])
  {
    if n > 0 {
      AssembledIsPrefix(chunks, file, chunkBytes, n - 1);
      PieceExtends(file, chunkBytes, n - 1);
    }
  }

  /** The writes of a successful completion, all carried out. */
  lemma FinishedDisk(d: Disk, stored: seq<Write>, blob: Bytes, m: Manifest, order: seq<nat>)
    ensures var e := ApplyAll(d, stored + [SaveCompleted(blob), SaveManifest(m)] + Drops(order));
            e == ApplyAll(d, stored).(completed := Some(blob), manifest := Some(m), chunks := map[], chunkDir := false)
  {
    var a, b := SaveCompleted(blob), SaveManifest(m);
    ApplyConcat(d, stored + [a, b], Drops(order));
    ApplyConcat(d, stored, [a, b]);
    ApplyTwo(ApplyAll(d, stored), a, b);
    DropsKeep(Apply(Apply(ApplyAll(d, stored), a), b), order);
  }

  /** Fed with pieces of its file, a session completes exactly when all of them are in. */
  lemma HonestCompletion(env: Env, d: Disk, file: Bytes, order: seq<nat>)
    requires Inv(env, d) && d.manifest.Some? && !d.manifest.value.complete && Honest(env, d, file)
    ensures var m := d.manifest.value; var plan := PlanComplete(env, d, m.owner, order);
            if |m.received| == m.chunkCount then
              && plan.reply == Public(Finished(m))
              && ApplyAll(d, plan.writes).completed == Some(file)
                 && ApplyAll(d, plan.writes).manifest == Some(Finished(m))
            else plan == Refuse("volunteer_upload_chunks_incomplete")
  {
    var m := d.manifest.value;
    if |m.received| == m.chunkCount {
      AllInExactlyWhenCounted(m);
      forall i | 0 <= i < m.chunkCount ensures i in d.chunks && d.chunks[i] == Piece(file, m.chunkBytes, i) {
        assert HoldsPiece(d, file, m.chunkBytes, i);
      }
      AssembledIsPrefix(d.chunks, file, m.chunkBytes, m.chunkCount);
      assert file[..|file|] == file;
      BlobIsSafe(env, d, file);
      FinishedDisk(d, PlanBlob(env, d, file).value, file, Finished(m), order);
    }
  }

  lemma {:induction false} ApplyConcat(d: Disk, a: seq<Write>, b: seq<Write>)
    ensures ApplyAll(d, a + b) == ApplyAll(ApplyAll(d, a), b)
  {
    if b == [] {
      assert a + b == a;
    } else {
      ApplyConcat(d, a, b[..|b| - 1]);
      assert (a + b)[..|a + b| - 1] == a + b[..|b| - 1];
    }
  }

  lemma {:induction false} DropsKeep(d: Disk, order: seq<nat>)
    ensures ApplyAll(d, Drops(order)) == d.(chunks := map[], chunkDir := false)
    decreases |order|
  {
    if order == [] {
      assert Drops(order) == [DropChunkDir];
      assert [DropChunkDir][..0] == [];
    } else {
      assert Drops(order)[0] == DropChunk(order[0]) && Drops(order)[1..] == Drops(order[1..]);
      ApplyFirst(d, Drops(order));
      DropsKeep(Apply(d, DropChunk(order[0])), order[1..]);
    }
  }

  // ---- Progress

  /** Identity, recorded chunks and completion only ever move forward. */
  ghost predicate Forward(before: Option<Manifest>, after: Option<Manifest>) {
    before.Some? ==>
      && after.Some?
      && var a, b := before.value, after.value;
         && b.owner == a.owner && b.key == a.key && b.blobHash == a.blobHash && b.total == a.total
         && b.chunkBytes == a.chunkBytes && b.chunkCount == a.chunkCount
         && (a.complete ==> b.complete)
         && (forall i :: i in a.received ==> i in b.received && b.received[i] == a.received[i])
  }

  ghost predicate Harmless(w: Write, m: Option<Manifest>) {
    w.SaveManifest? ==> Forward(m, Some(w.m))
  }

  lemma {:induction false} HarmlessWritesGoForward(d: Disk, writes: seq<Write>, m: Option<Manifest>)
    requires Forward(m, d.manifest) && forall k :: 0 <= k < |writes| ==> Harmless(writes[k], m)
    ensures Forward(m, ApplyAll(d, writes).manifest)
  {
    if writes != [] {
      HarmlessWritesGoForward(d, writes[..|writes| - 1], m);
      assert Harmless(writes[|writes| - 1], m);
    }
  }

  ghost predicate AllHarmless(writes: seq<Write>, m: Option<Manifest>) {
    forall k :: 0 <= k < |writes| ==> Harmless(writes[k], m)
  }

  lemma StartIsHarmless(env: Env, d: Disk, r: StartRequest, chunkBytes: nat)
    requires chunkBytes >= 1
    ensures AllHarmless(PlanStart(env, d, r, chunkBytes).writes, d.manifest)
  {
  }

  lemma PutIsHarmless(env: Env, d: Disk, owner: string, index: int, chunkHash: string, bytes: Bytes)
    ensures AllHarmless(PlanPut(env, d, owner, index, chunkHash, bytes).writes, d.manifest)
  {
  }

  lemma CompleteIsHarmless(env: Env, d: Disk, owner: string, order: seq<nat>)
    ensures AllHarmless(PlanComplete(env, d, owner, order).writes, d.manifest)
  {
    var writes := PlanComplete(env, d, owner, order).writes;
    if writes != [] {
      var m := d.manifest.value;
      assert Harmless(SaveManifest(Finished(m)), d.manifest);
      forall k | 0 <= k < |writes| ensures Harmless(writes[k], d.manifest) {
        assert writes[k].SaveManifest? ==> writes[k] == SaveManifest(Finished(m));
      }
    }
  }

  /** No operation and no crash takes back a recorded chunk or a completion. */
  lemma EventGoesForward(env: Env, d: Disk, e: Event)
    requires WellFormed(e)
    ensures Forward(d.manifest, After(env, d, e).manifest)
  {
    var writes := Plan(env, d, e.op).writes;
    match e.op {
      case Start(r, chunkBytes) => StartIsHarmless(env, d, r, chunkBytes);
      case PutChunk(owner, index, chunkHash, bytes) => PutIsHarmless(env, d, owner, index, chunkHash, bytes);
      case Complete(owner, order) => CompleteIsHarmless(env, d, owner, order);
      case OtherUpload(blob) => assert AllHarmless(writes, d.manifest);
    }
    HarmlessWritesGoForward(d, Through(writes, e.power), d.manifest);
  }

  // ---- The one crash that is not harmless

  /** A chunk directory without a manifest: what `start` leaves when it dies half way. */
  ghost predicate Stuck(d: Disk) { d.manifest.None? && d.chunkDir }

  predicate GoodRequest(env: Env, r: StartRequest) {
    && IsDigest(r.blobHash) && 1 <= r.total <= env.maxUploadBytes
    && StartsWith(r.owner, "sha256:") && r.key != ""
  }

  /** A valid start succeeds exactly when its session matches, or there is no trace of one. */
  lemma StartSucceedsExactly(env: Env, d: Disk, r: StartRequest, chunkBytes: nat)
    requires chunkBytes >= 1 && GoodRequest(env, r)
    ensures PlanStart(env, d, r, chunkBytes).reply.Public?
            <==> (if d.manifest.Some? then SameUpload(d.manifest.value, r) else !Stuck(d))
    ensures PlanStart(env, d, r, chunkBytes).reply == Broken("FileExistsError") <==> Stuck(d)
  {
  }

  /** Once stuck, a session stays stuck whatever is tried, and however often. */
  lemma {:induction false} StuckForGood(env: Env, d: Disk, events: seq<Event>)
    requires Stuck(d) && forall k :: 0 <= k < |events| ==> WellFormed(events[k])
    ensures Stuck(Run(env, d, events))
  {
    if events != [] {
      var k := |events| - 1;
      StuckForGood(env, d, events[..k]);
      StuckOneMore(env, Run(env, d, events[..k]), events[k]);
    }
  }

  lemma StuckOneMore(env: Env, d: Disk, e: Event)
    requires Stuck(d) && WellFormed(e)
    ensures Stuck(After(env, d, e))
  {
    if e.op.OtherUpload? {
      StoreOnly(d, Through(Plan(env, d, e.op).writes, e.power));
    }
  }

  lemma StoreOnly(d: Disk, writes: seq<Write>)
    requires |writes| <= 1 && forall k :: 0 <= k < |writes| ==> writes[k].SaveBlob?
    ensures ApplyAll(d, writes) == d.(blobs := ApplyAll(d, writes).blobs)
  {
    if writes != [] {
      ApplyFirst(d, writes);
    }
  }

  lemma CutStart(d: Disk, m: Manifest, power: Power)
    requires d.manifest.None? && !d.chunkDir
    ensures Stuck(ApplyAll(d, Through([MakeChunkDir, SaveManifest(m)], power))) <==> power == Left(1)
  {
    var w := [MakeChunkDir, SaveManifest(m)];
    assert w[..1] == [MakeChunkDir] && [MakeChunkDir][..0] == [] && w[..0] == [];
  }

  /** A session gets stuck exactly when its first start is cut between its two writes. */
  lemma StuckExactlyWhenCut(env: Env, d: Disk, e: Event)
    requires Inv(env, d) && !Stuck(d) && WellFormed(e)
    ensures Stuck(After(env, d, e))
            <==> d.manifest.None? && e.op.Start? && GoodRequest(env, e.op.request) && e.power == Left(1)
  {
    if d.manifest.Some? {
      EventGoesForward(env, d, e);
    } else {
      match e.op
      case Start(r, chunkBytes) =>
        if GoodRequest(env, r) {
          CutStart(d, NewManifest(r, chunkBytes), e.power);
        }
      case PutChunk(owner, index, chunkHash, bytes) =>
      case Complete(owner, order) =>
      case OtherUpload(blob) => StoreOnly(d, Through(Plan(env, d, e.op).writes, e.power));
    }
  }

  // ---- When a run gets stuck

  /** A valid start that got at least one write through. */
  ghost predicate Touches(env: Env, e: Event) {
    e.op.Start? && GoodRequest(env, e.op.request) && e.power != Left(0)
  }

  ghost predicate Untouched(env: Env, events: seq<Event>) {
    forall k :: 0 <= k < |events| ==> !Touches(env, events[k])
  }

  ghost predicate CutFirst(env: Env, events: seq<Event>, k: nat)
    requires k < |events|
  {
    Touches(env, events[k]) && events[k].power == Left(1) && Untouched(env, events[..k])
  }

  /** The first valid start that wrote anything died after its first write. */
  ghost predicate FirstTouchIsCut(env: Env, events: seq<Event>) {
    exists k :: 0 <= k < |events| && CutFirst(env, events, k)
  }

  ghost predicate Traceless(d: Disk) { d.manifest.None? && !d.chunkDir }

  lemma FirstTrace(env: Env, d: Disk, e: Event)
    requires Inv(env, d) && Traceless(d) && WellFormed(e)
    ensures Traceless(After(env, d, e)) <==> !Touches(env, e)
  {
    if e.op.Start? && GoodRequest(env, e.op.request) {
      var m := NewManifest(e.op.request, e.op.chunkBytes);
      var w := [MakeChunkDir, SaveManifest(m)];
      assert w[..1] == [MakeChunkDir] && [MakeChunkDir][..0] == [] && w[..0] == [];
      ApplyTwo(d, MakeChunkDir, SaveManifest(m));
    } else if e.op.OtherUpload? {
      StoreOnly(d, Through(Plan(env, d, e.op).writes, e.power));
    }
  }

  lemma TouchesOneMore(env: Env, events: seq<Event>, e: Event)
    ensures Untouched(env, events + [e]) <==> Untouched(env, events) && !Touches(env, e)
  {
    var all, n := events + [e], |events|;
    assert forall k :: 0 <= k < n ==> all[k] == events[k];
    assert all[n] == e;
  }

  lemma CutOneMore(env: Env, events: seq<Event>, e: Event)
    ensures FirstTouchIsCut(env, events + [e])
            <==> FirstTouchIsCut(env, events) || (Untouched(env, events) && Touches(env, e) && e.power == Left(1))
  {
    var all, n := events + [e], |events|;
    assert forall k :: 0 <= k < n ==> all[k] == events[k] && all[..k] == events[..k];
    assert all[n] == e && all[..n] == events;
    assert forall k: nat :: k < n ==> (CutFirst(env, all, k) <==> CutFirst(env, events, k));
    assert CutFirst(env, all, n) <==> Untouched(env, events) && Touches(env, e) && e.power == Left(1);
  }

  /** What one more event does to a disk without a trace, a stuck one, and any other. */
  lemma OneMoreTrace(env: Env, d: Disk, e: Event)
    requires Inv(env, d) && WellFormed(e)
    ensures Traceless(After(env, d, e)) <==> Traceless(d) && !Touches(env, e)
    ensures Stuck(After(env, d, e)) <==> Stuck(d) || (Traceless(d) && Touches(env, e) && e.power == Left(1))
  {
    if Stuck(d) {
      StuckOneMore(env, d, e);
    } else if Traceless(d) {
      FirstTrace(env, d, e);
      StuckExactlyWhenCut(env, d, e);
    } else {
      EventGoesForward(env, d, e);
    }
  }

  lemma {:induction false} RunIsTracelessExactly(env: Env, events: seq<Event>)
    requires forall k :: 0 <= k < |events| ==> WellFormed(events[k])
    ensures Traceless(Run(env, EMPTY, events)) <==> Untouched(env, events)
  {
    if events == [] {
    } else {
      var k := |events| - 1;
      var before, e := events[..k], events[k];
      RunIsTracelessExactly(env, before);
      RunKeepsInv(env, EMPTY, before);
      assert before + [e] == events;
      TouchesOneMore(env, before, e);
      OneMoreTrace(env, Run(env, EMPTY, before), e);
    }
  }

  /** A run from an empty disk gets stuck if and only if its first effective start was cut after one write. */
  lemma {:induction false} RunIsStuckExactly(env: Env, events: seq<Event>)
    requires forall k :: 0 <= k < |events| ==> WellFormed(events[k])
    ensures Stuck(Run(env, EMPTY, events)) <==> FirstTouchIsCut(env, events)
  {
    if events == [] {
    } else {
      var k := |events| - 1;
      var before, e := events[..k], events[k];
      RunIsStuckExactly(env, before);
      RunIsTracelessExactly(env, before);
      RunKeepsInv(env, EMPTY, before);
      assert before + [e] == events;
      CutOneMore(env, before, e);
      OneMoreTrace(env, Run(env, EMPTY, before), e);
    }
  }

  // ---- All of it, over every run from an empty disk

  lemma EveryRun(env: Env, events: seq<Event>, file: Bytes)
    requires forall k :: 0 <= k < |events| ==> WellFormed(events[k])
    ensures var d := Run(env, EMPTY, events);
            d.manifest.Some? ==>
              var m := d.manifest.value;
              && (!m.complete ==> FilesMatch(env, m.received, d.chunks))
              && (m.receivedBytes == m.total <==> forall i :: 0 <= i < m.chunkCount ==> i in m.received)
              && (m.complete && m.blobHash == env.hash(file) ==>
                    var blob := CompletedBlob(env, d, m.owner);
                    blob.Some? && (blob == Some(file) <==> !Collide(env.hash, blob.value, file)))
  {
    RunKeepsInv(env, EMPTY, events);
    var d := Run(env, EMPTY, events);
    if d.manifest.Some? {
      ReceivedBytesAreExact(env, d);
      if d.manifest.value.complete && d.manifest.value.blobHash == env.hash(file) {
        CompletedIsOriginal(env, d, file);
      }
    }
  }
}
