/** Where every byte of a directory stream and of a submission envelope sits, and when an envelope is accepted. */
module FramingRules {
  import opened Framing
  import opened Hurdles
  import opened Wrappers

  /** Eight bytes, the first the most significant. */
  predicate IsLength(b: Bytes, n: nat) {
    && |b| == 8
    && var high: int := b[0];
       var upper := ((high * 256 + b[1]) * 256 + b[2]) * 256 + b[3];
       n == (((upper * 256 + b[4]) * 256 + b[5]) * 256 + b[6]) * 256 + b[7]
  }

  lemma TwoDigits(b: Bytes)
    requires |b| >= 2
    ensures Unsigned(b) == (Unsigned(b[..|b| - 2]) * 256 + b[|b| - 2]) * 256 + b[|b| - 1]
  {
    assert b[..|b| - 1][..|b| - 2] == b[..|b| - 2];
  }

  lemma LengthIsUnsigned(b: Bytes)
    requires |b| == 8
    ensures IsLength(b, Unsigned(b))
  {
    TwoDigits(b);
    TwoDigits(b[..6]);
    assert b[..6][..4] == b[..4];
    TwoDigits(b[..4]);
    assert b[..4][..2] == b[..2];
    TwoDigits(b[..2]);
    assert b[..2][..0] == [];
  }

  lemma LengthWritten(n: nat)
    requires n < Pow256(8)
    ensures IsLength(BigEndian(n, 8), n)
  {
    UnsignedOfBigEndian(n, 8);
    LengthIsUnsigned(BigEndian(n, 8));
  }

  lemma LengthIsUnique(b: Bytes, n: nat, m: nat)
    requires IsLength(b, n) && IsLength(b, m)
    ensures n == m
  {
  }

  // ---- The directory stream

  /** Path length, path, content length, content. */
  predicate IsFrame(s: Bytes, f: File) {
    var p, c := |f.path|, |f.content|;
    && |s| == 16 + p + c
    && IsLength(s[..8], p) && s[8..8 + p] == f.path
    && IsLength(s[8 + p..16 + p], c) && s[16 + p..] == f.content
  }

  lemma FrameLayout(f: File)
    requires Framable(f, WIDTH)
    ensures IsFrame(Frame(f, WIDTH), f)
  {
    var s, p := Frame(f, WIDTH), |f.path|;
    LengthWritten(p);
    LengthWritten(|f.content|);
    assert s[..8] == BigEndian(p, 8) && s[8..8 + p] == f.path;
    assert s[8 + p..16 + p] == BigEndian(|f.content|, 8) && s[16 + p..] == f.content;
  }

  /** Where the frame of file `k` begins. */
  function FrameStart(files: seq<File>, k: nat): nat
    requires k <= |files|
  {
    if k == 0 then 0 else FrameStart(files, k - 1) + 16 + |files[k - 1].path| + |files[k - 1].content|
  }

  lemma {:induction false} StartsAgree(files: seq<File>, n: nat, k: nat)
    requires k <= n <= |files|
    ensures FrameStart(files[..n], k) == FrameStart(files, k)
  {
    if k > 0 {
      StartsAgree(files, n, k - 1);
    }
  }

  lemma {:induction false} StartsAscend(files: seq<File>, k: nat, n: nat)
    requires k <= n <= |files|
    ensures FrameStart(files, k) <= FrameStart(files, n)
    decreases n
  {
    if k < n {
      StartsAscend(files, k, n - 1);
    }
  }

  predicate FrameAt(stream: Bytes, files: seq<File>, k: nat)
    requires k < |files|
  {
    && FrameStart(files, k) <= FrameStart(files, k + 1) <= |stream|
    && IsFrame(stream[FrameStart(files, k)..FrameStart(files, k + 1)], files[k])
  }

  lemma FrameInFront(files: seq<File>, n: nat, front: Bytes, stream: Bytes, k: nat)
    requires k < n <= |files| && front <= stream && FrameAt(front, files[..n], k)
    ensures FrameAt(stream, files, k)
  {
    StartsAgree(files, n, k);
    StartsAgree(files, n, k + 1);
    var a, b := FrameStart(files, k), FrameStart(files, k + 1);
    assert stream[a..b] == front[a..b];
  }

  lemma TailOf(front: Bytes, tail: Bytes, a: nat, b: nat)
    requires a == |front| && b == a + |tail|
    ensures |front + tail| == b && (front + tail)[a..b] == tail
  {
  }

  lemma LastFrame(files: seq<File>, n: nat, front: Bytes)
    requires |files| == n + 1 && Framable(files[n], WIDTH) && |front| == FrameStart(files, n)
    ensures FrameAt(front + Frame(files[n], WIDTH), files, n)
    ensures |front + Frame(files[n], WIDTH)| == FrameStart(files, n + 1)
  {
    FrameLayout(files[n]);
    TailOf(front, Frame(files[n], WIDTH), FrameStart(files, n), FrameStart(files, n + 1));
  }

  ghost predicate AllFrames(stream: Bytes, files: seq<File>) {
    |stream| == FrameStart(files, |files|) && forall k :: 0 <= k < |files| ==> FrameAt(stream, files, k)
  }

  lemma OneMoreFrame(files: seq<File>, n: nat, front: Bytes)
    requires |files| == n + 1 && Framable(files[n], WIDTH) && AllFrames(front, files[..n])
    ensures AllFrames(front + Frame(files[n], WIDTH), files)
  {
    StartsAgree(files, n, n);
    LastFrame(files, n, front);
    forall k: nat | k < n ensures FrameAt(front + Frame(files[n], WIDTH), files, k) {
      FrameInFront(files, n, front, front + Frame(files[n], WIDTH), k);
    }
  }

  /** The stream is the frames of the files, one after the other, and nothing else. */
  lemma {:induction false} StreamLayout(files: seq<File>)
    requires forall i :: 0 <= i < |files| ==> Framable(files[i], WIDTH)
    ensures AllFrames(Stream(files, WIDTH), files)
  {
    if files != [] {
      var n := |files| - 1;
      StreamLayout(files[..n]);
      OneMoreFrame(files, n, Stream(files[..n], WIDTH));
    }
  }

  function PathTotal(files: seq<File>, n: nat): nat
    requires n <= |files|
  {
    if n == 0 then 0 else PathTotal(files, n - 1) + |files[n - 1].path|
  }

  /** The reported content total is what the stream holds beside paths and lengths. */
  lemma {:induction false} TotalsAddUp(files: seq<File>, n: nat)
    requires n <= |files|
    ensures FrameStart(files, n) == 16 * n + PathTotal(files, n) + ContentTotal(files[..n])
  {
    if n > 0 {
      TotalsAddUp(files, n - 1);
      assert files[..n][..n - 1] == files[..n - 1];
    }
  }

  // ---- The envelope

  /** Header length, header, delta. */
  predicate IsEnvelope(value: Bytes, header: Bytes, delta: Bytes) {
    && |value| == 8 + |header| + |delta|
    && IsLength(value[..8], |header|) && value[8..8 + |header|] == header && value[8 + |header|..] == delta
  }

  /** Encoding fails for a header of more than 4 MiB or an empty delta, and else lays out length, header and delta. */
  lemma EncodedExactly<M>(codec: Codec<M>, metadata: M, delta: Bytes)
    ensures var header, r := codec.encode(metadata), EncodeEnvelope(codec, metadata, delta);
            && (r == Err("volunteer_submission_metadata_too_large") <==> |header| > 4 * 1024 * 1024)
            && (r == Err("volunteer_submission_delta_empty") <==> |header| <= 4 * 1024 * 1024 && delta == [])
            && (r.Ok? <==> |header| <= 4 * 1024 * 1024 && delta != [])
            && (r.Ok? ==> IsEnvelope(r.value, header, delta))
  {
    var header := codec.encode(metadata);
    if |header| <= 4 * 1024 * 1024 && delta != [] {
      assert Pow256(8) >= 256 * 256 * 256 * 256;
      LengthWritten(|header|);
      var value := BigEndian(|header|, 8) + header + delta;
      assert value[..8] == BigEndian(|header|, 8);
      assert value[8..8 + |header|] == header && value[8 + |header|..] == delta;
    }
  }

  /** What an envelope must pass, `size` being the length its first eight bytes give. */
  function DecodeHurdles<M>(codec: Codec<M>, value: Bytes, maxDelta: int, size: nat): seq<Hurdle<string>> {
    var header := if 8 + size <= |value| then codec.decode(value[8..8 + size]) else None;
    [Hurdle(|value| >= 9, "volunteer_submission_envelope_truncated"),
     Hurdle(2 <= size <= 4 * 1024 * 1024, "volunteer_submission_metadata_size_invalid"),
     Hurdle(8 + size < |value|, "volunteer_submission_delta_empty"),
     Hurdle(|value| - 8 - size <= maxDelta, "volunteer_submission_delta_too_large"),
     Hurdle(header.Some?, "volunteer_submission_metadata_invalid"),
     Hurdle(header.Some? && codec.schemaMatches(header.value), "volunteer_submission_schema_mismatch")]
  }

  /** An envelope is accepted exactly when it passes, and then split after its header. */
  lemma DecodedExactly<M>(codec: Codec<M>, value: Bytes, maxDelta: int, size: nat)
    requires |value| >= 8 ==> IsLength(value[..8], size)
    ensures var h, r := DecodeHurdles(codec, value, maxDelta, size), DecodeEnvelope(codec, value, maxDelta);
            && (AllPassed(h) <==> r.Ok?)
            && (AllPassed(h) ==>
                  && 8 + size < |value|
                  && codec.decode(value[8..8 + size]) == Some(r.value.0) && r.value.1 == value[8 + size..])
            && (forall k: nat :: StopsAt(h, k) ==> r == Err(h[k].refusal))
  {
    var h := DecodeHurdles(codec, value, maxDelta, size);
    if |value| >= 8 {
      LengthIsUnsigned(value[..8]);
      LengthIsUnique(value[..8], size, Unsigned(value[..8]));
    }
    SomewhereStops(h);
    forall k: nat | StopsAt(h, k) ensures DecodeEnvelope(codec, value, maxDelta) == Err(h[k].refusal) {
      assert (k > 0 ==> h[0].passed) && (k > 1 ==> h[1].passed) && (k > 2 ==> h[2].passed) && (k > 3 ==> h[3].passed);
      assert k > 4 ==> h[4].passed;
    }
    if AllPassed(h) {
      assert h[0].passed && h[1].passed && h[2].passed && h[3].passed && h[4].passed && h[5].passed;
    }
  }
}
