/** Length-prefixed byte streams: what is hashed for a checkpoint directory, and the submission envelope. */
module Framing {
  import opened Arithmetic
  import opened Wrappers

  // ---- Fixed-width big-endian integers

  function Pow256(w: nat): nat {
    if w == 0 then 1 else 256 * Pow256(w - 1)
  }

  function BigEndian(n: nat, w: nat): (b: Bytes)
    ensures |b| == w
    decreases w
  {
    if w == 0 then [] else BigEndian(n / 256, w - 1) + [n % 256]
  }

  function Unsigned(b: Bytes): nat {
    if b == [] then 0 else 256 * Unsigned(b[..|b| - 1]) + b[|b| - 1]
  }

  lemma {:induction false} UnsignedOfBigEndian(n: nat, w: nat)
    requires n < Pow256(w)
    ensures Unsigned(BigEndian(n, w)) == n
    decreases w
  {
    if w > 0 {
      UnsignedOfBigEndian(n / 256, w - 1);
      assert BigEndian(n, w)[..w - 1] == BigEndian(n / 256, w - 1);
    }
  }

  // ---- The directory stream

  datatype File = File(path: Bytes, content: Bytes)

  /** A regular file found below the root, in sorted order, and whether it is a symbolic link. */
  datatype Found = Found(file: File, symlink: bool)

  datatype Root = NotADirectory | Directory(found: seq<Found>)

  datatype Failure = PayloadMissing | PayloadEmpty | SymlinkForbidden

  /** The bytes fed to the digest, their content total, and the file count. */
  datatype Digested = Digested(stream: Bytes, total: nat, count: nat) | Failed(failure: Failure)

  const WIDTH: nat := 8

  /** Lengths that fit the width. */
  predicate Framable(f: File, w: nat) { |f.path| < Pow256(w) && |f.content| < Pow256(w) }

  function Frame(f: File, w: nat): Bytes {
    BigEndian(|f.path|, w) + f.path + (BigEndian(|f.content|, w) + f.content)
  }

  function Stream(files: seq<File>, w: nat): Bytes {
    if files == [] then [] else Stream(files[..|files| - 1], w) + Frame(files[|files| - 1], w)
  }

  function ContentTotal(files: seq<File>): nat {
    if files == [] then 0 else ContentTotal(files[..|files| - 1]) + |files[|files| - 1].content|
  }

  function FilesOf(found: seq<Found>): seq<File> {
    seq(|found|, i requires 0 <= i < |found| => found[i].file)
  }

  predicate AnySymlink(found: seq<Found>) { exists i :: 0 <= i < |found| && found[i].symlink }

  const CHUNK: nat := 1048576

  /** Feeds a file to the digest in chunks. */
  method DigestContent(stream: Bytes, content: Bytes, chunk: nat) returns (longer: Bytes, total: nat)
    requires chunk >= 1
    ensures longer == stream + content && total == |content|
  {
    longer, total := stream, 0;
    while total < |content|
      invariant total <= |content| && longer == stream + content[..total]
    {
      var next := if total + chunk < |content| then total + chunk else |content|;
      assert content[..next] == content[..total] + content[total..next];
      longer := longer + content[total..next];
      total := next;
    }
    assert content[..total] == content;
  }

  /** Feeds one file: both lengths, the path and the content. */
  method DigestFile(stream: Bytes, file: File, w: nat, chunk: nat) returns (longer: Bytes, total: nat)
    requires chunk >= 1 && Framable(file, w)
    ensures longer == stream + Frame(file, w) && total == |file.content|
  {
    var path := BigEndian(|file.path|, w);
    var size := BigEndian(|file.content|, w);
    longer := stream + path;
    longer := longer + file.path;
    longer := longer + size;
    longer, total := DigestContent(longer, file.content, chunk);
  }

  method DigestTree(found: seq<Found>, w: nat, chunk: nat) returns (r: Digested)
    requires chunk >= 1 && forall i :: 0 <= i < |found| ==> Framable(found[i].file, w)
    ensures r == if AnySymlink(found) then Failed(SymlinkForbidden)
                 else Digested(Stream(FilesOf(found), w), ContentTotal(FilesOf(found)), |found|)
  {
    var stream: Bytes, total := [], 0;
    var files := FilesOf(found);
    for i := 0 to |found|
      invariant forall k :: 0 <= k < i ==> !found[k].symlink
      invariant stream == Stream(files[..i], w) && total == ContentTotal(files[..i])
    {
      if found[i].symlink {
        return Failed(SymlinkForbidden);
      }
      assert files[..i + 1][..i] == files[..i];
      var size;
      stream, size := DigestFile(stream, found[i].file, w, chunk);
      total := total + size;
    }
    assert files[..|found|] == files;
    r := Digested(stream, total, |found|);
  }

  method DirectoryDigest(root: Root) returns (r: Digested)
    requires root.Directory? ==> forall i :: 0 <= i < |root.found| ==> Framable(root.found[i].file, WIDTH)
    ensures root.NotADirectory? ==> r == Failed(PayloadMissing)
    ensures root.Directory? && root.found == [] ==> r == Failed(PayloadEmpty)
    ensures root.Directory? && root.found != [] ==>
              r == if AnySymlink(root.found) then Failed(SymlinkForbidden)
                   else Digested(Stream(FilesOf(root.found), WIDTH), ContentTotal(FilesOf(root.found)), |root.found|)
    ensures r == Failed(SymlinkForbidden) <==> root.Directory? && exists f :: f in root.found && f.symlink
  {
    if root.NotADirectory? {
      return Failed(PayloadMissing);
    }
    if root.found == [] {
      return Failed(PayloadEmpty);
    }
    r := DigestTree(root.found, WIDTH, CHUNK);
  }

  // ---- The stream determines the files

  /** Reads one length-prefixed field; the rest of the stream follows it. */
  function ReadField(s: Bytes, w: nat): Option<(Bytes, Bytes)> {
    if |s| < w then None
    else
      var n := Unsigned(s[..w]);
      if |s| < w + n then None else Some((s[w..w + n], s[w + n..]))
  }

  /** Reads a whole stream back. */
  function Parse(s: Bytes, w: nat): Option<seq<File>>
    requires w >= 1
    decreases |s|
  {
    if s == [] then Some([])
    else
      var path := ReadField(s, w);
      if path.None? then None
      else
        var content := ReadField(path.value.1, w);
        if content.None? then None
        else
          var rest := Parse(content.value.1, w);
          if rest.None? then None else Some([File(path.value.0, content.value.0)] + rest.value)
  }

  lemma FieldReadsBack(field: Bytes, rest: Bytes, w: nat)
    requires |field| < Pow256(w)
    ensures ReadField(BigEndian(|field|, w) + field + rest, w) == Some((field, rest))
  {
    var s := BigEndian(|field|, w) + field + rest;
    assert s[..w] == BigEndian(|field|, w);
    UnsignedOfBigEndian(|field|, w);
    assert s[w..w + |field|] == field && s[w + |field|..] == rest;
  }

  lemma FrameReadsBack(f: File, rest: Bytes, w: nat)
    requires w >= 1 && Framable(f, w)
    ensures Parse(Frame(f, w) + rest, w) == if Parse(rest, w).None? then None else Some([f] + Parse(rest, w).value)
  {
    var tail := BigEndian(|f.content|, w) + f.content + rest;
    assert Frame(f, w) + rest == BigEndian(|f.path|, w) + f.path + tail;
    FieldReadsBack(f.path, tail, w);
    FieldReadsBack(f.content, rest, w);
  }

  lemma Associates(a: Bytes, b: Bytes, c: Bytes)
    ensures (a + b) + c == a + (b + c)
  {
  }

  lemma {:induction false} StreamOfFirst(files: seq<File>, w: nat)
    requires files != []
    ensures Stream(files, w) == Frame(files[0], w) + Stream(files[1..], w)
  {
    var n := |files| - 1;
    if n == 0 {
      assert files[..0] == [] && files[1..] == [];
    } else {
      StreamOfFirst(files[..n], w);
      assert files[..n][1..] == files[1..][..n - 1];
      Associates(Frame(files[0], w), Stream(files[1..][..n - 1], w), Frame(files[n], w));
    }
  }

  lemma {:induction false} StreamReadsBack(files: seq<File>, w: nat)
    requires w >= 1 && forall i :: 0 <= i < |files| ==> Framable(files[i], w)
    ensures Parse(Stream(files, w), w) == Some(files)
  {
    if files != [] {
      StreamReadsBack(files[1..], w);
      StreamOfFirst(files, w);
      FrameReadsBack(files[0], Stream(files[1..], w), w);
      assert [files[0]] + files[1..] == files;
    }
  }

  /** Different checkpoint trees never produce the same stream. */
  lemma StreamIsInjective(a: seq<File>, b: seq<File>, w: nat)
    requires w >= 1
    requires forall i :: 0 <= i < |a| ==> Framable(a[i], w)
    requires forall i :: 0 <= i < |b| ==> Framable(b[i], w)
    requires Stream(a, w) == Stream(b, w)
    ensures a == b
  {
    StreamReadsBack(a, w);
    StreamReadsBack(b, w);
  }

  /** So two trees have the same digest exactly when they are equal, or the hash collides on their streams. */
  lemma DigestDeterminesTheTree(hash: Bytes -> string, a: seq<File>, b: seq<File>)
    requires forall i :: 0 <= i < |a| ==> Framable(a[i], WIDTH)
    requires forall i :: 0 <= i < |b| ==> Framable(b[i], WIDTH)
    ensures hash(Stream(a, WIDTH)) == hash(Stream(b, WIDTH))
            <==> a == b || Collide(hash, Stream(a, WIDTH), Stream(b, WIDTH))
  {
    if Stream(a, WIDTH) == Stream(b, WIDTH) {
      StreamIsInjective(a, b, WIDTH);
    }
  }

  // ---- The submission envelope

  const MAX_METADATA: nat := 4194304

  /** The canonical JSON encoder, the JSON decoder, and the schema check on what was decoded. */
  datatype Codec<!M> = Codec(encode: M -> Bytes, decode: Bytes -> Option<M>, schemaMatches: M -> bool)

  function EncodeEnvelope<M>(codec: Codec<M>, metadata: M, delta: Bytes): Result<Bytes, string> {
    var header := codec.encode(metadata);
    if |header| > MAX_METADATA then Err("volunteer_submission_metadata_too_large")
    else if delta == [] then Err("volunteer_submission_delta_empty")
    else Ok(BigEndian(|header|, WIDTH) + header + delta)
  }

  function DecodeEnvelope<M>(codec: Codec<M>, value: Bytes, maxDelta: int): Result<(M, Bytes), string> {
    if |value| < 9 then Err("volunteer_submission_envelope_truncated")
    else
      var size := Unsigned(value[..WIDTH]);
      if size < 2 || size > MAX_METADATA then Err("volunteer_submission_metadata_size_invalid")
      else if WIDTH + size >= |value| then Err("volunteer_submission_delta_empty")
      else
        var delta := value[WIDTH + size..];
        if |delta| > maxDelta then Err("volunteer_submission_delta_too_large")
        else
          var metadata := codec.decode(value[WIDTH..WIDTH + size]);
          if metadata.None? then Err("volunteer_submission_metadata_invalid")
          else if !codec.schemaMatches(metadata.value) then Err("volunteer_submission_schema_mismatch")
          else Ok((metadata.value, delta))
  }

  /** What was encoded decodes to itself, exactly when it has the schema and the delta is admissible. */
  lemma EnvelopeRoundTrip<M>(codec: Codec<M>, metadata: M, delta: Bytes, maxDelta: int)
    requires codec.decode(codec.encode(metadata)) == Some(metadata) && |codec.encode(metadata)| >= 2
    requires EncodeEnvelope(codec, metadata, delta).Ok?
    ensures DecodeEnvelope(codec, EncodeEnvelope(codec, metadata, delta).value, maxDelta)
         == if |delta| > maxDelta then Err("volunteer_submission_delta_too_large")
            else if !codec.schemaMatches(metadata) then Err("volunteer_submission_schema_mismatch")
            else Ok((metadata, delta))
  {
    var header := codec.encode(metadata);
    var value := EncodeEnvelope(codec, metadata, delta).value;
    UnsignedOfBigEndian(|header|, WIDTH);
    assert value[..WIDTH] == BigEndian(|header|, WIDTH);
    assert value[WIDTH..WIDTH + |header|] == header && value[WIDTH + |header|..] == delta;
  }

  /** A decoded envelope re-encodes to itself exactly when its header is canonical, as every produced one is. */
  lemma DecodedReencodes<M>(codec: Codec<M>, value: Bytes, maxDelta: int)
    requires DecodeEnvelope(codec, value, maxDelta).Ok?
    ensures var (metadata, delta) := DecodeEnvelope(codec, value, maxDelta).value;
            EncodeEnvelope(codec, metadata, delta) == Ok(value)
            <==> codec.encode(metadata) == value[WIDTH..|value| - |delta|]
  {
    var (metadata, delta) := DecodeEnvelope(codec, value, maxDelta).value;
    var size := Unsigned(value[..WIDTH]);
    var header := value[WIDTH..WIDTH + size];
    assert value == value[..WIDTH] + header + delta;
    if codec.encode(metadata) == header {
      BigEndianOfUnsigned(value[..WIDTH]);
    }
    if EncodeEnvelope(codec, metadata, delta) == Ok(value) {
      var h := codec.encode(metadata);
      var again := BigEndian(|h|, WIDTH) + h + delta;
      assert |again| == |value| && |h| == size;
      assert again[WIDTH..WIDTH + size] == h;
    }
  }

  lemma {:induction false} BigEndianOfUnsigned(b: Bytes)
    ensures BigEndian(Unsigned(b), |b|) == b
  {
    if b != [] {
      var k := |b| - 1;
      BigEndianOfUnsigned(b[..k]);
      DivUnique(Unsigned(b), 256, Unsigned(b[..k]), b[k]);
    }
  }
}
