/** What sign compression sends, entry by entry, in terms of the corrected tensor alone. */
module SignRules {
  import opened Order
  import opened Tensors
  import opened ErrorFeedback
  import opened Hurdles
  import opened Wrappers

  /** The delta plus the residual, where there is one of the same name and shape. */
  function EntryToSend(delta: Named, residuals: Named, name: string, i: nat): real
    requires name in delta && i < |delta[name].data|
  {
    delta[name].data[i]
    + (if name in residuals && residuals[name].shape == delta[name].shape then residuals[name].data[i] else 0.0)
  }

  /** The sum of the magnitudes of the first `n` of them. */
  function MagnitudeTotal(delta: Named, residuals: Named, name: string, n: nat): real
    requires name in delta && n <= |delta[name].data|
  {
    if n == 0 then 0.0
    else
      var x := EntryToSend(delta, residuals, name, n - 1);
      MagnitudeTotal(delta, residuals, name, n - 1) + (if x < 0.0 then -x else x)
  }

  /** `scale` is the mean magnitude of the entries to send. */
  predicate IsScale(delta: Named, residuals: Named, name: string, scale: real)
    requires name in delta
  {
    var n := |delta[name].data|;
    if n == 0 then scale == 0.0 else scale * n as real == MagnitudeTotal(delta, residuals, name, n)
  }

  /** An entry is sent as its sign: one, minus one, or zero for zero. */
  predicate SignSent(x: real, sign: real) {
    sign == (if x > 0.0 then 1.0 else if x < 0.0 then -1.0 else 0.0)
  }

  /** What is received for an entry: the scale with its sign, and zero for zero. */
  predicate Received(x: real, scale: real, y: real) {
    (x > 0.0 ==> y == scale) && (x < 0.0 ==> y == -scale) && (x == 0.0 ==> y == 0.0)
  }

  lemma {:induction false} TotalsAgree(delta: Named, residuals: Named, name: string, n: nat)
    requires name in delta && n <= |delta[name].data|
    ensures Sum(Magnitudes(Corrected(delta, residuals, name).data[..n])) == MagnitudeTotal(delta, residuals, name, n)
  {
    var c := Corrected(delta, residuals, name).data;
    if n > 0 {
      TotalsAgree(delta, residuals, name, n - 1);
      assert c[..n][..n - 1] == c[..n - 1];
      Prefixes(c[..n], n - 1);
      assert Magnitudes(c[..n])[n - 1] == Abs(c[n - 1]);
    }
  }

  lemma MeanIsScale(total: real, n: real)
    requires n > 0.0
    ensures total / n * n == total
  {
  }

  /** The scale sent with a tensor. */
  lemma ScaleSent(delta: Named, residuals: Named, name: string)
    requires name in delta
    ensures IsScale(delta, residuals, name, MeanAbs(Corrected(delta, residuals, name)))
  {
    var c := Corrected(delta, residuals, name);
    TotalsAgree(delta, residuals, name, |c.data|);
    assert c.data[..|c.data|] == c.data;
    if c.data != [] {
      MeanIsScale(Sum(Magnitudes(c.data)), |c.data| as real);
    }
  }

  /** The received value and the new residual, entry by entry. */
  ghost predicate EntrySplit(
    delta: Named, residuals: Named, decoded: Named, next: Named, name: string, scale: real, i: nat)
    requires name in delta && i < |delta[name].data|
  {
    && name in decoded && name in next && i < |decoded[name].data| && i < |next[name].data|
    && var x := EntryToSend(delta, residuals, name, i);
       Received(x, scale, decoded[name].data[i]) && next[name].data[i] == x - decoded[name].data[i]
  }

  /**
   Decoding what was compressed gives, for every entry, zero if the corrected entry
   is zero and otherwise the mean magnitude with its sign; the rest is the new
   residual, so that zeros stay zero.
   */
  lemma DecodedExactly(manifest: Manifest, file: Named, delta: Named, residuals: Named, name: string, scale: real)
    requires manifest.schema == SIGN_SCHEMA && name in delta && IsScale(delta, residuals, name, scale)
    requires Carries(TRANSPORT_KEYS, manifest.entries, file, SortedKeys(delta.Keys), delta, residuals)
    ensures DecodeTransport(manifest, file, true).Ok?
    ensures var decoded, next := DecodeTransport(manifest, file, true).value, NextResiduals(delta, residuals);
            && decoded.Keys == delta.Keys == next.Keys
            && decoded[name].shape == delta[name].shape == next[name].shape
            && forall i :: 0 <= i < |delta[name].data| ==>
                 EntrySplit(delta, residuals, decoded, next, name, scale, i)
  {
    TransportRoundTrip(manifest, file, delta, residuals);
    AllEntriesDecode(delta, residuals, name, scale);
  }

  lemma AllEntriesDecode(delta: Named, residuals: Named, name: string, scale: real)
    requires name in delta && IsScale(delta, residuals, name, scale)
    ensures forall i :: 0 <= i < |delta[name].data| ==>
              EntrySplit(delta, residuals, Decoded(delta, residuals), NextResiduals(delta, residuals), name, scale, i)
  {
    ScaleSent(delta, residuals, name);
    ScaleIsUnique(delta, residuals, name, scale, MeanAbs(Corrected(delta, residuals, name)));
    forall i | 0 <= i < |delta[name].data|
      ensures
        EntrySplit(delta, residuals, Decoded(delta, residuals), NextResiduals(delta, residuals), name, scale, i)
    {
      EntryDecodes(delta, residuals, name, i);
    }
  }

  lemma ScaleIsUnique(delta: Named, residuals: Named, name: string, a: real, b: real)
    requires name in delta && IsScale(delta, residuals, name, a) && IsScale(delta, residuals, name, b)
    ensures a == b
  {
    var n := |delta[name].data| as real;
    if n > 0.0 {
      assert (a - b) * n == a * n - b * n;
    }
  }

  lemma EntryDecodes(delta: Named, residuals: Named, name: string, i: nat)
    requires name in delta && i < |delta[name].data|
    ensures var scale := MeanAbs(Corrected(delta, residuals, name));
            EntrySplit(delta, residuals, Decoded(delta, residuals), NextResiduals(delta, residuals), name, scale, i)
  {
    var c, x := Corrected(delta, residuals, name), EntryToSend(delta, residuals, name, i);
    assert c.data[i] == x;
    ScaledSign(MeanAbs(c), x);
    assert DecodedOf(c).data[i] == MeanAbs(c) * SignOf(x);
  }

  lemma ScaledSign(scale: real, x: real)
    ensures Received(x, scale, scale * SignOf(x))
  {
  }

  /** The transport file holds signs only. */
  lemma SignsSent(manifest: Manifest, file: Named, delta: Named, residuals: Named, k: nat, i: nat)
    requires Carries(TRANSPORT_KEYS, manifest.entries, file, SortedKeys(delta.Keys), delta, residuals)
    requires k < |SortedKeys(delta.Keys)| && i < |delta[SortedKeys(delta.Keys)[k]].data|
    ensures k < |manifest.entries| && manifest.entries[k].signKey in file
    ensures var name := SortedKeys(delta.Keys)[k];
            && manifest.entries[k].name == name && file[manifest.entries[k].signKey].shape == delta[name].shape
            && SignSent(EntryToSend(delta, residuals, name, i), file[manifest.entries[k].signKey].data[i])
  {
    var name := SortedKeys(delta.Keys)[k];
    assert CarriesEntry(TRANSPORT_KEYS, manifest.entries[k], file, k, name, delta, residuals);
    var c := Corrected(delta, residuals, name);
    assert SignsOf(c).data[i] == SignOf(c.data[i]);
  }

  // ---- Decoding any transport file

  /** What an entry of a transport must pass to be decoded. */
  function EntryHurdles(e: Entry, file: Named): seq<Hurdle<Failure>> {
    [Hurdle(e.signKey in file, KeyMissing(e.signKey)),
     Hurdle(e.scaleKey in file, KeyMissing(e.scaleKey)),
     Hurdle(e.scaleKey in file && |file[e.scaleKey].data| == 1, NotAScalar(e.scaleKey)),
     Hurdle(e.signKey in file && file[e.signKey].shape == e.shape, ShapeMismatch(e.name))]
  }

  /** The entry's tensor is the signs times the scale. */
  ghost predicate DecodesTo(e: Entry, file: Named, t: Tensor) {
    && e.signKey in file && e.scaleKey in file && |file[e.scaleKey].data| == 1 && t.shape == e.shape
    && |t.data| == |file[e.signKey].data|
    && forall i :: 0 <= i < |t.data| ==> t.data[i] == file[e.scaleKey].data[0] * file[e.signKey].data[i]
  }

  lemma EntryDecodedExactly(e: Entry, file: Named)
    ensures var h, r := EntryHurdles(e, file), DecodeEntry(e, file);
            && (AllPassed(h) <==> r.Ok?) && (AllPassed(h) ==> DecodesTo(e, file, r.value))
            && (forall k: nat :: StopsAt(h, k) ==> r == Err(h[k].refusal))
  {
    var h := EntryHurdles(e, file);
    SomewhereStops(h);
    forall k: nat | StopsAt(h, k) ensures DecodeEntry(e, file) == Err(h[k].refusal) {
      assert (k > 0 ==> h[0].passed) && (k > 1 ==> h[1].passed) && (k > 2 ==> h[2].passed);
    }
    if AllPassed(h) {
      assert h[0].passed && h[1].passed && h[2].passed && h[3].passed;
    }
  }

  ghost predicate Passes(entries: seq<Entry>, file: Named, k: nat)
    requires k < |entries|
  {
    AllPassed(EntryHurdles(entries[k], file))
  }

  /** Entry `k` is the first that does not decode, for the reason of its first hurdle. */
  ghost predicate FailsAt(entries: seq<Entry>, file: Named, k: nat, failure: Failure) {
    && k < |entries| && (forall j :: 0 <= j < k ==> Passes(entries, file, j))
    && var h := EntryHurdles(entries[k], file);
       exists m: nat :: StopsAt(h, m) && h[m].refusal == failure
  }

  /** A name has the value of its last entry. */
  ghost predicate LastOf(entries: seq<Entry>, file: Named, k: nat, t: Tensor) {
    && k < |entries| && DecodesTo(entries[k], file, t)
    && forall j :: k < j < |entries| ==> entries[j].name != entries[k].name
  }

  ghost predicate HoldsLast(entries: seq<Entry>, file: Named, decoded: Named) {
    && (forall k :: 0 <= k < |entries| ==> entries[k].name in decoded)
    && forall name :: name in decoded ==>
         exists k: nat :: LastOf(entries, file, k, decoded[name]) && entries[k].name == name
  }

  lemma OneMoreDecoded(entries: seq<Entry>, file: Named, n: nat, decoded: Named, t: Tensor)
    requires |entries| == n + 1 && HoldsLast(entries[..n], file, decoded) && DecodesTo(entries[n], file, t)
    ensures HoldsLast(entries, file, decoded[entries[n].name := t])
  {
    var after := decoded[entries[n].name := t];
    forall k | 0 <= k < |entries| ensures entries[k].name in after {
      assert k < n ==> entries[..n][k].name in decoded;
    }
    forall name | name in after
      ensures exists k: nat :: LastOf(entries, file, k, after[name]) && entries[k].name == name
    {
      if name == entries[n].name {
        assert LastOf(entries, file, n, t);
      } else {
        var k: nat :| LastOf(entries[..n], file, k, decoded[name]) && entries[..n][k].name == name;
        forall j | k < j < |entries| ensures entries[j].name != entries[k].name {
          assert j < n ==> entries[..n][j].name != entries[..n][k].name;
        }
        assert LastOf(entries, file, k, after[name]);
      }
    }
  }

  ghost predicate AllPass(entries: seq<Entry>, file: Named) {
    forall k :: 0 <= k < |entries| ==> Passes(entries, file, k)
  }

  lemma AllPassUnfolds(entries: seq<Entry>, file: Named, n: nat)
    requires |entries| == n + 1
    ensures AllPass(entries, file) <==> AllPass(entries[..n], file) && Passes(entries, file, n)
  {
    forall k | 0 <= k < n ensures Passes(entries[..n], file, k) <==> Passes(entries, file, k) {
    }
  }

  lemma FailsInFront(entries: seq<Entry>, file: Named, n: nat, k: nat, failure: Failure)
    requires n <= |entries| && FailsAt(entries[..n], file, k, failure)
    ensures FailsAt(entries, file, k, failure)
  {
    forall j | 0 <= j < k ensures Passes(entries, file, j) {
      assert Passes(entries[..n], file, j);
    }
  }

  lemma FailsLast(entries: seq<Entry>, file: Named, n: nat)
    requires |entries| == n + 1 && AllPass(entries[..n], file) && !Passes(entries, file, n)
    ensures DecodeEntry(entries[n], file).Err? && FailsAt(entries, file, n, DecodeEntry(entries[n], file).error)
  {
    EntryDecodedExactly(entries[n], file);
    SomewhereStops(EntryHurdles(entries[n], file));
    forall j | 0 <= j < n ensures Passes(entries, file, j) {
      assert Passes(entries[..n], file, j);
    }
  }

  lemma {:induction false} EntriesDecodedExactly(entries: seq<Entry>, file: Named)
    ensures var r := DecodeEntries(entries, file);
            && (r.Ok? <==> AllPass(entries, file))
            && (r.Ok? ==> HoldsLast(entries, file, r.value))
            && (r.Err? ==> exists k: nat :: FailsAt(entries, file, k, r.error))
  {
    if entries != [] {
      var n := |entries| - 1;
      var before := DecodeEntries(entries[..n], file);
      EntriesDecodedExactly(entries[..n], file);
      AllPassUnfolds(entries, file, n);
      if before.Err? {
        var k: nat :| FailsAt(entries[..n], file, k, before.error);
        FailsInFront(entries, file, n, k, before.error);
      } else if Passes(entries, file, n) {
        EntryDecodedExactly(entries[n], file);
        OneMoreDecoded(entries, file, n, before.value, DecodeEntry(entries[n], file).value);
      } else {
        FailsLast(entries, file, n);
      }
    }
  }

  /** Which transports decode, to what, and how the others fail: by schema, by hash, by their first bad entry. */
  lemma TransportDecodedExactly(manifest: Manifest, file: Named, intact: bool)
    ensures var r := DecodeTransport(manifest, file, intact);
            var known := manifest.schema == "named_tensor_sign_error_feedback_v1";
            && (r == Err(UnsupportedSchema) <==> !known)
            && (r == Err(HashMismatch) <==> known && !intact)
            && (r.Ok? <==> known && intact && AllPass(manifest.entries, file))
            && (r.Ok? ==> HoldsLast(manifest.entries, file, r.value))
            && (r.Err? && known && intact ==> exists k: nat :: FailsAt(manifest.entries, file, k, r.error))
  {
    EntriesDecodedExactly(manifest.entries, file);
  }

  // ---- The exact norm of the residual

  function NonZeros(v: seq<real>): nat {
    if v == [] then 0 else NonZeros(v[..|v| - 1]) + (if v[|v| - 1] != 0.0 then 1 else 0)
  }

  lemma ResidualSquare(x: real, s: real, y: real)
    requires Received(x, s, y)
    ensures (x - y) * (x - y) == x * x - 2.0 * s * (if x < 0.0 then -x else x) + (if x != 0.0 then s * s else 0.0)
  {
  }

  /** What an entry, or a sum of entries, leaves over: square, magnitude and how many are not zero. */
  function Leftover(a: real, q: real): (real, real, nat) -> real {
    (norm: real, total: real, count: nat) => norm - a * total + count as real * q
  }

  ghost predicate AddsUp(f: (real, real, nat) -> real, x: real, y: real, m: nat, x': real, y': real, n: nat) {
    f(x, y, m) + f(x', y', n) == f(x + x', y + y', m + n)
  }

  ghost predicate Additive(f: (real, real, nat) -> real) {
    f(0.0, 0.0, 0) == 0.0 && forall x, y, m, x', y', n :: AddsUp(f, x, y, m, x', y', n)
  }

  lemma LeftoverAdds(a: real, q: real, x: real, y: real, m: nat, x': real, y': real, n: nat)
    ensures x - a * y + m as real * q + (x' - a * y' + n as real * q) == x + x' - a * (y + y') + (m + n) as real * q
  {
    assert a * (y + y') == a * y + a * y';
    assert (m + n) as real * q == m as real * q + n as real * q;
  }

  lemma LeftoverIsAdditive(a: real, q: real)
    ensures Additive(Leftover(a, q))
  {
    var f := Leftover(a, q);
    forall x, y, m: nat, x', y', n: nat ensures AddsUp(f, x, y, m, x', y', n) {
      LeftoverAdds(a, q, x, y, m, x', y', n);
    }
  }

  ghost predicate LeavesOver(f: (real, real, nat) -> real, x: real, r: real) {
    r * r == f(x * x, Abs(x), if x != 0.0 then 1 else 0)
  }

  lemma {:induction false} LeftoversAddUp(
    v: seq<real>, squares: seq<real>, magnitudes: seq<real>, left: seq<real>, f: (real, real, nat) -> real)
    requires |v| == |squares| == |magnitudes| == |left| && Additive(f)
    requires forall i :: 0 <= i < |v| ==> left[i] == f(squares[i], magnitudes[i], if v[i] != 0.0 then 1 else 0)
    ensures Sum(left) == f(Sum(squares), Sum(magnitudes), NonZeros(v))
  {
    if v != [] {
      var k := |v| - 1;
      LeftoversAddUp(v[..k], squares[..k], magnitudes[..k], left[..k], f);
      assert AddsUp(f, Sum(squares[..k]), Sum(magnitudes[..k]), NonZeros(v[..k]), squares[k], magnitudes[k],
                    if v[k] != 0.0 then 1 else 0);
    }
  }

  lemma EntryLeavesOver(t: Tensor, s: real, i: nat)
    requires s == MeanAbs(t) && i < |t.data|
    ensures LeavesOver(Leftover(2.0 * s, s * s), t.data[i], ResidualOf(t).data[i])
  {
    var x, y := t.data[i], DecodedOf(t).data[i];
    ScaledSign(s, x);
    ResidualSquare(x, s, y);
    assert ResidualOf(t).data[i] == x - y;
  }

  lemma MeanAbsIs(t: Tensor, s: real)
    requires s * |t.data| as real == Sum(Magnitudes(t.data)) && (t.data == [] ==> s == 0.0)
    ensures s == MeanAbs(t)
  {
    if t.data != [] {
      MeanIsScale(Sum(Magnitudes(t.data)), |t.data| as real);
      SameQuotient(s, MeanAbs(t), |t.data| as real);
    }
  }

  lemma TensorLeavesOver(t: Tensor, s: real, a: real, q: real)
    requires s == MeanAbs(t) && a == 2.0 * s && q == s * s
    ensures Sq(ResidualOf(t).data) == Leftover(a, q)(Sq(t.data), Sum(Magnitudes(t.data)), NonZeros(t.data))
  {
    var f, left := Leftover(a, q), Squares(ResidualOf(t).data);
    forall i | 0 <= i < |t.data|
      ensures left[i] == f(Squares(t.data)[i], Magnitudes(t.data)[i], if t.data[i] != 0.0 then 1 else 0)
    {
      EntryLeavesOver(t, s, i);
    }
    LeftoverIsAdditive(a, q);
    LeftoversAddUp(t.data, Squares(t.data), Magnitudes(t.data), left, f);
  }

  /** The squared norm left over: that of the corrected tensor, minus (2n - z) s^2 with z non-zero entries of n. */
  lemma ResidualNormExactly(t: Tensor, s: real)
    requires s * |t.data| as real == Sum(Magnitudes(t.data)) && (t.data == [] ==> s == 0.0)
    ensures Sq(ResidualOf(t).data) == Sq(t.data) - (2 * |t.data| - NonZeros(t.data)) as real * (s * s)
  {
    MeanAbsIs(t, s);
    TensorLeft(t, s, Sq(t.data), Sum(Magnitudes(t.data)), |t.data|, NonZeros(t.data));
  }

  lemma TensorLeft(t: Tensor, s: real, norm: real, total: real, n: nat, z: nat)
    requires norm == Sq(t.data) && total == Sum(Magnitudes(t.data)) && n == |t.data| && z == NonZeros(t.data)
    requires s == MeanAbs(t) && s * n as real == total
    ensures Sq(ResidualOf(t).data) == norm - (2 * n - z) as real * (s * s)
  {
    TensorLeavesOver(t, s, 2.0 * s, s * s);
    Regroup(norm, total, s, n, z);
  }

  lemma SameQuotient(a: real, b: real, n: real)
    requires n > 0.0 && a * n == b * n
    ensures a == b
  {
  }

  lemma Regroup(norm: real, total: real, s: real, n: nat, z: nat)
    requires total == s * n as real
    ensures Leftover(2.0 * s, s * s)(norm, total, z) == norm - (2 * n - z) as real * (s * s)
  {
    assert 2.0 * s * (s * n as real) == (2 * n) as real * (s * s);
    assert (2 * n - z) as real * (s * s) == (2 * n) as real * (s * s) - z as real * (s * s);
  }
}
