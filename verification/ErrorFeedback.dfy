/** Sign compression of a delta, with the rounding error fed back into the next one. */
module ErrorFeedback {
  import opened Order
  import opened Tensors
  import opened Wrappers

  // ---- One tensor

  function Abs(x: real): real { if x < 0.0 then -x else x }

  function SignOf(x: real): real { if x > 0.0 then 1.0 else if x < 0.0 then -1.0 else 0.0 }

  function Magnitudes(v: seq<real>): seq<real> {
    seq(|v|, i requires 0 <= i < |v| => Abs(v[i]))
  }

  /** The scale sent with a tensor: the mean magnitude, or zero for an empty tensor. */
  function MeanAbs(t: Tensor): real {
    if t.data == [] then 0.0 else Sum(Magnitudes(t.data)) / |t.data| as real
  }

  function SignsOf(t: Tensor): Tensor {
    Dense(t.shape, seq(|t.data|, i requires 0 <= i < |t.data| => SignOf(t.data[i])))
  }

  function DecodedOf(t: Tensor): Tensor { Scale(MeanAbs(t), SignsOf(t)) }

  function ResidualOf(t: Tensor): Tensor { Minus(t, DecodedOf(t)) }

  // ---- All tensors of a delta

  function Corrected(delta: Named, residuals: Named, name: string): Tensor
    requires name in delta
  {
    Add(delta[name], Lookup(residuals, name, delta[name].shape))
  }

  function Decoded(delta: Named, residuals: Named): Named {
    map name | name in delta :: DecodedOf(Corrected(delta, residuals, name))
  }

  function NextResiduals(delta: Named, residuals: Named): Named {
    map name | name in delta :: ResidualOf(Corrected(delta, residuals, name))
  }

  // ---- The transport

  datatype Entry = Entry(name: string, shape: Shape, signKey: string, scaleKey: string)

  datatype Manifest = Manifest(schema: string, entries: seq<Entry>)

  const SIGN_SCHEMA: string := "named_tensor_sign_error_feedback_v1"

  function Digits(n: nat): (s: string)
    ensures s != [] && forall i :: 0 <= i < |s| ==> '0' <= s[i] <= '9'
  {
    if n < 10 then [('0' as int + n) as char] else Digits(n / 10) + [('0' as int + n % 10) as char]
  }

  /** Decimal digits, zero-filled to at least `width`. */
  function Padded(n: nat, width: nat): (s: string)
    ensures |s| >= width && forall i :: 0 <= i < |s| ==> '0' <= s[i] <= '9'
  {
    var d := Digits(n);
    seq(if |d| < width then width - |d| else 0, i => '0') + d
  }

  function SignKey(index: nat): string { "sign_" + Padded(index, 4) }

  function ScaleKey(index: nat): string { "scale_" + Padded(index, 4) }

  /** The number a string of digits denotes. */
  function NumberOf(s: string): nat
    requires forall i :: 0 <= i < |s| ==> '0' <= s[i] <= '9'
  {
    if s == [] then 0 else 10 * NumberOf(s[..|s| - 1]) + (s[|s| - 1] as int - '0' as int)
  }

  lemma {:induction false} DigitsDenote(n: nat)
    ensures NumberOf(Digits(n)) == n
  {
    if n < 10 {
      assert Digits(n)[..0] == [];
    } else {
      DigitsDenote(n / 10);
      assert Digits(n)[..|Digits(n)| - 1] == Digits(n / 10);
    }
  }

  lemma {:induction false} LeadingZeros(k: nat, s: string)
    requires forall i :: 0 <= i < |s| ==> '0' <= s[i] <= '9'
    ensures NumberOf(seq(k, i => '0') + s) == NumberOf(s)
  {
    var z := seq(k, i => '0');
    if s != [] {
      LeadingZeros(k, s[..|s| - 1]);
      assert (z + s)[..|z + s| - 1] == z + s[..|s| - 1];
    } else if k > 0 {
      LeadingZeros(k - 1, s);
      assert (z + s)[..|z + s| - 1] == seq(k - 1, i => '0') + s;
    } else {
      assert z + s == s;
    }
  }

  lemma PaddedDenotes(n: nat, width: nat)
    ensures NumberOf(Padded(n, width)) == n
  {
    DigitsDenote(n);
    LeadingZeros(if |Digits(n)| < width then width - |Digits(n)| else 0, Digits(n));
  }

  /** No two tensors of a transport share a key, also past index 9999. */
  lemma KeysAreDistinct(i: nat, j: nat)
    ensures SignKey(i) == SignKey(j) ==> i == j
    ensures ScaleKey(i) == ScaleKey(j) ==> i == j
    ensures SignKey(i) != ScaleKey(j)
  {
    PaddedDenotes(i, 4);
    PaddedDenotes(j, 4);
    assert SignKey(i)[5..] == Padded(i, 4) && SignKey(j)[5..] == Padded(j, 4);
    assert ScaleKey(i)[6..] == Padded(i, 4) && ScaleKey(j)[6..] == Padded(j, 4);
    assert SignKey(i)[1] == 'i' && ScaleKey(j)[1] == 'c';
  }

  function ScalarOf(x: real): Tensor {
    Dense(Shape([1], 1), [x])
  }

  /** How the tensors of a transport file are named, by index. */
  datatype Keys = Keys(sign: nat -> string, scale: nat -> string)

  const TRANSPORT_KEYS := Keys(SignKey, ScaleKey)

  ghost predicate Distinct(keys: Keys) {
    forall i: nat, j: nat :: DistinctAt(keys, i, j)
  }

  ghost predicate DistinctAt(keys: Keys, i: nat, j: nat) {
    keys.sign(i) != keys.scale(j) && (i != j ==> keys.sign(i) != keys.sign(j) && keys.scale(i) != keys.scale(j))
  }

  lemma TransportKeysAreDistinct()
    ensures Distinct(TRANSPORT_KEYS)
  {
    forall i: nat, j: nat ensures DistinctAt(TRANSPORT_KEYS, i, j) {
      KeysAreDistinct(i, j);
    }
  }

  /** The transport file holds the signs and the scale of `t` under the keys of `index`. */
  predicate CarriesAt(keys: Keys, file: Named, index: nat, t: Tensor) {
    && keys.sign(index) in file && file[keys.sign(index)] == SignsOf(t)
    && keys.scale(index) in file && file[keys.scale(index)] == ScalarOf(MeanAbs(t))
  }

  function EntryOf(keys: Keys, index: nat, name: string, shape: Shape): Entry {
    Entry(name, shape, keys.sign(index), keys.scale(index))
  }

  ghost predicate CarriesEntry(
    keys: Keys, e: Entry, file: Named, k: nat, name: string, delta: Named, residuals: Named)
  {
    && name in delta && e == EntryOf(keys, k, name, delta[name].shape)
    && CarriesAt(keys, file, k, Corrected(delta, residuals, name))
  }

  ghost predicate Carries(
    keys: Keys, entries: seq<Entry>, file: Named, names: seq<string>, delta: Named, residuals: Named)
  {
    && |entries| == |names|
    && forall k :: 0 <= k < |names| ==> CarriesEntry(keys, entries[k], file, k, names[k], delta, residuals)
  }

  function PutTensor(keys: Keys, file: Named, index: nat, t: Tensor): Named {
    file[keys.sign(index) := SignsOf(t)][keys.scale(index) := ScalarOf(MeanAbs(t))]
  }

  /** Adding a tensor under a new index disturbs nothing under the others. */
  lemma OthersKept(keys: Keys, file: Named, index: nat, t: Tensor, k: nat, u: Tensor)
    requires Distinct(keys) && CarriesAt(keys, file, k, u) && k != index
    ensures CarriesAt(keys, PutTensor(keys, file, index, t), k, u)
  {
    assert DistinctAt(keys, k, index) && DistinctAt(keys, index, k);
  }

  lemma NewOneCarried(keys: Keys, file: Named, index: nat, t: Tensor)
    requires Distinct(keys)
    ensures CarriesAt(keys, PutTensor(keys, file, index, t), index, t)
  {
    assert DistinctAt(keys, index, index);
  }

  lemma CarriesOneMore(
    keys: Keys, entries: seq<Entry>, file: Named, names: seq<string>, delta: Named, residuals: Named, name: string)
    requires Distinct(keys) && Carries(keys, entries, file, names, delta, residuals) && name in delta
    ensures Carries(keys, entries + [EntryOf(keys, |names|, name, delta[name].shape)],
                    PutTensor(keys, file, |names|, Corrected(delta, residuals, name)), names + [name], delta, residuals)
  {
    var i, t := |names|, Corrected(delta, residuals, name);
    var file' := PutTensor(keys, file, i, t);
    NewOneCarried(keys, file, i, t);
    forall k | 0 <= k < i ensures CarriesEntry(keys, entries[k], file', k, names[k], delta, residuals) {
      assert CarriesEntry(keys, entries[k], file, k, names[k], delta, residuals);
      OthersKept(keys, file, i, t, k, Corrected(delta, residuals, names[k]));
    }
  }

  ghost predicate ResidualsOf(next: Named, names: seq<string>, delta: Named, residuals: Named) {
    && (forall name :: name in next <==> name in names)
    && (forall name :: name in next ==> name in delta && next[name] == ResidualOf(Corrected(delta, residuals, name)))
  }

  /** One iteration of the compression loop. */
  method CompressOne(
    keys: Keys, delta: Named, residuals: Named, entries: seq<Entry>, file: Named, next: Named,
    ghost names: seq<string>, name: string)
    returns (entries': seq<Entry>, file': Named, next': Named)
    requires Distinct(keys) && name in delta
    requires Carries(keys, entries, file, names, delta, residuals) && ResidualsOf(next, names, delta, residuals)
    ensures Carries(keys, entries', file', names + [name], delta, residuals)
    ensures ResidualsOf(next', names + [name], delta, residuals)
  {
    var index := |entries|;
    var corrected := Corrected(delta, residuals, name);
    CarriesOneMore(keys, entries, file, names, delta, residuals, name);
    next' := next[name := ResidualOf(corrected)];
    file' := PutTensor(keys, file, index, corrected);
    entries' := entries + [EntryOf(keys, index, name, delta[name].shape)];
  }

  method CompressNamed(keys: Keys, delta: Named, residuals: Named, names: seq<string>)
    returns (entries: seq<Entry>, file: Named, next: Named)
    requires Distinct(keys) && forall k :: 0 <= k < |names| ==> names[k] in delta
    ensures Carries(keys, entries, file, names, delta, residuals)
    ensures ResidualsOf(next, names, delta, residuals)
  {
    entries, file, next := [], map[], map[];
    for index := 0 to |names|
      invariant Carries(keys, entries, file, names[..index], delta, residuals)
      invariant ResidualsOf(next, names[..index], delta, residuals)
    {
      assert names[..index + 1] == names[..index] + [names[index]];
      entries, file, next := CompressOne(keys, delta, residuals, entries, file, next, names[..index], names[index]);
    }
    assert names[..|names|] == names;
  }

  method CompressSignWithErrorFeedback(delta: Named, residuals: Named)
    returns (manifest: Manifest, file: Named, next: Named)
    ensures next == NextResiduals(delta, residuals)
    ensures manifest.schema == SIGN_SCHEMA
    ensures Carries(TRANSPORT_KEYS, manifest.entries, file, SortedKeys(delta.Keys), delta, residuals)
  {
    TransportKeysAreDistinct();
    var names := SortNames(delta.Keys);
    var entries;
    entries, file, next := CompressNamed(TRANSPORT_KEYS, delta, residuals, names);
    manifest := Manifest(SIGN_SCHEMA, entries);
  }

  // ---- Decoding

  datatype Failure =
    | UnsupportedSchema
    | HashMismatch
    | KeyMissing(key: string)
    | NotAScalar(key: string)
    | ShapeMismatch(name: string)

  function DecodeEntry(e: Entry, file: Named): Result<Tensor, Failure> {
    if e.signKey !in file then Err(KeyMissing(e.signKey))
    else if e.scaleKey !in file then Err(KeyMissing(e.scaleKey))
    else if |file[e.scaleKey].data| != 1 then Err(NotAScalar(e.scaleKey))
    else if file[e.signKey].shape != e.shape then Err(ShapeMismatch(e.name))
    else Ok(Scale(file[e.scaleKey].data[0], file[e.signKey]))
  }

  /** Entries are decoded in order; the first failure ends it, and a repeated name keeps its last value. */
  function DecodeEntries(entries: seq<Entry>, file: Named): Result<Named, Failure> {
    if entries == [] then Ok(map[])
    else
      var k := |entries| - 1;
      var before := DecodeEntries(entries[..k], file);
      if before.Err? then before
      else
        match DecodeEntry(entries[k], file)
        case Err(f) => Err(f)
        case Ok(t) => Ok(before.value[entries[k].name := t])
  }

  function DecodeTransport(manifest: Manifest, file: Named, intact: bool): Result<Named, Failure> {
    if manifest.schema != SIGN_SCHEMA then Err(UnsupportedSchema)
    else if !intact then Err(HashMismatch)
    else DecodeEntries(manifest.entries, file)
  }

  lemma {:induction false} FailureStays(entries: seq<Entry>, k: nat, file: Named)
    requires k <= |entries| && DecodeEntries(entries[..k], file).Err?
    ensures DecodeEntries(entries, file) == DecodeEntries(entries[..k], file)
  {
    if k < |entries| {
      var n := |entries| - 1;
      assert entries[..n][..k] == entries[..k];
      FailureStays(entries[..n], k, file);
    } else {
      assert entries[..k] == entries;
    }
  }

  /** `intact` says whether the transport file hashes to what the manifest names. */
  method DecodeSignTransport(manifest: Manifest, file: Named, intact: bool) returns (r: Result<Named, Failure>)
    ensures r == DecodeTransport(manifest, file, intact)
  {
    if manifest.schema != SIGN_SCHEMA {
      return Err(UnsupportedSchema);
    }
    if !intact {
      return Err(HashMismatch);
    }
    var entries := manifest.entries;
    var decoded: Named := map[];
    for i := 0 to |entries|
      invariant DecodeEntries(entries[..i], file) == Ok(decoded)
    {
      var value := DecodeEntry(entries[i], file);
      assert entries[..i + 1][..i] == entries[..i];
      if value.Err? {
        FailureStays(entries, i + 1, file);
        return Err(value.error);
      }
      decoded := decoded[entries[i].name := value.value];
    }
    assert entries[..|entries|] == entries;
    r := Ok(decoded);
  }

  lemma CarriesButLast(
    keys: Keys, entries: seq<Entry>, file: Named, names: seq<string>, delta: Named, residuals: Named, k: nat)
    requires Carries(keys, entries, file, names, delta, residuals) && k + 1 == |names|
    ensures Carries(keys, entries[..k], file, names[..k], delta, residuals)
    ensures names[k] in delta && entries[k].name == names[k]
    ensures DecodeEntry(entries[k], file) == Ok(DecodedOf(Corrected(delta, residuals, names[k])))
  {
    assert CarriesEntry(keys, entries[k], file, k, names[k], delta, residuals);
    forall j | 0 <= j < k ensures CarriesEntry(keys, entries[..k][j], file, j, names[..k][j], delta, residuals) {
      assert CarriesEntry(keys, entries[j], file, j, names[j], delta, residuals);
    }
  }

  lemma {:induction false} CarriedEntriesDecode(
    keys: Keys, entries: seq<Entry>, file: Named, names: seq<string>, delta: Named, residuals: Named)
    returns (m: Named)
    requires Carries(keys, entries, file, names, delta, residuals)
    ensures DecodeEntries(entries, file) == Ok(m)
    ensures DecodedFrom(m, names, delta, residuals)
  {
    m := map[];
    if entries != [] {
      var k := |entries| - 1;
      CarriesButLast(keys, entries, file, names, delta, residuals, k);
      var before := CarriedEntriesDecode(keys, entries[..k], file, names[..k], delta, residuals);
      var t := DecodedOf(Corrected(delta, residuals, names[k]));
      DecodedOneMore(before, names[..k], delta, residuals, names[k]);
      assert names == names[..k] + [names[k]];
      m := before[names[k] := t];
    }
  }

  ghost predicate DecodedFrom(m: Named, names: seq<string>, delta: Named, residuals: Named) {
    && (forall name :: name in m <==> name in names)
    && (forall name :: name in m ==> name in delta && m[name] == DecodedOf(Corrected(delta, residuals, name)))
  }

  lemma DecodedOneMore(m: Named, names: seq<string>, delta: Named, residuals: Named, name: string)
    requires DecodedFrom(m, names, delta, residuals) && name in delta
    ensures DecodedFrom(m[name := DecodedOf(Corrected(delta, residuals, name))], names + [name], delta, residuals)
  {
  }

  /** Decoding what was compressed yields exactly the values the residuals were reduced by. */
  lemma TransportRoundTrip(manifest: Manifest, file: Named, delta: Named, residuals: Named)
    requires manifest.schema == SIGN_SCHEMA
    requires Carries(TRANSPORT_KEYS, manifest.entries, file, SortedKeys(delta.Keys), delta, residuals)
    ensures DecodeTransport(manifest, file, true) == Ok(Decoded(delta, residuals))
    ensures forall name :: name in delta ==>
              Add(Decoded(delta, residuals)[name], NextResiduals(delta, residuals)[name])
                == Corrected(delta, residuals, name)
  {
    var m := CarriedEntriesDecode(TRANSPORT_KEYS, manifest.entries, file, SortedKeys(delta.Keys), delta, residuals);
    assert m == Decoded(delta, residuals);
    forall name | name in delta
      ensures Add(Decoded(delta, residuals)[name], NextResiduals(delta, residuals)[name])
              == Corrected(delta, residuals, name)
    {
      PutBack(Corrected(delta, residuals, name), DecodedOf(Corrected(delta, residuals, name)));
    }
  }

  lemma PutBack(a: Tensor, b: Tensor)
    requires SameShape(a, b)
    ensures Add(b, Minus(a, b)) == a
  {
    assert Add(b, Minus(a, b)).data == a.data;
  }

  // ---- Conservation

  /** The entry of a map at one coordinate; zero where the map has no such coordinate. */
  function At(m: Named, name: string, shape: Shape, i: nat): real {
    if name in m && m[name].shape == shape && i < |m[name].data| then m[name].data[i] else 0.0
  }

  ghost predicate ConservedAt(delta: Named, residuals: Named, name: string, shape: Shape, i: nat) {
    At(Decoded(delta, residuals), name, shape, i) + At(NextResiduals(delta, residuals), name, shape, i)
    == At(delta, name, shape, i) + At(residuals, name, shape, i)
  }

  /** One compression neither loses nor invents anything. */
  ghost predicate Conserved(delta: Named, residuals: Named) {
    forall name, shape, i: nat :: ConservedAt(delta, residuals, name, shape, i)
  }

  ghost predicate Matches(delta: Named, name: string, shape: Shape) {
    name in delta && delta[name].shape == shape
  }

  /** Every residual that is not all zeros finds its tensor in the delta, in the same shape. */
  ghost predicate Usable(delta: Named, residuals: Named) {
    forall name :: name in residuals && !Matches(delta, name, residuals[name].shape) ==>
      forall i :: 0 <= i < |residuals[name].data| ==> residuals[name].data[i] == 0.0
  }

  lemma WhereItMatches(delta: Named, residuals: Named, name: string, shape: Shape, i: nat)
    ensures At(Decoded(delta, residuals), name, shape, i) + At(NextResiduals(delta, residuals), name, shape, i)
         == At(delta, name, shape, i) + (if Matches(delta, name, shape) then At(residuals, name, shape, i) else 0.0)
  {
    if Matches(delta, name, shape) && i < |delta[name].data| {
      var c := Corrected(delta, residuals, name);
      assert ResidualOf(c).data[i] == c.data[i] - DecodedOf(c).data[i];
    }
  }

  /** A compression conserves exactly when the residual it starts from is usable. */
  lemma ConservedExactlyWhenUsable(delta: Named, residuals: Named)
    ensures Conserved(delta, residuals) <==> Usable(delta, residuals)
  {
    if Usable(delta, residuals) {
      forall name, shape, i: nat ensures ConservedAt(delta, residuals, name, shape, i) {
        WhereItMatches(delta, residuals, name, shape, i);
      }
    }
    if Conserved(delta, residuals) {
      forall name, i | name in residuals && !Matches(delta, name, residuals[name].shape)
        && 0 <= i < |residuals[name].data|
        ensures residuals[name].data[i] == 0.0
      {
        var shape := residuals[name].shape;
        WhereItMatches(delta, residuals, name, shape, i);
        assert ConservedAt(delta, residuals, name, shape, i);
      }
    }
  }

  /** A tensor left out of one delta loses its residual for good, whatever else the delta holds. */
  lemma SkippedTensorLosesItsResidual(delta: Named, residuals: Named, name: string, i: nat)
    requires name in residuals && name !in delta
    requires i < |residuals[name].data| && residuals[name].data[i] != 0.0
    ensures !Conserved(delta, residuals) && name !in NextResiduals(delta, residuals)
  {
    assert !Usable(delta, residuals);
    ConservedExactlyWhenUsable(delta, residuals);
  }

  // ---- Sequences of compressions

  function ResidualAfter(deltas: seq<Named>, start: Named): Named {
    if deltas == [] then start
    else NextResiduals(deltas[|deltas| - 1], ResidualAfter(deltas[..|deltas| - 1], start))
  }

  function DeltaTotal(deltas: seq<Named>, name: string, shape: Shape, i: nat): real {
    if deltas == [] then 0.0
    else DeltaTotal(deltas[..|deltas| - 1], name, shape, i) + At(deltas[|deltas| - 1], name, shape, i)
  }

  function DecodedTotal(deltas: seq<Named>, start: Named, name: string, shape: Shape, i: nat): real {
    if deltas == [] then 0.0
    else
      var k := |deltas| - 1;
      DecodedTotal(deltas[..k], start, name, shape, i)
      + At(Decoded(deltas[k], ResidualAfter(deltas[..k], start)), name, shape, i)
  }

  ghost predicate BalancedAt(deltas: seq<Named>, start: Named, name: string, shape: Shape, i: nat) {
    DecodedTotal(deltas, start, name, shape, i) + At(ResidualAfter(deltas, start), name, shape, i)
    == DeltaTotal(deltas, name, shape, i) + At(start, name, shape, i)
  }

  /** Everything received so far plus the residual is everything sent plus the starting residual. */
  ghost predicate Balanced(deltas: seq<Named>, start: Named) {
    forall name, shape, i: nat :: BalancedAt(deltas, start, name, shape, i)
  }

  ghost predicate UsableAt(deltas: seq<Named>, start: Named, k: nat)
    requires k < |deltas|
  {
    Usable(deltas[k], ResidualAfter(deltas[..k], start))
  }

  lemma BalanceStep(deltas: seq<Named>, start: Named)
    requires deltas != [] && Balanced(deltas[..|deltas| - 1], start)
    ensures Balanced(deltas, start) <==> UsableAt(deltas, start, |deltas| - 1)
  {
    var k := |deltas| - 1;
    var r := ResidualAfter(deltas[..k], start);
    ConservedExactlyWhenUsable(deltas[k], r);
    forall name, shape, i: nat
      ensures BalancedAt(deltas, start, name, shape, i) <==> ConservedAt(deltas[k], r, name, shape, i)
    {
      assert BalancedAt(deltas[..k], start, name, shape, i);
    }
    if Balanced(deltas, start) {
      forall name, shape, i: nat ensures ConservedAt(deltas[k], r, name, shape, i) {
        assert BalancedAt(deltas, start, name, shape, i);
      }
      assert Conserved(deltas[k], r);
    }
    if Conserved(deltas[k], r) {
      forall name, shape, i: nat ensures BalancedAt(deltas, start, name, shape, i) {
        assert ConservedAt(deltas[k], r, name, shape, i);
      }
    }
  }

  /** The books balance after every compression of the sequence. */
  ghost predicate AlwaysBalanced(deltas: seq<Named>, start: Named) {
    forall k :: 0 <= k <= |deltas| ==> Balanced(deltas[..k], start)
  }

  ghost predicate AlwaysUsable(deltas: seq<Named>, start: Named) {
    forall k :: 0 <= k < |deltas| ==> UsableAt(deltas, start, k)
  }

  lemma AlwaysBalancedUnfolds(deltas: seq<Named>, start: Named, n: nat)
    requires n + 1 == |deltas|
    ensures AlwaysBalanced(deltas, start) <==> AlwaysBalanced(deltas[..n], start) && Balanced(deltas, start)
  {
    forall k | 0 <= k <= n ensures deltas[..n][..k] == deltas[..k] {
    }
    assert deltas[..n + 1] == deltas;
  }

  lemma UsableInPrefix(deltas: seq<Named>, start: Named, n: nat, k: nat)
    requires k < n <= |deltas|
    ensures UsableAt(deltas[..n], start, k) <==> UsableAt(deltas, start, k)
  {
    assert deltas[..n][..k] == deltas[..k];
  }

  lemma AlwaysUsableUnfolds(deltas: seq<Named>, start: Named, n: nat)
    requires n + 1 == |deltas|
    ensures AlwaysUsable(deltas, start) <==> AlwaysUsable(deltas[..n], start) && UsableAt(deltas, start, n)
  {
    forall k | 0 <= k < n ensures UsableAt(deltas[..n], start, k) <==> UsableAt(deltas, start, k) {
      UsableInPrefix(deltas, start, n, k);
    }
    assert AlwaysUsable(deltas, start) ==> UsableAt(deltas, start, n);
    assert |deltas[..n]| == n;
  }

  lemma LastIsBalanced(deltas: seq<Named>, start: Named)
    requires AlwaysBalanced(deltas, start)
    ensures Balanced(deltas, start)
  {
    assert deltas[..|deltas|] == deltas;
  }

  /** Telescoping: the books balance throughout exactly when every step's residual is usable. */
  lemma {:induction false} BooksBalanceExactlyWhenUsable(deltas: seq<Named>, start: Named)
    ensures AlwaysBalanced(deltas, start) <==> AlwaysUsable(deltas, start)
  {
    if deltas == [] {
      forall k | 0 <= k <= |deltas| ensures deltas[..k] == [] {
      }
    } else {
      var n := |deltas| - 1;
      BooksBalanceExactlyWhenUsable(deltas[..n], start);
      AlwaysBalancedUnfolds(deltas, start, n);
      AlwaysUsableUnfolds(deltas, start, n);
      if AlwaysBalanced(deltas[..n], start) {
        LastIsBalanced(deltas[..n], start);
        BalanceStep(deltas, start);
      }
    }
  }

  /** With one layout throughout, nothing is ever lost. */
  lemma {:induction false} OneLayoutBalances(deltas: seq<Named>, like: Named, start: Named)
    requires forall k :: 0 <= k < |deltas| ==> SameLayout(like, deltas[k])
    requires SameLayout(like, start) || start == map[]
    ensures Balanced(deltas, start)
    ensures deltas != [] ==> SameLayout(like, ResidualAfter(deltas, start))
  {
    if deltas == [] {
      forall name, shape, i: nat ensures BalancedAt(deltas, start, name, shape, i) {
      }
    } else {
      var k := |deltas| - 1;
      OneLayoutBalances(deltas[..k], like, start);
      var r := ResidualAfter(deltas[..k], start);
      assert SameLayout(like, r) || r == map[];
      assert Usable(deltas[k], r) by {
        forall name | name in r ensures Matches(deltas[k], name, r[name].shape) {
        }
      }
      BalanceStep(deltas, start);
    }
  }

  // ---- Contraction

  /** Sum of (|c| - s)^2 over the non-zero entries, bounded without looking at signs. */
  lemma ResidualElement(c: real, s: real)
    ensures (c - s * SignOf(c)) * (c - s * SignOf(c)) - s * s <= c * c - 2.0 * s * Abs(c)
  {
    if c > 0.0 {
      assert (c - s) * (c - s) == c * c - 2.0 * s * c + s * s;
    } else if c < 0.0 {
      assert (c + s) * (c + s) == c * c + 2.0 * s * c + s * s;
    } else {
      assert s * 0.0 == 0.0 && s * s >= 0.0;
    }
  }

  lemma {:induction false} SumMinusConstant(v: seq<real>, w: seq<real>, q: real)
    requires |v| == |w| && forall i :: 0 <= i < |v| ==> w[i] == v[i] - q
    ensures Sum(w) == Sum(v) - |v| as real * q
  {
    if v != [] {
      var k := |v| - 1;
      SumMinusConstant(v[..k], w[..k], q);
      assert |v| as real * q == k as real * q + q;
    }
  }

  lemma SquareGrows(a: real, s: real, x: real)
    requires a >= 0.0 && x >= 0.0 && s <= a * a
    ensures s + x * x <= (a + x) * (a + x)
  {
    assert (a + x) * (a + x) == a * a + 2.0 * (a * x) + x * x;
    assert a * x >= 0.0;
  }

  lemma AbsSquare(x: real)
    ensures Abs(x) * Abs(x) == x * x && Abs(x) >= 0.0
  {
  }

  lemma Prefixes(v: seq<real>, k: nat)
    requires k <= |v|
    ensures Magnitudes(v)[..k] == Magnitudes(v[..k])
    ensures Squares(v)[..k] == Squares(v[..k])
  {
    forall i | 0 <= i < k ensures Squares(v)[..k][i] == Squares(v[..k])[i] {
      assert v[..k][i] == v[i];
    }
  }

  /** The sum of magnitudes dominates the norm. */
  lemma {:induction false} OneNormDominates(v: seq<real>)
    ensures Sum(Magnitudes(v)) >= 0.0 && Sum(Squares(v)) <= Sum(Magnitudes(v)) * Sum(Magnitudes(v))
  {
    if v != [] {
      var k := |v| - 1;
      OneNormDominates(v[..k]);
      Prefixes(v, k);
      AbsSquare(v[k]);
      SquareGrows(Sum(Magnitudes(v[..k])), Sum(Squares(v[..k])), Abs(v[k]));
    }
  }

  lemma ShiftedResidual(t: Tensor, s: real, i: nat)
    requires s == MeanAbs(t) && i < |t.data|
    ensures Squares(ResidualOf(t).data)[i] - s * s <= Mix(1.0, -2.0 * s)(Squares(t.data)[i], Magnitudes(t.data)[i])
  {
    ResidualElement(t.data[i], s);
  }

  lemma ShiftedResiduals(t: Tensor, s: real, q: real, shifted: seq<real>)
    requires s == MeanAbs(t) && |shifted| == |t.data| && q == s * s
    requires forall i :: 0 <= i < |t.data| ==> shifted[i] == Squares(ResidualOf(t).data)[i] - q
    ensures Sum(shifted) <= Mix(1.0, -2.0 * s)(Sq(t.data), Sum(Magnitudes(t.data)))
  {
    var f := Mix(1.0, -2.0 * s);
    forall i | 0 <= i < |t.data| ensures shifted[i] <= f(Squares(t.data)[i], Magnitudes(t.data)[i]) {
      ShiftedResidual(t, s, i);
    }
    MixIsSuperadditive(1.0, -2.0 * s);
    SumBounded(Squares(t.data), Magnitudes(t.data), shifted, f);
  }

  /** |residual|^2 is at most |corrected|^2 - n s^2, with s the scale that was sent. */
  lemma ResidualBound(t: Tensor, s: real, n: real, q: real)
    requires t.data != [] && s == MeanAbs(t) && n == |t.data| as real && q == s * s
    ensures Sq(ResidualOf(t).data) <= Sq(t.data) - n * q
  {
    var r := Squares(ResidualOf(t).data);
    var shifted := seq(|r|, i requires 0 <= i < |r| => r[i] - q);
    ShiftedResiduals(t, s, q, shifted);
    SumMinusConstant(r, shifted, q);
    Unshift(Sq(ResidualOf(t).data), Sum(shifted), Sq(t.data), Sum(Magnitudes(t.data)), s, n, q);
  }

  lemma Unshift(residual: real, shifted: real, norm: real, total: real, s: real, n: real, q: real)
    requires n > 0.0 && s == total / n && q == s * s
    requires shifted == residual - n * q && shifted <= Mix(1.0, -2.0 * s)(norm, total)
    ensures residual <= norm - n * q
  {
    MixedMean(norm, total, s, n, q);
  }

  lemma MixedMean(norm: real, total: real, s: real, n: real, q: real)
    requires n > 0.0 && s == total / n && q == s * s
    ensures Mix(1.0, -2.0 * s)(norm, total) == norm - 2.0 * (n * q)
  {
    assert total == n * s;
    TwiceTheProduct(s, n);
    assert Mix(1.0, -2.0 * s)(norm, total) == norm + -2.0 * s * total;
  }

  lemma TwiceTheProduct(s: real, n: real)
    ensures -2.0 * s * (n * s) == -2.0 * (n * (s * s))
  {
  }

  lemma ShareOfNorm(total: real, norm: real, s: real, n: real, q: real)
    requires n > 0.0 && s == total / n && norm <= total * total && q == s * s
    ensures norm / n <= n * q
  {
    assert total == n * s;
    assert total * total == n * (n * q);
    assert n * (norm / n) == norm;
    DivideBy(n, norm / n, n * q);
  }

  lemma OneLess(norm: real, n: real)
    requires n > 0.0
    ensures norm - norm / n == (1.0 - 1.0 / n) * norm
  {
  }

  lemma Contraction(residual: real, norm: real, total: real, s: real, n: real, q: real)
    requires n > 0.0 && s == total / n && q == s * s
    requires residual <= norm - n * q && norm <= total * total
    ensures residual <= (1.0 - 1.0 / n) * norm
  {
    ShareOfNorm(total, norm, s, n, q);
    OneLess(norm, n);
  }

  /** Contraction: the new residual of an n-entry tensor keeps at most 1 - 1/n of the squared norm. */
  lemma ResidualContracts(t: Tensor)
    requires t.data != []
    ensures Sq(ResidualOf(t).data) <= (1.0 - 1.0 / |t.data| as real) * Sq(t.data)
  {
    var n, s := |t.data| as real, MeanAbs(t);
    ResidualBound(t, s, n, s * s);
    OneNormDominates(t.data);
    Contraction(Sq(ResidualOf(t).data), Sq(t.data), Sum(Magnitudes(t.data)), s, n, s * s);
  }
}
