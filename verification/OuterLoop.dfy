/**
 The numeric outer loop: clipping on acceptance, averaging, and the momentum step
 that moves the canonical adapter once per round.
 */
module OuterLoop {
  import opened Order
  import opened Tensors
  import opened Wrappers

  datatype Failure = NoDeltas | NamesMismatch | DeltaMissing(name: string)

  /** Adapter and velocity files of one version; the velocity is empty while there is no file. */
  datatype Canonical = Canonical(adapter: Named, velocity: Named)

  datatype Policy = Policy(clip: real, momentum: real, rate: real)

  /** What manifest validation guarantees. */
  predicate ValidPolicy(p: Policy) {
    p.clip > 0.0 && 0.0 <= p.momentum < 1.0 && p.rate > 0.0
  }

  const NORM_FLOOR: real := 0.000000000001

  // ---- Clipping

  /** `norm` is the l2 norm of `m`. */
  ghost predicate IsNorm(norm: real, m: Named) {
    norm >= 0.0 && norm * norm == SqNorm(m)
  }

  function ClipFactor(norm: real, clip: real): real {
    clip / (if norm > NORM_FLOOR then norm else NORM_FLOOR)
  }

  /** The delta kept for a submission whose norm is `norm`. */
  function Clipped(delta: Named, norm: real, clip: real): Named {
    if norm > clip then MapScale(ClipFactor(norm, clip), delta) else delta
  }

  lemma FactorBound(norm: real, clip: real)
    requires clip > 0.0 && norm > clip
    ensures ClipFactor(norm, clip) >= 0.0 && 0.0 <= ClipFactor(norm, clip) * norm <= clip
  {
    if norm > NORM_FLOOR {
      assert clip / norm * norm == clip;
    } else {
      MulMonotone(clip / NORM_FLOOR, norm, NORM_FLOOR);
    }
  }

  /** Scaling never raises the norm above the clip norm; a delta that was within it is untouched. */
  lemma ClippedIsBounded(bounds: Bound, delta: Named, norm: real, clip: real)
    requires NormBound(bounds) && clip > 0.0 && bounds(delta, norm)
    ensures bounds(Clipped(delta, norm, clip), clip)
    ensures SameLayout(delta, Clipped(delta, norm, clip))
    ensures norm <= clip ==> Clipped(delta, norm, clip) == delta
  {
    if norm > clip {
      FactorBound(norm, clip);
      ScaledWithin(bounds, ClipFactor(norm, clip), delta, norm, ClipFactor(norm, clip) * norm);
      LooserBound(bounds, Clipped(delta, norm, clip), ClipFactor(norm, clip) * norm, clip);
    } else {
      LooserBound(bounds, delta, norm, clip);
    }
  }

  // ---- Averaging

  /** Tensor addition needs equal shapes wherever two maps share a name. */
  ghost predicate Compatible(a: Named, b: Named) {
    forall name :: name in a && name in b ==> SameShape(a[name], b[name])
  }

  ghost predicate AllCompatible(values: seq<Named>) {
    forall i, j :: 0 <= i < |values| && 0 <= j < |values| ==> Compatible(values[i], values[j])
  }

  ghost predicate Carry(values: seq<Named>, name: string, shape: Shape) {
    forall i :: 0 <= i < |values| ==> name in values[i] && values[i][name].shape == shape
  }

  function SumAt(values: seq<Named>, name: string, shape: Shape): (t: Tensor)
    requires Carry(values, name, shape)
    ensures t.shape == shape
  {
    if values == [] then Zeros(shape)
    else Add(SumAt(values[..|values| - 1], name, shape), values[|values| - 1][name])
  }

  function MeanAt(values: seq<Named>, name: string, shape: Shape): (t: Tensor)
    requires values != [] && Carry(values, name, shape)
    ensures t.shape == shape
  {
    Scale(1.0 / |values| as real, SumAt(values, name, shape))
  }

  function Average(values: seq<Named>): (r: Result<Named, Failure>)
    requires AllCompatible(values)
    ensures r.Ok? ==> values != [] && r.value.Keys == values[0].Keys && SameLayout(r.value, values[0])
  {
    if values == [] then Err(NoDeltas)
    else if values[0].Keys == {} || exists i :: 0 <= i < |values| && values[i].Keys != values[0].Keys
      then Err(NamesMismatch)
    else Ok(map name | name in values[0] :: Mean(values, name))
  }

  function Mean(values: seq<Named>, name: string): (t: Tensor)
    requires AllCompatible(values) && values != [] && name in values[0]
    requires forall i :: 0 <= i < |values| ==> values[i].Keys == values[0].Keys
    ensures t.shape == values[0][name].shape
  {
    assert forall i :: 0 <= i < |values| ==> Compatible(values[0], values[i]);
    MeanAt(values, name, values[0][name].shape)
  }

  ghost function Total(values: seq<Named>, like: Named): (r: Named)
    requires forall i :: 0 <= i < |values| ==> SameLayout(like, values[i])
    ensures SameLayout(like, r)
  {
    assert forall i :: 0 <= i < |values| ==> SameLayout(like, values[i]) && values[i].Keys == like.Keys;
    map name | name in like :: SumAt(values, name, like[name].shape)
  }

  lemma {:induction false} TotalIsBounded(bounds: Bound, values: seq<Named>, like: Named, clip: real)
    requires NormBound(bounds) && clip >= 0.0
    requires forall i :: 0 <= i < |values| ==> SameLayout(like, values[i]) && bounds(values[i], clip)
    ensures bounds(Total(values, like), |values| as real * clip)
  {
    if values == [] {
      ZerosBounded(bounds, Total(values, like));
    } else {
      var k := |values| - 1;
      TotalIsBounded(bounds, values[..k], like, clip);
      assert Total(values, like) == MapAdd(Total(values[..k], like), values[k]);
      SumWithin(bounds, Total(values[..k], like), values[k], k as real * clip, clip, |values| as real * clip);
    }
  }

  lemma Cancels(n: real, clip: real)
    requires n > 0.0
    ensures 1.0 / n >= 0.0 && 1.0 / n * (n * clip) == clip
  {
  }

  lemma AverageIsMeanOfTotal(values: seq<Named>, like: Named)
    requires values != [] && like.Keys != {}
    requires forall i :: 0 <= i < |values| ==> SameLayout(like, values[i])
    ensures AllCompatible(values) && Average(values) == Ok(MapScale(1.0 / |values| as real, Total(values, like)))
  {
    assert forall i :: 0 <= i < |values| ==> SameLayout(like, values[i]) && values[i].Keys == like.Keys;
    assert values[0].Keys == like.Keys;
    forall name | name in like
      ensures Mean(values, name) == Scale(1.0 / |values| as real, SumAt(values, name, like[name].shape))
    {
    }
    assert Average(values).value == MapScale(1.0 / |values| as real, Total(values, like));
  }

  /** The average of accepted deltas has norm at most the clip norm. */
  lemma AverageIsBounded(bounds: Bound, values: seq<Named>, like: Named, clip: real)
    requires NormBound(bounds) && clip >= 0.0 && values != [] && like.Keys != {}
    requires forall i :: 0 <= i < |values| ==> SameLayout(like, values[i]) && bounds(values[i], clip)
    ensures AllCompatible(values) && Average(values).Ok?
    ensures SameLayout(like, Average(values).value) && bounds(Average(values).value, clip)
  {
    TotalIsBounded(bounds, values, like, clip);
    AverageIsMeanOfTotal(values, like);
    Cancels(|values| as real, clip);
    ScaledWithin(bounds, 1.0 / |values| as real, Total(values, like), |values| as real * clip, clip);
  }

  // ---- The outer step

  ghost predicate Stepable(base: Named, deltas: seq<Named>) {
    AllCompatible(deltas) && forall i :: 0 <= i < |deltas| ==> Compatible(base, deltas[i])
  }

  function NextVelocity(momentum: real, velocity: Tensor, mean: Tensor): Tensor
    requires SameShape(velocity, mean)
  {
    Add(Scale(momentum, velocity), mean)
  }

  ghost function Velocities(base: Named, mean: Named, velocity: Named, momentum: real): Named
    requires base.Keys <= mean.Keys
  {
    map name | name in base :: NextVelocity(momentum, Lookup(velocity, name, mean[name].shape), mean[name])
  }

  ghost function OuterStep(c: Canonical, deltas: seq<Named>, rate: real, momentum: real): Result<Canonical, Failure>
    requires Stepable(c.adapter, deltas)
  {
    var average := Average(deltas);
    if average.Err? then Err(average.error)
    else
      var missing := c.adapter.Keys - average.value.Keys;
      if missing != {} then Err(DeltaMissing(SortedKeys(missing)[0]))
      else
        assert forall name :: name in c.adapter ==> name !in missing;
        assert Compatible(c.adapter, deltas[0]);
        var velocity := Velocities(c.adapter, average.value, c.velocity, momentum);
        Ok(Canonical(Moved(c.adapter, velocity, rate), velocity))
  }

  ghost function Moved(base: Named, velocity: Named, rate: real): Named
    requires SameLayout(base, velocity)
  {
    map name | name in base :: Add(base[name], Scale(rate, velocity[name]))
  }

  /** The missing name the program reports is the first in name order. */
  lemma FirstMissing(names: seq<string>, keys: set<string>, have: set<string>, i: nat)
    requires names == SortedKeys(keys) && i < |names| && names[i] !in have
    requires forall k :: 0 <= k < i ==> names[k] in have
    ensures keys - have != {} && SortedKeys(keys - have)[0] == names[i]
  {
    var missing := keys - have;
    assert names[i] in missing;
    forall j | j in missing ensures j == names[i] || StringLess(names[i], j) {
      var k :| 0 <= k < |names| && names[k] == j;
    }
    LeastIsUnique(names[i], SortedKeys(missing)[0], missing);
  }

  ghost predicate SteppedAt(c: Canonical, mean: Named, rate: real, momentum: real, name: string, v: Tensor, u: Tensor) {
    && name in c.adapter && name in mean && v.shape == c.adapter[name].shape == mean[name].shape
    && v == NextVelocity(momentum, Lookup(c.velocity, name, mean[name].shape), mean[name])
    && u == Add(c.adapter[name], Scale(rate, v))
  }

  lemma SteppedEverywhere(c: Canonical, deltas: seq<Named>, rate: real, momentum: real, velocity: Named, updated: Named)
    requires Stepable(c.adapter, deltas) && Average(deltas).Ok?
    requires c.adapter.Keys == velocity.Keys == updated.Keys && c.adapter.Keys <= Average(deltas).value.Keys
    requires forall name :: name in velocity ==>
               SteppedAt(c, Average(deltas).value, rate, momentum, name, velocity[name], updated[name])
    ensures OuterStep(c, deltas, rate, momentum) == Ok(Canonical(updated, velocity))
  {
    var mean := Average(deltas).value;
    assert c.adapter.Keys - mean.Keys == {};
    assert Compatible(c.adapter, deltas[0]);
    assert velocity == Velocities(c.adapter, mean, c.velocity, momentum);
    assert updated == Moved(c.adapter, velocity, rate);
  }

  method StepTensor(c: Canonical, mean: Named, rate: real, momentum: real, name: string) returns (v: Tensor, u: Tensor)
    requires name in c.adapter && name in mean && SameShape(c.adapter[name], mean[name])
    ensures SteppedAt(c, mean, rate, momentum, name, v, u)
  {
    v := NextVelocity(momentum, Lookup(c.velocity, name, mean[name].shape), mean[name]);
    u := Add(c.adapter[name], Scale(rate, v));
  }

  lemma FirstMissingFails(c: Canonical, deltas: seq<Named>, rate: real, momentum: real, i: nat)
    requires Stepable(c.adapter, deltas) && Average(deltas).Ok?
    requires i < |SortedKeys(c.adapter.Keys)| && SortedKeys(c.adapter.Keys)[i] !in Average(deltas).value
    requires forall k :: 0 <= k < i ==> SortedKeys(c.adapter.Keys)[k] in Average(deltas).value
    ensures OuterStep(c, deltas, rate, momentum) == Err(DeltaMissing(SortedKeys(c.adapter.Keys)[i]))
  {
    FirstMissing(SortedKeys(c.adapter.Keys), c.adapter.Keys, Average(deltas).value.Keys, i);
  }

  /** The loop of the outer step, one pass over the adapter's names; it stops at the first one without a delta. */
  method StepTensors(c: Canonical, mean: Named, rate: real, momentum: real, names: seq<string>)
    returns (steps: nat, velocity: Named, updated: Named)
    requires Compatible(c.adapter, mean) && forall k :: 0 <= k < |names| ==> names[k] in c.adapter
    ensures steps <= |names| && (steps < |names| ==> names[steps] !in mean)
    ensures forall k :: 0 <= k < steps ==> names[k] in mean
    ensures forall name :: name in velocity <==> name in names[..steps]
    ensures velocity.Keys == updated.Keys
    ensures forall name :: name in velocity ==> SteppedAt(c, mean, rate, momentum, name, velocity[name], updated[name])
  {
    velocity, updated := map[], map[];
    steps := 0;
    while steps < |names| && names[steps] in mean
      invariant steps <= |names|
      invariant forall k :: 0 <= k < steps ==> names[k] in mean
      invariant forall name :: name in velocity <==> name in names[..steps]
      invariant velocity.Keys == updated.Keys
      invariant forall name ::
                  name in velocity
                  ==> SteppedAt(c, mean, rate, momentum, name, velocity[name], updated[name])
    {
      var name := names[steps];
      var v, u := StepTensor(c, mean, rate, momentum, name);
      velocity, updated := velocity[name := v], updated[name := u];
      steps := steps + 1;
    }
  }

  method ApplyOuterStep(
    c: Canonical, deltas: seq<Named>, rate: real, momentum: real) returns (r: Result<Canonical, Failure>)
    requires Stepable(c.adapter, deltas)
    ensures r == OuterStep(c, deltas, rate, momentum)
  {
    var average := Average(deltas);
    if average.Err? {
      return Err(average.error);
    }
    assert Compatible(c.adapter, deltas[0]);
    var names := SortNames(c.adapter.Keys);
    var steps, velocity, updated := StepTensors(c, average.value, rate, momentum, names);
    if steps < |names| {
      FirstMissingFails(c, deltas, rate, momentum, steps);
      return Err(DeltaMissing(names[steps]));
    }
    assert names[..steps] == names;
    SteppedEverywhere(c, deltas, rate, momentum, velocity, updated);
    r := Ok(Canonical(updated, velocity));
  }

  // ---- Rounds

  /** A submitted delta and its norm as the coordinator computed it. */
  datatype Upload = Upload(delta: Named, norm: real)

  /** What delta validation guarantees: the adapter's names and shapes. */
  ghost predicate Admissible(u: Upload, adapter: Named) {
    SameLayout(adapter, u.delta) && IsNorm(u.norm, u.delta)
  }

  ghost predicate AllAdmissible(uploads: seq<Upload>, adapter: Named) {
    forall i :: 0 <= i < |uploads| ==> Admissible(uploads[i], adapter)
  }

  function Kept(uploads: seq<Upload>, clip: real): seq<Named> {
    seq(|uploads|, i requires 0 <= i < |uploads| => Clipped(uploads[i].delta, uploads[i].norm, clip))
  }

  lemma KeptIsStepable(uploads: seq<Upload>, adapter: Named, clip: real)
    requires AllAdmissible(uploads, adapter)
    ensures forall i :: 0 <= i < |uploads| ==> SameLayout(adapter, Kept(uploads, clip)[i])
    ensures Stepable(adapter, Kept(uploads, clip))
  {
    forall i | 0 <= i < |uploads| ensures SameLayout(adapter, Kept(uploads, clip)[i]) {
      assert Admissible(uploads[i], adapter);
    }
  }

  lemma KeptIsBounded(bounds: Bound, uploads: seq<Upload>, adapter: Named, clip: real)
    requires NormBound(bounds) && clip > 0.0 && AllAdmissible(uploads, adapter)
    requires forall i :: 0 <= i < |uploads| ==> bounds(uploads[i].delta, uploads[i].norm)
    ensures forall i :: 0 <= i < |uploads| ==> bounds(Kept(uploads, clip)[i], clip)
  {
    forall i | 0 <= i < |uploads| ensures bounds(Kept(uploads, clip)[i], clip) {
      ClippedIsBounded(bounds, uploads[i].delta, uploads[i].norm, clip);
    }
  }

  ghost function Round(c: Canonical, uploads: seq<Upload>, p: Policy): Result<Canonical, Failure>
    requires ValidPolicy(p) && AllAdmissible(uploads, c.adapter)
  {
    KeptIsStepable(uploads, c.adapter, p.clip);
    OuterStep(c, Kept(uploads, p.clip), p.rate, p.momentum)
  }

  /** The velocity the next step sees: zeros where the file has no matching tensor. */
  ghost function SeenVelocity(c: Canonical): (r: Named)
    ensures SameLayout(c.adapter, r)
  {
    map name | name in c.adapter :: Lookup(c.velocity, name, c.adapter[name].shape)
  }

  lemma MovedBy(base: Named, velocity: Named, rate: real)
    requires SameLayout(base, velocity)
    ensures SameLayout(base, Moved(base, velocity, rate))
    ensures MapMinus(Moved(base, velocity, rate), base) == MapScale(rate, velocity)
  {
    forall name | name in base
      ensures Minus(Add(base[name], Scale(rate, velocity[name])), base[name]) == Scale(rate, velocity[name])
    {
      TakeBack(base[name], Scale(rate, velocity[name]));
    }
  }

  lemma TakeBack(a: Tensor, b: Tensor)
    requires SameShape(a, b)
    ensures Minus(Add(a, b), a) == b
  {
    assert Minus(Add(a, b), a).data == b.data;
  }

  lemma VelocityIs(c: Canonical, mean: Named, momentum: real)
    requires SameLayout(c.adapter, mean)
    ensures SameLayout(c.adapter, Velocities(c.adapter, mean, c.velocity, momentum))
    ensures Velocities(c.adapter, mean, c.velocity, momentum) == MapAdd(MapScale(momentum, SeenVelocity(c)), mean)
  {
  }

  lemma VelocityIsSeen(c: Canonical)
    requires SameLayout(c.adapter, c.velocity)
    ensures SeenVelocity(c) == c.velocity
  {
  }

  lemma SameLayoutTrans(a: Named, b: Named, d: Named)
    requires SameLayout(a, b) && SameLayout(a, d)
    ensures SameLayout(b, d)
  {
  }

  ghost predicate AllLike(deltas: seq<Named>, like: Named) {
    forall i :: 0 <= i < |deltas| ==> SameLayout(like, deltas[i])
  }

  lemma StepOf(c: Canonical, deltas: seq<Named>, rate: real, momentum: real, mean: Named, velocity: Named)
    requires Stepable(c.adapter, deltas) && Average(deltas) == Ok(mean) && SameLayout(c.adapter, mean)
    requires velocity == Velocities(c.adapter, mean, c.velocity, momentum) && SameLayout(c.adapter, velocity)
    ensures OuterStep(c, deltas, rate, momentum) == Ok(Canonical(Moved(c.adapter, velocity, rate), velocity))
  {
    assert c.adapter.Keys - mean.Keys == {};
  }

  lemma AverageLayout(deltas: seq<Named>, like: Named)
    requires deltas != [] && like.Keys != {} && AllLike(deltas, like)
    ensures AllCompatible(deltas) && Average(deltas).Ok? && SameLayout(like, Average(deltas).value)
  {
    AverageIsMeanOfTotal(deltas, like);
  }

  lemma StepResult(c: Canonical, deltas: seq<Named>, rate: real, momentum: real) returns (mean: Named, velocity: Named)
    requires deltas != [] && c.adapter.Keys != {} && AllLike(deltas, c.adapter) && Stepable(c.adapter, deltas)
    ensures Average(deltas) == Ok(mean) && SameLayout(c.adapter, mean) && SameLayout(c.adapter, velocity)
    ensures velocity == MapAdd(MapScale(momentum, SeenVelocity(c)), mean)
    ensures OuterStep(c, deltas, rate, momentum) == Ok(Canonical(Moved(c.adapter, velocity, rate), velocity))
  {
    AverageLayout(deltas, c.adapter);
    mean := Average(deltas).value;
    VelocityIs(c, mean, momentum);
    velocity := Velocities(c.adapter, mean, c.velocity, momentum);
    StepOf(c, deltas, rate, momentum, mean, velocity);
  }

  /** The outer step is one momentum step on the mean of the deltas. */
  lemma StepMoves(c: Canonical, deltas: seq<Named>, rate: real, momentum: real) returns (mean: Named, next: Canonical)
    requires deltas != [] && c.adapter.Keys != {} && AllLike(deltas, c.adapter) && Stepable(c.adapter, deltas)
    ensures Average(deltas) == Ok(mean) && OuterStep(c, deltas, rate, momentum) == Ok(next)
    ensures SameLayout(c.adapter, mean) && SameLayout(c.adapter, next.adapter)
    ensures next.velocity == MapAdd(MapScale(momentum, SeenVelocity(c)), mean)
    ensures SameLayout(next.adapter, next.velocity) && SeenVelocity(next) == next.velocity
    ensures MapMinus(next.adapter, c.adapter) == MapScale(rate, next.velocity)
  {
    var velocity;
    mean, velocity := StepResult(c, deltas, rate, momentum);
    MovedBy(c.adapter, velocity, rate);
    next := Canonical(Moved(c.adapter, velocity, rate), velocity);
    SameLayoutTrans(c.adapter, next.adapter, velocity);
    VelocityIsSeen(next);
  }

  /** How one round may grow a bound on the velocity, and what step a velocity bound allows. */
  function Growth(p: Policy): real -> real {
    (v: real) => p.momentum * v + p.clip
  }

  function Stride(p: Policy): real -> real {
    (v: real) => p.rate * v
  }

  lemma VelocityBound(bounds: Bound, c: Canonical, mean: Named, p: Policy, before: real, after: real)
    requires NormBound(bounds) && p.momentum >= 0.0 && SameLayout(c.adapter, mean)
    requires bounds(SeenVelocity(c), before) && bounds(mean, p.clip) && after == Growth(p)(before)
    ensures bounds(MapAdd(MapScale(p.momentum, SeenVelocity(c)), mean), after)
  {
    ScaledWithin(bounds, p.momentum, SeenVelocity(c), before, p.momentum * before);
    SumWithin(bounds, MapScale(p.momentum, SeenVelocity(c)), mean, p.momentum * before, p.clip, after);
  }

  lemma StrideBound(bounds: Bound, p: Policy, m: Named, b: real)
    requires NormBound(bounds) && p.rate >= 0.0 && bounds(m, b)
    ensures bounds(MapScale(p.rate, m), Stride(p)(b))
  {
    ScaledWithin(bounds, p.rate, m, b, Stride(p)(b));
  }

  lemma StepBound(
    bounds: Bound, c: Canonical, deltas: seq<Named>, p: Policy, before: real, after: real) returns (next: Canonical)
    requires NormBound(bounds) && ValidPolicy(p) && deltas != [] && c.adapter.Keys != {}
    requires AllLike(deltas, c.adapter) && Stepable(c.adapter, deltas)
    requires forall i :: 0 <= i < |deltas| ==> bounds(deltas[i], p.clip)
    requires bounds(SeenVelocity(c), before) && after == Growth(p)(before)
    ensures OuterStep(c, deltas, p.rate, p.momentum) == Ok(next)
    ensures SameLayout(c.adapter, next.adapter) && bounds(SeenVelocity(next), after)
    ensures MapMinus(next.adapter, c.adapter) == MapScale(p.rate, SeenVelocity(next))
  {
    AverageIsBounded(bounds, deltas, c.adapter, p.clip);
    var mean;
    mean, next := StepMoves(c, deltas, p.rate, p.momentum);
    VelocityBound(bounds, c, mean, p, before, after);
  }

  ghost predicate AllBounded(bounds: Bound, uploads: seq<Upload>) {
    forall i :: 0 <= i < |uploads| ==> bounds(uploads[i].delta, uploads[i].norm)
  }

  /** Velocity at most `m * before + C`, and the adapter moves by the rate times the velocity. */
  lemma RoundBound(
    bounds: Bound, c: Canonical, uploads: seq<Upload>, p: Policy, before: real, after: real) returns (next: Canonical)
    requires NormBound(bounds) && ValidPolicy(p) && uploads != [] && c.adapter.Keys != {}
    requires AllAdmissible(uploads, c.adapter) && AllBounded(bounds, uploads)
    requires bounds(SeenVelocity(c), before) && after == Growth(p)(before)
    ensures Round(c, uploads, p) == Ok(next)
    ensures SameLayout(c.adapter, next.adapter) && bounds(SeenVelocity(next), after)
    ensures MapMinus(next.adapter, c.adapter) == MapScale(p.rate, SeenVelocity(next))
  {
    KeptIsStepable(uploads, c.adapter, p.clip);
    KeptIsBounded(bounds, uploads, c.adapter, p.clip);
    next := StepBound(bounds, c, Kept(uploads, p.clip), p, before, after);
  }

  // ---- Runs of rounds

  ghost function Run(c: Canonical, rounds: seq<seq<Upload>>, p: Policy): (r: Result<Canonical, Failure>)
    requires ValidPolicy(p) && forall k :: 0 <= k < |rounds| ==> AllAdmissible(rounds[k], c.adapter)
    ensures r.Ok? ==> SameLayout(c.adapter, r.value.adapter)
  {
    if rounds == [] then Ok(c)
    else
      var n := |rounds| - 1;
      var prefix := Run(c, rounds[..n], p);
      if prefix.Err? then prefix
      else
        SameAdmissible(rounds[n], c.adapter, prefix.value.adapter);
        RoundKeepsLayout(prefix.value, rounds[n], p);
        Round(prefix.value, rounds[n], p)
  }

  lemma SameAdmissible(uploads: seq<Upload>, a: Named, b: Named)
    requires SameLayout(a, b) && AllAdmissible(uploads, a)
    ensures AllAdmissible(uploads, b)
  {
    forall i | 0 <= i < |uploads| ensures Admissible(uploads[i], b) {
      assert Admissible(uploads[i], a);
    }
  }

  lemma RoundKeepsLayout(c: Canonical, uploads: seq<Upload>, p: Policy)
    requires ValidPolicy(p) && AllAdmissible(uploads, c.adapter)
    ensures Round(c, uploads, p).Ok? ==> SameLayout(c.adapter, Round(c, uploads, p).value.adapter)
  {
  }

  /** Largest velocity norm after `k` rounds from rest: C (1 + m + ... + m^(k-1)). */
  function Reach(growth: real -> real, k: nat): real {
    if k == 0 then 0.0 else growth(Reach(growth, k - 1))
  }

  /** Farthest the adapter can be after `k` rounds from rest. */
  function Travel(growth: real -> real, stride: real -> real, k: nat): real {
    if k == 0 then 0.0 else Travel(growth, stride, k - 1) + stride(Reach(growth, k))
  }

  /** The fixed point the velocity bound converges to. */
  predicate IsLimit(p: Policy, limit: real) {
    limit >= 0.0 && p.momentum * limit + p.clip == limit
  }

  lemma Terminal(p: Policy, limit: real)
    requires ValidPolicy(p) && limit == p.clip / (1.0 - p.momentum)
    ensures IsLimit(p, limit)
  {
    assert limit * (1.0 - p.momentum) == p.clip;
    if limit < 0.0 {
      MulMonotone(1.0 - p.momentum, limit, 0.0);
      assert false;
    }
  }

  lemma GrowthIsBounded(p: Policy, v: real, limit: real)
    requires ValidPolicy(p) && IsLimit(p, limit) && 0.0 <= v <= limit
    ensures 0.0 <= Growth(p)(v) <= limit
  {
    MulMonotone(p.momentum, v, limit);
    MulMonotone(p.momentum, 0.0, v);
    assert Growth(p)(v) == p.momentum * v + p.clip;
  }

  lemma {:induction false} ReachIsBounded(p: Policy, k: nat, limit: real)
    requires ValidPolicy(p) && IsLimit(p, limit)
    ensures 0.0 <= Reach(Growth(p), k) <= limit
  {
    if k > 0 {
      ReachIsBounded(p, k - 1, limit);
      GrowthIsBounded(p, Reach(Growth(p), k - 1), limit);
    }
  }

  lemma {:induction false} TravelIsBounded(p: Policy, k: nat, limit: real, step: real)
    requires ValidPolicy(p) && IsLimit(p, limit) && step == p.rate * limit
    ensures Travel(Growth(p), Stride(p), k) <= k as real * step
  {
    if k > 0 {
      TravelIsBounded(p, k - 1, limit, step);
      ReachIsBounded(p, k, limit);
      MulMonotone(p.rate, Reach(Growth(p), k), limit);
      assert k as real * step == (k - 1) as real * step + step;
    }
  }

  lemma StrideIsBounded(p: Policy, k: nat, limit: real, step: real)
    requires ValidPolicy(p) && IsLimit(p, limit) && step == p.rate * limit
    ensures Stride(p)(Reach(Growth(p), k)) <= step
  {
    ReachIsBounded(p, k, limit);
    MulMonotone(p.rate, Reach(Growth(p), k), limit);
  }

  lemma Displaced(a: Named, b: Named, d: Named)
    requires SameLayout(a, b) && SameLayout(b, d)
    ensures MapMinus(d, a) == MapAdd(MapMinus(b, a), MapMinus(d, b))
  {
    forall name | name in a ensures Minus(d[name], a[name]) == Add(Minus(b[name], a[name]), Minus(d[name], b[name])) {
      assert Minus(d[name], a[name]).data == Add(Minus(b[name], a[name]), Minus(d[name], b[name])).data;
    }
  }

  lemma NoDisplacement(a: Named)
    ensures AllZeros(MapMinus(a, a))
  {
    forall name | name in MapMinus(a, a) ensures MapMinus(a, a)[name] == Zeros(MapMinus(a, a)[name].shape) {
      assert Minus(a[name], a[name]).data == Zeros(a[name].shape).data;
    }
  }

  ghost predicate Playable(c: Canonical, rounds: seq<seq<Upload>>) {
    && c.adapter.Keys != {} && c.velocity == map[]
    && forall k :: 0 <= k < |rounds| ==> rounds[k] != [] && AllAdmissible(rounds[k], c.adapter)
  }

  /** The adapter, the velocity and the last step after a run, against three bounds. */
  ghost predicate RunWithin(
    bounds: Bound, c: Canonical, rounds: seq<seq<Upload>>, p: Policy, velocity: real, travel: real, step: real)
    requires ValidPolicy(p) && Playable(c, rounds)
  {
    && Run(c, rounds, p).Ok?
    && bounds(SeenVelocity(Run(c, rounds, p).value), velocity)
    && bounds(MapMinus(Run(c, rounds, p).value.adapter, c.adapter), travel)
    && (rounds != [] ==>
          && Run(c, rounds[..|rounds| - 1], p).Ok?
          && bounds(MapMinus(Run(c, rounds, p).value.adapter, Run(c, rounds[..|rounds| - 1], p).value.adapter), step))
  }

  /** Any round from any state obeys the two bounds. */
  ghost predicate RoundObeysAt(bounds: Bound, growth: real -> real, stride: real -> real, p: Policy,
                               c: Canonical, uploads: seq<Upload>, velocity: real)
    requires ValidPolicy(p)
  {
    && c.adapter.Keys != {} && uploads != [] && AllAdmissible(uploads, c.adapter) && AllBounded(bounds, uploads)
    && bounds(SeenVelocity(c), velocity)
    ==>
      && Round(c, uploads, p).Ok?
      && var next := Round(c, uploads, p).value;
         && SameLayout(c.adapter, next.adapter)
         && bounds(SeenVelocity(next), growth(velocity))
         && bounds(MapMinus(next.adapter, c.adapter), stride(growth(velocity)))
  }

  ghost predicate RoundsObey(bounds: Bound, growth: real -> real, stride: real -> real, p: Policy)
    requires ValidPolicy(p)
  {
    forall c, uploads, velocity :: RoundObeysAt(bounds, growth, stride, p, c, uploads, velocity)
  }

  lemma RoundObeys(bounds: Bound, p: Policy, c: Canonical, uploads: seq<Upload>, velocity: real)
    requires NormBound(bounds) && ValidPolicy(p)
    ensures RoundObeysAt(bounds, Growth(p), Stride(p), p, c, uploads, velocity)
  {
    if && c.adapter.Keys != {} && uploads != [] && AllAdmissible(uploads, c.adapter) && AllBounded(bounds, uploads)
       && bounds(SeenVelocity(c), velocity)
    {
      var after := Growth(p)(velocity);
      var next := RoundBound(bounds, c, uploads, p, velocity, after);
      StrideBound(bounds, p, SeenVelocity(next), after);
    }
  }

  /** From rest, no round fails, and both norms follow the geometric series. */
  lemma {:induction false} RunBound(bounds: Bound, growth: real -> real, stride: real -> real,
                                    c: Canonical, rounds: seq<seq<Upload>>, p: Policy)
    requires NormBound(bounds) && ValidPolicy(p) && RoundsObey(bounds, growth, stride, p) && Playable(c, rounds)
    requires forall k :: 0 <= k < |rounds| ==> AllBounded(bounds, rounds[k])
    ensures RunWithin(bounds, c, rounds, p, Reach(growth, |rounds|), Travel(growth, stride, |rounds|),
            stride(Reach(growth, |rounds|)))
  {
    if rounds == [] {
      ZerosBounded(bounds, SeenVelocity(c));
      NoDisplacement(c.adapter);
      ZerosBounded(bounds, MapMinus(c.adapter, c.adapter));
    } else {
      var n := |rounds| - 1;
      RunBound(bounds, growth, stride, c, rounds[..n], p);
      var before := Run(c, rounds[..n], p).value;
      SameAdmissible(rounds[n], c.adapter, before.adapter);
      assert RoundObeysAt(bounds, growth, stride, p, before, rounds[n], Reach(growth, n));
      var last := Round(before, rounds[n], p).value;
      assert Run(c, rounds, p) == Ok(last);
      Displaced(c.adapter, before.adapter, last.adapter);
      SumWithin(bounds, MapMinus(before.adapter, c.adapter), MapMinus(last.adapter, before.adapter),
                Travel(growth, stride, n), stride(Reach(growth, n + 1)), Travel(growth, stride, n + 1));
    }
  }

  lemma RunLoosens(
    bounds: Bound, c: Canonical, rounds: seq<seq<Upload>>, p: Policy,
    velocity: real, travel: real, step: real, velocity': real, travel': real, step': real)
    requires NormBound(bounds) && ValidPolicy(p) && Playable(c, rounds)
    requires RunWithin(bounds, c, rounds, p, velocity, travel, step)
    requires velocity <= velocity' && travel <= travel' && step <= step'
    ensures RunWithin(bounds, c, rounds, p, velocity', travel', step')
  {
    var last := Run(c, rounds, p).value;
    LooserBound(bounds, SeenVelocity(last), velocity, velocity');
    LooserBound(bounds, MapMinus(last.adapter, c.adapter), travel, travel');
    if rounds != [] {
      LooserBound(bounds, MapMinus(last.adapter, Run(c, rounds[..|rounds| - 1], p).value.adapter), step, step');
    }
  }

  lemma RunBoundLoosens(
    bounds: Bound, growth: real -> real, stride: real -> real, c: Canonical, rounds: seq<seq<Upload>>, p: Policy,
    velocity: real, travel: real, step: real)
    requires NormBound(bounds) && ValidPolicy(p) && RoundsObey(bounds, growth, stride, p) && Playable(c, rounds)
    requires forall k :: 0 <= k < |rounds| ==> AllBounded(bounds, rounds[k])
    requires Reach(growth, |rounds|) <= velocity && Travel(growth, stride, |rounds|) <= travel
    requires stride(Reach(growth, |rounds|)) <= step
    ensures RunWithin(bounds, c, rounds, p, velocity, travel, step)
  {
    var n := |rounds|;
    RunBound(bounds, growth, stride, c, rounds, p);
    RunLoosens(bounds, c, rounds, p, Reach(growth, n), Travel(growth, stride, n), stride(Reach(growth, n)), velocity,
      travel, step);
  }

  lemma RunDrift(bounds: Bound, c: Canonical, rounds: seq<seq<Upload>>, p: Policy, limit: real, step: real, total: real)
    requires NormBound(bounds) && ValidPolicy(p) && Playable(c, rounds) && IsLimit(p, limit)
    requires step == p.rate * limit && total == |rounds| as real * step
    requires forall k :: 0 <= k < |rounds| ==> AllBounded(bounds, rounds[k])
    ensures RunWithin(bounds, c, rounds, p, limit, total, step)
  {
    var n := |rounds|;
    forall d, uploads, velocity ensures RoundObeysAt(bounds, Growth(p), Stride(p), p, d, uploads, velocity) {
      RoundObeys(bounds, p, d, uploads, velocity);
    }
    ReachIsBounded(p, n, limit);
    TravelIsBounded(p, n, limit, step);
    StrideIsBounded(p, n, limit, step);
    RunBoundLoosens(bounds, Growth(p), Stride(p), c, rounds, p, limit, total, step);
  }

  /**
   The drift bound. After any R rounds: velocity at most C/(1-m), the last step at
   most rC/(1-m), and the whole way at most RrC/(1-m).
   */
  lemma DriftBound(c: Canonical, rounds: seq<seq<Upload>>, p: Policy, limit: real)
    requires ValidPolicy(p) && Playable(c, rounds) && limit == p.clip / (1.0 - p.momentum)
    ensures Run(c, rounds, p).Ok?
    ensures L2()(SeenVelocity(Run(c, rounds, p).value), limit)
    ensures L2()(MapMinus(Run(c, rounds, p).value.adapter, c.adapter), |rounds| as real * (p.rate * limit))
    ensures rounds != [] ==>
              && Run(c, rounds[..|rounds| - 1], p).Ok?
              && L2()(MapMinus(Run(c, rounds, p).value.adapter, Run(c, rounds[..|rounds| - 1], p).value.adapter),
                 p.rate * limit)
  {
    L2IsANormBound();
    Terminal(p, limit);
    forall k | 0 <= k < |rounds| ensures AllBounded(L2(), rounds[k]) {
      UploadsBounded(rounds[k], c.adapter);
    }
    RunDrift(L2(), c, rounds, p, limit, p.rate * limit, |rounds| as real * (p.rate * limit));
  }

  lemma UploadsBounded(uploads: seq<Upload>, adapter: Named)
    requires AllAdmissible(uploads, adapter)
    ensures AllBounded(L2(), uploads)
  {
    forall i | 0 <= i < |uploads| ensures L2()(uploads[i].delta, uploads[i].norm) {
      assert Admissible(uploads[i], adapter);
    }
  }
}
