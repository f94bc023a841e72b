/** The outer step entry by entry, and its errors, in terms of the tensors that go in. */
module OuterRules {
  import opened Order
  import opened Tensors
  import opened OuterLoop
  import opened Wrappers

  // ---- Clipping

  /** Every entry is scaled by clip / norm when the norm is above the clip norm, and kept otherwise. */
  ghost predicate ClippedEntry(x: real, y: real, norm: real, clip: real) {
    if norm <= clip then y == x else y * (if norm > NORM_FLOOR then norm else NORM_FLOOR) == clip * x
  }

  lemma ScaledBack(x: real, norm: real, clip: real)
    requires norm > 0.0
    ensures clip / norm * x * norm == clip * x
  {
  }

  lemma ClippedExactly(delta: Named, norm: real, clip: real, name: string, i: nat)
    requires name in delta && i < |delta[name].data|
    ensures Clipped(delta, norm, clip).Keys == delta.Keys
    ensures Clipped(delta, norm, clip)[name].shape == delta[name].shape
    ensures ClippedEntry(delta[name].data[i], Clipped(delta, norm, clip)[name].data[i], norm, clip)
  {
    if norm > clip {
      var divisor := if norm > NORM_FLOOR then norm else NORM_FLOOR;
      ScaledBack(delta[name].data[i], divisor, clip);
      assert Clipped(delta, norm, clip)[name].data[i] == clip / divisor * delta[name].data[i];
    }
  }

  // ---- Averaging

  /** The sum of one entry over the first `n` deltas. */
  function EntrySum(deltas: seq<Named>, name: string, i: nat, n: nat): real
    requires n <= |deltas|
  {
    if n == 0 then 0.0
    else
      EntrySum(deltas, name, i, n - 1)
      + (if name in deltas[n - 1] && i < |deltas[n - 1][name].data| then deltas[n - 1][name].data[i] else 0.0)
  }

  /** All deltas have the names of the first, and there are some. */
  ghost predicate SameNames(deltas: seq<Named>)
    requires deltas != []
  {
    deltas[0] != map[] && forall k :: 0 <= k < |deltas| ==> deltas[k].Keys == deltas[0].Keys
  }

  lemma {:induction false} SumAtIs(values: seq<Named>, all: seq<Named>, name: string, shape: Shape, i: nat)
    requires |values| <= |all| && values == all[..|values|] && Carry(values, name, shape) && i < shape.numel
    ensures SumAt(values, name, shape).data[i] == EntrySum(all, name, i, |values|)
    decreases |values|
  {
    if values != [] {
      var k := |values| - 1;
      SumAtIs(values[..k], all, name, shape, i);
    }
  }

  lemma MeanTimesCount(sum: real, n: real)
    requires n > 0.0
    ensures 1.0 / n * sum * n == sum
  {
  }

  lemma AllCarry(deltas: seq<Named>, name: string)
    requires AllCompatible(deltas) && Average(deltas).Ok? && name in Average(deltas).value
    ensures name in deltas[0] && Carry(deltas, name, deltas[0][name].shape)
    ensures Average(deltas).value[name] == MeanAt(deltas, name, deltas[0][name].shape)
  {
    assert forall k :: 0 <= k < |deltas| ==> deltas[k].Keys == deltas[0].Keys && Compatible(deltas[0], deltas[k]);
    assert Average(deltas).value[name] == Mean(deltas, name);
  }

  lemma MeanAtEntry(deltas: seq<Named>, name: string, shape: Shape, i: nat)
    requires deltas != [] && Carry(deltas, name, shape) && i < shape.numel
    ensures MeanAt(deltas, name, shape).data[i] * |deltas| as real == EntrySum(deltas, name, i, |deltas|)
  {
    assert deltas == deltas[..|deltas|];
    SumAtIs(deltas, deltas, name, shape, i);
    MeanTimesCount(EntrySum(deltas, name, i, |deltas|), |deltas| as real);
  }

  lemma MeanEntry(deltas: seq<Named>, name: string, i: nat)
    requires AllCompatible(deltas) && Average(deltas).Ok? && name in Average(deltas).value
    requires i < |Average(deltas).value[name].data|
    ensures Average(deltas).value[name].data[i] * |deltas| as real == EntrySum(deltas, name, i, |deltas|)
  {
    AllCarry(deltas, name);
    MeanAtEntry(deltas, name, deltas[0][name].shape, i);
  }

  /** Which error the average ends in, and every entry of it otherwise. */
  lemma AverageExactly(deltas: seq<Named>)
    requires AllCompatible(deltas)
    ensures Average(deltas) == Err(NoDeltas) <==> deltas == []
    ensures Average(deltas) == Err(NamesMismatch) <==> deltas != [] && !SameNames(deltas)
    ensures deltas != [] && SameNames(deltas) ==>
              && Average(deltas).Ok? && Average(deltas).value.Keys == deltas[0].Keys
              && forall name :: name in deltas[0] ==>
                   && Average(deltas).value[name].shape == deltas[0][name].shape
                   && forall i :: 0 <= i < |deltas[0][name].data| ==>
                        Average(deltas).value[name].data[i] * |deltas| as real
                        == EntrySum(deltas, name, i, |deltas|)
  {
    if deltas != [] && SameNames(deltas) {
      assert deltas[0].Keys != {};
      forall name, i | name in deltas[0] && 0 <= i < |deltas[0][name].data|
        ensures Average(deltas).value[name].data[i] * |deltas| as real == EntrySum(deltas, name, i, |deltas|)
      {
        MeanEntry(deltas, name, i);
      }
    }
  }

  // ---- The step

  /** An entry of the velocity file, zero where it has no such tensor in that shape. */
  function VelocityEntry(c: Canonical, name: string, shape: Shape, i: nat): real {
    if name in c.velocity && c.velocity[name].shape == shape && i < |c.velocity[name].data|
    then c.velocity[name].data[i] else 0.0
  }

  /** Momentum times the old velocity plus the mean, and the adapter moved by the rate times that. */
  ghost predicate EntryMoves(
    c: Canonical, mean: Named, next: Canonical, rate: real, momentum: real, name: string, i: nat)
  {
    && name in c.adapter && name in mean && name in next.adapter && name in next.velocity
    && i < |c.adapter[name].data| == |mean[name].data| == |next.adapter[name].data| == |next.velocity[name].data|
    && next.velocity[name].data[i]
       == momentum * VelocityEntry(c, name, c.adapter[name].shape, i) + mean[name].data[i]
    && next.adapter[name].data[i] == c.adapter[name].data[i] + rate * next.velocity[name].data[i]
  }

  /** The step fails as the average does, or at the first name without a delta; otherwise it moves every entry. */
  lemma OuterStepExactly(c: Canonical, deltas: seq<Named>, rate: real, momentum: real)
    requires Stepable(c.adapter, deltas)
    ensures var r := OuterStep(c, deltas, rate, momentum);
            && (Average(deltas).Err? ==> r == Err(Average(deltas).error))
            && (Average(deltas).Ok? ==>
                  var mean := Average(deltas).value;
                  && (forall x :: r == Err(DeltaMissing(x)) <==> IsLeast(x, c.adapter.Keys - mean.Keys))
                  && (r.Ok? <==> c.adapter.Keys <= mean.Keys)
                  && (r.Ok? ==>
                        && r.value.adapter.Keys == r.value.velocity.Keys == c.adapter.Keys
                        && forall name, i :: name in c.adapter && 0 <= i < |c.adapter[name].data|
                                             ==> EntryMoves(c, mean, r.value, rate, momentum, name, i)))
  {
    if Average(deltas).Ok? {
      var mean := Average(deltas).value;
      var missing := c.adapter.Keys - mean.Keys;
      assert Compatible(c.adapter, deltas[0]);
      if missing != {} {
        forall x | IsLeast(x, missing) ensures x == SortedKeys(missing)[0] {
          LeastIsUnique(x, SortedKeys(missing)[0], missing);
        }
      } else {
        forall x ensures !IsLeast(x, missing) {
        }
        forall name | name in c.adapter ensures name in mean {
          assert name !in missing;
        }
        EveryEntryMoves(c, deltas, rate, momentum, mean);
      }
    }
  }

  lemma StepIs(c: Canonical, deltas: seq<Named>, rate: real, momentum: real, mean: Named)
    requires Stepable(c.adapter, deltas) && Average(deltas) == Ok(mean)
    requires c.adapter.Keys <= mean.Keys && Compatible(c.adapter, deltas[0])
    ensures var velocity := Velocities(c.adapter, mean, c.velocity, momentum);
            && SameLayout(c.adapter, velocity)
            && OuterStep(c, deltas, rate, momentum) == Ok(Canonical(Moved(c.adapter, velocity, rate), velocity))
  {
    assert c.adapter.Keys - mean.Keys == {};
  }

  lemma EveryEntryMoves(c: Canonical, deltas: seq<Named>, rate: real, momentum: real, mean: Named)
    requires Stepable(c.adapter, deltas) && Average(deltas) == Ok(mean)
    requires c.adapter.Keys <= mean.Keys && Compatible(c.adapter, deltas[0])
    ensures var r := OuterStep(c, deltas, rate, momentum);
            && r.Ok? && r.value.adapter.Keys == r.value.velocity.Keys == c.adapter.Keys
            && forall name, i :: name in c.adapter && 0 <= i < |c.adapter[name].data|
                                 ==> EntryMoves(c, mean, r.value, rate, momentum, name, i)
  {
    var r := OuterStep(c, deltas, rate, momentum);
    StepIs(c, deltas, rate, momentum, mean);
    forall name, i | name in c.adapter && 0 <= i < |c.adapter[name].data|
      ensures EntryMoves(c, mean, r.value, rate, momentum, name, i)
    {
      TensorMoves(c, mean, r.value, rate, momentum, name, i);
    }
  }

  lemma TensorMoves(c: Canonical, mean: Named, next: Canonical, rate: real, momentum: real, name: string, i: nat)
    requires name in c.adapter && name in mean && c.adapter.Keys <= mean.Keys
    requires SameShape(c.adapter[name], mean[name]) && i < |c.adapter[name].data|
    requires next.velocity == Velocities(c.adapter, mean, c.velocity, momentum)
    requires SameLayout(c.adapter, next.velocity) && next.adapter == Moved(c.adapter, next.velocity, rate)
    ensures EntryMoves(c, mean, next, rate, momentum, name, i)
  {
    var seen := Lookup(c.velocity, name, mean[name].shape);
    assert next.velocity[name] == NextVelocity(momentum, seen, mean[name]);
    assert next.velocity[name].data[i] == momentum * seen.data[i] + mean[name].data[i];
  }
}
