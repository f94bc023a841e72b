/** Splitting a model's layers into pipeline stages at half-even rounded boundaries. */
module Partition {
  import opened Arithmetic

  datatype StageSpec = StageSpec(
    id: nat,
    layerStart: int,
    layerEnd: int,
    ownsEmbedding: bool,
    ownsNorm: bool,
    ownsHead: bool)

  datatype Result = Ok(stages: seq<StageSpec>) | StageCountInvalid | EmptyStage

  /** The integer nearest to p/q, ties to the even one. */
  function HalfEven(p: int, q: int): int
    requires q >= 1
  {
    var d, r := p / q, p % q;
    if 2 * r < q || (2 * r == q && d % 2 == 0) then d else d + 1
  }

  function Boundary(layers: int, count: int, index: int): int
    requires count >= 1
  {
    HalfEven(index * layers, count)
  }

  function Boundaries(layers: int, count: nat): seq<int>
    requires count >= 1
  {
    seq(count + 1, index => Boundary(layers, count, index))
  }

  function StageAt(bounds: seq<int>, count: nat, index: nat): StageSpec
    requires index < count && |bounds| == count + 1
  {
    StageSpec(index, bounds[index], bounds[index + 1], index == 0, index == count - 1, index == count - 1)
  }

  function PartitionLayers(layers: int, count: int): Result {
    if count < 2 || count > layers then StageCountInvalid
    else
      var bounds := Boundaries(layers, count);
      if exists i :: 0 <= i < count && bounds[i + 1] <= bounds[i] then EmptyStage
      else Ok(seq(count, index requires 0 <= index < count => StageAt(bounds, count, index)))
  }

  /** Rounding moves a quotient by at most one half, and integers not at all. */
  lemma HalfEvenIsNear(p: int, q: int)
    requires q >= 1
    ensures -q <= 2 * (q * HalfEven(p, q) - p) <= q
    ensures p % q == 0 ==> q * HalfEven(p, q) == p
  {
    var d, r := p / q, p % q;
    assert p == q * d + r;
    assert q * (d + 1) == q * d + q;
  }

  lemma NoSmaller(n: int, a: int, b: int, slack: int)
    requires n >= 1 && n * a + slack >= n * b && slack < n
    ensures a >= b
  {
    assert n * b - n * a == (b - a) * n;
    if a < b {
      MulMonotone(1, b - a, n);
    }
  }

  lemma NearBoundaries(layers: int, n: int, i: int, size: int)
    requires n >= 1 && size == Boundary(layers, n, i + 1) - Boundary(layers, n, i)
    ensures layers - n <= n * size <= layers + n
  {
    var a, b := Boundary(layers, n, i), Boundary(layers, n, i + 1);
    HalfEvenIsNear(i * layers, n);
    HalfEvenIsNear((i + 1) * layers, n);
    assert (i + 1) * layers == i * layers + layers;
    assert n * size == n * b - n * a;
  }

  lemma ExactBoundaries(n: int, q: int, i: int, size: int)
    requires n >= 1 && size == Boundary(q * n, n, i + 1) - Boundary(q * n, n, i)
    ensures size == q
  {
    ExactBoundary(n, q, i);
    ExactBoundary(n, q, i + 1);
    assert (i + 1) * q == i * q + q;
  }

  lemma ExactBoundary(n: int, q: int, i: int)
    requires n >= 1
    ensures Boundary(q * n, n, i) == i * q
  {
    assert i * (q * n) == (i * q) * n;
    DivUnique(i * (q * n), n, i * q, 0);
  }

  lemma SizeBetween(n: int, q: int, r: int, size: int)
    requires n >= 1 && 0 < r < n && q * n + r - n <= n * size <= q * n + r + n
    ensures q <= size <= q + 1
  {
    assert n * (q + 1) == q * n + n && n * q == q * n;
    NoSmaller(n, size, q, n - r);
    NoSmaller(n, q + 1, size, r);
  }

  /** Consecutive boundaries are the floor or the ceiling of layers / count apart. */
  lemma StageSize(layers: int, count: int, i: int)
    requires count >= 1
    ensures var size, q := Boundary(layers, count, i + 1) - Boundary(layers, count, i), layers / count;
            size == q || (size == q + 1 && layers % count != 0)
  {
    var q, r := layers / count, layers % count;
    var size := Boundary(layers, count, i + 1) - Boundary(layers, count, i);
    assert layers == q * count + r;
    if r == 0 {
      ExactBoundaries(count, q, i, size);
    } else {
      NearBoundaries(layers, count, i, size);
      SizeBetween(count, q, r, size);
    }
  }

  lemma EndsAreExact(layers: int, count: int)
    requires count >= 1
    ensures Boundary(layers, count, 0) == 0 && Boundary(layers, count, count) == layers
  {
    DivUnique(0, count, 0, 0);
    assert count * layers == layers * count;
    DivUnique(count * layers, count, layers, 0);
  }

  lemma QuotientIsPositive(layers: int, count: int)
    requires 1 <= count <= layers
    ensures layers / count >= 1
  {
    var q, r := layers / count, layers % count;
    assert layers == q * count + r;
    QuotientNotSmall(q, count, r);
  }

  lemma QuotientNotSmall(q: int, count: nat, r: int)
    requires q * count + r >= count && r < count
    ensures q >= 1
  {
    if q <= 0 {
      MulMonotone(q, 0, count);
    }
  }

  /** Each layer of the model lies in exactly one stage. */
  ghost predicate Tiles(stages: seq<StageSpec>, layers: int) {
    && stages != [] && stages[0].layerStart == 0 && stages[|stages| - 1].layerEnd == layers
    && (forall i :: 0 <= i < |stages| ==> stages[i].layerStart < stages[i].layerEnd)
    && (forall i, j :: 0 <= i < |stages| && j == i + 1 < |stages| ==> stages[j].layerStart == stages[i].layerEnd)
  }

  /** A stage of the `index`-th part of `count`: its place, its layers and what it owns. */
  predicate Balanced(s: StageSpec, index: int, count: int, small: int, large: int) {
    && s.id == index && small <= s.layerEnd - s.layerStart <= large
    && s.ownsEmbedding == (index == 0) && s.ownsNorm == s.ownsHead == (index == count - 1)
  }

  lemma BoundsAscend(layers: int, count: int, i: int)
    requires 2 <= count <= layers && 0 <= i < count
    ensures Boundary(layers, count, i) < Boundary(layers, count, i + 1)
  {
    QuotientIsPositive(layers, count);
    StageSize(layers, count, i);
  }

  lemma NoEmptyStage(layers: int, count: int)
    requires 2 <= count <= layers
    ensures forall i :: 0 <= i < count ==> Boundaries(layers, count)[i] < Boundaries(layers, count)[i + 1]
  {
    forall i | 0 <= i < count ensures Boundaries(layers, count)[i] < Boundaries(layers, count)[i + 1] {
      BoundsAscend(layers, count, i);
    }
  }

  /** The empty-stage error is unreachable: a stage count is refused exactly when it is out of range. */
  lemma PartitionSucceeds(layers: int, count: int)
    ensures if 2 <= count <= layers then PartitionLayers(layers, count).Ok?
            else PartitionLayers(layers, count) == StageCountInvalid
  {
    if 2 <= count <= layers {
      NoEmptyStage(layers, count);
    }
  }

  /** The stages tile the layers, each with the floor or the ceiling of layers / count of them. */
  lemma PartitionIsBalanced(layers: int, count: int)
    requires 2 <= count <= layers
    ensures PartitionLayers(layers, count).Ok?
    ensures var stages := PartitionLayers(layers, count).stages;
            && |stages| == count && Tiles(stages, layers)
            && forall i :: 0 <= i < count ==>
                 Balanced(stages[i], i, count, layers / count, layers / count + (if layers % count == 0 then 0 else 1))
  {
    PartitionSucceeds(layers, count);
    NoEmptyStage(layers, count);
    EndsAreExact(layers, count);
    var bounds, stages := Boundaries(layers, count), PartitionLayers(layers, count).stages;
    forall i | 0 <= i < count
      ensures Balanced(stages[i], i, count, layers / count, layers / count + (if layers % count == 0 then 0 else 1))
    {
      assert stages[i] == StageAt(bounds, count, i);
      StageSize(layers, count, i);
    }
  }

  predicate Holds(s: StageSpec, layer: int) { s.layerStart <= layer < s.layerEnd }

  lemma {:induction false} StagesAscend(stages: seq<StageSpec>, layers: int, i: nat, j: nat)
    requires Tiles(stages, layers) && i < j < |stages|
    ensures stages[i].layerEnd <= stages[j].layerStart
    decreases j
  {
    if i + 1 < j {
      StagesAscend(stages, layers, i, j - 1);
    }
  }

  /** Tiling means that every layer has one stage and only one. */
  lemma LayerHasOneStage(stages: seq<StageSpec>, layers: int, layer: int)
    requires Tiles(stages, layers) && 0 <= layer < layers
    ensures exists i :: 0 <= i < |stages| && Holds(stages[i], layer)
    ensures forall i, j ::
              0 <= i < |stages| && 0 <= j < |stages| && Holds(stages[i], layer) && Holds(stages[j], layer)
              ==> i == j
  {
    FindStage(stages, layers, layer, |stages| - 1);
    forall i, j | 0 <= i < j < |stages| && Holds(stages[i], layer) ensures !Holds(stages[j], layer) {
      StagesAscend(stages, layers, i, j);
    }
  }

  lemma {:induction false} FindStage(stages: seq<StageSpec>, layers: int, layer: int, last: nat)
    requires Tiles(stages, layers) && last < |stages| && 0 <= layer < stages[last].layerEnd
    ensures exists i :: 0 <= i < |stages| && Holds(stages[i], layer)
    decreases last
  {
    if layer >= stages[last].layerStart {
      assert Holds(stages[last], layer);
    } else {
      FindStage(stages, layers, layer, last - 1);
    }
  }

  // ---- The boundaries

  /** Layer `b` is nearest to `index * layers / count`; of two, the even one. */
  predicate NearestLayer(layers: int, count: int, index: int, b: int) {
    && -count <= 2 * (count * b - index * layers) <= count
    && (2 * (count * b - index * layers) == count || 2 * (count * b - index * layers) == -count ==> b % 2 == 0)
  }

  lemma HalfEvenTies(p: int, q: int)
    requires q >= 1
    ensures 2 * (q * HalfEven(p, q) - p) == q || 2 * (q * HalfEven(p, q) - p) == -q ==> HalfEven(p, q) % 2 == 0
  {
    var d, r := p / q, p % q;
    assert p == q * d + r;
    assert q * (d + 1) == q * d + q;
  }

  lemma BoundaryIsNearest(layers: int, count: int, index: int)
    requires count >= 1
    ensures NearestLayer(layers, count, index, Boundary(layers, count, index))
  {
    HalfEvenIsNear(index * layers, count);
    HalfEvenTies(index * layers, count);
  }

  /** Stage `i` goes from the layer nearest to i / count of the model to the one nearest to (i + 1) / count. */
  lemma StagesAreNearest(layers: int, count: int, i: nat)
    requires 2 <= count <= layers && i < count
    ensures PartitionLayers(layers, count).Ok? && i < |PartitionLayers(layers, count).stages|
    ensures NearestLayer(layers, count, i, PartitionLayers(layers, count).stages[i].layerStart)
    ensures NearestLayer(layers, count, i + 1, PartitionLayers(layers, count).stages[i].layerEnd)
  {
    PartitionSucceeds(layers, count);
    BoundaryIsNearest(layers, count, i);
    BoundaryIsNearest(layers, count, i + 1);
    assert PartitionLayers(layers, count).stages[i] == StageAt(Boundaries(layers, count), count, i);
  }
}
