/** Named tensors over the reals, their element-wise arithmetic and their squared norm. */
module Tensors {
  import opened Order

  /** Dimensions, and the number of elements they make. */
  datatype Shape = Shape(dims: seq<nat>, numel: nat)

  datatype RawTensor = Dense(shape: Shape, data: seq<real>)

  type Tensor = t: RawTensor | |t.data| == t.shape.numel witness Dense(Shape([], 1), [0.0])

  type Named = map<string, Tensor>

  predicate SameShape(a: Tensor, b: Tensor) { a.shape == b.shape }

  function Zeros(shape: Shape): Tensor {
    Dense(shape, seq(shape.numel, i => 0.0))
  }

  function Add(a: Tensor, b: Tensor): Tensor
    requires SameShape(a, b)
  {
    Dense(a.shape, seq(|a.data|, i requires 0 <= i < |a.data| => a.data[i] + b.data[i]))
  }

  function Scale(c: real, t: Tensor): Tensor {
    Dense(t.shape, seq(|t.data|, i requires 0 <= i < |t.data| => c * t.data[i]))
  }

  function Minus(a: Tensor, b: Tensor): Tensor
    requires SameShape(a, b)
  {
    Dense(a.shape, seq(|a.data|, i requires 0 <= i < |a.data| => a.data[i] - b.data[i]))
  }

  /** `m[name]`, or zeros when it is absent or has another shape. */
  function Lookup(m: Named, name: string, shape: Shape): (t: Tensor)
    ensures t.shape == shape
  {
    if name in m && m[name].shape == shape then m[name] else Zeros(shape)
  }

  /** Same names, same shapes. */
  ghost predicate SameLayout(a: Named, b: Named) {
    a.Keys == b.Keys && forall name :: name in a ==> SameShape(a[name], b[name])
  }

  function MapScale(c: real, m: Named): Named {
    map name | name in m :: Scale(c, m[name])
  }

  function MapAdd(a: Named, b: Named): Named
    requires SameLayout(a, b)
  {
    map name | name in a :: Add(a[name], b[name])
  }

  function MapMinus(a: Named, b: Named): Named
    requires SameLayout(a, b)
  {
    map name | name in a :: Minus(a[name], b[name])
  }

  // ---- Sorted names

  ghost predicate IsLeast(k: string, keys: set<string>) {
    k in keys && forall j :: j in keys ==> j == k || StringLess(k, j)
  }

  lemma BetterOf(x: string, y: string, keys: set<string>)
    requires IsLeast(y, keys)
    ensures IsLeast(if StringLess(x, y) then x else y, keys + {x})
  {
    LexStrictTotal(CharLess);
    LexTotal(CharLess, x, y);
    forall j | j in keys && StringLess(x, y) && j != y ensures StringLess(x, j) {
      LexTransitive(CharLess, x, y, j);
    }
  }

  lemma {:induction false} HasLeast(keys: set<string>)
    requires keys != {}
    ensures exists k :: IsLeast(k, keys)
  {
    var x :| x in keys;
    if keys - {x} == {} {
      forall j | j in keys ensures j == x { assert j !in keys - {x}; }
      assert IsLeast(x, keys);
    } else {
      HasLeast(keys - {x});
      var y :| IsLeast(y, keys - {x});
      BetterOf(x, y, keys - {x});
      assert keys == keys - {x} + {x};
    }
  }

  lemma LeastIsUnique(a: string, b: string, keys: set<string>)
    requires IsLeast(a, keys) && IsLeast(b, keys)
    ensures a == b
  {
    StringLessStrictTotal();
  }

  ghost predicate Ascending(names: seq<string>) {
    forall i, j :: 0 <= i < j < |names| ==> StringLess(names[i], names[j])
  }

  /** The names of a map in the order the program visits them. */
  ghost function SortedKeys(keys: set<string>): (r: seq<string>)
    ensures forall k :: k in r <==> k in keys
    ensures keys != {} ==> r != [] && IsLeast(r[0], keys)
    ensures Ascending(r)
  {
    if keys == {} then []
    else
      HasLeast(keys);
      var k :| IsLeast(k, keys);
      [k] + SortedKeys(keys - {k})
  }

  method LeastOf(keys: set<string>) returns (k: string)
    requires keys != {}
    ensures IsLeast(k, keys)
  {
    k :| k in keys;
    var rest := keys - {k};
    while rest != {}
      invariant rest <= keys && IsLeast(k, keys - rest)
      decreases |rest|
    {
      var x :| x in rest;
      BetterOf(x, k, keys - rest);
      assert keys - (rest - {x}) == keys - rest + {x};
      if StringLess(x, k) {
        k := x;
      }
      rest := rest - {x};
    }
    assert keys - rest == keys;
  }

  method SortNames(keys: set<string>) returns (names: seq<string>)
    ensures names == SortedKeys(keys)
  {
    names := [];
    var rest := keys;
    while rest != {}
      invariant SortedKeys(keys) == names + SortedKeys(rest)
      decreases |rest|
    {
      var k := LeastOf(rest);
      forall j | IsLeast(j, rest) ensures j == k { LeastIsUnique(j, k, rest); }
      names := names + [k];
      rest := rest - {k};
    }
  }

  // ---- Squared norms

  function Sum(v: seq<real>): real {
    if v == [] then 0.0 else Sum(v[..|v| - 1]) + v[|v| - 1]
  }

  lemma {:induction false} SumNonNegative(v: seq<real>)
    requires forall i :: 0 <= i < |v| ==> v[i] >= 0.0
    ensures Sum(v) >= 0.0
  {
    if v != [] {
      SumNonNegative(v[..|v| - 1]);
    }
  }

  function Squares(v: seq<real>): seq<real> {
    seq(|v|, i requires 0 <= i < |v| => v[i] * v[i])
  }

  function Sq(v: seq<real>): (r: real)
    ensures r >= 0.0
  {
    SumNonNegative(Squares(v));
    Sum(Squares(v))
  }

  ghost function SquaredNorms(m: Named): seq<real> {
    var names := SortedKeys(m.Keys);
    seq(|names|, i requires 0 <= i < |names| => Sq(m[names[i]].data))
  }

  /** The square of `tensor_l2_norm`. */
  ghost function SqNorm(m: Named): (r: real)
    ensures r >= 0.0
  {
    SumNonNegative(SquaredNorms(m));
    Sum(SquaredNorms(m))
  }

  /** The norm of `m` is at most `bound`. */
  ghost predicate Within(m: Named, bound: real) {
    bound >= 0.0 && SqNorm(m) <= bound * bound
  }

  // ---- Sums of element-wise bounds

  /** A bound on squares that survives summation. */
  ghost predicate Superadditive(f: (real, real) -> real) {
    && f(0.0, 0.0) == 0.0
    && forall p, q, x, y :: Adds(f, p, q, x, y)
  }

  ghost predicate Adds(f: (real, real) -> real, p: real, q: real, x: real, y: real) {
    f(p, q) + f(x, y) <= f(p + x, q + y)
  }

  lemma {:induction false} SumBounded(v: seq<real>, w: seq<real>, s: seq<real>, f: (real, real) -> real)
    requires |v| == |w| == |s| && Superadditive(f)
    requires forall i :: 0 <= i < |s| ==> s[i] <= f(v[i], w[i])
    ensures Sum(s) <= f(Sum(v), Sum(w))
  {
    if v != [] {
      var k := |v| - 1;
      SumBounded(v[..k], w[..k], s[..k], f);
      assert s[k] <= f(v[k], w[k]);
      assert Adds(f, Sum(v[..k]), Sum(w[..k]), v[k], w[k]);
    }
  }

  function Mix(a: real, b: real): (real, real) -> real {
    (p: real, q: real) => a * p + b * q
  }

  lemma MixDistributes(a: real, b: real, p: real, q: real, x: real, y: real)
    ensures a * p + b * q + (a * x + b * y) == a * (p + x) + b * (q + y)
  {
  }

  lemma MixIsSuperadditive(a: real, b: real)
    ensures Superadditive(Mix(a, b))
  {
    var f := Mix(a, b);
    forall p, q, x, y ensures Adds(f, p, q, x, y) {
      MixDistributes(a, b, p, q, x, y);
    }
  }

  /** Element-wise and tensor-wise bounds add up to a bound on norms. */
  lemma SqNormBounded(v: Named, w: Named, s: Named, a: real, b: real)
    requires SameLayout(v, w) && SameLayout(v, s)
    requires forall name :: name in s ==> Sq(s[name].data) <= Mix(a, b)(Sq(v[name].data), Sq(w[name].data))
    ensures SqNorm(s) <= Mix(a, b)(SqNorm(v), SqNorm(w))
  {
    MixIsSuperadditive(a, b);
    SumBounded(SquaredNorms(v), SquaredNorms(w), SquaredNorms(s), Mix(a, b));
  }

  // ---- Norms scale, and satisfy the triangle inequality

  lemma MulMonotone(c: real, x: real, y: real)
    requires c >= 0.0 && x <= y
    ensures c * x <= c * y
  {
  }

  lemma SquareOfProduct(c: real, x: real)
    ensures c * c * (x * x) == (c * x) * (c * x)
  {
  }

  lemma ScaledTensor(c: real, t: Tensor)
    ensures Sq(Scale(c, t).data) <= Mix(c * c, 0.0)(Sq(t.data), Sq(t.data))
  {
    forall i | 0 <= i < |t.data|
      ensures Scale(c, t).data[i] * Scale(c, t).data[i] <= Mix(c * c, 0.0)(t.data[i] * t.data[i], t.data[i] * t.data[i])
    {
      SquareOfProduct(c, t.data[i]);
    }
    MixIsSuperadditive(c * c, 0.0);
    SumBounded(Squares(t.data), Squares(t.data), Squares(Scale(c, t).data), Mix(c * c, 0.0));
  }

  lemma SqNormScaled(c: real, m: Named)
    ensures SqNorm(MapScale(c, m)) <= Mix(c * c, 0.0)(SqNorm(m), SqNorm(m))
  {
    var s := MapScale(c, m);
    forall name | name in s ensures Sq(s[name].data) <= Mix(c * c, 0.0)(Sq(m[name].data), Sq(m[name].data)) {
      ScaledTensor(c, m[name]);
    }
    SqNormBounded(m, m, s, c * c, 0.0);
  }

  lemma ScaledBound(c: real, bound: real, n: real, s: real)
    requires n <= bound * bound && s <= Mix(c * c, 0.0)(n, n)
    ensures s <= (c * bound) * (c * bound)
  {
    MulMonotone(c * c, n, bound * bound);
    SquareOfProduct(c, bound);
  }

  lemma WithinScaled(c: real, m: Named, bound: real)
    requires c >= 0.0 && Within(m, bound)
    ensures Within(MapScale(c, m), c * bound)
  {
    SqNormScaled(c, m);
    ScaledBound(c, bound, SqNorm(m), SqNorm(MapScale(c, m)));
  }

  lemma DivideBy(d: real, x: real, y: real)
    requires d > 0.0 && d * x <= d * y
    ensures x <= y
  {
  }

  lemma CrossMultiplied(x: real, y: real, a: real, b: real)
    ensures a * b * ((x + y) * (x + y)) <= (a + b) * (b * (x * x) + a * (y * y))
  {
    assert (a + b) * (b * (x * x) + a * (y * y)) - a * b * ((x + y) * (x + y)) == (b * x - a * y) * (b * x - a * y);
  }

  lemma Weighted(a: real, b: real, p: real, q: real)
    requires a > 0.0 && b > 0.0
    ensures a * b * ((a + b) / a * p + (a + b) / b * q) == (a + b) * (b * p + a * q)
  {
    assert a * ((a + b) / a) == a + b && b * ((a + b) / b) == a + b;
    assert a * b * ((a + b) / a * p) == b * (a * ((a + b) / a)) * p;
    assert a * b * ((a + b) / b * q) == a * (b * ((a + b) / b)) * q;
  }

  lemma SummedElements(x: real, y: real, a: real, b: real)
    requires a > 0.0 && b > 0.0
    ensures (x + y) * (x + y) <= Mix((a + b) / a, (a + b) / b)(x * x, y * y)
  {
    CrossMultiplied(x, y, a, b);
    Weighted(a, b, x * x, y * y);
    DivideBy(a * b, (x + y) * (x + y), (a + b) / a * (x * x) + (a + b) / b * (y * y));
  }

  lemma SummedTensors(x: Tensor, y: Tensor, a: real, b: real)
    requires SameShape(x, y) && a > 0.0 && b > 0.0
    ensures Sq(Add(x, y).data) <= Mix((a + b) / a, (a + b) / b)(Sq(x.data), Sq(y.data))
  {
    var s := Add(x, y);
    forall i | 0 <= i < |x.data|
      ensures s.data[i] * s.data[i] <= Mix((a + b) / a, (a + b) / b)(x.data[i] * x.data[i], y.data[i] * y.data[i])
    {
      SummedElements(x.data[i], y.data[i], a, b);
    }
    MixIsSuperadditive((a + b) / a, (a + b) / b);
    SumBounded(Squares(x.data), Squares(y.data), Squares(s.data), Mix((a + b) / a, (a + b) / b));
  }

  lemma SqNormSummed(v: Named, w: Named, a: real, b: real)
    requires SameLayout(v, w) && a > 0.0 && b > 0.0
    ensures SqNorm(MapAdd(v, w)) <= Mix((a + b) / a, (a + b) / b)(SqNorm(v), SqNorm(w))
  {
    var s := MapAdd(v, w);
    forall name | name in s
      ensures Sq(s[name].data) <= Mix((a + b) / a, (a + b) / b)(Sq(v[name].data), Sq(w[name].data))
    {
      SummedTensors(v[name], w[name], a, b);
    }
    SqNormBounded(v, w, s, (a + b) / a, (a + b) / b);
  }

  lemma SquareOfSum(a: real, b: real)
    requires a > 0.0 && b > 0.0
    ensures (a + b) / a * (a * a) + (a + b) / b * (b * b) == (a + b) * (a + b)
  {
    assert (a + b) / a * a == a + b && (a + b) / b * b == a + b;
    assert (a + b) / a * (a * a) == (a + b) / a * a * a;
    assert (a + b) / b * (b * b) == (a + b) / b * b * b;
  }

  lemma ZeroFactor(x: real, y: real, product: real)
    requires x * y == product && product == 0.0 && y != 0.0
    ensures x == 0.0
  {
    assert x * y / y == x;
  }

  lemma {:induction false} NoPositivePart(v: seq<real>)
    requires Sum(v) <= 0.0 && forall i :: 0 <= i < |v| ==> v[i] >= 0.0
    ensures forall i :: 0 <= i < |v| ==> v[i] == 0.0
  {
    if v != [] {
      SumNonNegative(v[..|v| - 1]);
      NoPositivePart(v[..|v| - 1]);
    }
  }

  lemma AllZero(v: seq<real>)
    requires Sq(v) <= 0.0
    ensures forall i :: 0 <= i < |v| ==> v[i] == 0.0
  {
    NoPositivePart(Squares(v));
    forall i | 0 <= i < |v| ensures v[i] == 0.0 {
      if v[i] != 0.0 {
        ZeroFactor(v[i], v[i], Squares(v)[i]);
      }
    }
  }

  lemma NormZero(v: Named, name: string)
    requires SqNorm(v) <= 0.0 && name in v
    ensures forall i :: 0 <= i < |v[name].data| ==> v[name].data[i] == 0.0
  {
    NoPositivePart(SquaredNorms(v));
    var names := SortedKeys(v.Keys);
    var j :| 0 <= j < |names| && names[j] == name;
    assert SquaredNorms(v)[j] == 0.0;
    AllZero(v[name].data);
  }

  lemma AddZeroTensor(z: Tensor, t: Tensor)
    requires SameShape(z, t) && forall i :: 0 <= i < |z.data| ==> z.data[i] == 0.0
    ensures Add(z, t) == t && Add(t, z) == t
  {
    assert Add(z, t).data == t.data;
    assert Add(t, z).data == t.data;
  }

  /** Adding a map of norm zero changes nothing. */
  lemma AddZero(v: Named, w: Named)
    requires SameLayout(v, w) && SqNorm(v) <= 0.0
    ensures MapAdd(v, w) == w && MapAdd(w, v) == w
  {
    forall name | name in v ensures Add(v[name], w[name]) == w[name] && Add(w[name], v[name]) == w[name] {
      NormZero(v, name);
      AddZeroTensor(v[name], w[name]);
    }
  }

  lemma SummedBound(a: real, b: real, n: real, m: real, s: real)
    requires a > 0.0 && b > 0.0 && n <= a * a && m <= b * b
    requires s <= Mix((a + b) / a, (a + b) / b)(n, m)
    ensures s <= (a + b) * (a + b)
  {
    MulMonotone((a + b) / a, n, a * a);
    MulMonotone((a + b) / b, m, b * b);
    SquareOfSum(a, b);
  }

  lemma Triangle(v: Named, w: Named, a: real, b: real)
    requires SameLayout(v, w) && Within(v, a) && Within(w, b)
    ensures Within(MapAdd(v, w), a + b)
  {
    if a == 0.0 {
      AddZero(v, w);
    } else if b == 0.0 {
      AddZero(w, v);
    } else {
      SqNormSummed(v, w, a, b);
      SummedBound(a, b, SqNorm(v), SqNorm(w), SqNorm(MapAdd(v, w)));
    }
  }

  // ---- Norm bounds, seen from outside

  ghost predicate AllZeros(m: Named) {
    forall name :: name in m ==> m[name] == Zeros(m[name].shape)
  }

  lemma {:induction false} SumOfZeros(v: seq<real>)
    requires forall i :: 0 <= i < |v| ==> v[i] == 0.0
    ensures Sum(v) == 0.0
  {
    if v != [] {
      SumOfZeros(v[..|v| - 1]);
    }
  }

  lemma ZerosWithin(m: Named)
    requires AllZeros(m)
    ensures Within(m, 0.0)
  {
    forall name | name in m ensures Sq(m[name].data) == 0.0 {
      SumOfZeros(Squares(m[name].data));
    }
    SumOfZeros(SquaredNorms(m));
  }

  lemma WithinLarger(m: Named, small: real, large: real)
    requires Within(m, small) && small <= large
    ensures Within(m, large)
  {
    MulMonotone(small, small, large);
    MulMonotone(large, small, large);
  }

  type Bound = (Named, real) -> bool

  ghost predicate CoversAt(bounds: Bound, m: Named) {
    AllZeros(m) ==> bounds(m, 0.0)
  }

  ghost predicate LoosensAt(bounds: Bound, m: Named, a: real, b: real) {
    bounds(m, a) && a <= b ==> bounds(m, b)
  }

  ghost predicate ScalesAt(bounds: Bound, c: real, m: Named, b: real) {
    c >= 0.0 && bounds(m, b) ==> bounds(MapScale(c, m), c * b)
  }

  ghost predicate SumsAt(bounds: Bound, v: Named, w: Named, a: real, b: real) {
    SameLayout(v, w) && bounds(v, a) && bounds(w, b) ==> bounds(MapAdd(v, w), a + b)
  }

  /** What the outer loop needs of a bound on the norm: nothing about how norms are computed. */
  ghost predicate NormBound(bounds: Bound) {
    && (forall m :: CoversAt(bounds, m))
    && (forall m, a, b :: LoosensAt(bounds, m, a, b))
    && (forall c, m, b :: ScalesAt(bounds, c, m, b))
    && (forall v, w, a, b :: SumsAt(bounds, v, w, a, b))
  }

  lemma ScaledWithin(bounds: Bound, c: real, m: Named, b: real, r: real)
    requires NormBound(bounds) && c >= 0.0 && bounds(m, b) && r == c * b
    ensures bounds(MapScale(c, m), r)
  {
    assert ScalesAt(bounds, c, m, b);
  }

  lemma SumWithin(bounds: Bound, v: Named, w: Named, a: real, b: real, r: real)
    requires NormBound(bounds) && SameLayout(v, w) && bounds(v, a) && bounds(w, b) && r == a + b
    ensures bounds(MapAdd(v, w), r)
  {
    assert SumsAt(bounds, v, w, a, b);
  }

  lemma LooserBound(bounds: Bound, m: Named, a: real, b: real)
    requires NormBound(bounds) && bounds(m, a) && a <= b
    ensures bounds(m, b)
  {
    assert LoosensAt(bounds, m, a, b);
  }

  lemma ZerosBounded(bounds: Bound, m: Named)
    requires NormBound(bounds) && AllZeros(m)
    ensures bounds(m, 0.0)
  {
    assert CoversAt(bounds, m);
  }

  ghost function L2(): Bound {
    (m: Named, b: real) => Within(m, b)
  }

  lemma L2CoversAt(m: Named)
    ensures CoversAt(L2(), m)
  {
    if AllZeros(m) {
      ZerosWithin(m);
    }
  }

  lemma L2LoosensAt(m: Named, a: real, b: real)
    ensures LoosensAt(L2(), m, a, b)
  {
    if Within(m, a) && a <= b {
      WithinLarger(m, a, b);
    }
  }

  lemma L2ScalesAt(c: real, m: Named, b: real)
    ensures ScalesAt(L2(), c, m, b)
  {
    if c >= 0.0 && Within(m, b) {
      WithinScaled(c, m, b);
    }
  }

  lemma L2SumsAt(v: Named, w: Named, a: real, b: real)
    ensures SumsAt(L2(), v, w, a, b)
  {
    if SameLayout(v, w) && Within(v, a) && Within(w, b) {
      Triangle(v, w, a, b);
    }
  }

  lemma L2IsANormBound()
    ensures NormBound(L2())
  {
    forall m ensures CoversAt(L2(), m) { L2CoversAt(m); }
    forall m, a, b ensures LoosensAt(L2(), m, a, b) { L2LoosensAt(m, a, b); }
    forall c, m, b ensures ScalesAt(L2(), c, m, b) { L2ScalesAt(c, m, b); }
    forall v, w, a, b ensures SumsAt(L2(), v, w, a, b) { L2SumsAt(v, w, a, b); }
  }
}
