/** Checks on a request in their order: the first that fails decides how it is refused. */
module Hurdles {

  /** Whether the request passes, and what it is refused with if not. */
  datatype Hurdle<R> = Hurdle(passed: bool, refusal: R)

  ghost predicate AllPassed<R>(h: seq<Hurdle<R>>) { forall i :: 0 <= i < |h| ==> h[i].passed }

  /** Hurdle `k` is the first that is not passed. */
  ghost predicate StopsAt<R>(h: seq<Hurdle<R>>, k: nat) {
    k < |h| && !h[k].passed && forall i :: 0 <= i < k ==> h[i].passed
  }

  /** A request passes all hurdles, or is stopped at one. */
  lemma {:induction false} SomewhereStops<R>(h: seq<Hurdle<R>>)
    ensures AllPassed(h) || exists k :: StopsAt(h, k)
  {
    if h != [] {
      var n := |h| - 1;
      SomewhereStops(h[..n]);
      if AllPassed(h[..n]) {
        assert forall i :: 0 <= i < n ==> h[..n][i].passed;
        assert h[n].passed || StopsAt(h, n);
      } else {
        var k :| StopsAt(h[..n], k);
        assert forall i :: 0 <= i < k ==> h[..n][i].passed;
        assert StopsAt(h, k);
      }
    }
  }

  lemma StopsInConcat<R>(a: seq<Hurdle<R>>, b: seq<Hurdle<R>>, k: nat)
    ensures AllPassed(a + b) <==> AllPassed(a) && AllPassed(b)
    ensures StopsAt(a + b, k) ==>
              if k < |a| then StopsAt(a, k) && (a + b)[k] == a[k]
              else AllPassed(a) && StopsAt(b, k - |a|) && (a + b)[k] == b[k - |a|]
  {
    assert forall i :: 0 <= i < |b| ==> (a + b)[|a| + i] == b[i];
    if AllPassed(a + b) {
      forall i | 0 <= i < |a| ensures a[i].passed { assert (a + b)[i].passed; }
      forall i | 0 <= i < |b| ensures b[i].passed { assert (a + b)[|a| + i].passed; }
    }
    if StopsAt(a + b, k) {
      forall i | 0 <= i < |a| && i < k ensures a[i].passed { assert (a + b)[i].passed; }
      forall i | 0 <= i < k - |a| ensures b[i].passed { assert (a + b)[|a| + i].passed; }
    }
  }
}
