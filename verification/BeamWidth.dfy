/**
 What a width-limited beam keeps and what it drops: a beam that was cut stays
 full to the end, its states stay distinct, and states that come first in the
 order are the last to be dropped.
 */
module BeamWidth {
  import opened Order
  import opened Beam
  import opened Wrappers

  // ---- Premises shared by the lemmas below

  /** `inv` holds of the start and of every extension before level `n`. */
  ghost predicate Kept<S(!new)>(extend: S -> seq<S>, start: S, inv: (S, nat) -> bool, n: nat) {
    inv(start, 0) && forall st, i: nat, x :: i < n && inv(st, i) && x in extend(st) ==> inv(x, i + 1)
  }

  ghost predicate Extensible<S(!new)>(extend: S -> seq<S>, inv: (S, nat) -> bool, n: nat) {
    forall st, i: nat :: i < n && inv(st, i) ==> extend(st) != []
  }

  // ---- Once cut, always full

  lemma {:induction false} ExpandGrows<S>(extend: S -> seq<S>, states: seq<S>)
    requires forall st :: st in states ==> extend(st) != []
    ensures |Expand(extend, states)| >= |states|
  {
    if states != [] {
      assert states[|states| - 1] in states;
      ExpandGrows(extend, states[..|states| - 1]);
    }
  }

  lemma NextSize<S(!new)>(extend: S -> seq<S>, less: (S, S) -> bool, width: nat, states: seq<S>)
    ensures var all := |Expand(extend, states)|;
            |Next(extend, less, width, states)| == if all <= width then all else width
  {
    SortMembers(less, Expand(extend, states));
  }

  lemma {:induction false} FullStaysFull<S(!new)>(
    extend: S -> seq<S>, less: (S, S) -> bool, width: nat, start: S, inv: (S, nat) -> bool, n: nat, k: nat, j: nat)
    requires width >= 1 && k <= j <= n && Kept(extend, start, inv, n) && Extensible(extend, inv, n)
    requires |Level(extend, less, width, start, k)| == width
    ensures |Level(extend, less, width, start, j)| == width
    decreases j
  {
    if k < j {
      var before := Level(extend, less, width, start, j - 1);
      FullStaysFull(extend, less, width, start, inv, n, k, j - 1);
      LevelInvariant(extend, less, width, start, inv, n, j - 1);
      ExpandGrows(extend, before);
      NextSize(extend, less, width, before);
    }
  }

  /** A beam that ends with room to spare was never cut. */
  lemma RoomMeansUncut<S(!new)>(
    extend: S -> seq<S>, less: (S, S) -> bool, width: nat, start: S, inv: (S, nat) -> bool, n: nat)
    requires width >= 1 && Kept(extend, start, inv, n) && Extensible(extend, inv, n)
    requires |Level(extend, less, width, start, n)| < width
    ensures NeverCut(extend, less, width, start, n)
  {
    forall k: nat | k < n ensures |Expand(extend, Level(extend, less, width, start, k))| <= width {
      NextSize(extend, less, width, Level(extend, less, width, start, k));
      if |Level(extend, less, width, start, k + 1)| == width {
        FullStaysFull(extend, less, width, start, inv, n, k + 1, n);
      }
    }
  }

  lemma LevelSize<S(!new)>(extend: S -> seq<S>, less: (S, S) -> bool, width: nat, start: S, k: nat)
    requires width >= 1
    ensures |Level(extend, less, width, start, k)| <= width
  {
    if k > 0 {
      NextSize(extend, less, width, Level(extend, less, width, start, k - 1));
    }
  }

  // ---- The states of a level are distinct

  /** Different states have different extensions, and one state never has the same extension twice. */
  ghost predicate Separate<S(!new)>(extend: S -> seq<S>, inv: (S, nat) -> bool, n: nat) {
    && (forall st, i: nat :: i < n && inv(st, i) ==> Distinct(extend(st)))
    && (forall s, t, i: nat, x :: i < n && inv(s, i) && inv(t, i) && x in extend(s) && x in extend(t) ==> s == t)
  }

  lemma DistinctConcat<S>(a: seq<S>, b: seq<S>)
    requires Distinct(a) && Distinct(b) && forall x :: x in a ==> x !in b
    ensures Distinct(a + b)
  {
    var c := a + b;
    forall i, j | 0 <= i < j < |c| ensures c[i] != c[j] {
      if i < |a| <= j {
        assert a[i] in a && b[j - |a|] in b;
      }
    }
  }

  lemma {:induction false} ExpandDistinct<S(!new)>(
    extend: S -> seq<S>, states: seq<S>, inv: (S, nat) -> bool, n: nat, i: nat)
    requires Distinct(states) && i < n && Separate(extend, inv, n) && forall st :: st in states ==> inv(st, i)
    ensures Distinct(Expand(extend, states))
  {
    if states != [] {
      var k := |states| - 1;
      var front, more := Expand(extend, states[..k]), extend(states[k]);
      ExpandDistinct(extend, states[..k], inv, n, i);
      ExpandIsExact(extend, states[..k]);
      assert states[k] in states;
      forall x | x in front ensures x !in more {
        var st :| st in states[..k] && x in extend(st);
        assert st in states && st != states[k];
      }
      DistinctConcat(front, more);
    }
  }

  lemma {:induction false} InsertDistinct<S(!new)>(less: (S, S) -> bool, st: S, states: seq<S>)
    requires Distinct(states) && st !in states
    ensures Distinct(Insert(less, st, states))
  {
    if states != [] && !less(st, states[0]) {
      var rest := Insert(less, st, states[1..]);
      InsertDistinct(less, st, states[1..]);
      InsertMembers(less, st, states[1..]);
      forall j | 0 <= j < |rest| ensures rest[j] != states[0] {
        assert rest[j] in multiset(rest);
      }
    }
  }

  lemma {:induction false} SortDistinct<S(!new)>(less: (S, S) -> bool, states: seq<S>)
    requires Distinct(states)
    ensures Distinct(Sort(less, states))
  {
    if states != [] {
      var k := |states| - 1;
      SortDistinct(less, states[..k]);
      SortMembers(less, states[..k]);
      InsertDistinct(less, states[k], Sort(less, states[..k]));
    }
  }

  lemma {:induction false} LevelDistinct<S(!new)>(
    extend: S -> seq<S>, less: (S, S) -> bool, width: nat, start: S, inv: (S, nat) -> bool, n: nat, k: nat)
    requires width >= 1 && k <= n && Kept(extend, start, inv, n) && Separate(extend, inv, n)
    ensures Distinct(Level(extend, less, width, start, k))
  {
    if k > 0 {
      var before := Level(extend, less, width, start, k - 1);
      LevelDistinct(extend, less, width, start, inv, n, k - 1);
      LevelInvariant(extend, less, width, start, inv, n, k - 1);
      ExpandDistinct(extend, before, inv, n, k - 1);
      SortDistinct(less, Expand(extend, before));
    }
  }

  // ---- States that come first are kept first

  /** How many of the states are marked. */
  ghost function Count<S>(mark: S -> bool, s: seq<S>): nat {
    if s == [] then 0 else (if mark(s[0]) then 1 else 0) + Count(mark, s[1..])
  }

  lemma {:induction false} CountConcat<S>(mark: S -> bool, a: seq<S>, b: seq<S>)
    ensures Count(mark, a + b) == Count(mark, a) + Count(mark, b)
  {
    if a == [] {
      assert a + b == b;
    } else {
      assert (a + b)[1..] == a[1..] + b;
      CountConcat(mark, a[1..], b);
    }
  }

  lemma {:induction false} CountBounds<S>(mark: S -> bool, s: seq<S>)
    ensures Count(mark, s) <= |s|
    ensures (exists x :: x in s && mark(x)) <==> Count(mark, s) > 0
  {
    if s != [] {
      CountBounds(mark, s[1..]);
      assert s == [s[0]] + s[1..];
    }
  }

  lemma {:induction false} CountInsert<S>(mark: S -> bool, less: (S, S) -> bool, st: S, states: seq<S>)
    ensures Count(mark, Insert(less, st, states)) == Count(mark, states) + (if mark(st) then 1 else 0)
  {
    if states == [] || less(st, states[0]) {
      assert ([st] + states)[1..] == states;
    } else {
      var rest := Insert(less, st, states[1..]);
      CountInsert(mark, less, st, states[1..]);
      assert ([states[0]] + rest)[1..] == rest;
    }
  }

  lemma {:induction false} CountSort<S>(mark: S -> bool, less: (S, S) -> bool, states: seq<S>)
    ensures Count(mark, Sort(less, states)) == Count(mark, states)
  {
    if states != [] {
      var k := |states| - 1;
      CountSort(mark, less, states[..k]);
      CountInsert(mark, less, states[k], Sort(less, states[..k]));
      CountConcat(mark, states[..k], [states[k]]);
      assert states == states[..k] + [states[k]] && [states[k]][1..] == [];
    }
  }

  /** Marked states are strictly before unmarked ones. */
  ghost predicate Leads<S>(mark: S -> bool, less: (S, S) -> bool, s: seq<S>) {
    forall x, y :: x in s && y in s && mark(x) && !mark(y) ==> less(x, y)
  }

  /** In order, the marked states are exactly the first ones. */
  lemma {:induction false} MarkedComeFirst<S>(mark: S -> bool, less: (S, S) -> bool, s: seq<S>)
    requires Ascending(less, s) && Leads(mark, less, s)
    ensures forall i :: 0 <= i < |s| ==> (mark(s[i]) <==> i < Count(mark, s))
  {
    if s != [] {
      var rest := s[1..];
      MarkedComeFirst(mark, less, rest);
      CountBounds(mark, rest);
      if !mark(s[0]) {
        forall i | 0 <= i < |rest| ensures !mark(rest[i]) {
          assert !less(s[i + 1], s[0]);
        }
      }
      forall i | 0 < i < |s| ensures mark(s[i]) <==> i < Count(mark, s) {
        assert s[i] == rest[i - 1];
      }
    }
  }

  lemma CutOfMarkedFirst<S>(mark: S -> bool, width: nat, sorted: seq<S>)
    requires forall i :: 0 <= i < |sorted| ==> (mark(sorted[i]) <==> i < Count(mark, sorted))
    requires Count(mark, sorted) <= |sorted|
    ensures if Count(mark, sorted) >= width
            then |Cut(width, sorted)| == width && forall x :: x in Cut(width, sorted) ==> mark(x)
            else forall x :: x in sorted && mark(x) ==> x in Cut(width, sorted)
  {
    forall x | x in sorted && mark(x) && Count(mark, sorted) < width ensures x in Cut(width, sorted) {
      var i :| 0 <= i < |sorted| && sorted[i] == x;
      assert Cut(width, sorted)[i] == x;
    }
  }

  /** Cutting drops unmarked states first. */
  lemma CutKeepsMarked<S(!new)>(
    mark: S -> bool, extend: S -> seq<S>, less: (S, S) -> bool, width: nat, states: seq<S>)
    requires StrictWeak(less) && Leads(mark, less, Expand(extend, states))
    ensures var all, next := Expand(extend, states), Next(extend, less, width, states);
            if Count(mark, all) >= width then |next| == width && forall x :: x in next ==> mark(x)
            else forall x :: x in all && mark(x) ==> x in next
  {
    var all := Expand(extend, states);
    var sorted := Sort(less, all);
    SortKeeps(less, all);
    SortMembers(less, all);
    CountSort(mark, less, all);
    CountBounds(mark, sorted);
    MarkedComeFirst(mark, less, sorted);
    CutOfMarkedFirst(mark, width, sorted);
  }

  lemma {:induction false} MarkedExtensionsCount<S(!new)>(mark: S -> bool, extend: S -> seq<S>, states: seq<S>)
    requires forall st :: st in states ==> exists x :: x in extend(st) && mark(x)
    ensures Count(mark, Expand(extend, states)) >= |states|
  {
    if states != [] {
      var k := |states| - 1;
      assert states[k] in states;
      MarkedExtensionsCount(mark, extend, states[..k]);
      CountBounds(mark, extend(states[k]));
      CountConcat(mark, Expand(extend, states[..k]), extend(states[k]));
    }
  }

  /** Marked states before level `n` have a marked extension, and go before the unmarked ones of their level. */
  ghost predicate Steers<S(!new)>(
    mark: S -> bool, extend: S -> seq<S>, less: (S, S) -> bool, inv: (S, nat) -> bool, n: nat)
  {
    && (forall st, i: nat :: i < n && inv(st, i) && mark(st) ==> exists x :: x in extend(st) && mark(x))
    && (forall x, y, i: nat :: i <= n && inv(x, i) && inv(y, i) && mark(x) && !mark(y) ==> less(x, y))
  }

  /** A path of marked states stays in the beam, unless marked states alone fill it. */
  lemma {:induction false} SteeredLevel<S(!new)>(
    mark: S -> bool, extend: S -> seq<S>, less: (S, S) -> bool, width: nat, start: S,
    inv: (S, nat) -> bool, n: nat, path: nat -> S, k: nat)
    requires width >= 1 && k <= n && StrictWeak(less) && Kept(extend, start, inv, n)
    requires Steers(mark, extend, less, inv, n)
    requires path(0) == start && forall i: nat :: i < n ==> path(i + 1) in extend(path(i))
    requires forall i: nat :: i <= n ==> mark(path(i))
    ensures var level := Level(extend, less, width, start, k);
            (|level| == width && forall x :: x in level ==> mark(x)) || path(k) in level
  {
    if k > 0 {
      var before := Level(extend, less, width, start, k - 1);
      var all := Expand(extend, before);
      SteeredLevel(mark, extend, less, width, start, inv, n, path, k - 1);
      LevelInvariant(extend, less, width, start, inv, n, k - 1);
      ExpandIsExact(extend, before);
      assert forall x :: x in all ==> inv(x, k);
      CutKeepsMarked(mark, extend, less, width, before);
      if Count(mark, all) < width {
        if path(k - 1) !in before {
          MarkedExtensionsCount(mark, extend, before);
        }
        assert path(k - 1 + 1) in extend(path(k - 1));
      }
    }
  }

  // ---- Counting distinct elements

  lemma {:induction false} DistinctFit<T>(s: seq<T>, t: set<T>)
    requires Distinct(s) && forall x :: x in s ==> x in t
    ensures |s| <= |t|
  {
    if s != [] {
      var k := |s| - 1;
      DistinctFit(s[..k], t - {s[k]});
    }
  }

  lemma {:induction false} ElementsFit<T>(s: seq<T>, t: set<T>)
    requires forall x :: x in t ==> x in s
    ensures |t| <= |s|
  {
    if s == [] {
      assert t == {};
    } else {
      var k := |s| - 1;
      forall x | x in t - {s[k]} ensures x in s[..k] {
        var i :| 0 <= i < |s| && s[i] == x;
        assert s[..k][i] == x;
      }
      ElementsFit(s[..k], t - {s[k]});
      assert |t| <= |t - {s[k]}| + 1;
    }
  }
}
