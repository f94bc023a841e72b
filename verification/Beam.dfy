/**
 A width-limited beam over any kind of state: each level extends the states of
 the level before, sorts the extensions and keeps the first `width`.
 */
module Beam {
  import opened Order

  ghost function Expand<S>(extend: S -> seq<S>, states: seq<S>): seq<S> {
    if states == [] then [] else Expand(extend, states[..|states| - 1]) + extend(states[|states| - 1])
  }

  lemma {:induction false} ExpandIsExact<S>(extend: S -> seq<S>, states: seq<S>)
    ensures forall x :: x in Expand(extend, states) <==> exists st :: st in states && x in extend(st)
  {
    if states != [] {
      ExpandIsExact(extend, states[..|states| - 1]);
      assert states == states[..|states| - 1] + [states[|states| - 1]];
    }
  }

  lemma {:induction false} ExpandOfNothing<S>(extend: S -> seq<S>, states: seq<S>)
    ensures Expand(extend, states) == [] ==> forall st :: st in states ==> extend(st) == []
  {
    if states != [] {
      ExpandOfNothing(extend, states[..|states| - 1]);
      assert states == states[..|states| - 1] + [states[|states| - 1]];
    }
  }

  ghost predicate Ascending<S>(less: (S, S) -> bool, states: seq<S>) {
    forall i, j :: 0 <= i < j < |states| ==> !less(states[j], states[i])
  }

  /** A strict order under which different states may tie. */
  ghost predicate StrictWeak<S(!new)>(less: (S, S) -> bool) {
    && (forall x :: !less(x, x))
    && (forall x, y, z :: less(x, y) && less(y, z) ==> less(x, z))
    && (forall x, y, z :: !less(x, y) && !less(y, z) ==> !less(x, z))
  }

  function Insert<S>(less: (S, S) -> bool, st: S, states: seq<S>): seq<S> {
    if states == [] || less(st, states[0]) then [st] + states
    else [states[0]] + Insert(less, st, states[1..])
  }

  /** The stable library sort. */
  function Sort<S>(less: (S, S) -> bool, states: seq<S>): seq<S> {
    if states == [] then [] else Insert(less, states[|states| - 1], Sort(less, states[..|states| - 1]))
  }

  lemma {:induction false} InsertMembers<S(!new)>(less: (S, S) -> bool, st: S, states: seq<S>)
    ensures multiset(Insert(less, st, states)) == multiset(states) + multiset{st}
  {
    if states != [] {
      assert states == [states[0]] + states[1..];
      if !less(st, states[0]) {
        InsertMembers(less, st, states[1..]);
      }
    }
  }

  /** Nothing inserted into the tail can go before its head. */
  lemma HeadStaysFirst<S(!new)>(less: (S, S) -> bool, st: S, states: seq<S>, x: S)
    requires StrictWeak(less) && Ascending(less, states) && states != [] && !less(st, states[0])
    requires x in Insert(less, st, states[1..])
    ensures !less(x, states[0])
  {
    InsertMembers(less, st, states[1..]);
    assert x in multiset(Insert(less, st, states[1..]));
    if x != st {
      var k :| 0 <= k < |states[1..]| && states[1..][k] == x;
      assert states[k + 1] == x;
    }
  }

  lemma {:induction false} InsertKeeps<S(!new)>(less: (S, S) -> bool, st: S, states: seq<S>)
    requires StrictWeak(less) && Ascending(less, states)
    ensures Ascending(less, Insert(less, st, states))
  {
    if states != [] && !less(st, states[0]) {
      var rest := Insert(less, st, states[1..]);
      InsertKeeps(less, st, states[1..]);
      forall j | 0 <= j < |rest| ensures !less(rest[j], states[0]) {
        HeadStaysFirst(less, st, states, rest[j]);
      }
    }
  }

  lemma {:induction false} SortKeeps<S(!new)>(less: (S, S) -> bool, states: seq<S>)
    ensures multiset(Sort(less, states)) == multiset(states)
    ensures StrictWeak(less) ==> Ascending(less, Sort(less, states))
  {
    if states != [] {
      var k := |states| - 1;
      SortKeeps(less, states[..k]);
      InsertMembers(less, states[k], Sort(less, states[..k]));
      if StrictWeak(less) {
        InsertKeeps(less, states[k], Sort(less, states[..k]));
      }
      assert states == states[..k] + [states[k]];
    }
  }

  lemma SortMembers<S(!new)>(less: (S, S) -> bool, states: seq<S>)
    ensures |Sort(less, states)| == |states|
    ensures forall x :: x in Sort(less, states) <==> x in states
  {
    SortKeeps(less, states);
    var r := Sort(less, states);
    assert |multiset(r)| == |r| && |multiset(states)| == |states|;
    forall x ensures x in r <==> x in states {
      assert (x in r <==> x in multiset(r)) && (x in states <==> x in multiset(states));
    }
  }

  function Cut<S>(width: nat, states: seq<S>): seq<S> {
    if |states| <= width then states else states[..width]
  }

  ghost function Next<S>(extend: S -> seq<S>, less: (S, S) -> bool, width: nat, states: seq<S>): seq<S> {
    Cut(width, Sort(less, Expand(extend, states)))
  }

  ghost function Level<S>(extend: S -> seq<S>, less: (S, S) -> bool, width: nat, start: S, k: nat): seq<S> {
    if k == 0 then [start] else Next(extend, less, width, Level(extend, less, width, start, k - 1))
  }

  lemma NextIsExact<S(!new)>(extend: S -> seq<S>, less: (S, S) -> bool, width: nat, states: seq<S>)
    requires width >= 1
    ensures forall x :: x in Next(extend, less, width, states) ==> exists st :: st in states && x in extend(st)
    ensures Next(extend, less, width, states) == [] ==> forall st :: st in states ==> extend(st) == []
    ensures |Expand(extend, states)| <= width
            ==> forall st, x :: st in states && x in extend(st) ==> x in Next(extend, less, width, states)
    ensures StrictWeak(less) ==> Ascending(less, Next(extend, less, width, states))
  {
    var all := Expand(extend, states);
    ExpandIsExact(extend, states);
    SortKeeps(less, all);
    SortMembers(less, all);
    forall x | x in Next(extend, less, width, states) ensures x in all {
      assert x in Sort(less, all);
    }
    ExpandOfNothing(extend, states);
  }

  /** What holds of the start and of every extension holds of every level. */
  lemma {:induction false} LevelInvariant<S(!new)>(
    extend: S -> seq<S>, less: (S, S) -> bool, width: nat, start: S, inv: (S, nat) -> bool, n: nat, k: nat)
    requires width >= 1 && k <= n && inv(start, 0)
    requires forall st, i: nat, x :: i < n && inv(st, i) && x in extend(st) ==> inv(x, i + 1)
    ensures forall st :: st in Level(extend, less, width, start, k) ==> inv(st, k)
  {
    if k > 0 {
      LevelInvariant(extend, less, width, start, inv, n, k - 1);
      NextIsExact(extend, less, width, Level(extend, less, width, start, k - 1));
    }
  }

  /** If kept states can always be extended, cutting never empties a level. */
  lemma {:induction false} LevelInhabited<S(!new)>(
    extend: S -> seq<S>, less: (S, S) -> bool, width: nat, start: S, inv: (S, nat) -> bool, n: nat, k: nat)
    requires width >= 1 && k <= n && inv(start, 0)
    requires forall st, i: nat, x :: i < n && inv(st, i) && x in extend(st) ==> inv(x, i + 1)
    requires forall st, i: nat :: i < n && inv(st, i) ==> extend(st) != []
    ensures Level(extend, less, width, start, k) != []
  {
    if k > 0 {
      var before := Level(extend, less, width, start, k - 1);
      LevelInhabited(extend, less, width, start, inv, n, k - 1);
      LevelInvariant(extend, less, width, start, inv, n, k - 1);
      NextIsExact(extend, less, width, before);
      assert before[0] in before;
    }
  }

  ghost predicate NeverCut<S>(extend: S -> seq<S>, less: (S, S) -> bool, width: nat, start: S, n: nat) {
    forall k: nat :: k < n ==> |Expand(extend, Level(extend, less, width, start, k))| <= width
  }

  /** An uncut beam contains every chain of extensions. */
  lemma {:induction false} UncutBeamIsExhaustive<S(!new)>(
    extend: S -> seq<S>, less: (S, S) -> bool, width: nat, start: S, n: nat, path: nat -> S, k: nat)
    requires width >= 1 && k <= n && NeverCut(extend, less, width, start, n)
    requires path(0) == start && forall i: nat :: i < n ==> path(i + 1) in extend(path(i))
    ensures path(k) in Level(extend, less, width, start, k)
  {
    if k > 0 {
      UncutBeamIsExhaustive(extend, less, width, start, n, path, k - 1);
      NextIsExact(extend, less, width, Level(extend, less, width, start, k - 1));
      assert path(k - 1 + 1) in extend(path(k - 1));
    }
  }

  lemma LevelAscends<S(!new)>(extend: S -> seq<S>, less: (S, S) -> bool, width: nat, start: S, k: nat)
    requires width >= 1 && StrictWeak(less)
    ensures Ascending(less, Level(extend, less, width, start, k))
  {
    if k > 0 {
      NextIsExact(extend, less, width, Level(extend, less, width, start, k - 1));
    }
  }

  lemma BarrenLevel<S>(extend: S -> seq<S>, less: (S, S) -> bool, width: nat, start: S)
    requires extend(start) == []
    ensures Level(extend, less, width, start, 1) == []
  {
    assert Level(extend, less, width, start, 0) == [start];
    assert Expand(extend, [start][..0]) == [];
    assert Expand(extend, [start]) == [];
  }

  /** A beam of width one keeps the lesser of two extensions and is cut. */
  lemma LevelOfTwo<S>(extend: S -> seq<S>, less: (S, S) -> bool, start: S, a: S, b: S)
    requires extend(start) == [a, b] && less(a, b) && !less(b, a)
    ensures Level(extend, less, 1, start, 1) == [a]
    ensures !NeverCut(extend, less, 1, start, 1)
  {
    assert Level(extend, less, 1, start, 0) == [start];
    assert Expand(extend, [start][..0]) == [];
    assert Expand(extend, [start]) == [a, b];
    assert [a, b][..1] == [a] && [a][..0] == [];
    assert Sort(less, [a]) == [a];
    assert Insert(less, b, [a][1..]) == [b];
    assert Sort(less, [a, b]) == [a, b];
  }
}
