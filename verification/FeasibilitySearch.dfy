/**
 The memoised backtracking test that asks whether the remaining stages can all
 still be placed. It branches on the stage with the fewest open devices and
 remembers the states it has refuted.
 */
module FeasibilitySearch {
  import opened Placement
  import opened Wrappers

  /** The indices below `n` that satisfy `keep`, in order. */
  function Select(n: nat, keep: nat -> bool): (r: seq<nat>) {
    if n == 0 then [] else Select(n - 1, keep) + (if keep(n - 1) then [n - 1] else [])
  }

  lemma {:induction false} SelectIsExact(n: nat, keep: nat -> bool)
    ensures forall d: nat :: d in Select(n, keep) <==> d < n && keep(d)
  {
    if n > 0 {
      SelectIsExact(n - 1, keep);
    }
  }

  /** The devices open to `stage`, in device order. */
  function OpenDevices(p: Problem, stage: nat, used: map<Key, nat>, counts: map<string, nat>): seq<nat>
    requires stage < |p.stages|
  {
    Select(|p.devices|, (d: nat) => d < |p.devices| && Open(p, stage, d, used, counts))
  }

  lemma OpenDevicesAreExact(p: Problem, stage: nat, used: map<Key, nat>, counts: map<string, nat>)
    requires stage < |p.stages|
    ensures forall d: nat ::
              d in OpenDevices(p, stage, used, counts)
              <==> d < |p.devices| && Open(p, stage, d, used, counts)
  {
    SelectIsExact(|p.devices|, (d: nat) => d < |p.devices| && Open(p, stage, d, used, counts));
  }

  /** Zero entries are dropped, so states that differ only in such entries share a key. */
  datatype StateKey = StateKey(remaining: seq<nat>, used: map<Key, nat>, counts: map<string, nat>)

  function KeyOf(remaining: seq<nat>, used: map<Key, nat>, counts: map<string, nat>): StateKey {
    StateKey(remaining, NonZero(used), NonZero(counts))
  }

  /** Equal keys mean equal answers: a remembered failure never hides a solution. */
  lemma EqualKeysEqualAnswers(
    p: Problem, remaining: seq<nat>, used: map<Key, nat>, counts: map<string, nat>, used': map<Key, nat>,
    counts': map<string, nat>)
    requires StagesOf(p, remaining)
    requires KeyOf(remaining, used, counts) == KeyOf(remaining, used', counts')
    ensures Feasible(p, remaining, used, counts) <==> Feasible(p, remaining, used', counts')
  {
    forall k ensures Get(used, k) == Get(used', k) { assert Get(NonZero(used), k) == Get(NonZero(used'), k); }
    forall m ensures Get(counts, m) == Get(counts', m) { assert Get(NonZero(counts), m) == Get(NonZero(counts'), m); }
    FeasibleReadsLookupsOnly(p, remaining, used, counts, used', counts');
  }

  /** A stage with no open device refutes the whole state. */
  lemma NoOpenDeviceMeansInfeasible(
    p: Problem, remaining: seq<nat>, i: nat, used: map<Key, nat>, counts: map<string, nat>)
    requires WellFormed(p) && StagesOf(p, remaining) && Distinct(remaining) && i < |remaining|
    requires OpenDevices(p, remaining[i], used, counts) == []
    ensures !Feasible(p, remaining, used, counts)
  {
    BranchingIsExact(p, remaining, i, used, counts);
    OpenDevicesAreExact(p, remaining[i], used, counts);
    forall d: nat ensures !FeasibleVia(p, remaining, i, used, counts, d) {
      assert d !in OpenDevices(p, remaining[i], used, counts);
    }
  }

  lemma OptionIsDevice(p: Problem, stage: nat, used: map<Key, nat>, counts: map<string, nat>, d: nat)
    requires stage < |p.stages| && d in OpenDevices(p, stage, used, counts)
    ensures d < |p.devices| && Open(p, stage, d, used, counts)
  {
    OpenDevicesAreExact(p, stage, used, counts);
  }

  lemma OptionWorks(p: Problem, remaining: seq<nat>, i: nat, used: map<Key, nat>, counts: map<string, nat>, d: nat)
    requires WellFormed(p) && StagesOf(p, remaining) && Distinct(remaining) && i < |remaining|
    requires FeasibleVia(p, remaining, i, used, counts, d)
    ensures Feasible(p, remaining, used, counts)
  {
    BranchingIsExact(p, remaining, i, used, counts);
  }

  lemma NoOptionWorks(
    p: Problem, remaining: seq<nat>, i: nat, used: map<Key, nat>, counts: map<string, nat>, options: seq<nat>)
    requires WellFormed(p) && StagesOf(p, remaining) && Distinct(remaining) && i < |remaining|
    requires options == OpenDevices(p, remaining[i], used, counts)
    requires forall j :: 0 <= j < |options| ==> !FeasibleVia(p, remaining, i, used, counts, options[j])
    ensures !Feasible(p, remaining, used, counts)
  {
    BranchingIsExact(p, remaining, i, used, counts);
    OpenDevicesAreExact(p, remaining[i], used, counts);
    forall d: nat ensures !FeasibleVia(p, remaining, i, used, counts, d) {
      if d < |p.devices| && Open(p, remaining[i], d, used, counts) {
        assert d in options;
      }
    }
  }

  /** Position of the stage with the fewest options; the smaller stage id wins a tie. */
  method MostConstrained(remaining: seq<nat>, options: seq<seq<nat>>) returns (best: nat)
    requires |remaining| == |options| && remaining != []
    ensures best < |options|
    ensures forall j :: 0 <= j < |options| ==>
              |options[best]| < |options[j]| || (|options[best]| == |options[j]| && remaining[best] <= remaining[j])
  {
    best := 0;
    for i := 1 to |options|
      invariant best < i
      invariant forall j :: 0 <= j < i ==>
                  |options[best]| < |options[j]| || (|options[best]| == |options[j]| && remaining[best] <= remaining[j])
    {
      if |options[i]| < |options[best]| || (|options[i]| == |options[best]| && remaining[i] < remaining[best]) {
        best := i;
      }
    }
  }

  class Search {
    const p: Problem
    var failed: set<StateKey>

    /** Every remembered state really is infeasible. */
    ghost predicate Valid()
      reads this
    {
      && WellFormed(p)
      && forall k :: k in failed ==> StagesOf(p, k.remaining) && !Feasible(p, k.remaining, k.used, k.counts)
    }

    constructor (p: Problem)
      requires WellFormed(p)
      ensures Valid() && this.p == p && failed == {}
    {
      this.p := p;
      failed := {};
    }

    method Remember(remaining: seq<nat>, used: map<Key, nat>, counts: map<string, nat>)
      requires Valid() && StagesOf(p, remaining) && !Feasible(p, remaining, used, counts)
      modifies this
      ensures Valid() && failed == old(failed) + {KeyOf(remaining, used, counts)}
    {
      FeasibleReadsLookupsOnly(p, remaining, used, counts, NonZero(used), NonZero(counts));
      failed := failed + {KeyOf(remaining, used, counts)};
    }

    /** The open devices of each remaining stage, up to the first stage that has none. */
    method OptionsOf(
      remaining: seq<nat>, used: map<Key, nat>, counts: map<string, nat>) returns (options: seq<seq<nat>>)
      requires StagesOf(p, remaining)
      ensures |options| <= |remaining|
      ensures forall j :: 0 <= j < |options| ==> options[j] == OpenDevices(p, remaining[j], used, counts)
      ensures |options| < |remaining| ==> OpenDevices(p, remaining[|options|], used, counts) == []
    {
      options := [];
      for i := 0 to |remaining|
        invariant |options| == i
        invariant forall j :: 0 <= j < i ==> options[j] == OpenDevices(p, remaining[j], used, counts)
      {
        var open := OpenDevices(p, remaining[i], used, counts);
        if open == [] {
          return;
        }
        options := options + [open];
      }
    }

    /** Decides feasibility exactly; refuted states only accumulate. */
    method Run(remaining: seq<nat>, used: map<Key, nat>, counts: map<string, nat>) returns (found: bool)
      requires Valid() && StagesOf(p, remaining) && Distinct(remaining)
      modifies this
      ensures Valid() && old(failed) <= failed
      ensures found <==> Feasible(p, remaining, used, counts)
      ensures !found ==> KeyOf(remaining, used, counts) in failed
      decreases |remaining|
    {
      if remaining == [] {
        assert Fits(p, remaining, used, counts, map[]);
        return true;
      }
      if KeyOf(remaining, used, counts) in failed {
        FeasibleReadsLookupsOnly(p, remaining, used, counts, NonZero(used), NonZero(counts));
        return false;
      }
      var options := OptionsOf(remaining, used, counts);
      if |options| < |remaining| {
        NoOpenDeviceMeansInfeasible(p, remaining, |options|, used, counts);
        Remember(remaining, used, counts);
        return false;
      }
      var i := MostConstrained(remaining, options);
      var rest := Without(remaining, i);
      RestIsWellFormed(remaining, i);
      for k := 0 to |options[i]|
        invariant Valid() && old(failed) <= failed
        invariant forall j :: 0 <= j < k ==> !FeasibleVia(p, remaining, i, used, counts, options[i][j])
      {
        var d := options[i][k];
        OptionIsDevice(p, remaining[i], used, counts, d);
        found := Run(rest, Occupy(p, remaining[i], d, used), CountIn(p, d, counts));
        if found {
          OptionWorks(p, remaining, i, used, counts, d);
          return true;
        }
      }
      NoOptionWorks(p, remaining, i, used, counts, options[i]);
      Remember(remaining, used, counts);
      return false;
    }

    lemma RestIsWellFormed(remaining: seq<nat>, i: nat)
      requires StagesOf(p, remaining) && Distinct(remaining) && i < |remaining|
      ensures StagesOf(p, Without(remaining, i)) && Distinct(Without(remaining, i))
    {
      var rest := Without(remaining, i);
      forall k | 0 <= k < |rest| ensures rest[k] == remaining[if k < i then k else k + 1] {
      }
    }
  }

  /** Stage ids `from, from + 1, ..., to - 1`. */
  function Range(from: nat, to: nat): (r: seq<nat>)
    requires from <= to
    ensures |r| == to - from
    ensures forall i :: 0 <= i < |r| ==> r[i] == from + i
  {
    seq(to - from, i requires 0 <= i => from + i)
  }

  /** Whether all stages from `from` on fit on top of the given usage; exact in both directions. */
  method RemainingStagesFeasible(
    p: Problem, from: nat, used: map<Key, nat>, counts: map<string, nat>) returns (feasible: bool)
    requires WellFormed(p) && from <= |p.stages|
    ensures StagesOf(p, Range(from, |p.stages|))
    ensures feasible <==> Feasible(p, Range(from, |p.stages|), used, counts)
  {
    var search := new Search(p);
    feasible := search.Run(Range(from, |p.stages|), used, counts);
  }
}
