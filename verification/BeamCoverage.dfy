/**
 Coverage of the required device types is tested after the beam was cut. When
 that is harmless: for which problems a covering plan is found whatever the
 incremental scores are.
 */
module BeamCoverage {
  import opened Placement
  import opened BeamPlan
  import opened BeamSearch
  import opened BeamWidth
  import opened Wrappers
  import Beam

  // ---- The plans that fail to cover

  /** Every way to name a device for each of the first `k` stages. */
  ghost function Plans(p: Problem, k: nat): set<seq<nat>> {
    if k == 0 then {[]} else set q: seq<nat>, d: nat | q in Plans(p, k - 1) && d < |p.devices| :: q + [d]
  }

  lemma {:induction false} PlansAreAll(p: Problem, k: nat, q: seq<nat>)
    ensures q in Plans(p, k) <==> |q| == k && forall i :: 0 <= i < |q| ==> q[i] < |p.devices|
  {
    if k > 0 && q != [] {
      var m := |q| - 1;
      PlansAreAll(p, k - 1, q[..m]);
      assert q == q[..m] + [q[m]];
      if q in Plans(p, k) {
        var r: seq<nat>, d: nat :| r in Plans(p, k - 1) && d < |p.devices| && q == r + [d];
        assert q[..m] == r;
      }
    }
  }

  /** The complete plans that do not cover the required device types. */
  ghost function Misses(p: Problem): set<seq<nat>> {
    set q | q in Plans(p, |p.stages|) && Complete(p, q) && !CoveringPlan(p, q)
  }

  lemma MissesAreAll(p: Problem, q: seq<nat>)
    ensures q in Misses(p) <==> Complete(p, q) && !CoveringPlan(p, q)
  {
    PlansAreAll(p, |p.stages|, q);
  }

  // ---- The beam over sound states

  lemma SoundStatesAreKept(p: Problem, cost: Cost)
    requires WellFormed(p) && Completable(p, [])
    ensures Kept(Children(p, cost), Start, SoundAt(p, cost), |p.stages|)
    ensures Extensible(Children(p, cost), SoundAt(p, cost), |p.stages|)
  {
    BeamPremises(p, cost);
  }

  lemma {:induction false} ExtensionsDistinct(p: Problem, cost: Cost, st: State, n: nat)
    requires n <= |p.devices|
    ensures Distinct(Extensions(p, cost, st, n))
  {
    if n > 0 {
      var front := Extensions(p, cost, st, n - 1);
      ExtensionsDistinct(p, cost, st, n - 1);
      ExtensionsAreExact(p, cost, st, n - 1);
      forall i | 0 <= i < |front| ensures front[i].plan != st.plan + [n - 1] {
        assert front[i] in front;
        var d: nat :| d < n - 1 && front[i] == Advance(p, cost, st, d);
        assert (st.plan + [d])[|st.plan|] == d && (st.plan + [n - 1])[|st.plan|] == n - 1;
      }
    }
  }

  lemma SameChildSameParent(p: Problem, cost: Cost, s: State, t: State, k: nat, x: State)
    requires Sound(p, cost, s, k) && Sound(p, cost, t, k)
    requires x in Children(p, cost)(s) && x in Children(p, cost)(t)
    ensures s == t
  {
    ExtensionsAreExact(p, cost, s, |p.devices|);
    ExtensionsAreExact(p, cost, t, |p.devices|);
    assert s.plan == x.plan[..k] == t.plan;
  }

  lemma SoundStatesSeparate(p: Problem, cost: Cost)
    ensures Separate(Children(p, cost), SoundAt(p, cost), |p.stages|)
  {
    forall st, i: nat | i < |p.stages| && SoundAt(p, cost)(st, i) ensures Distinct(Children(p, cost)(st)) {
      ExtensionsDistinct(p, cost, st, |p.devices|);
    }
    forall s, t, i: nat, x | i < |p.stages| && SoundAt(p, cost)(s, i) && SoundAt(p, cost)(t, i)
                             && x in Children(p, cost)(s) && x in Children(p, cost)(t)
      ensures s == t
    {
      SameChildSameParent(p, cost, s, t, i, x);
    }
  }

  ghost function PlansOf(states: seq<State>): seq<seq<nat>> {
    seq(|states|, i requires 0 <= i < |states| => states[i].plan)
  }

  lemma LastLevelIsComplete(p: Problem, cost: Cost, st: State)
    requires WellFormed(p) && Completable(p, []) && st in Level(p, cost, |p.stages|)
    ensures Complete(p, st.plan) && st == StateOf(p, cost, st.plan)
    ensures Covers(p, st) <==> CoveringPlan(p, st.plan)
  {
    EveryLevelIsSound(p, cost, |p.stages|);
    StateIsConsistent(p, cost, st.plan);
  }

  lemma LastLevelHasDistinctPlans(p: Problem, cost: Cost)
    requires WellFormed(p) && Completable(p, [])
    ensures Distinct(PlansOf(Level(p, cost, |p.stages|)))
  {
    var n := |p.stages|;
    var last := Level(p, cost, n);
    SoundStatesAreKept(p, cost);
    SoundStatesSeparate(p, cost);
    LevelDistinct(Children(p, cost), Before(p), p.scheduler.beamWidth, Start, SoundAt(p, cost), n, n);
    forall i, j | 0 <= i < j < |last| ensures last[i].plan != last[j].plan {
      assert last[i] in last && last[j] in last;
      LastLevelIsComplete(p, cost, last[i]);
      LastLevelIsComplete(p, cost, last[j]);
    }
  }

  /** With a covering plan at hand, the answer is read off the last level. */
  lemma AnswerIsInLastLevel(p: Problem, cost: Cost, full: seq<nat>)
    requires WellFormed(p) && p.devices != [] && Complete(p, full)
    ensures Completable(p, []) && forall s: nat :: s < |p.stages| ==> SomeEligible(p, s)
    ensures Answer(p, cost).Placed? <==> exists st :: st in Level(p, cost, |p.stages|) && Covers(p, st)
  {
    var last := Level(p, cost, |p.stages|);
    assert [] <= full;
    forall s: nat | s < |p.stages| ensures SomeEligible(p, s) {
      assert WithinAt(p, full, s);
    }
    AuditPasses(p, cost, 0);
    InhabitedBeamReachesTheEnd(p, cost);
    FirstCoveringIsFirst(p, last);
  }

  // ---- Fewer misses than the beam is wide

  /** If only misses were left at the end, there was room, so nothing was cut, so the covering plan would be there. */
  lemma FewMissesArePlaced(p: Problem, cost: Cost, full: seq<nat>)
    requires WellFormed(p) && p.devices != [] && CoveringPlan(p, full)
    requires |Misses(p)| < p.scheduler.beamWidth
    ensures Answer(p, cost).Placed?
  {
    var n := |p.stages|;
    var last := Level(p, cost, n);
    AnswerIsInLastLevel(p, cost, full);
    if !Answer(p, cost).Placed? {
      LastLevelHasDistinctPlans(p, cost);
      forall q | q in PlansOf(last) ensures q in Misses(p) {
        var i :| 0 <= i < |last| && last[i].plan == q;
        assert last[i] in last;
        LastLevelIsComplete(p, cost, last[i]);
        MissesAreAll(p, q);
      }
      DistinctFit(PlansOf(last), Misses(p));
      SoundStatesAreKept(p, cost);
      RoomMeansUncut(Children(p, cost), Before(p), p.scheduler.beamWidth, Start, SoundAt(p, cost), n);
      UntruncatedPlanIsLeast(p, cost, full);
    }
  }

  // ---- At least as many misses as the beam is wide

  /** A prefix of a miss. */
  ghost predicate Astray(p: Problem, plan: seq<nat>) {
    exists q :: q in Misses(p) && plan <= q
  }

  /** Scores that charge for leaving the way of the misses. */
  ghost function Misleading(p: Problem): Cost {
    (plan: seq<nat>, d: nat) => if Astray(p, plan + [d]) then 0.0 else 1.0
  }

  ghost function Mark(p: Problem): State -> bool {
    (st: State) => Astray(p, st.plan)
  }

  lemma AstrayShrinks(p: Problem, plan: seq<nat>, k: nat)
    requires Astray(p, plan) && k <= |plan|
    ensures Astray(p, plan[..k])
  {
    var q :| q in Misses(p) && plan <= q;
    assert plan[..k] <= q;
  }

  lemma MisleadingStep(p: Problem, cost: Cost, plan: seq<nat>, d: nat)
    requires IsPlan(p, plan + [d]) && IsPlan(p, plan) && d < |p.devices| && cost == Misleading(p)
    ensures StateOf(p, cost, plan + [d]).score
            == StateOf(p, cost, plan).score + (if Astray(p, plan + [d]) then 0.0 else 1.0)
  {
    AdvanceIsStateOf(p, cost, plan, d);
    StateIsConsistent(p, cost, plan);
  }

  /** Only prefixes of misses score nothing. */
  lemma {:induction false} MisleadingScore(p: Problem, cost: Cost, plan: seq<nat>)
    requires IsPlan(p, plan) && Misses(p) != {} && cost == Misleading(p)
    ensures if Astray(p, plan) then StateOf(p, cost, plan).score == 0.0 else StateOf(p, cost, plan).score >= 1.0
  {
    if plan == [] {
      var q :| q in Misses(p);
      assert [] <= q;
    } else {
      var k := |plan| - 1;
      MisleadingScore(p, cost, plan[..k]);
      assert plan[..k] + [plan[k]] == plan;
      MisleadingStep(p, cost, plan[..k], plan[k]);
      if Astray(p, plan) {
        AstrayShrinks(p, plan, k);
      }
    }
  }

  lemma RoundedApart(a: real, b: real)
    requires a == 0.0 && b >= 1.0
    ensures RoundNine(a) < RoundNine(b)
  {
    assert RoundNine(b) >= 1_000_000_000;
  }

  lemma AstrayGoesFirst(p: Problem, x: State, y: State, k: nat)
    requires Misses(p) != {} && Sound(p, Misleading(p), x, k) && Sound(p, Misleading(p), y, k)
    requires Astray(p, x.plan) && !Astray(p, y.plan)
    ensures Before(p)(x, y)
  {
    MisleadingScore(p, Misleading(p), x.plan);
    MisleadingScore(p, Misleading(p), y.plan);
    RoundedApart(x.score, y.score);
  }

  lemma AstrayExtends(p: Problem, st: State, k: nat)
    requires WellFormed(p) && k < |p.stages| && Sound(p, Misleading(p), st, k) && Astray(p, st.plan)
    ensures exists x :: x in Children(p, Misleading(p))(st) && Mark(p)(x)
  {
    var cost := Misleading(p);
    var q :| q in Misses(p) && st.plan <= q;
    MissesAreAll(p, q);
    CompletePlanIsAChain(p, cost, q, k);
    assert q[..k] == st.plan && q[..k + 1] <= q;
    StateIsConsistent(p, cost, q[..k + 1]);
    assert Mark(p)(StateOf(p, cost, q[..k + 1]));
  }

  lemma MisleadingSteers(p: Problem)
    requires WellFormed(p) && Misses(p) != {}
    ensures var cost := Misleading(p);
            Steers(Mark(p), Children(p, cost), Before(p), SoundAt(p, cost), |p.stages|)
  {
    var cost := Misleading(p);
    forall st, i: nat | i < |p.stages| && SoundAt(p, cost)(st, i) && Mark(p)(st)
      ensures exists x :: x in Children(p, cost)(st) && Mark(p)(x)
    {
      AstrayExtends(p, st, i);
    }
    forall x, y, i: nat | i <= |p.stages| && SoundAt(p, cost)(x, i) && SoundAt(p, cost)(y, i) && Mark(p)(x)
      && !Mark(p)(y)
      ensures Before(p)(x, y)
    {
      AstrayGoesFirst(p, x, y, i);
    }
  }

  /** The states on the way to a miss. */
  ghost function WayTo(p: Problem, q: seq<nat>): nat -> State
    requires IsPlan(p, q) && |q| == |p.stages|
  {
    (k: nat) => if k <= |q| then StateOf(p, Misleading(p), q[..k]) else Start
  }

  lemma WayIsMarked(p: Problem, q: seq<nat>, k: nat)
    requires q in Misses(p) && IsPlan(p, q) && k <= |q| == |p.stages|
    ensures Mark(p)(WayTo(p, q)(k)) && WayTo(p, q)(k).plan == q[..k]
  {
    StateIsConsistent(p, Misleading(p), q[..k]);
    assert q[..k] <= q;
  }

  lemma MissIsSteeredTo(p: Problem, q: seq<nat>)
    requires WellFormed(p) && Completable(p, []) && q in Misses(p) && Complete(p, q)
    ensures var last := Level(p, Misleading(p), |p.stages|);
            WayTo(p, q)(|p.stages|) in last || forall st :: st in last ==> Mark(p)(st)
  {
    var cost, n, path := Misleading(p), |p.stages|, WayTo(p, q);
    forall k: nat | k < n ensures path(k + 1) in Children(p, cost)(path(k)) {
      CompletePlanIsAChain(p, cost, q, k);
    }
    forall k: nat | k <= n ensures Mark(p)(path(k)) {
      WayIsMarked(p, q, k);
    }
    SoundStatesAreKept(p, cost);
    MisleadingSteers(p);
    BeforeIsStrictWeak(p);
    SteeredLevel(Mark(p), Children(p, cost), Before(p), p.scheduler.beamWidth, Start, SoundAt(p, cost), n, path, n);
  }

  /** Every miss is in the last level, unless the last level holds nothing but misses. */
  lemma MissIsKept(p: Problem, q: seq<nat>)
    requires WellFormed(p) && Completable(p, []) && q in Misses(p)
    ensures var last := Level(p, Misleading(p), |p.stages|);
            q in PlansOf(last) || forall st :: st in last ==> Astray(p, st.plan)
  {
    var n := |p.stages|;
    var last := Level(p, Misleading(p), n);
    MissesAreAll(p, q);
    MissIsSteeredTo(p, q);
    WayIsMarked(p, q, n);
    if WayTo(p, q)(n) in last {
      var i :| 0 <= i < |last| && last[i] == WayTo(p, q)(n);
      assert q[..n] == q && PlansOf(last)[i] == q;
    } else {
      forall st | st in last ensures Astray(p, st.plan) {
        assert Mark(p)(st);
      }
    }
  }

  /** Enough misses fill the last level: one that held something else would have no room for it. */
  lemma OnlyMissesFit(p: Problem, st: State)
    requires WellFormed(p) && Completable(p, []) && |Misses(p)| >= p.scheduler.beamWidth
    requires st in Level(p, Misleading(p), |p.stages|)
    ensures Astray(p, st.plan)
  {
    var last := Level(p, Misleading(p), |p.stages|);
    var plans, misses := PlansOf(last), Misses(p);
    if !Astray(p, st.plan) {
      var i :| 0 <= i < |last| && last[i] == st;
      assert plans[i] == st.plan;
      forall q | q in misses ensures q in plans && q != st.plan {
        MissIsKept(p, q);
        assert q <= q;
      }
      LevelSize(Children(p, Misleading(p)), Before(p), p.scheduler.beamWidth, Start, |p.stages|);
      ElementsFit(plans, misses + {st.plan});
    }
  }

  lemma MissesFillTheBeam(p: Problem, st: State)
    requires WellFormed(p) && Completable(p, []) && |Misses(p)| >= p.scheduler.beamWidth
    requires st in Level(p, Misleading(p), |p.stages|)
    ensures !Covers(p, st)
  {
    OnlyMissesFit(p, st);
    LastLevelIsComplete(p, Misleading(p), st);
    var q :| q in Misses(p) && st.plan <= q;
    MissesAreAll(p, q);
    assert st.plan == q;
  }

  /**
   Exactly when a covering plan is found whatever the incremental scores are:
   one exists, and fewer complete plans fail to cover than the beam is wide.
   */
  lemma AlwaysCoveredExactly(p: Problem)
    requires WellFormed(p)
    ensures (forall cost: Cost :: Answer(p, cost).Placed?)
            <==> p.devices != [] && (exists full :: CoveringPlan(p, full)) && |Misses(p)| < p.scheduler.beamWidth
  {
    if forall cost: Cost :: Answer(p, cost).Placed? {
      var cost := Misleading(p);
      assert Answer(p, cost).Placed?;
      PlacedPlanIsSound(p, cost);
      var full := Answer(p, cost).chosen.plan;
      assert CoveringPlan(p, full);
      AnswerIsInLastLevel(p, cost, full);
      if |Misses(p)| >= p.scheduler.beamWidth {
        var st :| st in Level(p, cost, |p.stages|) && Covers(p, st);
        MissesFillTheBeam(p, st);
      }
    }
    if p.devices != [] && |Misses(p)| < p.scheduler.beamWidth && exists full :: CoveringPlan(p, full) {
      var full :| CoveringPlan(p, full);
      forall cost: Cost ensures Answer(p, cost).Placed? {
        FewMissesArePlaced(p, cost, full);
      }
    }
  }
}
