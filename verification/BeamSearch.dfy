/**
 The width-limited beam that builds a placement plan stage by stage, its
 specification level by level, and what the returned plan is.
 */
module BeamSearch {
  import opened Order
  import opened Placement
  import opened FeasibilitySearch
  import opened BeamPlan
  import Beam

  /** Incremental score of putting the next stage of a prefix on a device. */
  type Cost = (seq<nat>, nat) -> real

  datatype State = State(
    score: real,
    plan: seq<nat>,
    used: map<Key, nat>,
    counts: map<string, nat>,
    types: set<DeviceType>)

  const Start: State := State(0.0, [], map[], map[], {})

  function Advance(p: Problem, cost: Cost, st: State, d: nat): State
    requires d < |p.devices|
  {
    State(st.score + cost(st.plan, d),
          st.plan + [d],
          Occupy(p, |st.plan|, d, st.used),
          CountIn(p, d, st.counts),
          st.types + {p.devices[d].deviceType})
  }

  /** The state reached by following a plan from the start. */
  function StateOf(p: Problem, cost: Cost, plan: seq<nat>): State
    requires IsPlan(p, plan)
  {
    if plan == [] then Start
    else Advance(p, cost, StateOf(p, cost, plan[..|plan| - 1]), plan[|plan| - 1])
  }

  function TypesOf(p: Problem, plan: seq<nat>): set<DeviceType>
    requires IsPlan(p, plan)
  {
    set i | 0 <= i < |plan| :: p.devices[plan[i]].deviceType
  }

  /** The dictionaries carried along with a state are exactly the loads of its plan. */
  lemma {:induction false} StateIsConsistent(p: Problem, cost: Cost, plan: seq<nat>)
    requires IsPlan(p, plan)
    ensures var st := StateOf(p, cost, plan);
            st.plan == plan && Tracks(p, plan, st.used, st.counts) && st.types == TypesOf(p, plan)
  {
    if plan != [] {
      var k := |plan| - 1;
      StateIsConsistent(p, cost, plan[..k]);
      var st := StateOf(p, cost, plan[..k]);
      assert plan[..k] + [plan[k]] == plan;
      TracksStep(p, plan[..k], st.used, st.counts, plan[k]);
    }
  }

  // ---- The order of states

  /** Half-even rounding to nine decimals, in units of the last decimal. */
  function RoundNine(x: real): int {
    var y := x * 1_000_000_000.0;
    var f := y.Floor;
    if y - f as real < 0.5 then f
    else if y - f as real > 0.5 then f + 1
    else if f % 2 == 0 then f else f + 1
  }

  function Label(p: Problem, d: nat): seq<string> {
    if d < |p.devices| then [p.devices[d].key.miner, p.devices[d].key.deviceId] else []
  }

  /** Stage ids ascend with the position, so only the device names distinguish two plans. */
  function Signature(p: Problem, plan: seq<nat>): seq<string> {
    if plan == [] then [] else Label(p, plan[0]) + Signature(p, plan[1..])
  }

  datatype Rank = Rank(rounded: int, signature: seq<string>)

  function RankOf(p: Problem, st: State): Rank {
    Rank(RoundNine(st.score), Signature(p, st.plan))
  }

  predicate RankLess(a: Rank, b: Rank) {
    a.rounded < b.rounded || (a.rounded == b.rounded && Lex(StringLess, a.signature, b.signature))
  }

  lemma RankLessStrictTotal()
    ensures StrictTotal(RankLess)
  {
    StringLessStrictTotal();
    forall a: Rank ensures !RankLess(a, a) { LexIrreflexive(StringLess, a.signature); }
    forall a: Rank, b: Rank ensures a == b || RankLess(a, b) || RankLess(b, a) {
      LexTotal(StringLess, a.signature, b.signature);
    }
    forall a: Rank, b: Rank, c: Rank | RankLess(a, b) && RankLess(b, c) ensures RankLess(a, c) {
      if a.rounded == b.rounded == c.rounded {
        LexTransitive(StringLess, a.signature, b.signature, c.signature);
      }
    }
  }

  lemma {:induction false} SignatureNamesThePlan(p: Problem, a: seq<nat>, b: seq<nat>)
    requires WellFormed(p) && |a| == |b|
    requires forall i :: 0 <= i < |a| ==> a[i] < |p.devices| && b[i] < |p.devices|
    requires Signature(p, a) == Signature(p, b)
    ensures a == b
  {
    if a != [] {
      var sa, sb := Signature(p, a), Signature(p, b);
      assert sa[0] == sb[0] && sa[1] == sb[1];
      SameKeySameBudget(p, a[0], b[0]);
      assert sa[2..] == Signature(p, a[1..]) && sb[2..] == Signature(p, b[1..]);
      SignatureNamesThePlan(p, a[1..], b[1..]);
      assert a == [a[0]] + a[1..] && b == [b[0]] + b[1..];
    }
  }

  /** The sort key of the beam. */
  function Before(p: Problem): (State, State) -> bool {
    (a: State, b: State) => RankLess(RankOf(p, a), RankOf(p, b))
  }

  lemma BeforeIsStrictWeak(p: Problem)
    ensures Beam.StrictWeak(Before(p))
  {
    RankLessStrictTotal();
  }

  // ---- One stage

  /** A kept extension: open now, and the stages after it can still be placed. */
  ghost predicate Viable(p: Problem, st: State, d: nat) {
    && |st.plan| < |p.stages| && d < |p.devices|
    && Open(p, |st.plan|, d, st.used, st.counts)
    && StagesOf(p, Range(|st.plan| + 1, |p.stages|))
    && Feasible(p, Range(|st.plan| + 1, |p.stages|), Occupy(p, |st.plan|, d, st.used), CountIn(p, d, st.counts))
  }

  /** Kept extensions of one state by the devices below `n`, in device order. */
  ghost function Extensions(p: Problem, cost: Cost, st: State, n: nat): seq<State>
    requires n <= |p.devices|
  {
    if n == 0 then []
    else Extensions(p, cost, st, n - 1) + (if Viable(p, st, n - 1) then [Advance(p, cost, st, n - 1)] else [])
  }

  lemma {:induction false} ExtensionsAreExact(p: Problem, cost: Cost, st: State, n: nat)
    requires n <= |p.devices|
    ensures forall x ::
              x in Extensions(p, cost, st, n)
              <==> exists d: nat :: d < n && Viable(p, st, d) && x == Advance(p, cost, st, d)
  {
    if n > 0 {
      ExtensionsAreExact(p, cost, st, n - 1);
    }
  }

  ghost function Children(p: Problem, cost: Cost): State -> seq<State> {
    (st: State) => Extensions(p, cost, st, |p.devices|)
  }

  /** A state that carries a good, completable plan and the loads of that plan. */
  ghost predicate Sound(p: Problem, cost: Cost, st: State, k: nat) {
    && IsPlan(p, st.plan) && |st.plan| == k && st == StateOf(p, cost, st.plan)
    && Good(p, st.plan) && Completable(p, st.plan)
  }

  lemma AdvanceIsStateOf(p: Problem, cost: Cost, plan: seq<nat>, d: nat)
    requires IsPlan(p, plan + [d]) && IsPlan(p, plan) && d < |p.devices|
    ensures StateOf(p, cost, plan + [d]) == Advance(p, cost, StateOf(p, cost, plan), d)
  {
    assert (plan + [d])[..|plan|] == plan;
  }

  /** On a sound state, viable means: the extended plan is good and completable. */
  lemma ViableIsCompletable(p: Problem, cost: Cost, st: State, d: nat)
    requires WellFormed(p) && IsPlan(p, st.plan) && st == StateOf(p, cost, st.plan) && Good(p, st.plan)
    requires |st.plan| < |p.stages| && d < |p.devices|
    ensures Viable(p, st, d) <==> Good(p, st.plan + [d]) && Completable(p, st.plan + [d])
    ensures Viable(p, st, d) ==> Sound(p, cost, Advance(p, cost, st, d), |st.plan| + 1)
  {
    StateIsConsistent(p, cost, st.plan);
    GoodStep(p, st.plan, st.used, st.counts, d);
    TracksStep(p, st.plan, st.used, st.counts, d);
    AdvanceIsStateOf(p, cost, st.plan, d);
    if Good(p, st.plan + [d]) {
      CompletableMeansFeasible(p, st.plan + [d], Occupy(p, |st.plan|, d, st.used), CountIn(p, d, st.counts));
    }
  }

  ghost function Level(p: Problem, cost: Cost, k: nat): seq<State> {
    Beam.Level(Children(p, cost), Before(p), p.scheduler.beamWidth, Start, k)
  }

  ghost predicate NeverTruncated(p: Problem, cost: Cost) {
    Beam.NeverCut(Children(p, cost), Before(p), p.scheduler.beamWidth, Start, |p.stages|)
  }

  ghost function SoundAt(p: Problem, cost: Cost): (State, nat) -> bool {
    (st: State, k: nat) => Sound(p, cost, st, k)
  }

  lemma ChildrenAreSound(p: Problem, cost: Cost, st: State, k: nat, x: State)
    requires WellFormed(p) && k < |p.stages| && Sound(p, cost, st, k) && x in Children(p, cost)(st)
    ensures Sound(p, cost, x, k + 1)
  {
    ExtensionsAreExact(p, cost, st, |p.devices|);
    var d: nat :| d < |p.devices| && Viable(p, st, d) && x == Advance(p, cost, st, d);
    ViableIsCompletable(p, cost, st, d);
  }

  /** The prefixes of a complete plan are kept extensions of one another. */
  lemma CompletePlanIsAChain(p: Problem, cost: Cost, full: seq<nat>, k: nat)
    requires WellFormed(p) && Complete(p, full) && k < |full|
    ensures IsPlan(p, full[..k]) && IsPlan(p, full[..k + 1])
    ensures StateOf(p, cost, full[..k + 1]) in Children(p, cost)(StateOf(p, cost, full[..k]))
  {
    var st, d := StateOf(p, cost, full[..k]), full[k];
    StateIsConsistent(p, cost, full[..k]);
    PrefixOfGoodIsGood(p, full, k);
    PrefixOfGoodIsGood(p, full, k + 1);
    assert full[..k] + [d] == full[..k + 1];
    assert Completable(p, full[..k + 1]);
    ViableIsCompletable(p, cost, st, d);
    AdvanceIsStateOf(p, cost, full[..k], d);
    ExtensionsAreExact(p, cost, st, |p.devices|);
  }

  /** A sound state always has a kept extension: what the feasibility filter buys. */
  lemma SoundStatesExtend(p: Problem, cost: Cost, st: State, k: nat)
    requires WellFormed(p) && k < |p.stages| && Sound(p, cost, st, k)
    ensures Children(p, cost)(st) != []
  {
    var full :| Complete(p, full) && st.plan <= full;
    assert full[..k] == st.plan;
    CompletePlanIsAChain(p, cost, full, k);
  }

  lemma BeamPremises(p: Problem, cost: Cost)
    requires WellFormed(p) && Completable(p, [])
    ensures SoundAt(p, cost)(Start, 0)
    ensures forall st, i: nat, x ::
              i < |p.stages| && SoundAt(p, cost)(st, i) && x in Children(p, cost)(st)
              ==> SoundAt(p, cost)(x, i + 1)
    ensures forall st, i: nat :: i < |p.stages| && SoundAt(p, cost)(st, i) ==> Children(p, cost)(st) != []
  {
    forall st, i: nat, x | i < |p.stages| && SoundAt(p, cost)(st, i) && x in Children(p, cost)(st)
      ensures SoundAt(p, cost)(x, i + 1)
    {
      ChildrenAreSound(p, cost, st, i, x);
    }
    forall st, i: nat | i < |p.stages| && SoundAt(p, cost)(st, i) ensures Children(p, cost)(st) != [] {
      SoundStatesExtend(p, cost, st, i);
    }
  }

  lemma EveryLevelIsSound(p: Problem, cost: Cost, k: nat)
    requires WellFormed(p) && k <= |p.stages| && Completable(p, [])
    ensures forall st :: st in Level(p, cost, k) ==> Sound(p, cost, st, k)
  {
    BeamPremises(p, cost);
    Beam.LevelInvariant(Children(p, cost), Before(p), p.scheduler.beamWidth, Start, SoundAt(p, cost), |p.stages|, k);
    forall st | st in Level(p, cost, k) ensures Sound(p, cost, st, k) {
      assert SoundAt(p, cost)(st, k);
    }
  }

  /** Truncation never dead-ends a later stage: a placeable problem keeps every level inhabited. */
  lemma EveryLevelIsInhabited(p: Problem, cost: Cost, k: nat)
    requires WellFormed(p) && k <= |p.stages| && Completable(p, [])
    ensures Level(p, cost, k) != []
  {
    BeamPremises(p, cost);
    Beam.LevelInhabited(Children(p, cost), Before(p), p.scheduler.beamWidth, Start, SoundAt(p, cost), |p.stages|, k);
  }

  lemma {:induction false} NothingViableNothingKept(p: Problem, cost: Cost, st: State, n: nat)
    requires n <= |p.devices| && forall d: nat :: !Viable(p, st, d)
    ensures Extensions(p, cost, st, n) == []
  {
    if n > 0 {
      NothingViableNothingKept(p, cost, st, n - 1);
    }
  }

  lemma UnplaceableEmptiesTheFirstLevel(p: Problem, cost: Cost)
    requires WellFormed(p) && !Completable(p, [])
    ensures |p.stages| > 0 && Level(p, cost, 1) == []
  {
    if |p.stages| == 0 {
      assert Complete(p, []);
    }
    forall d: nat ensures !Viable(p, Start, d) {
      if Viable(p, Start, d) {
        ViableIsCompletable(p, cost, Start, d);
        CompletableShrinks(p, [d]);
      }
    }
    NothingViableNothingKept(p, cost, Start, |p.devices|);
    Beam.BarrenLevel(Children(p, cost), Before(p), p.scheduler.beamWidth, Start);
  }

  lemma CompletableShrinks(p: Problem, plan: seq<nat>)
    requires Completable(p, plan)
    ensures Completable(p, [])
  {
    var full :| Complete(p, full) && plan <= full;
    assert [] <= full;
  }

  /** An untruncated beam holds every complete plan. */
  lemma UntruncatedBeamIsExhaustive(p: Problem, cost: Cost, full: seq<nat>)
    requires WellFormed(p) && NeverTruncated(p, cost) && Complete(p, full)
    ensures StateOf(p, cost, full) in Level(p, cost, |p.stages|)
  {
    var n := |p.stages|;
    var path := (k: nat) => if k <= n then StateOf(p, cost, full[..k]) else Start;
    forall k: nat | k < n ensures path(k + 1) in Children(p, cost)(path(k)) {
      CompletePlanIsAChain(p, cost, full, k);
    }
    Beam.UncutBeamIsExhaustive(Children(p, cost), Before(p), p.scheduler.beamWidth, Start, n, path, n);
    assert full[..n] == full;
  }

  // ---- Outcome of a placement request

  datatype Outcome =
    | NoDevices
    | StageHasNoEligibleDevice(stage: nat)
    | CapacityExhausted(stage: nat)
    | CoverageMissing
    | Placed(chosen: State)

  predicate Covers(p: Problem, st: State) {
    p.scheduler.requiredTypes <= st.types
  }

  predicate SomeEligible(p: Problem, stage: nat)
    requires stage < |p.stages|
  {
    exists d: nat :: d < |p.devices| && Eligible(p, stage, d)
  }

  /** First state that covers the required device types. */
  function FirstCovering(p: Problem, states: seq<State>): Outcome {
    if states == [] then CoverageMissing
    else if Covers(p, states[0]) then Placed(states[0])
    else FirstCovering(p, states[1..])
  }

  lemma {:induction false} FirstCoveringIsFirst(p: Problem, states: seq<State>)
    ensures FirstCovering(p, states).Placed? || FirstCovering(p, states).CoverageMissing?
    ensures FirstCovering(p, states).Placed? ==>
              exists i :: 0 <= i < |states| && states[i] == FirstCovering(p, states).chosen && Covers(p, states[i])
                          && forall j :: 0 <= j < i ==> !Covers(p, states[j])
    ensures FirstCovering(p, states).CoverageMissing? ==> forall i :: 0 <= i < |states| ==> !Covers(p, states[i])
  {
    if states != [] && !Covers(p, states[0]) {
      var rest := states[1..];
      FirstCoveringIsFirst(p, rest);
      assert forall j :: 0 < j < |states| ==> states[j] == rest[j - 1];
      if FirstCovering(p, rest).Placed? {
        var i :| 0 <= i < |rest| && rest[i] == FirstCovering(p, rest).chosen && Covers(p, rest[i])
                 && forall j :: 0 <= j < i ==> !Covers(p, rest[j]);
        assert states[i + 1] == rest[i];
      }
    }
  }

  /** What the beam answers from stage `k` on, given its levels. */
  ghost function BeamFrom(p: Problem, level: nat -> seq<State>, k: nat): Outcome
    requires k <= |p.stages|
    decreases |p.stages| - k
  {
    if k == |p.stages| then FirstCovering(p, level(k))
    else if level(k + 1) == [] then CapacityExhausted(k)
    else BeamFrom(p, level, k + 1)
  }

  ghost function Levels(p: Problem, cost: Cost): nat -> seq<State> {
    (k: nat) => Level(p, cost, k)
  }

  /** The audit before the beam: the first stage without any eligible device. */
  ghost function AuditFrom(p: Problem, cost: Cost, k: nat): Outcome
    requires k <= |p.stages|
    decreases |p.stages| - k
  {
    if k == |p.stages| then BeamFrom(p, Levels(p, cost), 0)
    else if !SomeEligible(p, k) then StageHasNoEligibleDevice(k)
    else AuditFrom(p, cost, k + 1)
  }

  ghost function Answer(p: Problem, cost: Cost): Outcome {
    if p.devices == [] then NoDevices else AuditFrom(p, cost, 0)
  }

  lemma {:induction false} BeamRunsThrough(p: Problem, level: nat -> seq<State>, k: nat)
    requires k <= |p.stages| && forall i: nat :: i <= |p.stages| ==> level(i) != []
    ensures BeamFrom(p, level, k) == FirstCovering(p, level(|p.stages|))
    decreases |p.stages| - k
  {
    if k < |p.stages| {
      BeamRunsThrough(p, level, k + 1);
    }
  }

  lemma InhabitedBeamReachesTheEnd(p: Problem, cost: Cost)
    requires WellFormed(p) && Completable(p, [])
    ensures BeamFrom(p, Levels(p, cost), 0) == FirstCovering(p, Level(p, cost, |p.stages|))
  {
    forall i: nat | i <= |p.stages| ensures Levels(p, cost)(i) != [] {
      EveryLevelIsInhabited(p, cost, i);
    }
    BeamRunsThrough(p, Levels(p, cost), 0);
  }

  lemma {:induction false} AuditPasses(p: Problem, cost: Cost, k: nat)
    requires k <= |p.stages| && forall s: nat :: k <= s < |p.stages| ==> SomeEligible(p, s)
    ensures AuditFrom(p, cost, k) == BeamFrom(p, Levels(p, cost), 0)
    decreases |p.stages| - k
  {
    if k < |p.stages| {
      AuditPasses(p, cost, k + 1);
    }
  }

  /**
   Completeness of the truncated beam: when every stage has an eligible device,
   capacity is reported exhausted exactly when no complete placement exists,
   whatever the beam width, and then already at the first stage.
   */
  lemma CapacityErrorIsExact(p: Problem, cost: Cost)
    requires WellFormed(p) && p.devices != []
    requires forall s: nat :: s < |p.stages| ==> SomeEligible(p, s)
    ensures Answer(p, cost).CapacityExhausted? <==> !exists full :: Complete(p, full)
    ensures Answer(p, cost).CapacityExhausted? ==> Answer(p, cost).stage == 0
  {
    AuditPasses(p, cost, 0);
    if Completable(p, []) {
      InhabitedBeamReachesTheEnd(p, cost);
      FirstCoveringIsFirst(p, Level(p, cost, |p.stages|));
    } else {
      UnplaceableEmptiesTheFirstLevel(p, cost);
      forall full ensures !Complete(p, full) {
        assert [] <= full;
      }
    }
  }

  lemma PlacedComesFromLastLevel(p: Problem, cost: Cost)
    requires WellFormed(p) && Answer(p, cost).Placed?
    ensures Completable(p, [])
    ensures Answer(p, cost) == FirstCovering(p, Level(p, cost, |p.stages|))
  {
    AuditIsPassed(p, cost, 0);
    if !Completable(p, []) {
      UnplaceableEmptiesTheFirstLevel(p, cost);
    }
    InhabitedBeamReachesTheEnd(p, cost);
  }

  lemma {:induction false} AuditIsPassed(p: Problem, cost: Cost, k: nat)
    requires k <= |p.stages| && !AuditFrom(p, cost, k).StageHasNoEligibleDevice?
    ensures AuditFrom(p, cost, k) == BeamFrom(p, Levels(p, cost), 0)
    decreases |p.stages| - k
  {
    if k < |p.stages| {
      AuditIsPassed(p, cost, k + 1);
    }
  }

  /**
   Every returned plan names, for each stage in order, an eligible device, keeps
   every device within its budget and clear of its reserve and every miner
   within its limit, and covers the required device types.
   */
  lemma PlacedPlanIsSound(p: Problem, cost: Cost)
    requires WellFormed(p) && Answer(p, cost).Placed?
    ensures var st := Answer(p, cost).chosen;
            && Complete(p, st.plan)
            && p.scheduler.requiredTypes <= TypesOf(p, st.plan)
            && (forall d :: 0 <= d < |p.devices| ==>
                  var key := p.devices[d].key;
                  && Get(st.used, key) == PlanLoad(p, st.plan, key) <= Budget(p, d)
                  && (Get(st.used, key) > 0 ==> Get(st.used, key) + Reserve(p, d) <= p.devices[d].totalBytes))
  {
    var st := Answer(p, cost).chosen;
    PlacedComesFromLastLevel(p, cost);
    FirstCoveringIsFirst(p, Level(p, cost, |p.stages|));
    EveryLevelIsSound(p, cost, |p.stages|);
    assert st in Level(p, cost, |p.stages|);
    StateIsConsistent(p, cost, st.plan);
    forall d | 0 <= d < |p.devices|
      ensures
        var key := p.devices[d].key;
        && Get(st.used, key) == PlanLoad(p, st.plan, key) <= Budget(p, d)
        && (Get(st.used, key) > 0 ==> Get(st.used, key) + Reserve(p, d) <= p.devices[d].totalBytes)
    {
      CompletePlanKeepsReserve(p, st.plan, d);
    }
  }

  /** A complete plan that covers the required device types. */
  ghost predicate CoveringPlan(p: Problem, full: seq<nat>) {
    Complete(p, full) && p.scheduler.requiredTypes <= TypesOf(p, full)
  }

  /**
   When no level was cut, the answer is exact: a covering plan is returned
   whenever one exists, and it is strictly before every other one in
   (rounded score, signature).
   */
  lemma UntruncatedPlanIsLeast(p: Problem, cost: Cost, full: seq<nat>)
    requires WellFormed(p) && NeverTruncated(p, cost) && CoveringPlan(p, full)
    requires p.devices != [] && forall s: nat :: s < |p.stages| ==> SomeEligible(p, s)
    ensures Answer(p, cost).Placed?
    ensures var best := Answer(p, cost).chosen;
            && CoveringPlan(p, best.plan)
            && (full == best.plan || RankLess(RankOf(p, best), RankOf(p, StateOf(p, cost, full))))
  {
    var n := |p.stages|;
    var last := Level(p, cost, n);
    assert [] <= full;
    AuditPasses(p, cost, 0);
    InhabitedBeamReachesTheEnd(p, cost);
    FirstCoveringIsFirst(p, last);
    UntruncatedBeamIsExhaustive(p, cost, full);
    StateIsConsistent(p, cost, full);
    var mine := StateOf(p, cost, full);
    assert Covers(p, mine);
    PlacedPlanIsSound(p, cost);
    FirstIsLeast(p, last, mine);
    var best := Answer(p, cost).chosen;
    BeforeIsStrictWeak(p);
    Beam.LevelAscends(Children(p, cost), Before(p), p.scheduler.beamWidth, Start, n);
    EveryLevelIsSound(p, cost, n);
    RankLessStrictTotal();
    if RankOf(p, best) == RankOf(p, mine) {
      SignatureNamesThePlan(p, best.plan, full);
    }
  }

  lemma FirstIsLeast(p: Problem, states: seq<State>, st: State)
    requires st in states && Covers(p, st)
    ensures FirstCovering(p, states).Placed?
    ensures Beam.Ascending(Before(p), states) ==>
              FirstCovering(p, states).chosen == st || !Before(p)(st, FirstCovering(p, states).chosen)
  {
    FirstCoveringIsFirst(p, states);
    var j :| 0 <= j < |states| && states[j] == st;
    var i :| 0 <= i < |states| && states[i] == FirstCovering(p, states).chosen && Covers(p, states[i])
             && forall k :: 0 <= k < i ==> !Covers(p, states[k]);
    assert i <= j;
  }

  // ---- The placement builder

  /** Extends one state by every open device that leaves the later stages placeable. */
  method ExtendState(p: Problem, cost: Cost, st: State, k: nat) returns (next: seq<State>)
    requires WellFormed(p) && k < |p.stages| && |st.plan| == k
    ensures next == Children(p, cost)(st)
    ensures forall x :: x in next ==> |x.plan| == k + 1
  {
    next := [];
    for d := 0 to |p.devices|
      invariant next == Extensions(p, cost, st, d)
      invariant forall x :: x in next ==> |x.plan| == k + 1
    {
      if Open(p, k, d, st.used, st.counts) {
        var feasible := RemainingStagesFeasible(p, k + 1, Occupy(p, k, d, st.used), CountIn(p, d, st.counts));
        if feasible {
          next := next + [Advance(p, cost, st, d)];
        }
      }
    }
  }

  /** Extends every state of one level. */
  method ExtendLevel(p: Problem, cost: Cost, states: seq<State>, k: nat) returns (next: seq<State>)
    requires WellFormed(p) && k < |p.stages|
    requires forall st :: st in states ==> |st.plan| == k
    ensures next == Beam.Expand(Children(p, cost), states)
    ensures forall st :: st in next ==> |st.plan| == k + 1
  {
    next := [];
    for i := 0 to |states|
      invariant next == Beam.Expand(Children(p, cost), states[..i])
      invariant forall st :: st in next ==> |st.plan| == k + 1
    {
      assert states[i] in states;
      var more := ExtendState(p, cost, states[i], k);
      next := next + more;
      assert states[..i + 1][..i] == states[..i] && states[..i + 1][i] == states[i];
    }
    assert states[..|states|] == states;
  }

  method StageHasDevice(p: Problem, stage: nat) returns (found: bool)
    requires stage < |p.stages|
    ensures found <==> SomeEligible(p, stage)
  {
    for d := 0 to |p.devices|
      invariant forall e: nat :: e < d ==> !Eligible(p, stage, e)
    {
      if Eligible(p, stage, d) {
        return true;
      }
    }
    return false;
  }

  /** Sorts the extensions of a level and cuts them to the beam width. */
  method SortAndCut(p: Problem, next: seq<State>, k: nat) returns (states: seq<State>)
    requires forall st :: st in next ==> |st.plan| == k
    ensures states == Beam.Cut(p.scheduler.beamWidth, Beam.Sort(Before(p), next))
    ensures forall st :: st in states ==> |st.plan| == k
    ensures p.scheduler.beamWidth >= 1 ==> (states == [] <==> next == [])
  {
    Beam.SortMembers(Before(p), next);
    var sorted := Beam.Sort(Before(p), next);
    states := Beam.Cut(p.scheduler.beamWidth, sorted);
    forall st | st in states ensures |st.plan| == k {
      assert st in sorted;
    }
  }

  lemma LevelStep(p: Problem, cost: Cost, states: seq<State>, k: nat)
    requires states == Level(p, cost, k)
    ensures Level(p, cost, k + 1)
            == Beam.Cut(p.scheduler.beamWidth, Beam.Sort(Before(p), Beam.Expand(Children(p, cost), states)))
  {
  }

  /** The beam loop over the stages. */
  method RunBeam(p: Problem, cost: Cost) returns (outcome: Outcome)
    requires WellFormed(p)
    ensures outcome == BeamFrom(p, Levels(p, cost), 0)
  {
    var states := [Start];
    ghost var level := Levels(p, cost);
    for k := 0 to |p.stages|
      invariant states == level(k)
      invariant forall st :: st in states ==> |st.plan| == k
      invariant BeamFrom(p, level, 0) == BeamFrom(p, level, k)
    {
      var next := ExtendLevel(p, cost, states, k);
      LevelStep(p, cost, states, k);
      states := SortAndCut(p, next, k + 1);
      if next == [] {
        return CapacityExhausted(k);
      }
    }
    outcome := FirstCovering(p, states);
  }

  /** The nested-loop builder computes the specified answer, errors included. */
  method BuildPlacement(p: Problem, cost: Cost) returns (outcome: Outcome)
    requires WellFormed(p)
    ensures outcome == Answer(p, cost)
  {
    if p.devices == [] {
      return NoDevices;
    }
    for k := 0 to |p.stages|
      invariant AuditFrom(p, cost, 0) == AuditFrom(p, cost, k)
    {
      var found := StageHasDevice(p, k);
      if !found {
        return StageHasNoEligibleDevice(k);
      }
    }
    outcome := RunBeam(p, cost);
  }

  // ---- What truncation can lose

  const GIB: nat := 1_073_741_824

  function PlainDevice(id: string, kind: DeviceType): Device {
    Device(Key("m", id), kind, {"float32"}, 8 * GIB, 8 * GIB, 4, 1.0)
  }

  /** One stage of half a GiB, a CPU and a GPU, a GPU required, default reserves, and a beam that keeps one state. */
  function NarrowProblem(): Problem {
    Problem([PlainDevice("c", Cpu), PlainDevice("g", Cuda)],
            [Stage(map[Cpu := GIB / 2, Cuda := GIB / 2])],
            Scheduler(0.1, kind => if kind == Cpu then GIB else GIB / 2, _ => "float32", 4, 1, {Cuda}),
            [])
  }

  /** The GPU costs more. */
  const NarrowCost: Cost := (plan, d) => if d == 1 then 1.0 else 0.0

  lemma NarrowDevicesAreViable()
    ensures WellFormed(NarrowProblem())
    ensures Viable(NarrowProblem(), Start, 0) && Viable(NarrowProblem(), Start, 1)
    ensures SomeEligible(NarrowProblem(), 0)
  {
    var p := NarrowProblem();
    forall d: nat | d < 2 ensures Eligible(p, 0, d) && Open(p, 0, d, map[], map[]) && Viable(p, Start, d) {
      assert Reserve(p, d) <= GIB && Budget(p, d) >= 7 * GIB && Limit(p, d) == 4;
      assert Eligible(p, 0, d);
      assert Range(1, 1) == [];
      assert Fits(p, [], Occupy(p, 0, d, map[]), CountIn(p, d, map[]), map[]);
    }
  }

  lemma NarrowChildren()
    ensures var p := NarrowProblem();
            Children(p, NarrowCost)(Start) == [Advance(p, NarrowCost, Start, 0), Advance(p, NarrowCost, Start, 1)]
  {
    var p := NarrowProblem();
    NarrowDevicesAreViable();
    assert Extensions(p, NarrowCost, Start, 0) == [];
    assert Extensions(p, NarrowCost, Start, 1) == [Advance(p, NarrowCost, Start, 0)];
  }

  lemma NarrowOrder()
    ensures var p := NarrowProblem();
            var cpu, gpu := Advance(p, NarrowCost, Start, 0), Advance(p, NarrowCost, Start, 1);
            Before(p)(cpu, gpu) && !Before(p)(gpu, cpu)
  {
    var p := NarrowProblem();
    assert RoundNine(Advance(p, NarrowCost, Start, 0).score) == 0;
    assert RoundNine(Advance(p, NarrowCost, Start, 1).score) == 1_000_000_000;
  }

  lemma NarrowLevels()
    ensures var p := NarrowProblem();
            Level(p, NarrowCost, 1) == [Advance(p, NarrowCost, Start, 0)] && !NeverTruncated(p, NarrowCost)
  {
    var p := NarrowProblem();
    NarrowChildren();
    NarrowOrder();
    Beam.LevelOfTwo(Children(p, NarrowCost), Before(p), Start, Advance(p, NarrowCost, Start, 0),
      Advance(p, NarrowCost, Start, 1));
  }

  lemma NarrowCoveringPlan()
    ensures CoveringPlan(NarrowProblem(), [1])
  {
    var p := NarrowProblem();
    NarrowDevicesAreViable();
    ViableIsCompletable(p, NarrowCost, Start, 1);
    assert [] + [1] == [1];
    assert p.devices[[1][0]].deviceType == Cuda;
  }

  lemma OneStageAnswer(p: Problem, cost: Cost, st: State)
    requires |p.stages| == 1 && p.devices != [] && SomeEligible(p, 0)
    requires Level(p, cost, 1) == [st]
    ensures Answer(p, cost) == if Covers(p, st) then Placed(st) else CoverageMissing
  {
    AuditPasses(p, cost, 0);
    var level := Levels(p, cost);
    assert level(1) == [st] && [st][1..] == [];
    assert BeamFrom(p, level, 1) == FirstCovering(p, [st]);
    assert FirstCovering(p, [st][1..]) == CoverageMissing;
  }

  /**
   The completeness of the beam does not extend to coverage: cut to one state,
   it reports coverage missing although a covering plan exists.
   */
  lemma TruncationCanLoseCoverage()
    ensures WellFormed(NarrowProblem())
    ensures Answer(NarrowProblem(), NarrowCost) == CoverageMissing
    ensures CoveringPlan(NarrowProblem(), [1])
    ensures !NeverTruncated(NarrowProblem(), NarrowCost)
  {
    var p := NarrowProblem();
    NarrowDevicesAreViable();
    NarrowLevels();
    NarrowCoveringPlan();
    OneStageAnswer(p, NarrowCost, Advance(p, NarrowCost, Start, 0));
  }
}
