/**
 Eligibility, plans and answers of the placement builder, said again from the
 fields of the problem alone: the reserve is the least integer that is large
 enough, loads and counts are sums over the plan, and plans compare by nearest
 integers and first differences.
 */
module PlacementBounds {
  import opened Order
  import opened Placement
  import opened BeamPlan
  import opened BeamSearch

  // ---- Memory of one device

  /** `r` bytes are enough of a reserve. */
  predicate Suffices(p: Problem, d: nat, r: int)
    requires d < |p.devices|
  {
    && p.devices[d].totalBytes as real * p.scheduler.reserveFraction <= r as real
    && p.scheduler.reserveBytes(p.devices[d].deviceType) <= r
  }

  ghost predicate LeastReserve(p: Problem, d: nat, r: int)
    requires d < |p.devices|
  {
    Suffices(p, d, r) && forall q :: Suffices(p, d, q) ==> r <= q
  }

  ghost function Kept(p: Problem, d: nat): (r: int)
    requires d < |p.devices|
    ensures LeastReserve(p, d, r)
  {
    ReserveIsLeast(p, d);
    var r :| LeastReserve(p, d, r);
    r
  }

  lemma CeilingIsLeast(x: real, q: int)
    ensures x <= Ceiling(x) as real && (x <= q as real ==> Ceiling(x) <= q)
  {
  }

  lemma ReserveIsLeast(p: Problem, d: nat)
    requires d < |p.devices|
    ensures LeastReserve(p, d, Reserve(p, d))
  {
    var share := p.devices[d].totalBytes as real * p.scheduler.reserveFraction;
    CeilingIsLeast(share, Ceiling(share));
    forall q | Suffices(p, d, q) ensures Reserve(p, d) <= q {
      CeilingIsLeast(share, q);
    }
  }

  /** What the first `n` rows of the replaced plan hold on the device. */
  function HeldBy(p: Problem, d: nat, n: nat): nat
    requires d < |p.devices| && n <= |p.previous|
  {
    if n == 0 then 0
    else
      var row := p.previous[n - 1];
      HeldBy(p, d, n - 1)
      + (if row.key != p.devices[d].key then 0
         else if row.recordedPeak > 0 then row.recordedPeak
         else if row.stage < |p.stages| && row.deviceType in p.stages[row.stage].peak
         then p.stages[row.stage].peak[row.deviceType]
         else 0)
  }

  /** A load beside the reserve, within the free memory and what the replaced plan gives back. */
  ghost predicate HasRoom(p: Problem, d: nat, load: nat)
    requires d < |p.devices|
  {
    var dev, r := p.devices[d], Kept(p, d);
    && (load == 0 || load + r <= dev.totalBytes)
    && load <= (if dev.freeBytes > r then dev.freeBytes - r else 0)
               + (if dev.freeBytes > 0 && dev.health > 0.0 then HeldBy(p, d, |p.previous|) else 0)
  }

  lemma {:induction false} ResidentSplits(p: Problem, a: seq<PreviousRow>, row: PreviousRow, key: Key)
    ensures Resident(p, a + [row], key) == Resident(p, a, key) + (if row.key == key then RowPeak(p, row) else 0)
  {
    if a == [] {
      assert a + [row] == [row] && [row][1..] == [];
    } else {
      ResidentSplits(p, a[1..], row, key);
      assert (a + [row])[1..] == a[1..] + [row];
    }
  }

  lemma {:induction false} ResidentIsHeld(p: Problem, d: nat, n: nat)
    requires d < |p.devices| && n <= |p.previous|
    ensures Resident(p, p.previous[..n], p.devices[d].key) == HeldBy(p, d, n)
  {
    if n > 0 {
      ResidentIsHeld(p, d, n - 1);
      assert p.previous[..n] == p.previous[..n - 1] + [p.previous[n - 1]];
      ResidentSplits(p, p.previous[..n - 1], p.previous[n - 1], p.devices[d].key);
    }
  }

  /** The budget admits exactly the loads there is room for. */
  lemma BudgetIsRoom(p: Problem, d: nat, load: nat)
    requires d < |p.devices|
    ensures load <= Budget(p, d) <==> HasRoom(p, d, load)
  {
    ReserveIsLeast(p, d);
    assert Kept(p, d) == Reserve(p, d);
    ResidentIsHeld(p, d, |p.previous|);
    assert p.previous[..|p.previous|] == p.previous;
  }

  // ---- Eligible devices

  /** The device is healthy, of an allowed type, computes in the required type, and has room for the stage alone. */
  ghost predicate Takes(p: Problem, stage: nat, d: nat)
    requires stage < |p.stages| && d < |p.devices|
  {
    var dev := p.devices[d];
    && dev.health > 0.0
    && dev.deviceType in p.stages[stage].peak
    && p.scheduler.requiredDtype(dev.deviceType) in dev.dtypes
    && HasRoom(p, d, p.stages[stage].peak[dev.deviceType])
  }

  lemma EligibleExactly(p: Problem, stage: nat, d: nat)
    requires stage < |p.stages| && d < |p.devices|
    ensures Eligible(p, stage, d) <==> Takes(p, stage, d)
  {
    if p.devices[d].deviceType in p.stages[stage].peak {
      BudgetIsRoom(p, d, p.stages[stage].peak[p.devices[d].deviceType]);
    }
  }

  /** Why a device is refused: the first reason that applies. */
  lemma RejectionIsFirstReason(p: Problem, stage: nat, d: nat)
    requires stage < |p.stages| && d < |p.devices|
    ensures var dev, verdict := p.devices[d], Audit(p, stage, d);
            var typed := dev.deviceType in p.stages[stage].peak;
            var computes := p.scheduler.requiredDtype(dev.deviceType) in dev.dtypes;
            && (verdict == Rejected(Unhealthy) <==> dev.health <= 0.0)
            && (verdict == Rejected(TypeNotAllowed) <==> dev.health > 0.0 && !typed)
            && (verdict == Rejected(DtypeNotSupported) <==> dev.health > 0.0 && typed && !computes)
            && (verdict == Rejected(InsufficientMemory)
                <==> dev.health > 0.0 && typed && computes && !HasRoom(p, d, p.stages[stage].peak[dev.deviceType]))
  {
    if p.devices[d].deviceType in p.stages[stage].peak {
      BudgetIsRoom(p, d, p.stages[stage].peak[p.devices[d].deviceType]);
    }
  }

  // ---- Plans

  /** Bytes that the first `n` stages of a plan put on a device. */
  function LoadOn(p: Problem, plan: seq<nat>, d: nat, n: nat): nat
    requires n <= |plan| && n <= |p.stages| && d < |p.devices|
  {
    if n == 0 then 0
    else
      LoadOn(p, plan, d, n - 1)
      + (if plan[n - 1] == d && p.devices[d].deviceType in p.stages[n - 1].peak
         then p.stages[n - 1].peak[p.devices[d].deviceType] else 0)
  }

  /** How many of the first `n` stages of a plan a miner hosts. */
  function StagesOn(p: Problem, plan: seq<nat>, miner: string, n: nat): nat
    requires n <= |plan| && forall i :: 0 <= i < |plan| ==> plan[i] < |p.devices|
  {
    if n == 0 then 0
    else StagesOn(p, plan, miner, n - 1) + (if p.devices[plan[n - 1]].key.miner == miner then 1 else 0)
  }

  /** Stage `i` sits on a device of the right kind that has room for all the plan puts there. */
  ghost predicate SitsWell(p: Problem, plan: seq<nat>, i: nat)
    requires |plan| <= |p.stages| && (forall k :: 0 <= k < |plan| ==> plan[k] < |p.devices|) && i < |plan|
  {
    var dev := p.devices[plan[i]];
    && dev.health > 0.0
    && dev.deviceType in p.stages[i].peak
    && p.scheduler.requiredDtype(dev.deviceType) in dev.dtypes
    && HasRoom(p, plan[i], LoadOn(p, plan, plan[i], |plan|))
    && StagesOn(p, plan, dev.key.miner, |plan|) <= dev.maxStages
    && StagesOn(p, plan, dev.key.miner, |plan|) <= p.scheduler.maxStagesPerMiner
  }

  /** A device for every stage, each of the right kind and with room for all that is put there. */
  ghost predicate Places(p: Problem, plan: seq<nat>) {
    && |plan| == |p.stages| && (forall i :: 0 <= i < |plan| ==> plan[i] < |p.devices|)
    && forall i :: 0 <= i < |plan| ==> SitsWell(p, plan, i)
  }

  lemma {:induction false} LoadsAgree(p: Problem, plan: seq<nat>, d: nat, n: nat)
    requires WellFormed(p) && IsPlan(p, plan) && d < |p.devices| && n <= |plan|
    ensures IsPlan(p, plan[..n]) && PlanLoad(p, plan[..n], p.devices[d].key) == LoadOn(p, plan, d, n)
    ensures PlanHosted(p, plan[..n], p.devices[d].key.miner) == StagesOn(p, plan, p.devices[d].key.miner, n)
  {
    if n > 0 {
      LoadsAgree(p, plan, d, n - 1);
      assert plan[..n][..n - 1] == plan[..n - 1];
      SameKeySameBudget(p, d, plan[n - 1]);
    }
  }

  lemma {:induction false} LoadCoversStage(p: Problem, plan: seq<nat>, i: nat, n: nat)
    requires |plan| <= |p.stages| && i < n <= |plan| && plan[i] < |p.devices|
    requires p.devices[plan[i]].deviceType in p.stages[i].peak
    ensures p.stages[i].peak[p.devices[plan[i]].deviceType] <= LoadOn(p, plan, plan[i], n)
  {
    if i < n - 1 {
      LoadCoversStage(p, plan, i, n - 1);
    }
  }

  lemma LessHasRoom(p: Problem, d: nat, less: nat, load: nat)
    requires d < |p.devices| && less <= load && HasRoom(p, d, load)
    ensures HasRoom(p, d, less)
  {
  }

  lemma WithinIsSittingWell(p: Problem, plan: seq<nat>, i: nat)
    requires WellFormed(p) && IsPlan(p, plan) && i < |plan|
    ensures WithinAt(p, plan, i) <==> SitsWell(p, plan, i)
  {
    var d := plan[i];
    EligibleExactly(p, i, d);
    LoadsAgree(p, plan, d, |plan|);
    assert plan[..|plan|] == plan;
    BudgetIsRoom(p, d, LoadOn(p, plan, d, |plan|));
    if SitsWell(p, plan, i) {
      LoadCoversStage(p, plan, i, |plan|);
      LessHasRoom(p, d, p.stages[i].peak[p.devices[d].deviceType], LoadOn(p, plan, d, |plan|));
    }
  }

  /** The complete placements are exactly those. */
  lemma CompleteExactly(p: Problem, plan: seq<nat>)
    requires WellFormed(p)
    ensures Complete(p, plan) <==> Places(p, plan)
  {
    if IsPlan(p, plan) {
      forall i | 0 <= i < |plan| ensures WithinAt(p, plan, i) <==> SitsWell(p, plan, i) {
        WithinIsSittingWell(p, plan, i);
      }
    }
  }

  // ---- The answer

  ghost predicate SomeTakes(p: Problem, stage: nat)
    requires stage < |p.stages|
  {
    exists d: nat :: d < |p.devices| && Takes(p, stage, d)
  }

  ghost predicate Uses(p: Problem, plan: seq<nat>, kind: DeviceType) {
    exists i :: 0 <= i < |plan| && plan[i] < |p.devices| && p.devices[plan[i]].deviceType == kind
  }

  ghost predicate UsesAllRequired(p: Problem, plan: seq<nat>) {
    forall kind :: kind in p.scheduler.requiredTypes ==> Uses(p, plan, kind)
  }

  lemma SomeEligibleExactly(p: Problem, stage: nat)
    requires stage < |p.stages|
    ensures SomeEligible(p, stage) <==> SomeTakes(p, stage)
  {
    forall d: nat | d < |p.devices| ensures Eligible(p, stage, d) <==> Takes(p, stage, d) {
      EligibleExactly(p, stage, d);
    }
  }

  lemma TypesAreUsed(p: Problem, plan: seq<nat>)
    requires IsPlan(p, plan)
    ensures p.scheduler.requiredTypes <= TypesOf(p, plan) <==> UsesAllRequired(p, plan)
  {
    forall kind ensures kind in TypesOf(p, plan) <==> Uses(p, plan, kind) {
    }
  }

  /** Every stage from `k` on has a device that takes it alone. */
  ghost predicate AllTaken(p: Problem, k: nat) {
    forall s: nat :: k <= s < |p.stages| ==> SomeTakes(p, s)
  }

  /** Stage `s` is the first from `k` on that no device takes. */
  ghost predicate FirstUntaken(p: Problem, k: nat, s: nat) {
    k <= s < |p.stages| && !SomeTakes(p, s) && forall r: nat :: k <= r < s ==> SomeTakes(p, r)
  }

  lemma {:induction false} AuditFindsFirst(p: Problem, cost: Cost, k: nat)
    requires k <= |p.stages|
    ensures AllTaken(p, k) ==> AuditFrom(p, cost, k) == BeamFrom(p, Levels(p, cost), 0)
    ensures !AllTaken(p, k) ==>
              AuditFrom(p, cost, k).StageHasNoEligibleDevice? && FirstUntaken(p, k, AuditFrom(p, cost, k).stage)
    decreases |p.stages| - k
  {
    if k < |p.stages| {
      SomeEligibleExactly(p, k);
      if SomeEligible(p, k) {
        AuditFindsFirst(p, cost, k + 1);
        assert AllTaken(p, k) <==> AllTaken(p, k + 1);
      }
    }
  }

  lemma {:induction false} BeamNeverBlamesAStage(p: Problem, level: nat -> seq<State>, k: nat)
    requires k <= |p.stages|
    ensures !BeamFrom(p, level, k).StageHasNoEligibleDevice? && !BeamFrom(p, level, k).NoDevices?
    decreases |p.stages| - k
  {
    if k == |p.stages| {
      FirstCoveringIsFirst(p, level(k));
    } else {
      BeamNeverBlamesAStage(p, level, k + 1);
    }
  }

  /** The audits: no device at all, and the first stage that no device takes. */
  lemma AuditAnswersExactly(p: Problem, cost: Cost)
    requires WellFormed(p)
    ensures Answer(p, cost).NoDevices? <==> p.devices == []
    ensures forall s: nat ::
              Answer(p, cost) == StageHasNoEligibleDevice(s) <==> p.devices != [] && FirstUntaken(p, 0, s)
  {
    BeamNeverBlamesAStage(p, Levels(p, cost), 0);
    AuditFindsFirst(p, cost, 0);
  }

  lemma EveryStageTaken(p: Problem)
    requires AllTaken(p, 0)
    ensures forall s: nat :: s < |p.stages| ==> SomeEligible(p, s)
  {
    forall s: nat | s < |p.stages| ensures SomeEligible(p, s) {
      SomeEligibleExactly(p, s);
    }
  }

  lemma CompletionsExactly(p: Problem)
    requires WellFormed(p)
    ensures (exists full :: Complete(p, full)) <==> exists plan :: Places(p, plan)
  {
    forall plan ensures Complete(p, plan) <==> Places(p, plan) {
      CompleteExactly(p, plan);
    }
  }

  /** The capacity error: every stage alone has a device that takes it, and no plan places them all. */
  lemma CapacityAnswerExactly(p: Problem, cost: Cost)
    requires WellFormed(p)
    ensures var a := Answer(p, cost);
            && (a.CapacityExhausted?
                <==> p.devices != [] && AllTaken(p, 0) && !exists plan :: Places(p, plan))
            && (a.CapacityExhausted? ==> a.stage == 0)
  {
    AuditFindsFirst(p, cost, 0);
    CompletionsExactly(p);
    if p.devices != [] && AllTaken(p, 0) {
      EveryStageTaken(p);
      CapacityErrorIsExact(p, cost);
    }
  }

  /** A returned plan places every stage, uses every required device type, and carries its total cost. */
  lemma ReturnedPlanPlaces(p: Problem, cost: Cost)
    requires WellFormed(p) && Answer(p, cost).Placed?
    ensures var st := Answer(p, cost).chosen;
            Places(p, st.plan) && UsesAllRequired(p, st.plan) && st.score == TotalCost(cost, st.plan)
  {
    PlacedPlanIsSound(p, cost);
    ChosenStateIsSound(p, cost);
    ScoreIsTotal(p, cost, Answer(p, cost).chosen.plan);
    CompleteExactly(p, Answer(p, cost).chosen.plan);
    TypesAreUsed(p, Answer(p, cost).chosen.plan);
  }

  /**
   On every device, a returned plan puts at most what is free beside the reserve,
   and what the replaced plan gives back there: nothing, if nothing is free.
   */
  lemma PlacedPlanFitsFreeMemory(p: Problem, cost: Cost, d: nat)
    requires WellFormed(p) && Answer(p, cost).Placed? && d < |p.devices|
    ensures |Answer(p, cost).chosen.plan| == |p.stages|
    ensures HasRoom(p, d, LoadOn(p, Answer(p, cost).chosen.plan, d, |p.stages|))
  {
    var plan := Answer(p, cost).chosen.plan;
    PlacedPlanIsSound(p, cost);
    LoadsAgree(p, plan, d, |plan|);
    assert plan[..|plan|] == plan;
    BudgetIsRoom(p, d, LoadOn(p, plan, d, |p.stages|));
  }

  // ---- The least plan

  /** What the stages of a plan cost, each after the stages before it. */
  function TotalCost(cost: Cost, plan: seq<nat>): real {
    if plan == [] then 0.0 else TotalCost(cost, plan[..|plan| - 1]) + cost(plan[..|plan| - 1], plan[|plan| - 1])
  }

  const BILLION: real := 1_000_000_000.0

  /** `r` units of the ninth decimal are nearest to `x`; of two, the even one. */
  predicate Nearest(x: real, r: int) {
    -1.0 <= 2.0 * (x * BILLION - r as real) <= 1.0
    && (2.0 * (x * BILLION - r as real) == 1.0 || 2.0 * (x * BILLION - r as real) == -1.0 ==> r % 2 == 0)
  }

  /** The first string has the smaller character where they first differ, or ends there. */
  predicate EarlierAt(a: string, b: string, k: nat) {
    k <= |a| && k < |b| && a[..k] == b[..k] && (k == |a| || a[k] < b[k])
  }

  ghost predicate Earlier(a: string, b: string) { exists k :: EarlierAt(a, b, k) }

  ghost predicate NameEarlier(a: Key, b: Key) {
    Earlier(a.miner, b.miner) || (a.miner == b.miner && Earlier(a.deviceId, b.deviceId))
  }

  /** The first stage that the plans put on different devices is on the earlier name in `a`. */
  ghost predicate NamedEarlier(p: Problem, a: seq<nat>, b: seq<nat>, i: nat) {
    && i < |a| && i < |b| && a[i] < |p.devices| && b[i] < |p.devices|
    && (forall j :: 0 <= j < i ==> a[j] == b[j])
    && NameEarlier(p.devices[a[i]].key, p.devices[b[i]].key)
  }

  /** Cheaper by nearest units, or as cheap and earlier by name. */
  ghost predicate PlanBefore(p: Problem, cost: Cost, a: seq<nat>, b: seq<nat>) {
    exists r, s :: BeforeBy(p, cost, a, b, r, s)
  }

  ghost predicate BeforeBy(p: Problem, cost: Cost, a: seq<nat>, b: seq<nat>, r: int, s: int) {
    && Nearest(TotalCost(cost, a), r) && Nearest(TotalCost(cost, b), s)
    && (r < s || (r == s && exists i :: NamedEarlier(p, a, b, i)))
  }

  lemma RoundsToNearest(x: real)
    ensures Nearest(x, RoundNine(x))
  {
  }

  /** No other number is nearest, so `PlanBefore` compares what is rounded. */
  lemma NearestIsUnique(x: real, r: int, s: int)
    requires Nearest(x, r) && Nearest(x, s)
    ensures r == s
  {
    var y := x * BILLION;
    assert -1 <= r - s <= 1;
  }

  lemma {:induction false} ScoreIsTotal(p: Problem, cost: Cost, plan: seq<nat>)
    requires IsPlan(p, plan)
    ensures StateOf(p, cost, plan).score == TotalCost(cost, plan) && StateOf(p, cost, plan).plan == plan
  {
    if plan != [] {
      ScoreIsTotal(p, cost, plan[..|plan| - 1]);
      assert plan[..|plan| - 1] + [plan[|plan| - 1]] == plan;
    }
  }

  lemma {:induction false} LessIsEarlier(a: string, b: string)
    requires StringLess(a, b)
    ensures Earlier(a, b)
  {
    if a != [] && a[0] == b[0] {
      LessIsEarlier(a[1..], b[1..]);
      var k: nat :| EarlierAt(a[1..], b[1..], k);
      assert a[..k + 1] == [a[0]] + a[1..][..k] && b[..k + 1] == [b[0]] + b[1..][..k];
      assert EarlierAt(a, b, k + 1);
    } else {
      assert EarlierAt(a, b, 0);
    }
  }

  lemma {:induction false} SignaturesCompare(p: Problem, a: seq<nat>, b: seq<nat>)
    requires WellFormed(p) && |a| == |b|
    requires forall i :: 0 <= i < |a| ==> a[i] < |p.devices| && b[i] < |p.devices|
    requires Lex(StringLess, Signature(p, a), Signature(p, b))
    ensures exists i :: NamedEarlier(p, a, b, i)
  {
    var sa, sb := Signature(p, a), Signature(p, b);
    var ka, kb := p.devices[a[0]].key, p.devices[b[0]].key;
    assert sa == [ka.miner, ka.deviceId] + Signature(p, a[1..]);
    assert sb == [kb.miner, kb.deviceId] + Signature(p, b[1..]);
    if a[0] == b[0] {
      assert sa[1..][1..] == Signature(p, a[1..]) && sb[1..][1..] == Signature(p, b[1..]);
      SignaturesCompare(p, a[1..], b[1..]);
      var i: nat :| NamedEarlier(p, a[1..], b[1..], i);
      assert NamedEarlier(p, a, b, i + 1) by {
        forall j | 0 <= j < i + 1 ensures a[j] == b[j] {
          if j > 0 { assert a[1..][j - 1] == b[1..][j - 1]; }
        }
      }
    } else {
      SameKeySameBudget(p, a[0], b[0]);
      if ka.miner == kb.miner {
        assert sa[1..][0] == ka.deviceId && sb[1..][0] == kb.deviceId;
        LessIsEarlier(ka.deviceId, kb.deviceId);
      } else {
        LessIsEarlier(ka.miner, kb.miner);
      }
      assert NamedEarlier(p, a, b, 0);
    }
  }

  lemma RankedIsBefore(p: Problem, cost: Cost, a: seq<nat>, b: seq<nat>)
    requires WellFormed(p) && IsPlan(p, a) && IsPlan(p, b) && |a| == |b|
    requires RankLess(RankOf(p, StateOf(p, cost, a)), RankOf(p, StateOf(p, cost, b)))
    ensures PlanBefore(p, cost, a, b)
  {
    ScoreIsTotal(p, cost, a);
    ScoreIsTotal(p, cost, b);
    RoundsToNearest(TotalCost(cost, a));
    RoundsToNearest(TotalCost(cost, b));
    var r, s := RoundNine(TotalCost(cost, a)), RoundNine(TotalCost(cost, b));
    if r == s {
      SignaturesCompare(p, a, b);
    }
    assert BeforeBy(p, cost, a, b, r, s);
  }

  /**
   A beam that was never cut returns, of all plans that place every stage and use
   every required type, the one that comes before all others; and one is returned
   whenever there is one.
   */
  lemma UncutAnswerIsLeast(p: Problem, cost: Cost, plan: seq<nat>)
    requires WellFormed(p) && NeverTruncated(p, cost) && p.devices != []
    requires Places(p, plan) && UsesAllRequired(p, plan)
    ensures Answer(p, cost).Placed?
    ensures plan == Answer(p, cost).chosen.plan || PlanBefore(p, cost, Answer(p, cost).chosen.plan, plan)
  {
    CompleteExactly(p, plan);
    TypesAreUsed(p, plan);
    PlacedStagesAreTaken(p, plan);
    EveryStageTaken(p);
    UntruncatedPlanIsLeast(p, cost, plan);
    var best := Answer(p, cost).chosen;
    ChosenStateIsSound(p, cost);
    if plan != best.plan {
      RankedIsBefore(p, cost, best.plan, plan);
    }
  }

  lemma ChosenStateIsSound(p: Problem, cost: Cost)
    requires WellFormed(p) && Answer(p, cost).Placed?
    ensures Sound(p, cost, Answer(p, cost).chosen, |p.stages|)
  {
    PlacedComesFromLastLevel(p, cost);
    FirstCoveringIsFirst(p, Level(p, cost, |p.stages|));
    EveryLevelIsSound(p, cost, |p.stages|);
    assert Answer(p, cost).chosen in Level(p, cost, |p.stages|);
  }

  lemma PlacedStagesAreTaken(p: Problem, plan: seq<nat>)
    requires Places(p, plan)
    ensures AllTaken(p, 0)
  {
    forall s: nat | s < |p.stages| ensures SomeTakes(p, s) {
      assert SitsWell(p, plan, s);
      LoadCoversStage(p, plan, s, |plan|);
      LessHasRoom(p, plan[s], p.stages[s].peak[p.devices[plan[s]].deviceType], LoadOn(p, plan, plan[s], |plan|));
      assert Takes(p, s, plan[s]);
    }
  }
}
