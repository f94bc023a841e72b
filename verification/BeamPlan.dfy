/**
 What a placement is, independently of the beam: a plan names a device for each
 stage in order, and is good when every device it uses stays within its budget
 and every miner within its stage limit.
 */
module BeamPlan {
  import opened Placement
  import opened FeasibilitySearch

  predicate IsPlan(p: Problem, plan: seq<nat>) {
    |plan| <= |p.stages| && forall i :: 0 <= i < |plan| ==> plan[i] < |p.devices|
  }

  function PlanLoad(p: Problem, plan: seq<nat>, key: Key): nat
    requires IsPlan(p, plan)
  {
    if plan == [] then 0
    else
      var k := |plan| - 1;
      PlanLoad(p, plan[..k], key) + (if p.devices[plan[k]].key == key then Peak(p, k, plan[k]) else 0)
  }

  function PlanHosted(p: Problem, plan: seq<nat>, miner: string): nat
    requires IsPlan(p, plan)
  {
    if plan == [] then 0
    else
      var k := |plan| - 1;
      PlanHosted(p, plan[..k], miner) + (if p.devices[plan[k]].key.miner == miner then 1 else 0)
  }

  predicate WithinAt(p: Problem, plan: seq<nat>, i: nat)
    requires IsPlan(p, plan) && i < |plan|
  {
    var key := p.devices[plan[i]].key;
    Eligible(p, i, plan[i]) && PlanLoad(p, plan, key) <= Budget(p, plan[i])
      && PlanHosted(p, plan, key.miner) <= Limit(p, plan[i])
  }

  ghost predicate Good(p: Problem, plan: seq<nat>) {
    IsPlan(p, plan) && forall i :: 0 <= i < |plan| ==> WithinAt(p, plan, i)
  }

  /** A good plan for every stage. */
  ghost predicate Complete(p: Problem, plan: seq<nat>) {
    Good(p, plan) && |plan| == |p.stages|
  }

  ghost predicate Completable(p: Problem, plan: seq<nat>) {
    exists full :: Complete(p, full) && plan <= full
  }

  /** The usage dictionaries say what the plan loads. */
  ghost predicate Tracks(p: Problem, plan: seq<nat>, used: map<Key, nat>, counts: map<string, nat>)
    requires IsPlan(p, plan)
  {
    && (forall key :: Get(used, key) == PlanLoad(p, plan, key))
    && (forall miner :: Get(counts, miner) == PlanHosted(p, plan, miner))
  }

  lemma TracksStep(p: Problem, plan: seq<nat>, used: map<Key, nat>, counts: map<string, nat>, d: nat)
    requires IsPlan(p, plan + [d]) && IsPlan(p, plan) && d < |p.devices| && Tracks(p, plan, used, counts)
    ensures Tracks(p, plan + [d], Occupy(p, |plan|, d, used), CountIn(p, d, counts))
  {
    assert (plan + [d])[..|plan|] == plan;
  }

  lemma {:induction false} LoadGrows(p: Problem, plan: seq<nat>, k: nat, key: Key)
    requires IsPlan(p, plan) && k <= |plan|
    ensures PlanLoad(p, plan[..k], key) <= PlanLoad(p, plan, key)
    ensures PlanHosted(p, plan[..k], key.miner) <= PlanHosted(p, plan, key.miner)
  {
    if k < |plan| {
      LoadGrows(p, plan[..|plan| - 1], k, key);
      assert plan[..|plan| - 1][..k] == plan[..k];
    } else {
      assert plan[..k] == plan;
    }
  }

  lemma PrefixOfGoodIsGood(p: Problem, plan: seq<nat>, k: nat)
    requires Good(p, plan) && k <= |plan|
    ensures Good(p, plan[..k])
  {
    forall i | 0 <= i < k ensures WithinAt(p, plan[..k], i) {
      assert WithinAt(p, plan, i);
      LoadGrows(p, plan, k, p.devices[plan[i]].key);
    }
  }

  /** A used device carries the load of some stage of the plan. */
  lemma {:induction false} UsedByPlan(p: Problem, plan: seq<nat>, key: Key)
    requires IsPlan(p, plan)
    ensures PlanLoad(p, plan, key) > 0 ==> exists i :: 0 <= i < |plan| && p.devices[plan[i]].key == key
    ensures PlanHosted(p, plan, key.miner) > 0
            ==> exists i :: 0 <= i < |plan| && p.devices[plan[i]].key.miner == key.miner
  {
    if plan != [] {
      var k := |plan| - 1;
      UsedByPlan(p, plan[..k], key);
      assert p.devices[plan[k]].key == key || PlanLoad(p, plan[..k], key) == PlanLoad(p, plan, key);
      assert p.devices[plan[k]].key.miner == key.miner
             || PlanHosted(p, plan[..k], key.miner) == PlanHosted(p, plan, key.miner);
      assert forall i :: 0 <= i < k ==> plan[..k][i] == plan[i];
    }
  }

  function AsChoice(plan: seq<nat>): (m: map<nat, nat>)
    ensures forall i: nat :: i in m <==> i < |plan|
    ensures forall i: nat :: i < |plan| ==> m[i] == plan[i]
  {
    map i: nat | 0 <= i < |plan| :: plan[i]
  }

  /** The load of a plan splits into the load of a prefix and of the stages after it. */
  lemma {:induction false} LoadSplits(p: Problem, full: seq<nat>, k: nat, key: Key)
    requires IsPlan(p, full) && k <= |full|
    ensures Chooses(p, Range(k, |full|), AsChoice(full))
    ensures PlanLoad(p, full, key) == PlanLoad(p, full[..k], key) + Load(p, Range(k, |full|), AsChoice(full), key)
    ensures PlanHosted(p, full, key.miner)
            == PlanHosted(p, full[..k], key.miner) + Hosted(p, Range(k, |full|), AsChoice(full), key.miner)
    decreases |full| - k
  {
    if k == |full| {
      assert full[..k] == full;
    } else {
      LoadSplits(p, full, k + 1, key);
      assert full[..k + 1][..k] == full[..k];
      assert Range(k, |full|)[1..] == Range(k + 1, |full|);
    }
  }

  lemma RestFits(p: Problem, plan: seq<nat>, full: seq<nat>, used: map<Key, nat>, counts: map<string, nat>)
    requires IsPlan(p, plan) && Tracks(p, plan, used, counts) && Complete(p, full) && plan <= full
    ensures StagesOf(p, Range(|plan|, |p.stages|)) && Fits(p, Range(|plan|, |p.stages|), used, counts, AsChoice(full))
  {
    var rest := Range(|plan|, |p.stages|);
    assert full[..|plan|] == plan;
    LoadSplits(p, full, |plan|, Key("", ""));
    forall i | 0 <= i < |rest| ensures StageFits(p, rest, used, counts, AsChoice(full), i) {
      assert WithinAt(p, full, rest[i]);
      LoadSplits(p, full, |plan|, p.devices[full[rest[i]]].key);
    }
  }

  /**
   The search answers the right question: a good prefix extends to a complete
   placement exactly when the remaining stages fit on top of what it uses.
   */
  lemma CompletableMeansFeasible(p: Problem, plan: seq<nat>, used: map<Key, nat>, counts: map<string, nat>)
    requires WellFormed(p) && Good(p, plan) && Tracks(p, plan, used, counts)
    ensures StagesOf(p, Range(|plan|, |p.stages|))
    ensures Completable(p, plan) <==> Feasible(p, Range(|plan|, |p.stages|), used, counts)
  {
    if Completable(p, plan) {
      var full :| Complete(p, full) && plan <= full;
      RestFits(p, plan, full, used, counts);
    }
    if Feasible(p, Range(|plan|, |p.stages|), used, counts) {
      var choice :| Fits(p, Range(|plan|, |p.stages|), used, counts, choice);
      ChoiceCompletes(p, plan, used, counts, choice);
    }
  }

  function Append(plan: seq<nat>, choice: map<nat, nat>, n: nat): (full: seq<nat>)
    requires |plan| <= n && forall i :: |plan| <= i < n ==> i in choice
    ensures |full| == n && plan <= full
    ensures forall i :: |plan| <= i < n ==> full[i] == choice[i]
  {
    plan + seq(n - |plan|, i requires 0 <= i < n - |plan| => choice[|plan| + i])
  }

  /** A device the prefix uses has room for what the later stages add to it. */
  lemma PrefixHasRoom(
    p: Problem, plan: seq<nat>, used: map<Key, nat>, counts: map<string, nat>, rest: seq<nat>, choice: map<nat, nat>,
    i: nat)
    requires WellFormed(p) && Good(p, plan) && Tracks(p, plan, used, counts) && i < |plan|
    requires StagesOf(p, rest) && Fits(p, rest, used, counts, choice)
    ensures var key := p.devices[plan[i]].key;
            && PlanLoad(p, plan, key) + Load(p, rest, choice, key) <= Budget(p, plan[i])
            && PlanHosted(p, plan, key.miner) + Hosted(p, rest, choice, key.miner) <= Limit(p, plan[i])
  {
    var key := p.devices[plan[i]].key;
    assert WithinAt(p, plan, i);
    ChosenWhenLoaded(p, rest, choice, key);
    if Load(p, rest, choice, key) > 0 {
      var j :| 0 <= j < |rest| && p.devices[choice[rest[j]]].key == key;
      assert StageFits(p, rest, used, counts, choice, j);
      SameKeySameBudget(p, plan[i], choice[rest[j]]);
    }
    if Hosted(p, rest, choice, key.miner) > 0 {
      var j :| 0 <= j < |rest| && p.devices[choice[rest[j]]].key.miner == key.miner;
      assert StageFits(p, rest, used, counts, choice, j);
      SameKeySameBudget(p, plan[i], choice[rest[j]]);
    }
  }

  lemma ChoiceCompletes(
    p: Problem, plan: seq<nat>, used: map<Key, nat>, counts: map<string, nat>, choice: map<nat, nat>)
    requires WellFormed(p) && Good(p, plan) && Tracks(p, plan, used, counts)
    requires StagesOf(p, Range(|plan|, |p.stages|))
    requires Fits(p, Range(|plan|, |p.stages|), used, counts, choice)
    ensures Completable(p, plan)
  {
    var rest := Range(|plan|, |p.stages|);
    forall i | |plan| <= i < |p.stages| ensures i in choice && choice[i] < |p.devices| {
      assert rest[i - |plan|] == i;
    }
    var full := Append(plan, choice, |p.stages|);
    assert full[..|plan|] == plan;
    forall i | 0 <= i < |full| ensures WithinAt(p, full, i) {
      var key := p.devices[full[i]].key;
      LoadSplits(p, full, |plan|, key);
      SameChoiceSameLoad(p, rest, AsChoice(full), choice, key);
      if i < |plan| {
        assert WithinAt(p, plan, i);
        PrefixHasRoom(p, plan, used, counts, rest, choice, i);
      } else {
        assert rest[i - |plan|] == i;
        assert StageFits(p, rest, used, counts, choice, i - |plan|);
      }
    }
    assert Complete(p, full);
  }

  /** Adding one stage keeps a plan good exactly when the device is open to it. */
  lemma GoodStep(p: Problem, plan: seq<nat>, used: map<Key, nat>, counts: map<string, nat>, d: nat)
    requires WellFormed(p) && IsPlan(p, plan) && Tracks(p, plan, used, counts)
    requires |plan| < |p.stages| && d < |p.devices|
    ensures Good(p, plan + [d]) <==> Good(p, plan) && Open(p, |plan|, d, used, counts)
  {
    var next := plan + [d];
    assert next[..|plan|] == plan;
    if Good(p, next) {
      PrefixOfGoodIsGood(p, next, |plan|);
      assert WithinAt(p, next, |plan|);
    }
    if Good(p, plan) && Open(p, |plan|, d, used, counts) {
      forall i | 0 <= i < |next| ensures WithinAt(p, next, i) {
        if i < |plan| {
          assert WithinAt(p, plan, i);
          SameKeySameBudget(p, d, plan[i]);
        }
      }
    }
  }

  /** Every complete placement leaves the reserve of each device it loads untouched. */
  lemma CompletePlanKeepsReserve(p: Problem, plan: seq<nat>, d: nat)
    requires WellFormed(p) && Good(p, plan) && d < |p.devices|
    ensures PlanLoad(p, plan, p.devices[d].key) <= Budget(p, d)
    ensures PlanLoad(p, plan, p.devices[d].key) > 0
            ==> PlanLoad(p, plan, p.devices[d].key) + Reserve(p, d) <= p.devices[d].totalBytes
  {
    UsedByPlan(p, plan, p.devices[d].key);
    if PlanLoad(p, plan, p.devices[d].key) > 0 {
      var i :| 0 <= i < |plan| && p.devices[plan[i]].key == p.devices[d].key;
      SameKeySameBudget(p, d, plan[i]);
      assert WithinAt(p, plan, i);
    }
  }
}
