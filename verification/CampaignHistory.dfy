/** Who makes lease generations grow and the lifecycle change, over every run. */
module CampaignHistory {
  import opened Campaign
  import opened CampaignInvariant
  import opened CampaignAccept
  import opened CampaignRun
  import opened CampaignTheorems
  import opened CampaignReports
  import opened CampaignRules
  import opened Wrappers

  // ---- Generations

  /** All work units there are keep their generation. */
  ghost predicate SameGenerations(t: Training, t': Training) {
    && |t.rounds| <= |t'.rounds|
    && (forall i :: 0 <= i < |t.rounds| ==> |t'.rounds[i].works| == |t.rounds[i].works|)
    && (forall i, j :: 0 <= i < |t.rounds| && 0 <= j < |t.rounds[i].works|
                       ==> t'.rounds[i].works[j].generation == t.rounds[i].works[j].generation)
  }

  /** The last round is replaced by one with the same generations, and others may follow. */
  lemma LastRoundKeepsGenerations(t: Training, t': Training)
    requires t.rounds != [] && |t.rounds| <= |t'.rounds|
    requires forall i :: 0 <= i < |t.rounds| - 1 ==> t'.rounds[i] == t.rounds[i]
    requires var r, r' := t.rounds[|t.rounds| - 1], t'.rounds[|t.rounds| - 1];
             && |r'.works| == |r.works|
             && forall j :: 0 <= j < |r.works| ==> r'.works[j].generation == r.works[j].generation
    ensures SameGenerations(t, t')
  {
  }

  lemma ClosingKeepsGenerations(cfg: Config, t: Training, j: nat, req: Request, outputHash: Digest, now: real)
    requires Closing(cfg, t, j, req, now)
    ensures SameGenerations(t, ClosingTraining(cfg, t, j, req, outputHash, now))
  {
    LastRoundKeepsGenerations(t, ClosingTraining(cfg, t, j, req, outputHash, now));
  }

  lemma ChangeKeepsGenerations(cfg: Config, t: Training, c: Change)
    requires Enabled(cfg, t, c) && !c.GrantLease?
    ensures SameGenerations(t, Apply(cfg, t, c))
  {
    match c
    case SweepLeases(_) => if HasCurrent(t) { LastRoundKeepsGenerations(t, Apply(cfg, t, c)); }
    case RenewLease(_, _) => LastRoundKeepsGenerations(t, Apply(cfg, t, c));
    case AcceptUpdate(_, _, _) => LastRoundKeepsGenerations(t, Apply(cfg, t, c));
    case AcceptAndClose(j, req, outputHash, at) => ClosingKeepsGenerations(cfg, t, j, req, outputHash, at);
    case _ =>
  }

  lemma AfterKeepsGenerations(cfg: Config, t: Training, op: Op, intact: bool, now: real)
    requires QuorumCloses(cfg, Apply(cfg, t, FirstChange(cfg, t, op, now)), op, now) && !op.Claim?
    ensures SameGenerations(t, After(cfg, t, op, intact, now))
  {
    var mid := Apply(cfg, t, FirstChange(cfg, t, op, now));
    ChangeKeepsGenerations(cfg, t, FirstChange(cfg, t, op, now));
    SecondIsEnabled(cfg, t, op, intact, now);
    ChangeKeepsGenerations(cfg, mid, SecondChange(cfg, t, mid, op, intact, now));
  }

  /** The operation grants a lease on unit `j` of round `i`. */
  ghost predicate Leases(cfg: Config, t: Training, e: Timed, i: nat, j: nat) {
    && e.cut.None? && e.authorized && e.op.Claim?
    && i == t.version && Claimable(t, cfg.cellHash(e.op.cellId), e.now, j)
  }

  /** Every generation grows by one if the operation grants a lease on the unit, and else stays. */
  ghost predicate GrowsBy(cfg: Config, t: Training, t': Training, e: Timed) {
    && |t.rounds| <= |t'.rounds|
    && (forall i :: 0 <= i < |t.rounds| ==> |t'.rounds[i].works| == |t.rounds[i].works|)
    && (forall i, j :: 0 <= i < |t.rounds| && 0 <= j < |t.rounds[i].works| ==>
          t'.rounds[i].works[j].generation
          == t.rounds[i].works[j].generation + (if Leases(cfg, t, e, i, j) then 1 else 0))
  }

  lemma ClaimGrows(cfg: Config, t: Training, u: Training, t': Training, e: Timed, reply: Reply)
    requires e.op.Claim? && e.authorized && e.cut.None?
    requires ClaimGoes(cfg, t, u, t', cfg.cellHash(e.op.cellId), e.op.token, e.now, reply)
    ensures GrowsBy(cfg, t, t', e)
  {
  }

  lemma SameGrows(cfg: Config, t: Training, t': Training, e: Timed)
    requires SameGenerations(t, t') && (e.cut.Some? || !e.authorized || !e.op.Claim?)
    ensures GrowsBy(cfg, t, t', e)
  {
  }

  lemma GrowthAt(cfg: Config, s: System, e: Timed)
    requires Inv(cfg, s.state.training)
    ensures GrowsBy(cfg, s.state.training, Happen(cfg, s, e).state.training, e)
  {
    var t := s.state.training;
    if e.cut.Some? || (!e.authorized && !e.op.Recover?) {
      SameGrows(cfg, t, Happen(cfg, s, e).state.training, e);
    } else if e.op.Claim? {
      ClaimAt(cfg, s, e.op.cellId, e.op.token, e.now);
      ClaimedGrows(cfg, s, e);
    } else {
      AfterKeeps(cfg, t, e.op, LedgerOk(cfg, s), e.now);
      StepFacts(cfg, s, e.op, e.authorized, e.now);
      AfterKeepsGenerations(cfg, t, e.op, LedgerOk(cfg, s), e.now);
      SameGrows(cfg, t, Happen(cfg, s, e).state.training, e);
    }
  }

  lemma ClaimedGrows(cfg: Config, s: System, e: Timed)
    requires e.op.Claim? && e.authorized && e.cut.None? && ClaimStepGoes(cfg, s, e.op.cellId, e.op.token, e.now)
    ensures GrowsBy(cfg, s.state.training, Happen(cfg, s, e).state.training, e)
  {
    var (s', reply) := Step(cfg, s, Claim(e.op.cellId, e.op.token), true, e.now);
    ClaimGrows(cfg, s.state.training, Step(cfg, s, ExpireLeases, true, e.now).0.state.training, s'.state.training, e,
      reply);
  }

  /**
   The generation of a work unit grows only when a claim is granted on it, then by
   one, and a claim is granted only while the campaign runs and a round is under
   way, to a cell without a lease or an accepted update, on a unit in the queue.
   */
  lemma GenerationsGrowExactlyThen(cfg: Config, born: real, ops: seq<Timed>, k: nat)
    requires ValidConfig(cfg) && k < |ops|
    ensures GrowsBy(cfg, TrainingAt(cfg, born, ops, k), TrainingAt(cfg, born, ops, k + 1), ops[k])
  {
    assert ops[..k + 1][..k] == ops[..k];
    RunKeeps(cfg, born, ops[..k]);
    GrowthAt(cfg, Run(cfg, born, ops[..k]), ops[k]);
  }

  lemma NoGrowth(cfg: Config, t: Training, t': Training, e: Timed)
    requires GrowsBy(cfg, t, t', e) && t.lifecycle != Running
    ensures SameGenerations(t, t')
  {
    forall i, j | 0 <= i < |t.rounds| && 0 <= j < |t.rounds[i].works|
      ensures t'.rounds[i].works[j].generation == t.rounds[i].works[j].generation
    {
      assert !Leases(cfg, t, e, i, j);
    }
  }

  lemma SameGenerationsTwice(a: Training, b: Training, c: Training)
    requires SameGenerations(a, b) && SameGenerations(b, c)
    ensures SameGenerations(a, c)
  {
  }

  ghost predicate NotRunningAt(cfg: Config, born: real, ops: seq<Timed>, k: nat)
    requires k <= |ops|
  {
    TrainingAt(cfg, born, ops, k).lifecycle != Running
  }

  /** While a campaign is paused or finalized, nothing is leased: no generation of any unit grows. */
  lemma {:induction false} StoppedLeasesNothing(cfg: Config, born: real, ops: seq<Timed>, k: nat, n: nat)
    requires ValidConfig(cfg) && k <= n <= |ops|
    requires forall m: nat :: k <= m < n ==> NotRunningAt(cfg, born, ops, m)
    ensures SameGenerations(TrainingAt(cfg, born, ops, k), TrainingAt(cfg, born, ops, n))
    decreases n
  {
    if k < n {
      StoppedLeasesNothing(cfg, born, ops, k, n - 1);
      GenerationsGrowExactlyThen(cfg, born, ops, n - 1);
      assert NotRunningAt(cfg, born, ops, n - 1);
      NoGrowth(cfg, TrainingAt(cfg, born, ops, n - 1), TrainingAt(cfg, born, ops, n), ops[n - 1]);
      SameGenerationsTwice(TrainingAt(cfg, born, ops, k), TrainingAt(cfg, born, ops, n - 1),
        TrainingAt(cfg, born, ops, n));
    }
  }

  // ---- Lifecycle

  /** The lifecycle after an operation: only pausing, resuming and finalizing change it, and nothing unfinalizes. */
  function LifecycleAfter(cfg: Config, t: Training, e: Timed): Lifecycle {
    if e.cut.Some? || !e.authorized then t.lifecycle
    else
      match e.op
      case SetLifecycle(pause) =>
        if t.lifecycle == Finalized then Finalized else if pause then Paused else Running
      case Finalize(evaluated, allowIncomplete) =>
        if evaluated && (allowIncomplete || t.version == cfg.target) then Finalized else t.lifecycle
      case _ => t.lifecycle
  }

  lemma ChangeKeepsLifecycle(cfg: Config, t: Training, c: Change)
    requires Enabled(cfg, t, c) && !c.Bookkeeping?
    ensures Apply(cfg, t, c).lifecycle == t.lifecycle
  {
  }

  lemma AfterSetsLifecycle(cfg: Config, t: Training, e: Timed, intact: bool)
    requires QuorumCloses(cfg, Apply(cfg, t, FirstChange(cfg, t, e.op, e.now)), e.op, e.now)
    requires t.complete <==> t.version == cfg.target
    requires e.cut.None? && (e.authorized || e.op.Recover?)
    ensures After(cfg, t, e.op, intact, e.now).lifecycle == LifecycleAfter(cfg, t, e)
  {
    var first := FirstChange(cfg, t, e.op, e.now);
    var mid := Apply(cfg, t, first);
    ChangeKeepsLifecycle(cfg, t, first);
    SecondIsEnabled(cfg, t, e.op, intact, e.now);
    var second := SecondChange(cfg, t, mid, e.op, intact, e.now);
    if !second.Bookkeeping? {
      ChangeKeepsLifecycle(cfg, mid, second);
    }
  }

  lemma LifecycleAt(cfg: Config, s: System, e: Timed)
    requires Inv(cfg, s.state.training)
    ensures Happen(cfg, s, e).state.training.lifecycle == LifecycleAfter(cfg, s.state.training, e)
  {
    var t := s.state.training;
    if e.cut.None? && (e.authorized || e.op.Recover?) {
      AfterKeeps(cfg, t, e.op, LedgerOk(cfg, s), e.now);
      StepFacts(cfg, s, e.op, e.authorized, e.now);
      assert t.complete <==> t.version == cfg.target;
      AfterSetsLifecycle(cfg, t, e, LedgerOk(cfg, s));
    }
  }

  lemma LifecycleExactly(cfg: Config, born: real, ops: seq<Timed>, k: nat)
    requires ValidConfig(cfg) && k < |ops|
    ensures TrainingAt(cfg, born, ops, k + 1).lifecycle == LifecycleAfter(cfg, TrainingAt(cfg, born, ops, k), ops[k])
  {
    assert ops[..k + 1][..k] == ops[..k];
    RunKeeps(cfg, born, ops[..k]);
    LifecycleAt(cfg, Run(cfg, born, ops[..k]), ops[k]);
  }

  lemma FinalizedOnce(cfg: Config, born: real, ops: seq<Timed>, k: nat)
    requires ValidConfig(cfg) && k < |ops| && TrainingAt(cfg, born, ops, k).lifecycle == Finalized
    ensures TrainingAt(cfg, born, ops, k + 1).lifecycle == Finalized
    ensures SameGenerations(TrainingAt(cfg, born, ops, k), TrainingAt(cfg, born, ops, k + 1))
  {
    LifecycleExactly(cfg, born, ops, k);
    GenerationsGrowExactlyThen(cfg, born, ops, k);
    NoGrowth(cfg, TrainingAt(cfg, born, ops, k), TrainingAt(cfg, born, ops, k + 1), ops[k]);
  }

  /** A finalized campaign stays finalized, and leases nothing any more. */
  lemma {:induction false} FinalizedForGood(cfg: Config, born: real, ops: seq<Timed>, k: nat, n: nat)
    requires ValidConfig(cfg) && k <= n <= |ops| && TrainingAt(cfg, born, ops, k).lifecycle == Finalized
    ensures TrainingAt(cfg, born, ops, n).lifecycle == Finalized
    ensures SameGenerations(TrainingAt(cfg, born, ops, k), TrainingAt(cfg, born, ops, n))
    decreases n
  {
    if k < n {
      FinalizedForGood(cfg, born, ops, k, n - 1);
      FinalizedOnce(cfg, born, ops, n - 1);
      SameGenerationsTwice(TrainingAt(cfg, born, ops, k), TrainingAt(cfg, born, ops, n - 1),
        TrainingAt(cfg, born, ops, n));
    }
  }

  // ---- Administration

  /** What pausing or resuming, finalizing and recovering answer. */
  ghost predicate AdministrationAnswers(
    cfg: Config, s: System, pause: bool, evaluated: bool, allowIncomplete: bool, filesIntact: bool, now: real,
    unbroken: bool)
  {
    var t := s.state.training;
    && Step(cfg, s, Op.SetLifecycle(pause), true, now).1
       == (if t.lifecycle == Finalized then Failed("already finalized") else Done)
    && Step(cfg, s, Op.Finalize(evaluated, allowIncomplete), true, now).1
       == (if t.version < cfg.target && !allowIncomplete then Failed("target rounds incomplete")
           else if !evaluated then Failed("evaluation changed during finalize") else Done)
    && Step(cfg, s, Op.Recover(filesIntact), true, now).1
       == (if !unbroken then Failed("ledger invalid") else if !filesIntact then Failed("artifacts invalid") else Done)
  }

  lemma AnswersAt(
    cfg: Config, s: System, pause: bool, evaluated: bool, allowIncomplete: bool, filesIntact: bool, now: real,
    unbroken: bool)
    requires unbroken <==> LedgerOk(cfg, s)
    requires s.state.training.version <= cfg.target
    requires s.state.training.complete <==> s.state.training.version == cfg.target
    ensures AdministrationAnswers(cfg, s, pause, evaluated, allowIncomplete, filesIntact, now, unbroken)
  {
  }

  /** Over every run; recovery takes the ledger if and only if no operation broke it. */
  lemma AdministrationExactly(
    cfg: Config, born: real, ops: seq<Timed>, pause: bool, evaluated: bool, allowIncomplete: bool, filesIntact: bool,
    now: real)
    requires ValidConfig(cfg)
    ensures AdministrationAnswers(cfg, Run(cfg, born, ops), pause, evaluated, allowIncomplete, filesIntact, now,
            NoBreak(cfg, born, ops))
  {
    LedgerVerifiesExactlyWhenUnbroken(cfg, born, ops);
    VersionWithinTarget(cfg, born, ops);
    AnswersAt(cfg, Run(cfg, born, ops), pause, evaluated, allowIncomplete, filesIntact, now, NoBreak(cfg, born, ops));
  }

  lemma VersionWithinTarget(cfg: Config, born: real, ops: seq<Timed>)
    requires ValidConfig(cfg)
    ensures var t := Reached(cfg, born, ops);
            t.version <= cfg.target && (t.complete <==> t.version == cfg.target)
  {
    RunKeeps(cfg, born, ops);
  }
}
