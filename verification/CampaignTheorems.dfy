/** What holds over whole runs of the coordinator. */
module CampaignTheorems {
  import opened Ledger
  import opened Campaign
  import opened CampaignInvariant
  import opened CampaignAccept
  import opened CampaignRun
  import opened Wrappers

  // ---- What never changes back

  /** Completed rounds and recorded submissions are final, generations never decrease. */
  ghost predicate Evolves(t: Training, t': Training) {
    && t.version <= |t.rounds| && t'.version <= |t'.rounds|
    && t.version <= t'.version && |t.rounds| <= |t'.rounds|
    && (forall i :: 0 <= i < t.version ==> t'.rounds[i] == t.rounds[i])
    && (forall i :: 0 <= i < |t.rounds| ==> |t'.rounds[i].works| == |t.rounds[i].works|)
    && (forall i, j :: 0 <= i < |t.rounds| && 0 <= j < |t.rounds[i].works|
                       ==> t.rounds[i].works[j].generation <= t'.rounds[i].works[j].generation)
    && (forall x :: x in t.submissions ==> x in t'.submissions && t'.submissions[x] == t.submissions[x])
  }

  /** The little of the invariant that evolution depends on. */
  predicate LastIsCurrent(t: Training) {
    t.version <= |t.rounds| && (HasCurrent(t) ==> |t.rounds| == t.version + 1)
  }

  /** Replacing the current round by one with no smaller generations. */
  lemma PutRoundEvolves(t: Training, t': Training)
    requires LastIsCurrent(t) && HasCurrent(t)
    requires t'.version == t.version && |t'.rounds| == |t.rounds|
    requires forall i :: 0 <= i < |t.rounds| - 1 ==> t'.rounds[i] == t.rounds[i]
    requires var r, r' := CurrentRound(t), t'.rounds[|t.rounds| - 1];
             && |r'.works| == |r.works|
             && forall j :: 0 <= j < |r.works| ==> r.works[j].generation <= r'.works[j].generation
    requires forall x :: x in t.submissions ==> x in t'.submissions && t'.submissions[x] == t.submissions[x]
    ensures Evolves(t, t')
  {
  }

  /** Closing the last round: one of its work units changed status, a round may follow it. */
  lemma CloseRoundEvolves(t: Training, t': Training, k: nat, j: nat, w: Work)
    requires t.version <= k + 1 == |t.rounds| <= |t'.rounds| && t.version <= k && k + 1 == t'.version
    requires forall i :: 0 <= i < k ==> t'.rounds[i] == t.rounds[i]
    requires j < |t.rounds[k].works| && w.generation == t.rounds[k].works[j].generation
    requires t'.rounds[k].works == t.rounds[k].works[j := w]
    requires forall x :: x in t.submissions ==> x in t'.submissions && t'.submissions[x] == t.submissions[x]
    ensures Evolves(t, t')
  {
  }

  lemma ClosingEvolves(cfg: Config, t: Training, c: Change)
    requires LastIsCurrent(t) && Enabled(cfg, t, c) && c.AcceptAndClose?
    ensures Evolves(t, Apply(cfg, t, c))
  {
    var t' := Apply(cfg, t, c);
    var k := |t.rounds| - 1;
    forall i | 0 <= i < k ensures t'.rounds[i] == t.rounds[i] {
    }
    CloseRoundEvolves(t, t', k, c.work, t'.rounds[k].works[c.work]);
  }

  lemma ChangeEvolves(cfg: Config, t: Training, c: Change)
    requires LastIsCurrent(t) && Enabled(cfg, t, c)
    ensures Evolves(t, Apply(cfg, t, c))
  {
    match c
    case SweepLeases(at) => if HasCurrent(t) { PutRoundEvolves(t, Apply(cfg, t, c)); }
    case GrantLease(_, _, _, _) => PutRoundEvolves(t, Apply(cfg, t, c));
    case RenewLease(_, _) => PutRoundEvolves(t, Apply(cfg, t, c));
    case AcceptUpdate(_, _, _) => PutRoundEvolves(t, Apply(cfg, t, c));
    case AcceptAndClose(_, _, _, _) => ClosingEvolves(cfg, t, c);
    case _ =>
  }

  lemma EvolvesTransitive(a: Training, b: Training, c: Training)
    requires Evolves(a, b) && Evolves(b, c)
    ensures Evolves(a, c)
  {
  }

  lemma AfterEvolves(cfg: Config, t: Training, op: Op, intact: bool, now: real)
    requires LastIsCurrent(t)
    requires QuorumCloses(cfg, Apply(cfg, t, FirstChange(cfg, t, op, now)), op, now)
    ensures Evolves(t, After(cfg, t, op, intact, now))
  {
    var mid := Apply(cfg, t, FirstChange(cfg, t, op, now));
    ChangeEvolves(cfg, t, FirstChange(cfg, t, op, now));
    SecondIsEnabled(cfg, t, op, intact, now);
    ChangeEvolves(cfg, mid, SecondChange(cfg, t, mid, op, intact, now));
    EvolvesTransitive(t, mid, After(cfg, t, op, intact, now));
  }

  lemma StepEvolves(cfg: Config, s: System, op: Op, authorized: bool, now: real)
    requires Inv(cfg, s.state.training)
    ensures Evolves(s.state.training, Step(cfg, s, op, authorized, now).0.state.training)
  {
    var t := s.state.training;
    AfterKeeps(cfg, t, op, LedgerOk(cfg, s), now);
    StepFacts(cfg, s, op, authorized, now);
    AfterEvolves(cfg, t, op, LedgerOk(cfg, s), now);
  }

  lemma HappeningEvolves(cfg: Config, s: System, e: Timed)
    requires Inv(cfg, s.state.training)
    ensures Evolves(s.state.training, Happen(cfg, s, e).state.training)
  {
    StepEvolves(cfg, s, e.op, e.authorized, e.now);
  }

  ghost function TrainingAt(cfg: Config, born: real, ops: seq<Timed>, k: nat): Training
    requires k <= |ops|
  {
    Run(cfg, born, ops[..k]).state.training
  }

  lemma TrainingEvolvesOnce(cfg: Config, born: real, ops: seq<Timed>, k: nat)
    requires ValidConfig(cfg) && k < |ops|
    ensures Evolves(TrainingAt(cfg, born, ops, k), TrainingAt(cfg, born, ops, k + 1))
  {
    assert ops[..k + 1][..k] == ops[..k];
    RunKeeps(cfg, born, ops[..k]);
    HappeningEvolves(cfg, Run(cfg, born, ops[..k]), ops[k]);
  }

  lemma {:induction false} EvolvesAlong(state: nat -> Training, from: nat, last: nat)
    requires from <= last && Evolves(state(from), state(from))
    requires forall k: nat :: from <= k < last ==> Evolves(state(k), state(k + 1))
    ensures Evolves(state(from), state(last))
    decreases last
  {
    if from < last {
      EvolvesAlong(state, from, last - 1);
      assert Evolves(state(last - 1), state(last - 1 + 1));
      EvolvesTransitive(state(from), state(last - 1), state(last));
    }
  }

  /** Along every run, history only grows. */
  lemma RunsEvolve(cfg: Config, born: real, ops: seq<Timed>, from: nat, last: nat)
    requires ValidConfig(cfg) && from <= last <= |ops|
    ensures Evolves(TrainingAt(cfg, born, ops, from), TrainingAt(cfg, born, ops, last))
  {
    var state := (k: nat) => if k <= |ops| then TrainingAt(cfg, born, ops, k) else TrainingAt(cfg, born, ops, 0);
    forall k: nat | from <= k < last ensures Evolves(state(k), state(k + 1)) {
      TrainingEvolvesOnce(cfg, born, ops, k);
    }
    assert Evolves(state(from), state(from)) by {
      RunKeeps(cfg, born, ops[..from]);
    }
    EvolvesAlong(state, from, last);
  }

  // ---- Generation fencing

  predicate Unit(t: Training, i: nat, j: nat) {
    i < |t.rounds| && j < |t.rounds[i].works|
  }

  /**
   Lease generation `g` of a work unit is over: its round is closed, the unit
   moved on to a later generation, or this generation is not leased any more or
   has run out by `now`.
   */
  predicate Fenced(t: Training, i: nat, j: nat, g: int, now: real) {
    && Unit(t, i, j)
    && var w := t.rounds[i].works[j];
       i < t.version || w.generation > g || (w.generation == g && (w.status != Leased || w.expiresAt <= now))
  }

  /** Fenced even before looking at the clock. */
  predicate FencedFirmly(t: Training, i: nat, j: nat, g: int) {
    && Unit(t, i, j)
    && var w := t.rounds[i].works[j];
       i < t.version || w.generation > g || (w.generation == g && w.status != Leased)
  }

  lemma SweepFirms(t: Training, i: nat, j: nat, g: int, before: real, now: real)
    requires LastIsCurrent(t) && Fenced(t, i, j, g, before) && before <= now
    requires HasCurrent(t) || |t.rounds| == t.version
    ensures FencedFirmly(SweepTraining(t, now), i, j, g)
  {
  }

  lemma ChangeKeepsFence(cfg: Config, t: Training, c: Change, i: nat, j: nat, g: int)
    requires LastIsCurrent(t) && Enabled(cfg, t, c) && FencedFirmly(t, i, j, g)
    ensures FencedFirmly(Apply(cfg, t, c), i, j, g)
  {
  }

  lemma IdleFirstLeavesRounds(cfg: Config, t: Training, op: Op, intact: bool, now: real)
    requires FirstChange(cfg, t, op, now).Idle? && QuorumCloses(cfg, t, op, now)
    ensures After(cfg, t, op, intact, now).rounds == t.rounds && After(cfg, t, op, intact, now).version == t.version
  {
  }

  lemma AfterKeepsFence(cfg: Config, t: Training, op: Op, intact: bool, before: real, now: real, i: nat, j: nat, g: int)
    requires LastIsCurrent(t) && (HasCurrent(t) || |t.rounds| == t.version)
    requires QuorumCloses(cfg, Apply(cfg, t, FirstChange(cfg, t, op, now)), op, now)
    requires Fenced(t, i, j, g, before) && before <= now
    ensures Fenced(After(cfg, t, op, intact, now), i, j, g, now)
  {
    if FirstChange(cfg, t, op, now).Idle? {
      IdleFirstLeavesRounds(cfg, t, op, intact, now);
    } else {
      var mid := SweepTraining(t, now);
      SweepFirms(t, i, j, g, before, now);
      SecondIsEnabled(cfg, t, op, intact, now);
      ChangeKeepsFence(cfg, mid, SecondChange(cfg, t, mid, op, intact, now), i, j, g);
    }
  }

  lemma InvMakesCurrentOrDone(cfg: Config, t: Training)
    requires Inv(cfg, t)
    ensures LastIsCurrent(t) && (HasCurrent(t) || |t.rounds| == t.version)
  {
    CurrentIsLast(cfg, t, cfg.quorum - 1);
  }

  lemma StepKeepsFence(
    cfg: Config, s: System, op: Op, authorized: bool, before: real, now: real, i: nat, j: nat, g: int)
    requires Inv(cfg, s.state.training)
    requires Fenced(s.state.training, i, j, g, before) && before <= now
    ensures Fenced(Step(cfg, s, op, authorized, now).0.state.training, i, j, g, now)
  {
    var t := s.state.training;
    InvMakesCurrentOrDone(cfg, t);
    AfterKeeps(cfg, t, op, LedgerOk(cfg, s), now);
    StepFacts(cfg, s, op, authorized, now);
    AfterKeepsFence(cfg, t, op, LedgerOk(cfg, s), before, now, i, j, g);
  }

  lemma HappeningKeepsFence(cfg: Config, s: System, e: Timed, before: real, i: nat, j: nat, g: int)
    requires Inv(cfg, s.state.training)
    requires Fenced(s.state.training, i, j, g, before) && before <= e.now
    ensures Fenced(Happen(cfg, s, e).state.training, i, j, g, e.now)
  {
    StepKeepsFence(cfg, s, e.op, e.authorized, before, e.now, i, j, g);
  }

  /** A submission counted as a new accepted update. */
  ghost predicate NewlyAccepted(cfg: Config, s: System, op: Op, authorized: bool, now: real)
  {
    op.Submit? && Step(cfg, s, op, authorized, now).1.Taken? && !Step(cfg, s, op, authorized, now).1.replay
  }

  lemma NewlyAcceptedWasAdmitted(cfg: Config, s: System, op: Op, authorized: bool, now: real)
    requires NewlyAccepted(cfg, s, op, authorized, now)
    ensures JudgeSubmission(cfg, SweepTraining(s.state.training, now), op.request, now).Admit?
    ensures op.request.result !in s.state.training.submissions
  {
    SweepFacts(cfg, s, now);
  }

  lemma UnitOfRequest(cfg: Config, t: Training, r: Round, i: nat, id: WorkId, j: nat)
    requires ValidConfig(cfg) && RoundShape(cfg, r, i) && j < |r.works| && FindWork(r.works, id).Some?
    requires id == WorkId(i, i, cfg.shards[j])
    ensures FindWork(r.works, id) == Some(j)
  {
  }

  /** A fenced generation is never newly accepted. */
  lemma FencedIsNotAccepted(
    cfg: Config, s: System, op: Op, authorized: bool, before: real, now: real, i: nat, j: nat, g: int)
    requires Inv(cfg, s.state.training)
    requires Fenced(s.state.training, i, j, g, before) && before <= now
    requires j < |cfg.shards| && op.Submit? && op.request.work == WorkId(i, i, cfg.shards[j])
             && op.request.generation == g
    ensures !NewlyAccepted(cfg, s, op, authorized, now)
  {
    if NewlyAccepted(cfg, s, op, authorized, now) {
      var t := s.state.training;
      var mid := SweepTraining(t, now);
      NewlyAcceptedWasAdmitted(cfg, s, op, authorized, now);
      InvMakesCurrentOrDone(cfg, t);
      SweepFirms(t, i, j, g, before, now);
      SweepKeeps(cfg, t, now);
      CurrentIsLast(cfg, mid, cfg.quorum - 1);
      UnitOfRequest(cfg, mid, CurrentRound(mid), mid.version, op.request.work, j);
    }
  }

  /** `start` is not later than any operation from `k` on, and their times do not decrease. */
  predicate OrderedFrom(ops: seq<Timed>, k: nat, start: real) {
    && (forall m :: k <= m < |ops| ==> start <= ops[m].now)
    && (forall m, n :: k <= m < n < |ops| ==> ops[m].now <= ops[n].now)
  }

  function ClockAt(ops: seq<Timed>, k: nat, m: nat, start: real): real
    requires k <= m <= |ops|
  {
    if m == k then start else ops[m - 1].now
  }

  lemma FenceHoldsOnce(cfg: Config, born: real, ops: seq<Timed>, m: nat, before: real, i: nat, j: nat, g: int)
    requires ValidConfig(cfg) && m < |ops| && before <= ops[m].now
    requires Fenced(TrainingAt(cfg, born, ops, m), i, j, g, before)
    ensures Fenced(TrainingAt(cfg, born, ops, m + 1), i, j, g, ops[m].now)
  {
    assert ops[..m + 1][..m] == ops[..m];
    RunKeeps(cfg, born, ops[..m]);
    HappeningKeepsFence(cfg, Run(cfg, born, ops[..m]), ops[m], before, i, j, g);
  }

  lemma {:induction false} FenceHoldsInRun(
    cfg: Config, born: real, ops: seq<Timed>, k: nat, m: nat, start: real, i: nat, j: nat, g: int)
    requires ValidConfig(cfg) && k <= m <= |ops| && OrderedFrom(ops, k, start)
    requires Fenced(TrainingAt(cfg, born, ops, k), i, j, g, start)
    ensures Fenced(TrainingAt(cfg, born, ops, m), i, j, g, ClockAt(ops, k, m, start))
    decreases m
  {
    if k < m {
      FenceHoldsInRun(cfg, born, ops, k, m - 1, start, i, j, g);
      FenceHoldsOnce(cfg, born, ops, m - 1, ClockAt(ops, k, m - 1, start), i, j, g);
    }
  }

  /**
   Once a lease generation of a work unit has expired, no later submission
   carrying that generation is newly accepted for the unit, whatever claims,
   heartbeats and submissions interleave.
   */
  lemma ExpiredGenerationIsFenced(
    cfg: Config, born: real, ops: seq<Timed>, k: nat, n: nat, start: real, i: nat, j: nat, g: int)
    requires ValidConfig(cfg) && k <= n < |ops| && OrderedFrom(ops, k, start) && j < |cfg.shards|
    requires Fenced(TrainingAt(cfg, born, ops, k), i, j, g, start)
    requires ops[n].op.Submit? && ops[n].op.request.work == WorkId(i, i, cfg.shards[j])
             && ops[n].op.request.generation == g
    ensures !NewlyAccepted(cfg, Run(cfg, born, ops[..n]), ops[n].op, ops[n].authorized, ops[n].now)
  {
    FenceHoldsInRun(cfg, born, ops, k, n, start, i, j, g);
    RunKeeps(cfg, born, ops[..n]);
    FencedIsNotAccepted(cfg, Run(cfg, born, ops[..n]), ops[n].op, ops[n].authorized, ClockAt(ops, k, n, start),
      ops[n].now, i, j, g);
  }

  /** Generations of a work unit never decrease along a run. */
  lemma GenerationsNeverDecrease(cfg: Config, born: real, ops: seq<Timed>, k: nat, n: nat, i: nat, j: nat)
    requires ValidConfig(cfg) && k <= n <= |ops| && Unit(TrainingAt(cfg, born, ops, k), i, j)
    ensures Unit(TrainingAt(cfg, born, ops, n), i, j)
    ensures TrainingAt(cfg, born, ops, k).rounds[i].works[j].generation
            <= TrainingAt(cfg, born, ops, n).rounds[i].works[j].generation
  {
    RunsEvolve(cfg, born, ops, k, n);
  }
}
