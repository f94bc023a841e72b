/** The audit ledger accounts for the state: what its events add up to is what the state file says. */
module CampaignLedger {
  import opened Ledger
  import opened Campaign
  import opened CampaignInvariant
  import opened CampaignAccept
  import opened CampaignRun
  import opened Wrappers

  // ---- What a ledger tells

  /** Counts of the events by kind, the accepted results in order, and how often each work unit was leased. */
  datatype Story = Story(
    accepted: nat,
    lapsed: nat,
    rejected: nat,
    closed: nat,
    recovered: nat,
    reassigned: nat,
    results: seq<string>,
    leases: multiset<WorkId>)

  const NOTHING := Story(0, 0, 0, 0, 0, 0, [], multiset{})

  function Tell(s: Story, kind: Kind): Story {
    match kind
    case WorkLeased(_, work, _, _, again) =>
      s.(leases := s.leases + multiset{work}, reassigned := s.reassigned + (if again then 1 else 0))
    case LeaseLapsed(_, _, _, _) => s.(lapsed := s.lapsed + 1)
    case UpdateAccepted(_, _, _, result) => s.(accepted := s.accepted + 1, results := s.results + [result])
    case UpdateRejected(_, _) => s.(rejected := s.rejected + 1)
    case RoundAggregated(_, _, _) => s.(closed := s.closed + 1)
    case Recovered(_) => s.(recovered := s.recovered + 1)
    case _ => s
  }

  function Told(ledger: seq<Event<Kind>>): Story {
    if ledger == [] then NOTHING else Tell(Told(ledger[..|ledger| - 1]), ledger[|ledger| - 1].body.kind)
  }

  lemma LogTells(cfg: Config, s: System, kind: Kind, now: real)
    ensures Told(Log(cfg, s, kind, now).ledger) == Tell(Told(s.ledger), kind)
  {
    assert Log(cfg, s, kind, now).ledger[..|s.ledger|] == s.ledger;
  }

  lemma {:induction false} LapsesTell(cfg: Config, s: System, round: nat, works: seq<Work>, now: real)
    ensures var story := Told(s.ledger);
            Told(LogLapses(cfg, s, round, works, now).ledger)
            == story.(lapsed := story.lapsed + LapsedCount(works, now))
  {
    if works != [] {
      var k := |works| - 1;
      LapsesTell(cfg, s, round, works[..k], now);
      LogTells(cfg, LogLapses(cfg, s, round, works[..k], now),
        LeaseLapsed(round, works[k].id, works[k].holder, works[k].generation), now);
    }
  }

  lemma SweepTells(cfg: Config, s: System, now: real)
    ensures var story := Told(s.ledger);
            Told(Sweep(cfg, s, now).ledger) == story.(lapsed := story.lapsed + Lapses(s.state.training, now))
  {
    var t := s.state.training;
    if HasCurrent(t) {
      LapsesTell(cfg, s, CurrentRound(t).index, CurrentRound(t).works, now);
    }
  }

  lemma {:induction false} EachTells(cfg: Config, s: System, whats: seq<string>, now: real)
    ensures Told(LogEach(cfg, s, whats, now).ledger) == Told(s.ledger)
  {
    if whats != [] {
      var k := |whats| - 1;
      EachTells(cfg, s, whats[..k], now);
      LogTells(cfg, LogEach(cfg, s, whats[..k], now), Administered(whats[k]), now);
    }
  }

  // ---- What a state says

  /** Unit `j` of round `i` was leased as often as its generation says. */
  predicate LeasedAsOften(cfg: Config, leases: multiset<WorkId>, r: Round, i: nat) {
    |r.works| == |cfg.shards| && forall j :: 0 <= j < |r.works| ==>
                                   leases[WorkId(i, i, cfg.shards[j])] == r.works[j].generation
  }

  /** The state says what the story tells. */
  ghost predicate Agrees(cfg: Config, story: Story, t: Training) {
    && story.accepted == t.accepted && story.lapsed == t.expired && story.rejected == t.rejected
    && story.closed == t.version && story.recovered == t.recoveries && story.reassigned == t.reassigned
    && story.results == AllResults(t.rounds)
    && (forall i :: 0 <= i < |t.rounds| ==> LeasedAsOften(cfg, story.leases, t.rounds[i], i))
    && (forall id :: id in story.leases ==> id.round < |t.rounds|)
  }

  /** Replacing the last round by one with the same generations and results. */
  lemma SameLastAgrees(cfg: Config, story: Story, t: Training, t': Training)
    requires Agrees(cfg, story, t) && t.rounds != [] && |t'.rounds| == |t.rounds|
    requires forall i :: 0 <= i < |t.rounds| - 1 ==> t'.rounds[i] == t.rounds[i]
    requires var r, r' := t.rounds[|t.rounds| - 1], t'.rounds[|t.rounds| - 1];
             && r'.results == r.results && |r'.works| == |r.works|
             && forall j :: 0 <= j < |r.works| ==> r'.works[j].generation == r.works[j].generation
    ensures AllResults(t'.rounds) == AllResults(t.rounds)
    ensures forall i :: 0 <= i < |t'.rounds| ==> LeasedAsOften(cfg, story.leases, t'.rounds[i], i)
  {
    SameResults(t.rounds, t'.rounds);
    forall i | 0 <= i < |t'.rounds| ensures LeasedAsOften(cfg, story.leases, t'.rounds[i], i) {
      assert LeasedAsOften(cfg, story.leases, t.rounds[i], i);
    }
  }

  lemma SweepAgrees(cfg: Config, story: Story, t: Training, now: real)
    requires Agrees(cfg, story, t)
    ensures Agrees(cfg, story.(lapsed := story.lapsed + Lapses(t, now)), SweepTraining(t, now))
  {
    if HasCurrent(t) {
      SameLastAgrees(cfg, story, t, SweepTraining(t, now));
    }
  }

  lemma RenewAgrees(cfg: Config, story: Story, t: Training, j: nat, until: real)
    requires Agrees(cfg, story, t) && HasCurrent(t) && j < |CurrentRound(t).works|
    ensures Agrees(cfg, story, PutWork(t, j, CurrentRound(t).works[j].(expiresAt := until)))
  {
    SameLastAgrees(cfg, story, t, PutWork(t, j, CurrentRound(t).works[j].(expiresAt := until)));
  }

  /** The round under way has its place, and units of distinct shards. */
  predicate Placed(cfg: Config, t: Training) {
    && HasCurrent(t) && RoundShape(cfg, CurrentRound(t), |t.rounds| - 1)
    && forall i, j :: 0 <= i < j < |cfg.shards| ==> cfg.shards[i] != cfg.shards[j]
  }

  lemma OneMoreLease(cfg: Config, leases: multiset<WorkId>, r: Round, n: nat, j: nat, w: Work)
    requires LeasedAsOften(cfg, leases, r, n) && j < |r.works| && w.generation == r.works[j].generation + 1
    requires forall i, k :: 0 <= i < k < |cfg.shards| ==> cfg.shards[i] != cfg.shards[k]
    ensures LeasedAsOften(cfg, leases + multiset{WorkId(n, n, cfg.shards[j])}, r.(works := r.works[j := w]), n)
  {
  }

  lemma GrantAgrees(cfg: Config, story: Story, t: Training, j: nat, cell: string, token: string, now: real)
    requires Agrees(cfg, story, t) && Placed(cfg, t) && j < |CurrentRound(t).works|
    ensures var w := CurrentRound(t).works[j];
            Agrees(cfg, Tell(story, WorkLeased(CurrentRound(t).index, w.id, cell, w.generation + 1, w.generation > 0)),
                   GrantTraining(cfg, t, j, cell, token, now))
  {
    var w, n := CurrentRound(t).works[j], |t.rounds| - 1;
    var t' := GrantTraining(cfg, t, j, cell, token, now);
    var leases := story.leases + multiset{w.id};
    SameResults(t.rounds, t'.rounds);
    assert LeasedAsOften(cfg, story.leases, t.rounds[n], n);
    OneMoreLease(cfg, story.leases, CurrentRound(t), n, j, Granted(cfg, w, cell, token, now));
    forall i | 0 <= i < n ensures LeasedAsOften(cfg, leases, t'.rounds[i], i) {
      assert LeasedAsOften(cfg, story.leases, t.rounds[i], i);
    }
  }

  lemma AcceptAgrees(cfg: Config, story: Story, t: Training, j: nat, req: Request, now: real, cell: string)
    requires Agrees(cfg, story, t) && HasCurrent(t) && j < |CurrentRound(t).works|
    ensures Agrees(cfg, Tell(story, UpdateAccepted(CurrentRound(t).index, req.work, cell, req.result)),
                   AcceptTraining(cfg, t, j, req, now))
  {
    var t' := AcceptTraining(cfg, t, j, req, now);
    LastResultsGrow(t.rounds, CurrentRound(t'), req.result);
    forall i | 0 <= i < |t'.rounds| ensures LeasedAsOften(cfg, story.leases, t'.rounds[i], i) {
      assert LeasedAsOften(cfg, story.leases, t.rounds[i], i);
    }
  }

  lemma CompleteAgrees(cfg: Config, story: Story, t: Training, outputHash: Digest, now: real)
    requires Agrees(cfg, story, t) && HasCurrent(t) && |CurrentRound(t).results| >= cfg.quorum
    ensures Agrees(cfg, Tell(story, RoundAggregated(CurrentRound(t).index, t.version + 1, outputHash)),
                   CompleteRound(cfg, t, outputHash, now))
  {
    SameLastAgrees(cfg, story, t, CompleteRound(cfg, t, outputHash, now));
  }

  lemma NextAgrees(cfg: Config, story: Story, t: Training, now: real)
    requires Agrees(cfg, story, t)
    ensures Agrees(cfg, story, AfterRound(cfg, t, now))
  {
    if t.version < cfg.target {
      var r := NewRound(cfg, t, now);
      AppendEmptyRound(t.rounds, r);
      var n := |t.rounds|;
      forall j | 0 <= j < |r.works| ensures story.leases[WorkId(n, n, cfg.shards[j])] == 0 {
        assert WorkId(n, n, cfg.shards[j]) !in story.leases;
      }
      forall i | 0 <= i < n + 1 ensures LeasedAsOften(cfg, story.leases, AfterRound(cfg, t, now).rounds[i], i) {
        assert i < n ==> LeasedAsOften(cfg, story.leases, t.rounds[i], i);
      }
    }
  }

  // ---- Operations

  /** The saved state says what the ledger file tells. */
  ghost predicate Accounted(cfg: Config, s: System) { Agrees(cfg, Told(s.ledger), s.state.training) }

  lemma LoggedAccounts(cfg: Config, s: System, t: Training, kind: Kind, now: real)
    requires Agrees(cfg, Tell(Told(s.ledger), kind), t)
    ensures Accounted(cfg, Log(cfg, With(s, t), kind, now))
  {
    LogTells(cfg, With(s, t), kind, now);
  }

  lemma SweepAccounts(cfg: Config, s: System, now: real)
    requires Accounted(cfg, s)
    ensures Accounted(cfg, Sweep(cfg, s, now))
  {
    SweepTells(cfg, s, now);
    SweepFacts(cfg, s, now);
    SweepAgrees(cfg, Told(s.ledger), s.state.training, now);
  }

  lemma PlacedAfterSweep(cfg: Config, t: Training, now: real)
    requires Inv(cfg, t)
    ensures HasCurrent(SweepTraining(t, now)) ==> Placed(cfg, SweepTraining(t, now))
  {
    SweepKeeps(cfg, t, now);
    CurrentIsLast(cfg, SweepTraining(t, now), cfg.quorum - 1);
  }

  lemma ClaimAccounts(cfg: Config, s: System, cellId: string, token: string, now: real)
    requires Accounted(cfg, s)
    requires var u := SweepTraining(s.state.training, now); HasCurrent(u) ==> Placed(cfg, u)
    ensures Accounted(cfg, ClaimStep(cfg, s, cellId, token, now).0)
  {
    SweepAccounts(cfg, s, now);
    SweepFacts(cfg, s, now);
    var swept, cell := Sweep(cfg, s, now), cfg.cellHash(cellId);
    var t := swept.state.training;
    var verdict := JudgeClaim(cfg, t, cell);
    if verdict.Grant? {
      var w := CurrentRound(t).works[verdict.work];
      GrantAgrees(cfg, Told(swept.ledger), t, verdict.work, cell, token, now);
      LoggedAccounts(cfg, swept, GrantTraining(cfg, t, verdict.work, cell, token, now),
        WorkLeased(CurrentRound(t).index, w.id, cell, w.generation + 1, w.generation > 0), now);
    }
  }

  /** A lease renewed on the swept system. */
  function Renewal(cfg: Config, s: System, j: nat, id: WorkId, cell: string, now: real): System
    requires HasCurrent(s.state.training) && j < |CurrentRound(s.state.training).works|
  {
    var t := s.state.training;
    var w := CurrentRound(t).works[j].(expiresAt := now + cfg.leaseSeconds);
    Log(cfg, With(s, PutWork(t, j, w)), LeaseRenewed(CurrentRound(t).index, id, cell, w.generation), now)
  }

  lemma RenewalAccounts(cfg: Config, s: System, j: nat, id: WorkId, cell: string, now: real)
    requires Accounted(cfg, s) && HasCurrent(s.state.training) && j < |CurrentRound(s.state.training).works|
    ensures Accounted(cfg, Renewal(cfg, s, j, id, cell, now))
  {
    var t := s.state.training;
    var w := CurrentRound(t).works[j].(expiresAt := now + cfg.leaseSeconds);
    RenewAgrees(cfg, Told(s.ledger), t, j, now + cfg.leaseSeconds);
    LoggedAccounts(cfg, s, PutWork(t, j, w), LeaseRenewed(CurrentRound(t).index, id, cell, w.generation), now);
  }

  lemma PassedHeartbeatRenews(
    cfg: Config, s: System, swept: System, cellId: string, id: WorkId, generation: int, token: string, now: real)
    requires swept == Sweep(cfg, s, now)
    requires JudgeLease(swept.state.training, id, generation, cfg.cellHash(cellId), token).None?
    ensures var j := FindWork(CurrentRound(swept.state.training).works, id).value;
            HeartbeatStep(cfg, s, cellId, id, generation, token, now).0
            == Renewal(cfg, swept, j, id, cfg.cellHash(cellId), now)
  {
  }

  lemma RefusedHeartbeatAccounts(cfg: Config, s: System, op: Op, now: real)
    requires op.Heartbeat? && Accounted(cfg, s) && Lapses(s.state.training, now) == 0
    requires HeartbeatRefused(cfg, s.state.training, op.hbCellId, op.work, op.generation, op.lease, now)
    ensures Accounted(cfg, HeartbeatStep(cfg, s, op.hbCellId, op.work, op.generation, op.lease, now).0)
  {
    SweepFacts(cfg, s, now);
  }

  lemma HeartbeatAccounts(cfg: Config, s: System, op: Op, now: real)
    requires op.Heartbeat? && Accounted(cfg, s) && !BreaksLedger(cfg, s.state.training, op, true, now)
    ensures Accounted(cfg, HeartbeatStep(cfg, s, op.hbCellId, op.work, op.generation, op.lease, now).0)
  {
    if HeartbeatRefused(cfg, s.state.training, op.hbCellId, op.work, op.generation, op.lease, now) {
      RefusedHeartbeatAccounts(cfg, s, op, now);
    } else {
      SweepFacts(cfg, s, now);
      SweepAccounts(cfg, s, now);
      var swept := Sweep(cfg, s, now);
      PassedHeartbeatRenews(cfg, s, swept, op.hbCellId, op.work, op.generation, op.lease, now);
      RenewalAccounts(cfg, swept, FindWork(CurrentRound(swept.state.training).works, op.work).value, op.work,
        cfg.cellHash(op.hbCellId), now);
    }
  }

  lemma RejectAccounts(cfg: Config, s: System, code: Refusal, cell: string, now: real)
    requires Accounted(cfg, s)
    ensures Accounted(cfg, Reject(cfg, s, code, cell, now).0)
  {
    var t := s.state.training;
    LoggedAccounts(cfg, s, t.(rejected := t.rejected + 1), UpdateRejected(code, cell), now);
  }

  lemma AggregateAccounts(cfg: Config, s: System, outputHash: Digest, now: real)
    requires Accounted(cfg, s) && HasCurrent(s.state.training)
             && |CurrentRound(s.state.training).results| >= cfg.quorum
    ensures Aggregate(cfg, s, outputHash, now).Some? ==> Accounted(cfg, Aggregate(cfg, s, outputHash, now).value)
  {
    var t := s.state.training;
    var done := CompleteRound(cfg, t, outputHash, now);
    var closed := RoundAggregated(CurrentRound(t).index, done.version, outputHash);
    CompleteAgrees(cfg, Told(s.ledger), t, outputHash, now);
    LoggedAccounts(cfg, s, done, closed, now);
    var logged := Log(cfg, With(s, done), closed, now);
    var after := AfterRound(cfg, done, now);
    NextAgrees(cfg, Told(logged.ledger), done, now);
    LoggedAccounts(cfg, logged, after,
      if after.complete then TargetReached(done.version) else RoundStarted(|done.rounds|, outputHash), now);
  }

  lemma StampAgrees(cfg: Config, s: System, result: string, aggregated: bool)
    requires Accounted(cfg, s) && result in s.state.training.submissions
    ensures Accounted(cfg, With(s, Stamp(s.state.training, result, aggregated)))
  {
  }

  lemma AcceptAccounts(cfg: Config, s: System, j: nat, req: Request, outputHash: Digest, now: real)
    requires Accounted(cfg, s) && HasCurrent(s.state.training) && j < |CurrentRound(s.state.training).works|
    requires !AcceptStep(cfg, s, j, req, outputHash, now).1.Failed?
    ensures Accounted(cfg, AcceptStep(cfg, s, j, req, outputHash, now).0)
  {
    var t := AcceptTraining(cfg, s.state.training, j, req, now);
    var kind := UpdateAccepted(CurrentRound(t).index, req.work, cfg.cellHash(req.cellId), req.result);
    AcceptAgrees(cfg, Told(s.ledger), s.state.training, j, req, now, cfg.cellHash(req.cellId));
    LoggedAccounts(cfg, s, t, kind, now);
    var logged := Log(cfg, With(s, t), kind, now);
    if |CurrentRound(t).results| < cfg.quorum {
      StampAgrees(cfg, logged, req.result, false);
    } else {
      AggregateAccounts(cfg, logged, outputHash, now);
      StampAgrees(cfg, Aggregate(cfg, logged, outputHash, now).value, req.result, true);
    }
  }

  lemma SubmitAccounts(cfg: Config, s: System, op: Op, now: real)
    requires op.Submit? && Accounted(cfg, s) && !BreaksLedger(cfg, s.state.training, op, true, now)
    requires !SubmitStep(cfg, s, op.request, op.outputHash, now).1.Failed?
    ensures Accounted(cfg, SubmitStep(cfg, s, op.request, op.outputHash, now).0)
  {
    var req, cell := op.request, cfg.cellHash(op.request.cellId);
    if req.result in s.state.training.submissions {
      RejectAccounts(cfg, s, ResultIdCollision, cell, now);
    } else {
      SweepAccounts(cfg, s, now);
      SweepFacts(cfg, s, now);
      var swept := Sweep(cfg, s, now);
      var verdict := JudgeSubmission(cfg, swept.state.training, req, now);
      if verdict.Refuse? {
        RejectAccounts(cfg, swept, verdict.code, cell, now);
      } else {
        AcceptAccounts(cfg, swept, verdict.work, req, op.outputHash, now);
      }
    }
  }

  lemma SetLifecycleAccounts(cfg: Config, s: System, pause: bool, now: real)
    requires Accounted(cfg, s)
    ensures Accounted(cfg, Step(cfg, s, Op.SetLifecycle(pause), true, now).0)
  {
    var target := if pause then Paused else Running;
    LoggedAccounts(cfg, s, s.state.training.(lifecycle := target), LifecycleChanged(target), now);
  }

  lemma FinalizeAccounts(cfg: Config, s: System, evaluated: bool, allowIncomplete: bool, now: real)
    requires Accounted(cfg, s)
    ensures Accounted(cfg, Step(cfg, s, Op.Finalize(evaluated, allowIncomplete), true, now).0)
  {
    var t := s.state.training;
    LoggedAccounts(cfg, s, t.(lifecycle := Finalized), CampaignFinalized(t.version), now);
  }

  lemma RecoveredAccounts(cfg: Config, s: System, now: real)
    requires Accounted(cfg, s)
    ensures var t := s.state.training;
            Accounted(cfg, Log(cfg, With(s, t.(recoveries := t.recoveries + 1)), Recovered(t.recoveries + 1), now))
  {
    var t := s.state.training;
    LoggedAccounts(cfg, s, t.(recoveries := t.recoveries + 1), Recovered(t.recoveries + 1), now);
  }

  lemma RecoverAccounts(cfg: Config, s: System, filesIntact: bool, authorized: bool, now: real)
    requires Accounted(cfg, s)
    ensures Accounted(cfg, Step(cfg, s, Op.Recover(filesIntact), authorized, now).0)
  {
    if Step(cfg, s, Op.Recover(filesIntact), authorized, now).1.Done? {
      RecoveredAccounts(cfg, s, now);
    }
  }

  lemma AdministerAccounts(cfg: Config, s: System, whats: seq<string>, now: real)
    requires Accounted(cfg, s)
    ensures Accounted(cfg, LogEach(cfg, s, whats, now))
  {
    EachTells(cfg, s, whats, now);
    LogEachKeeps(cfg, s, whats, now);
  }

  lemma StepAccounts(cfg: Config, s: System, op: Op, authorized: bool, now: real)
    requires Inv(cfg, s.state.training) && Accounted(cfg, s)
    requires !BreaksLedger(cfg, s.state.training, op, authorized, now)
    ensures Accounted(cfg, Step(cfg, s, op, authorized, now).0)
  {
    if authorized || op.Recover? {
      match op
      case Claim(cellId, token) =>
        PlacedAfterSweep(cfg, s.state.training, now);
        ClaimAccounts(cfg, s, cellId, token, now);
      case Heartbeat(_, _, _, _) => HeartbeatAccounts(cfg, s, op, now);
      case Submit(_, _) =>
        AfterKeeps(cfg, s.state.training, op, false, now);
        StepFacts(cfg, s, op, true, now);
        SubmitAccounts(cfg, s, op, now);
      case ExpireLeases => SweepAccounts(cfg, s, now);
      case SetLifecycle(pause) => SetLifecycleAccounts(cfg, s, pause, now);
      case Finalize(evaluated, allowIncomplete) => FinalizeAccounts(cfg, s, evaluated, allowIncomplete, now);
      case Recover(filesIntact) => RecoverAccounts(cfg, s, filesIntact, authorized, now);
      case Administer(whats) => AdministerAccounts(cfg, s, whats, now);
    }
  }

  // ---- Runs

  lemma HappenAccounts(cfg: Config, s: System, e: Timed)
    requires Inv(cfg, s.state.training) && Accounted(cfg, s) && !Breaks(cfg, s, e)
    ensures Accounted(cfg, Happen(cfg, s, e))
  {
    if e.cut.None? {
      StepAccounts(cfg, s, e.op, e.authorized, e.now);
    } else {
      StepKeeps(cfg, s, e.op, e.authorized, e.now);
      CutOffKeeps(cfg, s, StepOf(cfg, s, e), e.cut.value);
    }
  }

  lemma InitAccounts(cfg: Config, now: real)
    ensures Accounted(cfg, Init(cfg, now))
  {
    var t := Training(0, 0, cfg.initialHash, [], map[], false, Running, 0, 0, 0, 0, 0, 0);
    var r := NewRound(cfg, t, now);
    var s := System(Saved(StartRound(cfg, t, now), 0, GENESIS), []);
    AppendEmptyRound([], r);
    assert [] + [r] == [r];
    LoggedAccounts(cfg, s, StartRound(cfg, t, now), CampaignCreated, now);
  }

  /**
   The ledger accounts for the state. As long as no operation left events in the
   ledger file without saving, its events tell: how many updates were accepted and
   in which order, how many were rejected, how many leases lapsed and were
   reassigned, how many rounds closed, and how often each work unit was leased,
   which is its generation.
   */
  lemma {:induction false} LedgerTellsTheState(cfg: Config, born: real, ops: seq<Timed>)
    requires ValidConfig(cfg) && NoBreak(cfg, born, ops)
    ensures Accounted(cfg, Run(cfg, born, ops))
  {
    if ops == [] {
      InitAccounts(cfg, born);
    } else {
      var k := |ops| - 1;
      LedgerTellsTheState(cfg, born, ops[..k]);
      RunKeeps(cfg, born, ops[..k]);
      HappenAccounts(cfg, Run(cfg, born, ops[..k]), ops[k]);
    }
  }

  /** So a ledger that verifies accounts for the state. */
  lemma VerifiedLedgerTellsTheState(cfg: Config, born: real, ops: seq<Timed>)
    requires ValidConfig(cfg) && LedgerOk(cfg, Run(cfg, born, ops))
    ensures Accounted(cfg, Run(cfg, born, ops))
  {
    LedgerVerifiesExactlyWhenUnbroken(cfg, born, ops);
    LedgerTellsTheState(cfg, born, ops);
  }
}
