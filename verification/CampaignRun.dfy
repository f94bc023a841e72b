/** Steps and runs: every reachable state satisfies the invariant, and the ledger stays verifiable. */
module CampaignRun {
  import opened Ledger
  import opened Campaign
  import opened CampaignInvariant
  import opened CampaignAccept
  import opened Wrappers

  /** Saved head and count agree with the ledger file. */
  ghost predicate Tracked(cfg: Config, s: System) {
    Chained(cfg.eventHash, s.ledger) && HeadOf(s.ledger) == s.state.head && |s.ledger| == s.state.sequence
  }

  /** Events in the ledger file that the saved count does not cover. */
  function Unsaved(s: System): int { |s.ledger| - s.state.sequence }

  lemma LogKeeps(cfg: Config, s: System, kind: Kind, now: real)
    ensures Log(cfg, s, kind, now).state.training == s.state.training
    ensures s.ledger <= Log(cfg, s, kind, now).ledger && |Log(cfg, s, kind, now).ledger| == |s.ledger| + 1
    ensures Unsaved(Log(cfg, s, kind, now)) == Unsaved(s)
    ensures Tracked(cfg, s) ==> LedgerOk(cfg, Log(cfg, s, kind, now)) && Tracked(cfg, Log(cfg, s, kind, now))
  {
    if Tracked(cfg, s) {
      AppendKeepsChain(cfg.eventHash, s.ledger, s.state.head, s.state.sequence, kind, now);
    }
  }

  lemma {:induction false} LogEachKeeps(cfg: Config, s: System, whats: seq<string>, now: real)
    ensures var r := LogEach(cfg, s, whats, now);
            && r.state.training == s.state.training && s.ledger <= r.ledger && |r.ledger| == |s.ledger| + |whats|
            && Unsaved(r) == Unsaved(s) && (Tracked(cfg, s) ==> Tracked(cfg, r))
  {
    if whats != [] {
      var k := |whats| - 1;
      LogEachKeeps(cfg, s, whats[..k], now);
      LogKeeps(cfg, LogEach(cfg, s, whats[..k], now), Administered(whats[k]), now);
    }
  }

  lemma {:induction false} LogLapsesKeeps(cfg: Config, s: System, round: nat, works: seq<Work>, now: real)
    ensures var r := LogLapses(cfg, s, round, works, now);
            && r.state.training == s.state.training
            && s.ledger <= r.ledger && |r.ledger| == |s.ledger| + LapsedCount(works, now) && Unsaved(r) == Unsaved(s)
            && (Tracked(cfg, s) ==> Tracked(cfg, r))
            && (LapsedCount(works, now) == 0 ==> r == s)
  {
    if works != [] {
      var k := |works| - 1;
      LogLapsesKeeps(cfg, s, round, works[..k], now);
      var p := LogLapses(cfg, s, round, works[..k], now);
      LogKeeps(cfg, p, LeaseLapsed(round, works[k].id, works[k].holder, works[k].generation), now);
    }
  }

  /** Leases of the current round that have run out. */
  function Lapses(t: Training, now: real): nat {
    if HasCurrent(t) then LapsedCount(CurrentRound(t).works, now) else 0
  }

  lemma SweepFacts(cfg: Config, s: System, now: real)
    ensures var r := Sweep(cfg, s, now);
            && r.state.training == SweepTraining(s.state.training, now)
            && s.ledger <= r.ledger && |r.ledger| == |s.ledger| + Lapses(s.state.training, now)
            && Unsaved(r) == Unsaved(s)
            && (Tracked(cfg, s) ==> Tracked(cfg, r))
            && (Lapses(s.state.training, now) == 0 ==> r.ledger == s.ledger)
  {
    if HasCurrent(s.state.training) {
      LogLapsesKeeps(cfg, s, CurrentRound(s.state.training).index, CurrentRound(s.state.training).works, now);
    }
  }

  // ---- Primitive changes of the training state

  /** Every operation sweeps lapsed leases or not, and then makes at most one of these changes. */
  datatype Change =
    | Idle
    | SweepLeases(at: real)
    | GrantLease(work: nat, cell: string, token: string, at: real)
    | RenewLease(work: nat, until: real)
    | AcceptUpdate(work: nat, req: Request, at: real)
    | AcceptAndClose(work: nat, req: Request, outputHash: Digest, at: real)
    | Bookkeeping(rejected: nat, lifecycle: Lifecycle, recoveries: nat)

  predicate Enabled(cfg: Config, t: Training, c: Change) {
    match c
    case Idle => true
    case SweepLeases(_) => true
    case GrantLease(j, cell, _, _) => JudgeClaim(cfg, t, cell) == Grant(j)
    case RenewLease(j, _) => HasCurrent(t) && j < |CurrentRound(t).works| && CurrentRound(t).works[j].status == Leased
    case AcceptUpdate(j, req, at) =>
      JudgeSubmission(cfg, t, req, at) == Admit(j) && Admissible(cfg, t, j, req) && !FillsQuorum(cfg, t, j, req, at)
    case AcceptAndClose(j, req, _, at) => JudgeSubmission(cfg, t, req, at) == Admit(j) && Closing(cfg, t, j, req, at)
    case Bookkeeping(_, _, _) => true
  }

  function Apply(cfg: Config, t: Training, c: Change): Training
    requires Enabled(cfg, t, c)
  {
    match c
    case Idle => t
    case SweepLeases(at) => SweepTraining(t, at)
    case GrantLease(j, cell, token, at) => GrantTraining(cfg, t, j, cell, token, at)
    case RenewLease(j, until) => PutWork(t, j, CurrentRound(t).works[j].(expiresAt := until))
    case AcceptUpdate(j, req, at) => PlainTraining(cfg, t, j, req, at)
    case AcceptAndClose(j, req, outputHash, at) => ClosingTraining(cfg, t, j, req, outputHash, at)
    case Bookkeeping(rejected, lifecycle, recoveries) =>
      t.(rejected := rejected, lifecycle := lifecycle, recoveries := recoveries)
  }

  lemma ChangeKeeps(cfg: Config, t: Training, c: Change)
    requires Inv(cfg, t) && Enabled(cfg, t, c)
    ensures Inv(cfg, Apply(cfg, t, c))
  {
    match c
    case SweepLeases(at) => SweepKeeps(cfg, t, at);
    case GrantLease(j, cell, token, at) => GrantKeeps(cfg, t, j, cell, token, at);
    case RenewLease(j, until) => RenewKeeps(cfg, t, j, until);
    case AcceptUpdate(j, req, at) => PlainAcceptKeeps(cfg, t, j, req, at);
    case AcceptAndClose(j, req, outputHash, at) => ClosingAcceptKeeps(cfg, t, j, req, outputHash, at);
    case _ =>
  }

  // ---- The changes behind each operation

  /** A heartbeat is refused after the lapsed leases were swept. */
  predicate HeartbeatRefused(
    cfg: Config, t: Training, cellId: string, id: WorkId, generation: int, lease: string, now: real)
  {
    JudgeLease(SweepTraining(t, now), id, generation, cfg.cellHash(cellId), lease).Some?
  }

  /** A submission under a new result id ends in an exception after the lapsed leases were swept. */
  predicate SubmissionEscapes(cfg: Config, t: Training, req: Request, now: real) {
    && req.result !in t.submissions
    && var verdict := JudgeSubmission(cfg, SweepTraining(t, now), req, now);
       verdict.Refuse? && verdict.code.Uncaught?
  }

  function FirstChange(cfg: Config, t: Training, op: Op, now: real): Change {
    match op
    case Claim(_, _) => SweepLeases(now)
    case Heartbeat(cellId, id, generation, lease) =>
      if HeartbeatRefused(cfg, t, cellId, id, generation, lease, now) then Idle else SweepLeases(now)
    case Submit(req, _) =>
      if req.result in t.submissions || SubmissionEscapes(cfg, t, req, now) then Idle else SweepLeases(now)
    case ExpireLeases => SweepLeases(now)
    case _ => Idle
  }

  /** The change after the sweep; `old` is the state before it. */
  function SecondChange(cfg: Config, old_: Training, t: Training, op: Op, intact: bool, now: real): Change {
    match op
    case Claim(cellId, token) =>
      var verdict := JudgeClaim(cfg, t, cfg.cellHash(cellId));
      if verdict.Grant? then GrantLease(verdict.work, cfg.cellHash(cellId), token, now) else Idle
    case Heartbeat(cellId, id, generation, lease) =>
      if HeartbeatRefused(cfg, old_, cellId, id, generation, lease, now) || !HasCurrent(t)
         || FindWork(CurrentRound(t).works, id).None? then Idle
      else RenewLease(FindWork(CurrentRound(t).works, id).value, now + cfg.leaseSeconds)
    case Submit(req, outputHash) =>
      if SubmissionEscapes(cfg, old_, req, now) then Idle
      else if req.result in t.submissions then
        var sub := t.submissions[req.result];
        if sub.deltaHash == req.deltaHash && sub.cell == cfg.cellHash(req.cellId) && sub.work == req.work then Idle
        else Bookkeeping(t.rejected + 1, t.lifecycle, t.recoveries)
      else
        var verdict := JudgeSubmission(cfg, t, req, now);
        if verdict.Refuse? then Bookkeeping(t.rejected + 1, t.lifecycle, t.recoveries)
        else if FillsQuorum(cfg, t, verdict.work, req, now) then AcceptAndClose(verdict.work, req, outputHash, now)
        else AcceptUpdate(verdict.work, req, now)
    case ExpireLeases => Idle
    case SetLifecycle(pause) =>
      if t.lifecycle == Finalized then Idle
      else Bookkeeping(t.rejected, if pause then Paused else Running, t.recoveries)
    case Finalize(evaluated, allowIncomplete) =>
      if (!t.complete && !allowIncomplete) || !evaluated then Idle else Bookkeeping(t.rejected, Finalized, t.recoveries)
    case Recover(filesIntact) =>
      if intact && filesIntact then Bookkeeping(t.rejected, t.lifecycle, t.recoveries + 1) else Idle
    case Administer(_) => Idle
  }

  /** An admitted submission that fills the quorum does close the round. */
  predicate QuorumCloses(cfg: Config, t: Training, op: Op, now: real) {
    op.Submit? && op.request.result !in t.submissions ==>
      var verdict := JudgeSubmission(cfg, t, op.request, now);
      verdict.Admit? && FillsQuorum(cfg, t, verdict.work, op.request, now)
      ==> Closing(cfg, t, verdict.work, op.request, now)
  }

  lemma InvMakesQuorumClose(cfg: Config, t: Training, op: Op, now: real)
    requires Inv(cfg, t)
    ensures QuorumCloses(cfg, t, op, now)
  {
    if op.Submit? && op.request.result !in t.submissions {
      var verdict := JudgeSubmission(cfg, t, op.request, now);
      if verdict.Admit? && FillsQuorum(cfg, t, verdict.work, op.request, now) {
        AdmittedIsAdmissible(cfg, t, op.request, now, verdict.work);
        QuorumIsClosing(cfg, t, verdict.work, op.request, op.outputHash, now);
      }
    }
  }

  lemma SecondIsEnabled(cfg: Config, t: Training, op: Op, intact: bool, now: real)
    requires var mid := Apply(cfg, t, FirstChange(cfg, t, op, now)); QuorumCloses(cfg, mid, op, now)
    ensures var mid := Apply(cfg, t, FirstChange(cfg, t, op, now));
            Enabled(cfg, mid, SecondChange(cfg, t, mid, op, intact, now))
  {
    var mid := Apply(cfg, t, FirstChange(cfg, t, op, now));
    if op.Submit? && op.request.result !in mid.submissions {
      var verdict := JudgeSubmission(cfg, mid, op.request, now);
      if verdict.Admit? {
        AdmittedIsAdmissible(cfg, mid, op.request, now, verdict.work);
      }
    }
  }

  /** The training state after an operation: the first change, then the second. */
  function After(cfg: Config, t: Training, op: Op, intact: bool, now: real): Training
    requires QuorumCloses(cfg, Apply(cfg, t, FirstChange(cfg, t, op, now)), op, now)
  {
    var mid := Apply(cfg, t, FirstChange(cfg, t, op, now));
    SecondIsEnabled(cfg, t, op, intact, now);
    Apply(cfg, mid, SecondChange(cfg, t, mid, op, intact, now))
  }

  lemma AfterKeeps(cfg: Config, t: Training, op: Op, intact: bool, now: real)
    requires Inv(cfg, t)
    ensures QuorumCloses(cfg, Apply(cfg, t, FirstChange(cfg, t, op, now)), op, now)
    ensures Inv(cfg, After(cfg, t, op, intact, now))
  {
    var first := FirstChange(cfg, t, op, now);
    ChangeKeeps(cfg, t, first);
    var mid := Apply(cfg, t, first);
    InvMakesQuorumClose(cfg, mid, op, now);
    SecondIsEnabled(cfg, t, op, intact, now);
    ChangeKeeps(cfg, mid, SecondChange(cfg, t, mid, op, intact, now));
  }

  // ---- The ledger behind each operation

  /** `r` has the training state `t`, and a ledger that grew, stayed tracked and was saved as far as before. */
  ghost predicate Follows(cfg: Config, s: System, t: Training, r: System) {
    && r.state.training == t && (Tracked(cfg, s) ==> Tracked(cfg, r))
    && s.ledger <= r.ledger && Unsaved(r) == Unsaved(s)
  }

  lemma LoggedChange(cfg: Config, s: System, t: Training, kind: Kind, now: real)
    ensures Follows(cfg, s, t, Log(cfg, With(s, t), kind, now))
  {
    LogKeeps(cfg, With(s, t), kind, now);
  }

  lemma ClaimFollows(cfg: Config, s: System, op: Op, now: real)
    requires op.Claim?
    ensures Follows(cfg, s, After(cfg, s.state.training, op, false, now), ClaimStep(cfg, s, op.cellId, op.token, now).0)
  {
    SweepFacts(cfg, s, now);
  }

  lemma HeartbeatFollows(cfg: Config, s: System, op: Op, now: real)
    requires op.Heartbeat?
    ensures var t := s.state.training;
            var r := HeartbeatStep(cfg, s, op.hbCellId, op.work, op.generation, op.lease, now).0;
            && r.state.training == After(cfg, t, op, false, now) && s.ledger <= r.ledger
            && Unsaved(r) == Unsaved(s)
               + (if HeartbeatRefused(cfg, t, op.hbCellId, op.work, op.generation, op.lease, now)
                  then Lapses(t, now) else 0)
            && (Tracked(cfg, s) ==>
                  (Tracked(cfg, r) <==> !(HeartbeatRefused(cfg, t, op.hbCellId, op.work, op.generation, op.lease, now)
                                          && Lapses(t, now) > 0)))
  {
    SweepFacts(cfg, s, now);
    var swept := Sweep(cfg, s, now);
    var t := swept.state.training;
    if !HeartbeatRefused(cfg, s.state.training, op.hbCellId, op.work, op.generation, op.lease, now) {
      var j := FindWork(CurrentRound(t).works, op.work).value;
      var w := CurrentRound(t).works[j].(expiresAt := now + cfg.leaseSeconds);
      LoggedChange(cfg, swept, PutWork(t, j, w),
        LeaseRenewed(CurrentRound(t).index, op.work, cfg.cellHash(op.hbCellId), w.generation), now);
    }
  }

  lemma RejectFollows(cfg: Config, s: System, code: Refusal, cell: string, now: real)
    ensures Follows(cfg, s, s.state.training.(rejected := s.state.training.rejected + 1),
            Reject(cfg, s, code, cell, now).0)
  {
    LoggedChange(cfg, s, s.state.training.(rejected := s.state.training.rejected + 1), UpdateRejected(code, cell), now);
  }

  lemma AggregateFollows(cfg: Config, s: System, outputHash: Digest, now: real)
    requires HasCurrent(s.state.training) && |CurrentRound(s.state.training).results| >= cfg.quorum
    requires |CellsBehind(s.state.training, CurrentRound(s.state.training).results[..cfg.quorum])| == cfg.quorum
    ensures var r := Aggregate(cfg, s, outputHash, now);
            r.Some? && Follows(cfg, s, Advance(cfg, s.state.training, outputHash, now), r.value)
  {
    var t := s.state.training;
    var done := CompleteRound(cfg, t, outputHash, now);
    var closed := RoundAggregated(CurrentRound(t).index, done.version, outputHash);
    var logged := Log(cfg, With(s, done), closed, now);
    var after := AfterRound(cfg, done, now);
    LoggedChange(cfg, s, done, closed, now);
    LoggedChange(cfg, logged, after,
      if after.complete then TargetReached(done.version) else RoundStarted(|done.rounds|, outputHash), now);
  }

  lemma AcceptFollows(cfg: Config, s: System, j: nat, req: Request, outputHash: Digest, now: real)
    requires Admissible(cfg, s.state.training, j, req)
    requires FillsQuorum(cfg, s.state.training, j, req, now) ==> Closing(cfg, s.state.training, j, req, now)
    ensures var r := AcceptStep(cfg, s, j, req, outputHash, now);
            var t := s.state.training;
            && !r.1.Failed?
            && Follows(cfg, s,
                       if FillsQuorum(cfg, t, j, req, now)
                       then ClosingTraining(cfg, t, j, req, outputHash, now)
                       else PlainTraining(cfg, t, j, req, now), r.0)
  {
    var a := AcceptTraining(cfg, s.state.training, j, req, now);
    var kind := UpdateAccepted(CurrentRound(a).index, req.work, cfg.cellHash(req.cellId), req.result);
    LoggedChange(cfg, s, a, kind, now);
    if FillsQuorum(cfg, s.state.training, j, req, now) {
      AggregateFollows(cfg, Log(cfg, With(s, a), kind, now), outputHash, now);
    }
  }

  /** A submission that escapes changes nothing but the ledger file. */
  lemma SubmitEscapes(cfg: Config, s: System, op: Op, now: real)
    requires op.Submit? && SubmissionEscapes(cfg, s.state.training, op.request, now)
    requires QuorumCloses(cfg, Apply(cfg, s.state.training, FirstChange(cfg, s.state.training, op, now)), op, now)
    ensures var t := s.state.training;
            var r := SubmitStep(cfg, s, op.request, op.outputHash, now);
            && !r.1.Failed? && r.0.state == s.state
            && s.ledger <= r.0.ledger && |r.0.ledger| == |s.ledger| + Lapses(t, now)
            && (Lapses(t, now) == 0 ==> r.0.ledger == s.ledger)
            && After(cfg, t, op, false, now) == t
  {
    SweepFacts(cfg, s, now);
  }

  /** A submission under a new result id that is refused. */
  lemma RefusedSubmitFollows(cfg: Config, s: System, op: Op, now: real)
    requires op.Submit? && op.request.result !in s.state.training.submissions
    requires JudgeSubmission(cfg, SweepTraining(s.state.training, now), op.request, now).Refuse?
    requires !SubmissionEscapes(cfg, s.state.training, op.request, now)
    ensures var r := SubmitStep(cfg, s, op.request, op.outputHash, now);
            !r.1.Failed? && Follows(cfg, s, After(cfg, s.state.training, op, false, now), r.0)
  {
    SweepFacts(cfg, s, now);
    var swept := Sweep(cfg, s, now);
    RejectFollows(cfg, swept, JudgeSubmission(cfg, swept.state.training, op.request, now).code,
      cfg.cellHash(op.request.cellId), now);
  }

  lemma AfterAdmission(cfg: Config, t: Training, op: Op, now: real)
    requires op.Submit? && op.request.result !in t.submissions
    requires JudgeSubmission(cfg, SweepTraining(t, now), op.request, now).Admit?
    requires QuorumCloses(cfg, SweepTraining(t, now), op, now)
    ensures var swept := SweepTraining(t, now);
            var j := JudgeSubmission(cfg, swept, op.request, now).work;
            && Admissible(cfg, swept, j, op.request)
            && (FillsQuorum(cfg, swept, j, op.request, now) ==> Closing(cfg, swept, j, op.request, now))
            && After(cfg, t, op, false, now)
               == if FillsQuorum(cfg, swept, j, op.request, now)
                  then ClosingTraining(cfg, swept, j, op.request, op.outputHash, now)
                  else PlainTraining(cfg, swept, j, op.request, now)
  {
    var swept := SweepTraining(t, now);
    AdmittedIsAdmissible(cfg, swept, op.request, now, JudgeSubmission(cfg, swept, op.request, now).work);
  }

  /** A submission under a new result id that is admitted. */
  lemma AdmittedSubmitFollows(cfg: Config, s: System, op: Op, now: real)
    requires op.Submit? && op.request.result !in s.state.training.submissions
    requires JudgeSubmission(cfg, SweepTraining(s.state.training, now), op.request, now).Admit?
    requires QuorumCloses(cfg, SweepTraining(s.state.training, now), op, now)
    ensures var r := SubmitStep(cfg, s, op.request, op.outputHash, now);
            !r.1.Failed? && Follows(cfg, s, After(cfg, s.state.training, op, false, now), r.0)
  {
    SweepFacts(cfg, s, now);
    AfterAdmission(cfg, s.state.training, op, now);
    AdmittedAcceptFollows(cfg, Sweep(cfg, s, now), op, now);
  }

  lemma AdmittedAcceptFollows(cfg: Config, s: System, op: Op, now: real)
    requires op.Submit? && op.request.result !in s.state.training.submissions
    requires JudgeSubmission(cfg, s.state.training, op.request, now).Admit?
             && QuorumCloses(cfg, s.state.training, op, now)
    ensures var t := s.state.training;
            var j := JudgeSubmission(cfg, t, op.request, now).work;
            var r := AcceptStep(cfg, s, j, op.request, op.outputHash, now);
            && Admissible(cfg, t, j, op.request) && !r.1.Failed?
            && (FillsQuorum(cfg, t, j, op.request, now) ==> Closing(cfg, t, j, op.request, now))
            && Follows(cfg, s,
                       if FillsQuorum(cfg, t, j, op.request, now)
                       then ClosingTraining(cfg, t, j, op.request, op.outputHash, now)
                       else PlainTraining(cfg, t, j, op.request, now), r.0)
  {
    var j := JudgeSubmission(cfg, s.state.training, op.request, now).work;
    AdmittedIsAdmissible(cfg, s.state.training, op.request, now, j);
    AcceptFollows(cfg, s, j, op.request, op.outputHash, now);
  }

  lemma SubmitFollows(cfg: Config, s: System, op: Op, now: real)
    requires op.Submit? && !SubmissionEscapes(cfg, s.state.training, op.request, now)
    requires QuorumCloses(cfg, Apply(cfg, s.state.training, FirstChange(cfg, s.state.training, op, now)), op, now)
    ensures var r := SubmitStep(cfg, s, op.request, op.outputHash, now);
            !r.1.Failed? && Follows(cfg, s, After(cfg, s.state.training, op, false, now), r.0)
  {
    if op.request.result in s.state.training.submissions {
      RejectFollows(cfg, s, ResultIdCollision, cfg.cellHash(op.request.cellId), now);
    } else {
      if JudgeSubmission(cfg, SweepTraining(s.state.training, now), op.request, now).Refuse? {
        RefusedSubmitFollows(cfg, s, op, now);
      } else {
        AdmittedSubmitFollows(cfg, s, op, now);
      }
    }
  }

  // ---- One step

  /** Operations that leave after the sweep and before the save: refused heartbeats and escaping submissions. */
  predicate LeavesUnsaved(cfg: Config, t: Training, op: Op, now: real) {
    || (op.Heartbeat? && HeartbeatRefused(cfg, t, op.hbCellId, op.work, op.generation, op.lease, now))
    || (op.Submit? && SubmissionEscapes(cfg, t, op.request, now))
  }

  /** How an operation that runs to its end breaks the ledger: it swept a lapsed lease and never saved that. */
  predicate BreaksLedger(cfg: Config, t: Training, op: Op, authorized: bool, now: real) {
    authorized && LeavesUnsaved(cfg, t, op, now) && Lapses(t, now) > 0
  }

  lemma SetLifecycleFollows(cfg: Config, s: System, op: Op, now: real)
    requires op.SetLifecycle?
    ensures Follows(cfg, s, After(cfg, s.state.training, op, LedgerOk(cfg, s), now), Step(cfg, s, op, true, now).0)
  {
    var target := if op.pause then Paused else Running;
    LoggedChange(cfg, s, s.state.training.(lifecycle := target), LifecycleChanged(target), now);
  }

  lemma FinalizeFollows(cfg: Config, s: System, op: Op, now: real)
    requires op.Finalize?
    ensures Follows(cfg, s, After(cfg, s.state.training, op, LedgerOk(cfg, s), now), Step(cfg, s, op, true, now).0)
  {
    var t := s.state.training;
    LoggedChange(cfg, s, t.(lifecycle := Finalized), CampaignFinalized(t.version), now);
  }

  lemma RecoverFollows(cfg: Config, s: System, op: Op, now: real)
    requires op.Recover?
    ensures Follows(cfg, s, After(cfg, s.state.training, op, LedgerOk(cfg, s), now), Step(cfg, s, op, true, now).0)
  {
    var t := s.state.training;
    LoggedChange(cfg, s, t.(recoveries := t.recoveries + 1), Recovered(t.recoveries + 1), now);
  }

  /** Every authorized step makes its two changes, and keeps the ledger tracked exactly when it does not break it. */
  lemma StepFacts(cfg: Config, s: System, op: Op, authorized: bool, now: real)
    requires QuorumCloses(cfg, Apply(cfg, s.state.training, FirstChange(cfg, s.state.training, op, now)), op, now)
    ensures var t := s.state.training;
            var r := Step(cfg, s, op, authorized, now);
            && r.0.state.training == (if authorized || op.Recover? then After(cfg, t, op, LedgerOk(cfg, s), now) else t)
            && s.ledger <= r.0.ledger
            && Unsaved(r.0) == Unsaved(s) + (if BreaksLedger(cfg, t, op, authorized, now) then Lapses(t, now) else 0)
            && (op.Submit? ==> !r.1.Failed?)
            && (Tracked(cfg, s) ==> (Tracked(cfg, r.0) <==> !BreaksLedger(cfg, t, op, authorized, now)))
  {
    if authorized || op.Recover? {
      match op
      case Claim(_, _) => ClaimFollows(cfg, s, op, now);
      case Heartbeat(_, _, _, _) => HeartbeatFollows(cfg, s, op, now);
      case Submit(request, _) =>
        if SubmissionEscapes(cfg, s.state.training, request, now) {
          SubmitEscapes(cfg, s, op, now);
        } else {
          SubmitFollows(cfg, s, op, now);
        }
      case ExpireLeases => SweepFacts(cfg, s, now);
      case Administer(whats) => LogEachKeeps(cfg, s, whats, now);
      case SetLifecycle(_) => SetLifecycleFollows(cfg, s, op, now);
      case Finalize(_, _) => FinalizeFollows(cfg, s, op, now);
      case Recover(_) => RecoverFollows(cfg, s, op, now);
    }
  }

  lemma StepKeeps(cfg: Config, s: System, op: Op, authorized: bool, now: real)
    requires Inv(cfg, s.state.training)
    ensures var r := Step(cfg, s, op, authorized, now).0;
            && Inv(cfg, r.state.training) && s.ledger <= r.ledger
            && Unsaved(r) == Unsaved(s)
               + (if BreaksLedger(cfg, s.state.training, op, authorized, now) then Lapses(s.state.training, now) else 0)
            && (Tracked(cfg, s) ==> (Tracked(cfg, r) <==> !BreaksLedger(cfg, s.state.training, op, authorized, now)))
  {
    AfterKeeps(cfg, s.state.training, op, LedgerOk(cfg, s), now);
    StepFacts(cfg, s, op, authorized, now);
  }

  // ---- Runs

  /**
   An operation at some time. `cut`, if any, is the number of ledger events after
   which it is cut off, by an exception or a crash, before it saves.
   */
  datatype Timed = Timed(now: real, authorized: bool, op: Op, cut: Option<nat>)

  lemma InitKeeps(cfg: Config, now: real)
    requires ValidConfig(cfg)
    ensures Inv(cfg, Init(cfg, now).state.training) && LedgerOk(cfg, Init(cfg, now)) && Tracked(cfg, Init(cfg, now))
  {
    var t := Training(0, 0, cfg.initialHash, [], map[], false, Running, 0, 0, 0, 0, 0, 0);
    var r := NewRound(cfg, t, now);
    FreshRoundIsSafe(cfg, t, now, map[]);
    AppendEmptyRound([], r);
    assert [] + [r] == [r];
    assert HashBefore(cfg, [r], 0) == cfg.initialHash;
    LogKeeps(cfg, System(Saved(StartRound(cfg, t, now), 0, GENESIS), []), CampaignCreated, now);
  }

  ghost function StepOf(cfg: Config, s: System, e: Timed): System {
    Step(cfg, s, e.op, e.authorized, e.now).0
  }

  /** Ledger events the operation appends if it is not cut off. */
  ghost function Appends(cfg: Config, s: System, e: Timed): int {
    |StepOf(cfg, s, e).ledger| - |s.ledger|
  }

  /** A step cut off after `n` events leaves the saved state alone, and those events in the ledger file. */
  function CutOff(s: System, r: System, n: nat): System {
    System(s.state, if |s.ledger| + n <= |r.ledger| then r.ledger[..|s.ledger| + n] else r.ledger)
  }

  function Rest(s: System, r: System, cut: Option<nat>): System {
    if cut.None? then r else CutOff(s, r, cut.value)
  }

  ghost function Happen(cfg: Config, s: System, e: Timed): System {
    Rest(s, StepOf(cfg, s, e), e.cut)
  }

  lemma CutOffKeeps(cfg: Config, s: System, r: System, n: nat)
    requires s.ledger <= r.ledger
    ensures var c := CutOff(s, r, n);
            && s.ledger <= c.ledger
            && (n > 0 && |r.ledger| > |s.ledger| ==> Unsaved(c) > Unsaved(s))
            && (n == 0 || |r.ledger| == |s.ledger| ==> c == s)
            && (Tracked(cfg, s) && Unsaved(c) > Unsaved(s) ==> !Tracked(cfg, c))
  {
  }

  /**
   What breaks a ledger: to be cut off with an event in the file and the state
   unsaved, or to run to such an end uncut.
   */
  ghost predicate Breaks(cfg: Config, s: System, e: Timed) {
    if e.cut.Some? then e.cut.value > 0 && Appends(cfg, s, e) > 0
    else BreaksLedger(cfg, s.state.training, e.op, e.authorized, e.now)
  }

  lemma RestKeeps(cfg: Config, s: System, r: System, cut: Option<nat>, lost: nat)
    requires Inv(cfg, s.state.training) && Inv(cfg, r.state.training) && s.ledger <= r.ledger
    requires Unsaved(r) == Unsaved(s) + lost && (Tracked(cfg, s) ==> (Tracked(cfg, r) <==> lost == 0))
    ensures var c := Rest(s, r, cut);
            var breaks := if cut.Some? then cut.value > 0 && |r.ledger| > |s.ledger| else lost > 0;
            && Inv(cfg, c.state.training) && s.ledger <= c.ledger
            && (if breaks then Unsaved(c) > Unsaved(s) else Unsaved(c) == Unsaved(s))
            && (Tracked(cfg, s) ==> (Tracked(cfg, c) <==> !breaks))
  {
    if cut.Some? {
      CutOffKeeps(cfg, s, r, cut.value);
    }
  }

  lemma HappenKeeps(cfg: Config, s: System, e: Timed)
    requires Inv(cfg, s.state.training)
    ensures var r := Happen(cfg, s, e);
            && Inv(cfg, r.state.training) && s.ledger <= r.ledger
            && (if Breaks(cfg, s, e) then Unsaved(r) > Unsaved(s) else Unsaved(r) == Unsaved(s))
            && (Tracked(cfg, s) ==> (Tracked(cfg, r) <==> !Breaks(cfg, s, e)))
  {
    var t := s.state.training;
    StepKeeps(cfg, s, e.op, e.authorized, e.now);
    RestKeeps(cfg, s, StepOf(cfg, s, e), e.cut,
      if BreaksLedger(cfg, t, e.op, e.authorized, e.now) then Lapses(t, e.now) else 0);
  }

  /** The system after the campaign was created at `born` and `ops` were carried out or cut off. */
  ghost function Run(cfg: Config, born: real, ops: seq<Timed>): System {
    if ops == [] then Init(cfg, born)
    else Happen(cfg, Run(cfg, born, ops[..|ops| - 1]), ops[|ops| - 1])
  }

  /** The invariant holds in every reachable state. */
  lemma {:induction false} RunKeeps(cfg: Config, born: real, ops: seq<Timed>)
    requires ValidConfig(cfg)
    ensures Inv(cfg, Run(cfg, born, ops).state.training) && Run(cfg, born, ops).ledger != []
  {
    if ops == [] {
      InitKeeps(cfg, born);
    } else {
      RunKeeps(cfg, born, ops[..|ops| - 1]);
      HappenKeeps(cfg, Run(cfg, born, ops[..|ops| - 1]), ops[|ops| - 1]);
    }
  }

  /** No operation of the run left events in the ledger file without saving. */
  ghost predicate NoBreak(cfg: Config, born: real, ops: seq<Timed>) {
    ops == [] ||
    var k := |ops| - 1;
    NoBreak(cfg, born, ops[..k]) && !Breaks(cfg, Run(cfg, born, ops[..k]), ops[k])
  }

  /** Along every run the saved count covers the whole file exactly until the first such operation. */
  lemma {:induction false} UnsavedExactlyWhenBroken(cfg: Config, born: real, ops: seq<Timed>)
    requires ValidConfig(cfg)
    ensures var s := Run(cfg, born, ops);
            if NoBreak(cfg, born, ops) then Tracked(cfg, s) && Unsaved(s) == 0 else Unsaved(s) > 0
  {
    if ops == [] {
      InitKeeps(cfg, born);
    } else {
      var k := |ops| - 1;
      UnsavedExactlyWhenBroken(cfg, born, ops[..k]);
      RunKeeps(cfg, born, ops[..k]);
      HappenKeeps(cfg, Run(cfg, born, ops[..k]), ops[k]);
    }
  }

  /**
   The audit ledger of a run verifies if and only if no operation of it was cut
   off after an event, and no heartbeat was refused and no submission escaped
   while sweeping a lapsed lease; once broken, it never verifies again.
   */
  lemma LedgerVerifiesExactlyWhenUnbroken(cfg: Config, born: real, ops: seq<Timed>)
    requires ValidConfig(cfg)
    ensures LedgerOk(cfg, Run(cfg, born, ops)) <==> NoBreak(cfg, born, ops)
  {
    UnsavedExactlyWhenBroken(cfg, born, ops);
    RunKeeps(cfg, born, ops);
  }

  lemma {:induction false} NoBreakBefore(cfg: Config, born: real, ops: seq<Timed>, more: seq<Timed>)
    requires NoBreak(cfg, born, ops + more)
    ensures NoBreak(cfg, born, ops)
    decreases |more|
  {
    if more == [] {
      assert ops + more == ops;
    } else {
      assert (ops + more)[..|ops + more| - 1] == ops + more[..|more| - 1];
      NoBreakBefore(cfg, born, ops, more[..|more| - 1]);
    }
  }

  /** Whatever follows, recovery included, a ledger that fails verification keeps failing it. */
  lemma BrokenForGood(cfg: Config, born: real, ops: seq<Timed>, more: seq<Timed>)
    requires ValidConfig(cfg) && !LedgerOk(cfg, Run(cfg, born, ops))
    ensures !LedgerOk(cfg, Run(cfg, born, ops + more))
  {
    LedgerVerifiesExactlyWhenUnbroken(cfg, born, ops);
    LedgerVerifiesExactlyWhenUnbroken(cfg, born, ops + more);
    if NoBreak(cfg, born, ops + more) {
      NoBreakBefore(cfg, born, ops, more);
    }
  }

  /** On a verified ledger one more operation breaks verification if and only if it leaves events unsaved. */
  lemma LedgerBreaksExactlyThen(cfg: Config, born: real, ops: seq<Timed>, next: Timed)
    requires ValidConfig(cfg)
    ensures var s := Run(cfg, born, ops);
            LedgerOk(cfg, s) ==> (LedgerOk(cfg, Run(cfg, born, ops + [next])) <==> !Breaks(cfg, s, next))
  {
    assert (ops + [next])[..|ops|] == ops;
    RunKeeps(cfg, born, ops);
    HappenKeeps(cfg, Run(cfg, born, ops), next);
  }
}
