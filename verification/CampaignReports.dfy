/** Leases, accounting, replay and lineage of every reachable coordinator state. */
module CampaignReports {
  import opened Campaign
  import opened CampaignInvariant
  import opened CampaignAccept
  import opened CampaignRun
  import opened CampaignTheorems
  import opened Wrappers

  ghost function Reached(cfg: Config, born: real, ops: seq<Timed>): Training {
    Run(cfg, born, ops).state.training
  }

  // ---- Leases

  /**
   In every reachable active round no cell holds two leases, no cell with an
   accepted update holds one, the accepted cells are distinct, and at least one
   work unit is still unaccepted.
   */
  lemma LeasesAreExclusive(cfg: Config, born: real, ops: seq<Timed>)
    requires ValidConfig(cfg) && HasCurrent(Reached(cfg, born, ops))
    ensures var r := CurrentRound(Reached(cfg, born, ops));
            && (forall cell, j, k ::
                  0 <= j < |r.works| && 0 <= k < |r.works| && HeldBy(r.works[j], cell) && HeldBy(r.works[k], cell)
                  ==> j == k)
            && (forall cell, j :: 0 <= j < |r.works| && HeldBy(r.works[j], cell) ==> cell !in r.cells)
            && Distinct(r.cells) && |r.cells| == |r.results| < cfg.quorum
            && exists j :: 0 <= j < |r.works| && r.works[j].status != Accepted
  {
    var t := Reached(cfg, born, ops);
    RunKeeps(cfg, born, ops);
    CurrentIsLast(cfg, t, cfg.quorum - 1);
    SomeWorkIsOpen(CurrentRound(t).works);
  }

  lemma {:induction false} NoLeaseNoCount(works: seq<Work>, cell: string)
    requires forall j :: 0 <= j < |works| ==> !HeldBy(works[j], cell)
    ensures LeasesOf(works, cell) == 0
  {
    if works != [] {
      NoLeaseNoCount(works[..|works| - 1], cell);
    }
  }

  lemma NeverTooManyLeases(cfg: Config, t: Training, cell: string)
    requires cfg.maxLeasesPerCell >= 1
    ensures !JudgeClaim(cfg, t, cell).TooManyLeases?
  {
    if HasCurrent(t) && FindLease(CurrentRound(t).works, cell).None? {
      NoLeaseNoCount(CurrentRound(t).works, cell);
    }
  }

  lemma LeaseChecksSuffice(cfg: Config, t: Training, req: Request, now: real)
    requires HasCurrent(t) ==> LeaseSafe(CurrentRound(t).works, CurrentRound(t).cells)
    requires HasCurrent(t) ==> forall j :: 0 <= j < |CurrentRound(t).works| ==> !Lapsed(CurrentRound(t).works[j], now)
    ensures JudgeSubmission(cfg, t, req, now) != Refuse(DistinctCellViolation)
    ensures JudgeSubmission(cfg, t, req, now) != Refuse(LeaseExpired)
  {
  }

  lemma SweptIsSafe(cfg: Config, t: Training, now: real)
    requires Inv(cfg, t)
    ensures var s := SweepTraining(t, now);
            HasCurrent(s) ==>
              && LeaseSafe(CurrentRound(s).works, CurrentRound(s).cells)
              && forall j :: 0 <= j < |CurrentRound(s).works| ==> !Lapsed(CurrentRound(s).works[j], now)
  {
    if HasCurrent(t) {
      CurrentIsLast(cfg, t, cfg.quorum - 1);
      SweptRoundIsSafe(CurrentRound(t), t.submissions, now);
    }
  }

  /** The concurrency limit, the expired-lease check and the distinct-cell check never stop a request. */
  lemma GuardsNeverFire(cfg: Config, born: real, ops: seq<Timed>, now: real, cell: string, req: Request)
    requires ValidConfig(cfg)
    ensures var swept := SweepTraining(Reached(cfg, born, ops), now);
            && !JudgeClaim(cfg, swept, cell).TooManyLeases?
            && JudgeSubmission(cfg, swept, req, now) != Refuse(DistinctCellViolation)
            && JudgeSubmission(cfg, swept, req, now) != Refuse(LeaseExpired)
  {
    assert HasCurrent(SweepTraining(Reached(cfg, born, ops), now)) ==>
        var r := CurrentRound(SweepTraining(Reached(cfg, born, ops), now));
        LeaseSafe(r.works, r.cells) && forall j :: 0 <= j < |r.works| ==> !Lapsed(r.works[j], now) by {
      RunKeeps(cfg, born, ops);
      SweptIsSafe(cfg, Reached(cfg, born, ops), now);
    }
    NeverTooManyLeases(cfg, SweepTraining(Reached(cfg, born, ops), now), cell);
    LeaseChecksSuffice(cfg, SweepTraining(Reached(cfg, born, ops), now), req, now);
  }

  /** The aggregation error for a quorum that is not cell-distinct is unreachable. */
  lemma SubmissionNeverFails(cfg: Config, born: real, ops: seq<Timed>, now: real, op: Op)
    requires ValidConfig(cfg) && op.Submit?
    ensures !SubmitStep(cfg, Run(cfg, born, ops), op.request, op.outputHash, now).1.Failed?
  {
    var s := Run(cfg, born, ops);
    RunKeeps(cfg, born, ops);
    AfterKeeps(cfg, s.state.training, op, false, now);
    if SubmissionEscapes(cfg, s.state.training, op.request, now) {
      SubmitEscapes(cfg, s, op, now);
    } else {
      SubmitFollows(cfg, s, op, now);
    }
  }

  // ---- Accounting

  lemma {:induction false} QuorumPerRound(rounds: seq<Round>, quorum: nat)
    requires forall i :: 0 <= i < |rounds| ==> |rounds[i].results| == quorum
    ensures |AllResults(rounds)| == quorum * |rounds|
  {
    if rounds != [] {
      var n := |rounds| - 1;
      QuorumPerRound(rounds[..n], quorum);
      assert AllResults(rounds) == AllResults(rounds[..n]) + rounds[n].results;
      assert quorum * (n + 1) == quorum * n + quorum;
    }
  }

  lemma {:induction false} FoundInRound(rounds: seq<Round>, x: string)
    ensures x in AllResults(rounds)
            ==> exists i, k :: 0 <= i < |rounds| && 0 <= k < |rounds[i].results| && rounds[i].results[k] == x
  {
    if rounds != [] && x in AllResults(rounds) {
      var n := |rounds| - 1;
      FoundInRound(rounds[..n], x);
      if x in AllResults(rounds[..n]) {
        var i, k :| 0 <= i < n && 0 <= k < |rounds[..n][i].results| && rounds[..n][i].results[k] == x;
        assert rounds[i].results[k] == x;
      } else {
        var k :| 0 <= k < |rounds[n].results| && rounds[n].results[k] == x;
      }
    }
  }

  function ActiveResults(t: Training): seq<string> {
    if HasCurrent(t) then CurrentRound(t).results else []
  }

  lemma RoundsAddUp(rounds: seq<Round>, version: nat, quorum: nat)
    requires version <= |rounds| <= version + 1
    requires forall i :: 0 <= i < version ==> |rounds[i].results| == quorum
    ensures |AllResults(rounds)| == quorum * version + (if |rounds| == version then 0 else |rounds[version].results|)
  {
    QuorumPerRound(rounds[..version], quorum);
    if |rounds| == version {
      assert rounds[..version] == rounds;
    }
  }

  lemma DistinctKeysCount(all: seq<string>, subs: map<string, Submission>)
    requires Distinct(all) && forall x :: x in all <==> x in subs
    ensures |all| == |subs| && (set x | x in all) == subs.Keys
  {
    DistinctCount(all);
    assert (set x | x in all) == subs.Keys;
  }

  lemma CountsOf(cfg: Config, t: Training)
    requires Inv(cfg, t)
    ensures |AllResults(t.rounds)| == cfg.quorum * t.version + |ActiveResults(t)|
    ensures |AllResults(t.rounds)| == |t.submissions| && (set x | x in AllResults(t.rounds)) == t.submissions.Keys
  {
    CurrentIsLast(cfg, t, cfg.quorum - 1);
    forall i | 0 <= i < t.version ensures |t.rounds[i].results| == cfg.quorum {
      assert Closed(cfg, t.rounds[i], i);
    }
    RoundsAddUp(t.rounds, t.version, cfg.quorum);
    DistinctKeysCount(AllResults(t.rounds), t.submissions);
  }

  /**
   Exactly-once accounting: accepted updates = recorded submissions = quorum per
   completed round plus those of the active round; uploaded bytes are the sum
   over all submissions.
   */
  lemma AccountingIsExact(cfg: Config, born: real, ops: seq<Timed>)
    requires ValidConfig(cfg)
    ensures var t := Reached(cfg, born, ops);
            && t.accepted == |t.submissions| == cfg.quorum * t.version + |ActiveResults(t)|
            && t.uploadedBytes == BytesOf(AllResults(t.rounds), t.submissions)
            && Distinct(AllResults(t.rounds)) && (set x | x in AllResults(t.rounds)) == t.submissions.Keys
  {
    RunKeeps(cfg, born, ops);
    CountsOf(cfg, Reached(cfg, born, ops));
  }

  /** Each result id sits at exactly one place of exactly one round, the one its record names. */
  lemma ResultSitsOnce(cfg: Config, born: real, ops: seq<Timed>, x: string)
    requires ValidConfig(cfg) && x in Reached(cfg, born, ops).submissions
    ensures var t := Reached(cfg, born, ops);
            && t.submissions[x].round < |t.rounds|
            && (exists k ::
                  0 <= k < |t.rounds[t.submissions[x].round].results|
                  && t.rounds[t.submissions[x].round].results[k] == x)
            && forall i, k, k' :: 0 <= i < |t.rounds| && 0 <= k < |t.rounds[i].results| && t.rounds[i].results[k] == x
                                  && 0 <= k' < |t.rounds[i].results| && t.rounds[i].results[k'] == x
                                  ==> i == t.submissions[x].round && k == k'
  {
    var t := Reached(cfg, born, ops);
    RunKeeps(cfg, born, ops);
    FoundInRound(t.rounds, x);
    forall i | 0 <= i < |t.rounds| ensures RoundSafe(t.rounds[i], t.submissions) && t.rounds[i].index == i {
      assert RoundShape(cfg, t.rounds[i], i);
    }
  }

  // ---- Replay

  /** The recorded flag and version agree with the round the submission went into. */
  lemma RecordAgreesWithRound(cfg: Config, born: real, ops: seq<Timed>, x: string)
    requires ValidConfig(cfg) && x in Reached(cfg, born, ops).submissions
    ensures var t := Reached(cfg, born, ops); StampedRight(t.rounds, t.submissions[x], x)
  {
    RunKeeps(cfg, born, ops);
  }

  /** A request that repeats an accepted one: same result id, delta, cell and work unit. */
  predicate Repeats(cfg: Config, a: Request, b: Request) {
    a.result == b.result && a.deltaHash == b.deltaHash && cfg.cellHash(a.cellId) == cfg.cellHash(b.cellId)
      && a.work == b.work
  }

  /** A system that recorded the request under the given receipt. */
  predicate Recorded(cfg: Config, s: System, req: Request, receipt: Receipt) {
    && req.result in s.state.training.submissions
    && var sub := s.state.training.submissions[req.result];
       && receipt == ReceiptOf(req.result, sub)
       && sub.deltaHash == req.deltaHash && sub.cell == cfg.cellHash(req.cellId) && sub.work == req.work
  }

  lemma AcceptRecords(cfg: Config, s: System, j: nat, req: Request, outputHash: Digest, now: real)
    requires HasCurrent(s.state.training) && j < |CurrentRound(s.state.training).works|
    ensures var (s', reply) := AcceptStep(cfg, s, j, req, outputHash, now);
            reply.Taken? ==> Recorded(cfg, s', req, reply.receipt)
  {
  }

  lemma AcceptedIsRecorded(cfg: Config, s: System, op: Op, authorized: bool, now: real)
    requires NewlyAccepted(cfg, s, op, authorized, now)
    ensures Recorded(cfg, Step(cfg, s, op, authorized, now).0, op.request, Step(cfg, s, op, authorized, now).1.receipt)
  {
    NewlyAcceptedWasAdmitted(cfg, s, op, authorized, now);
    SweepFacts(cfg, s, now);
    var swept := Sweep(cfg, s, now);
    var verdict := JudgeSubmission(cfg, swept.state.training, op.request, now);
    AcceptRecords(cfg, swept, verdict.work, op.request, op.outputHash, now);
  }

  /**
   Resubmitting an accepted result at any later time returns the receipt of the
   first acceptance and changes nothing.
   */
  lemma ReplayAnyTime(
    cfg: Config, born: real, ops: seq<Timed>, k: nat, n: nat, again: Request, outputHash: Digest, now: real)
    requires ValidConfig(cfg) && k < n <= |ops|
    requires ops[k].cut.None?
    requires NewlyAccepted(cfg, Run(cfg, born, ops[..k]), ops[k].op, ops[k].authorized, ops[k].now)
    requires Repeats(cfg, ops[k].op.request, again)
    ensures var receipt := Step(cfg, Run(cfg, born, ops[..k]), ops[k].op, ops[k].authorized, ops[k].now).1.receipt;
            Step(cfg, Run(cfg, born, ops[..n]), Submit(again, outputHash), true, now)
              == (Run(cfg, born, ops[..n]), Taken(receipt, true))
  {
    var receipt := Step(cfg, Run(cfg, born, ops[..k]), ops[k].op, ops[k].authorized, ops[k].now).1.receipt;
    AcceptedIsRecorded(cfg, Run(cfg, born, ops[..k]), ops[k].op, ops[k].authorized, ops[k].now);
    assert ops[..k + 1][..k] == ops[..k];
    assert Recorded(cfg, Run(cfg, born, ops[..k + 1]), ops[k].op.request, receipt);
    RunsEvolve(cfg, born, ops, k + 1, n);
  }

  // ---- How the ledger breaks

  lemma {:induction false} SomeLapse(works: seq<Work>, j: nat, now: real)
    requires j < |works| && Lapsed(works[j], now)
    ensures LapsedCount(works, now) > 0
  {
    if j < |works| - 1 {
      SomeLapse(works[..|works| - 1], j, now);
    }
  }

  lemma FreshRoundGrants(cfg: Config, t: Training, cell: string)
    requires ValidConfig(cfg) && HasCurrent(t) && t.lifecycle == Running && CurrentRound(t).cells == []
             && CurrentRound(t).works != []
    requires forall j :: 0 <= j < |CurrentRound(t).works| ==> CurrentRound(t).works[j].status == Queued
    ensures JudgeClaim(cfg, t, cell).Grant?
  {
    NoLeaseNoCount(CurrentRound(t).works, cell);
  }

  lemma NothingToSweep(t: Training, now: real)
    requires HasCurrent(t) && forall j :: 0 <= j < |CurrentRound(t).works| ==> CurrentRound(t).works[j].status == Queued
    ensures SweepTraining(t, now) == t
  {
    var works := CurrentRound(t).works;
    NothingLapsed(works, now);
    assert Swept(works, now) == works;
    assert PutRound(t, CurrentRound(t)).rounds == t.rounds;
  }

  lemma {:induction false} NothingLapsed(works: seq<Work>, now: real)
    requires forall j :: 0 <= j < |works| ==> works[j].status == Queued
    ensures LapsedCount(works, now) == 0
  {
    if works != [] {
      NothingLapsed(works[..|works| - 1], now);
    }
  }

  /** After the first claim of a campaign exactly one work unit is leased, for the configured time. */
  lemma FirstClaim(cfg: Config, born: real, cellId: string, token: string) returns (j: nat)
    requires ValidConfig(cfg)
    ensures var t := Reached(cfg, born, [Timed(born, true, Claim(cellId, token), None)]);
            && t.submissions == map[] && HasCurrent(t) && j < |CurrentRound(t).works|
            && CurrentRound(t).works[j].status == Leased
               && CurrentRound(t).works[j].expiresAt == born + cfg.leaseSeconds
            && forall k :: 0 <= k < |CurrentRound(t).works| && k != j ==> CurrentRound(t).works[k].status == Queued
  {
    var ops := [Timed(born, true, Claim(cellId, token), None)];
    assert ops[..0] == [];
    var s := Init(cfg, born);
    var t := s.state.training;
    NothingToSweep(t, born);
    SweepFacts(cfg, s, born);
    FreshRoundGrants(cfg, t, cfg.cellHash(cellId));
    j := JudgeClaim(cfg, t, cfg.cellHash(cellId)).work;
    assert Run(cfg, born, ops).state.training == GrantTraining(cfg, t, j, cfg.cellHash(cellId), token, born);
  }

  lemma QuietClaim(cfg: Config, born: real, claim: Timed)
    requires ValidConfig(cfg) && claim.op.Claim? && claim.cut.None?
    ensures LedgerOk(cfg, Run(cfg, born, [claim]))
  {
    var ops := [claim];
    assert ops[..|ops| - 1] == [];
    assert NoBreak(cfg, born, []);
    LedgerVerifiesExactlyWhenUnbroken(cfg, born, ops);
  }

  /** When the only lease has run out, every heartbeat is refused, after sweeping it. */
  lemma AllSweptRefuses(cfg: Config, t: Training, j: nat, late: Op, now: real)
    requires HasCurrent(t) && j < |CurrentRound(t).works| && Lapsed(CurrentRound(t).works[j], now)
    requires forall k :: 0 <= k < |CurrentRound(t).works| && k != j ==> CurrentRound(t).works[k].status == Queued
    requires late.Heartbeat?
    ensures BreaksLedger(cfg, t, late, true, now)
  {
    SomeLapse(CurrentRound(t).works, j, now);
    var swept := SweepTraining(t, now);
    assert forall k :: 0 <= k < |CurrentRound(swept).works| ==> CurrentRound(swept).works[k].status == Queued;
  }

  /** After a claim whose lease ran out, an operation that leaves unsaved breaks the ledger. */
  lemma BreaksAfterClaim(cfg: Config, born: real, claim: Timed, late: Timed)
    requires ValidConfig(cfg) && claim.op.Claim? && claim.cut.None? && late.cut.None?
    requires BreaksLedger(cfg, Reached(cfg, born, [claim]), late.op, late.authorized, late.now)
    ensures LedgerOk(cfg, Run(cfg, born, [claim])) && !LedgerOk(cfg, Run(cfg, born, [claim] + [late]))
  {
    QuietClaim(cfg, born, claim);
    LedgerBreaksExactlyThen(cfg, born, [claim], late);
  }

  /**
   Claim a work unit, let its lease run out, and send any heartbeat: the swept
   lease is in the ledger file but not in the saved head, and verification fails.
   */
  lemma LateHeartbeatBreaksTheLedger(
    cfg: Config, born: real, cellId: string, token: string, id: WorkId, generation: int, lease: string)
    requires ValidConfig(cfg)
    ensures var claim := Timed(born, true, Claim(cellId, token), None);
            var late := Timed(born + cfg.leaseSeconds, true, Heartbeat(cellId, id, generation, lease), None);
            LedgerOk(cfg, Run(cfg, born, [claim])) && !LedgerOk(cfg, Run(cfg, born, [claim] + [late]))
  {
    var claim := Timed(born, true, Claim(cellId, token), None);
    var late := Timed(born + cfg.leaseSeconds, true, Heartbeat(cellId, id, generation, lease), None);
    var j := FirstClaim(cfg, born, cellId, token);
    AllSweptRefuses(cfg, Reached(cfg, born, [claim]), j, late.op, late.now);
    BreaksAfterClaim(cfg, born, claim, late);
  }

  /** The same with any submission whose adapter version is infinite: no lease, no valid delta, no round needed. */
  lemma EndlessVersionBreaksTheLedger(
    cfg: Config, born: real, cellId: string, token: string, req: Request, outputHash: Digest)
    requires ValidConfig(cfg) && req.version.Infinite?
    ensures var claim := Timed(born, true, Claim(cellId, token), None);
            var late := Timed(born + cfg.leaseSeconds, true, Submit(req, outputHash), None);
            LedgerOk(cfg, Run(cfg, born, [claim])) && !LedgerOk(cfg, Run(cfg, born, [claim] + [late]))
  {
    var claim := Timed(born, true, Claim(cellId, token), None);
    var late := Timed(born + cfg.leaseSeconds, true, Submit(req, outputHash), None);
    var j := FirstClaim(cfg, born, cellId, token);
    var t := Reached(cfg, born, [claim]);
    SomeLapse(CurrentRound(t).works, j, late.now);
    BreaksAfterClaim(cfg, born, claim, late);
  }
}
