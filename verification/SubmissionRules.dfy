/**
 When a submission is accepted, what it is refused with otherwise, and what an
 acceptance changes, said from the saved state, the request and the clock alone.
 */
module SubmissionRules {
  import opened Campaign
  import opened CampaignInvariant
  import opened CampaignAccept
  import opened CampaignRun
  import opened CampaignTheorems
  import opened CampaignReports
  import opened CampaignRules
  import opened Hurdles
  import opened Wrappers

  // ---- Submissions

  /** What a submission must show of the round, before anything else. */
  function RoundHurdles(t: Training, req: Request): seq<Hurdle<Refusal>> {
    [Hurdle(!req.version.Infinite?, Uncaught("OverflowError")),
     Hurdle(req.version.Number? && req.version.value >= t.version, StaleAdapterVersion),
     Hurdle(t.version < |t.rounds|, RoundClosed),
     Hurdle(req.round == t.version, RoundFork)]
  }

  function ReasonOf(c: Check): Refusal {
    if c.Raises? then Uncaught(c.error) else DeltaInvalid(if c.Fails? then c.code else "")
  }

  /** What a submission must show of its delta, in this order, once round and lease are in order. */
  function DeltaHurdles(cfg: Config, t: Training, req: Request, w: Option<Work>): seq<Hurdle<Refusal>> {
    [Hurdle(req.minerId == req.cellId, CellIdentityMismatch),
     Hurdle(req.schema, DeltaInvalid("adapter_delta_schema_mismatch")),
     Hurdle(req.result != "", DeltaInvalid("result_id_missing")),
     Hurdle(req.identity.Passes?, ReasonOf(req.identity)),
     Hurdle(req.version == Number(t.version), DeltaInvalid("adapter_version_mismatch")),
     Hurdle(!req.shard.Unreadable?, DeltaInvalid("dataset_shard_index_invalid")),
     Hurdle(!req.shard.Infinite?, Uncaught("OverflowError")),
     Hurdle(w.Some? && req.shard == Number(w.value.id.shard), DeltaInvalid("dataset_shard_index_mismatch")),
     Hurdle(req.content.Passes?, ReasonOf(req.content)),
     Hurdle(req.bytes <= cfg.maxDeltaBytes, DeltaTooLarge),
     Hurdle(req.samples.Number? && req.tokens.Number?, Uncaught("ValueError or OverflowError"))]
  }

  function SubmitHurdles(cfg: Config, t: Training, req: Request, now: real, w: Option<Work>): seq<Hurdle<Refusal>> {
    RoundHurdles(t, req) + LeaseHurdles(w, req.generation, cfg.cellHash(req.cellId), req.token, now)
    + DeltaHurdles(cfg, t, req, w)
  }

  /** The same, as one conjunction, with the unit `j` that the request is for. */
  predicate Acceptable(cfg: Config, t: Training, req: Request, now: real, j: nat) {
    && req.version == Number(t.version) && t.version < |t.rounds| && req.round == t.version
    && j < |Units(t)| && Units(t)[j].id == req.work
    && Units(t)[j].status == Leased && Units(t)[j].expiresAt > now
    && Units(t)[j].generation == req.generation && Units(t)[j].holder == Some(cfg.cellHash(req.cellId))
    && Units(t)[j].token == req.token && Plain(req.token)
    && req.minerId == req.cellId && req.schema && req.result != "" && req.result !in t.submissions
    && req.identity.Passes? && req.shard == Number(Units(t)[j].id.shard) && req.content.Passes?
    && req.bytes <= cfg.maxDeltaBytes && req.samples.Number? && req.tokens.Number?
  }

  lemma JudgedRound(cfg: Config, t: Training, u: Training, req: Request, now: real, k: nat)
    requires Sweeping(t, u, now) && StopsAt(RoundHurdles(t, req), k)
    ensures JudgeSubmission(cfg, u, req, now) == Refuse(RoundHurdles(t, req)[k].refusal)
  {
    var h := RoundHurdles(t, req);
    assert (k > 0 ==> h[0].passed) && (k > 1 ==> h[1].passed) && (k > 2 ==> h[2].passed);
  }

  lemma RoundPassed(cfg: Config, t: Training, u: Training, req: Request, now: real)
    requires Sweeping(t, u, now) && AllPassed(RoundHurdles(t, req))
    ensures req.version.Number? && req.version.value >= u.version && HasCurrent(u) && req.round == CurrentRound(u).index
  {
    var h := RoundHurdles(t, req);
    assert h[0].passed && h[1].passed && h[2].passed && h[3].passed;
  }

  lemma LeasePassed(w: Option<Work>, generation: int, cell: string, token: string, now: real)
    requires AllPassed(LeaseHurdles(w, generation, cell, token, now))
    ensures w.Some? && Live(w.value, now) && w.value.generation == generation && w.value.holder == Some(cell)
            && w.value.token == token
  {
    var h := LeaseHurdles(w, generation, cell, token, now);
    assert h[0].passed && h[1].passed && h[2].passed && h[3].passed && h[4].passed;
  }

  lemma JudgedDelta(cfg: Config, t: Training, u: Training, r: Round, w: Work, req: Request, k: nat)
    requires req.version.Number? && req.result !in u.submissions && r.baseVersion == t.version
    requires StopsAt(DeltaHurdles(cfg, t, req, Some(w)), k) && k > 0
    ensures JudgeDelta(cfg, u, r, w, req) == Some(DeltaHurdles(cfg, t, req, Some(w))[k].refusal)
  {
    var h := DeltaHurdles(cfg, t, req, Some(w));
    assert (k > 1 ==> h[1].passed) && (k > 2 ==> h[2].passed) && (k > 3 ==> h[3].passed) && (k > 4 ==> h[4].passed);
    assert (k > 5 ==> h[5].passed) && (k > 6 ==> h[6].passed) && (k > 7 ==> h[7].passed) && (k > 8 ==> h[8].passed);
    assert k > 9 ==> h[9].passed;
  }

  lemma DeltaPassed(cfg: Config, t: Training, u: Training, r: Round, w: Work, req: Request)
    requires req.version.Number? && req.result !in u.submissions && r.baseVersion == t.version
    requires AllPassed(DeltaHurdles(cfg, t, req, Some(w)))
    ensures req.minerId == req.cellId && JudgeDelta(cfg, u, r, w, req).None?
  {
    var h := DeltaHurdles(cfg, t, req, Some(w));
    assert h[0].passed && h[1].passed && h[2].passed && h[3].passed && h[4].passed && h[5].passed;
    assert h[6].passed && h[7].passed && h[8].passed && h[9].passed && h[10].passed;
  }

  /** Once round and lease are in order, the submission is judged by its delta alone. */
  lemma JudgedByDelta(cfg: Config, t: Training, u: Training, req: Request, now: real, w: Option<Work>)
    requires Sweeping(t, u, now) && Unambiguous(t) && Named(t, req.work, w) && req.result !in t.submissions
    requires AllPassed(RoundHurdles(t, req))
    requires AllPassed(LeaseHurdles(w, req.generation, cfg.cellHash(req.cellId), req.token, now))
    ensures w.Some? && HasCurrent(u) && FindWork(CurrentRound(u).works, req.work).Some?
    ensures var j, v := FindWork(CurrentRound(u).works, req.work).value, JudgeSubmission(cfg, u, req, now);
            && j < |Units(t)| && Units(t)[j] == w.value == CurrentRound(u).works[j] && req.version.Number?
            && v == (if req.minerId != req.cellId then Refuse(CellIdentityMismatch)
                     else
                       var delta := JudgeDelta(cfg, u, CurrentRound(u), w.value, req);
                       if delta.Some? then Refuse(delta.value) else Admit(j))
  {
    RoundPassed(cfg, t, u, req, now);
    LeasePassed(w, req.generation, cfg.cellHash(req.cellId), req.token, now);
    JudgedLease(t, u, req.work, req.generation, cfg.cellHash(req.cellId), req.token, now, w);
    FoundSwept(t, u, req.work, now, w);
  }

  lemma JudgedLeaseOfSubmission(
    cfg: Config, t: Training, u: Training, req: Request, now: real, w: Option<Work>, k: nat)
    requires Sweeping(t, u, now) && Unambiguous(t) && Named(t, req.work, w)
    requires AllPassed(RoundHurdles(t, req))
    requires StopsAt(LeaseHurdles(w, req.generation, cfg.cellHash(req.cellId), req.token, now), k)
    ensures JudgeSubmission(cfg, u, req, now)
            == Refuse(LeaseHurdles(w, req.generation, cfg.cellHash(req.cellId), req.token, now)[k].refusal)
  {
    RoundPassed(cfg, t, u, req, now);
    JudgedLease(t, u, req.work, req.generation, cfg.cellHash(req.cellId), req.token, now, w);
  }

  /** The first hurdle not passed decides; with none, the submission is admitted for the unit it names. */
  lemma JudgedSubmission(cfg: Config, t: Training, u: Training, req: Request, now: real, w: Option<Work>)
    requires Sweeping(t, u, now) && Unambiguous(t) && Named(t, req.work, w) && req.result !in t.submissions
    ensures var h, v := SubmitHurdles(cfg, t, req, now, w), JudgeSubmission(cfg, u, req, now);
            && (forall k: nat :: StopsAt(h, k) ==> v == Refuse(h[k].refusal))
            && (AllPassed(h) ==>
                  && w.Some? && v.Admit? && HasCurrent(u) && v.work < |Units(t)| && v.work < |CurrentRound(u).works|
                  && Units(t)[v.work] == w.value == CurrentRound(u).works[v.work])
  {
    var h := SubmitHurdles(cfg, t, req, now, w);
    var a := RoundHurdles(t, req);
    var b := LeaseHurdles(w, req.generation, cfg.cellHash(req.cellId), req.token, now);
    var c := DeltaHurdles(cfg, t, req, w);
    forall k: nat | StopsAt(h, k) ensures JudgeSubmission(cfg, u, req, now) == Refuse(h[k].refusal) {
      StopsInConcat(a + b, c, k);
      if k < |a + b| {
        StopsInConcat(a, b, k);
        if k < |a| {
          JudgedRound(cfg, t, u, req, now, k);
        } else {
          JudgedLeaseOfSubmission(cfg, t, u, req, now, w, k - |a|);
        }
      } else {
        StopsInConcat(a, b, 0);
        JudgedByDelta(cfg, t, u, req, now, w);
        if k > |a + b| {
          assert c[0].passed;
          JudgedDelta(cfg, t, u, CurrentRound(u), w.value, req, k - |a + b|);
        }
      }
    }
    if AllPassed(h) {
      StopsInConcat(a + b, c, 0);
      StopsInConcat(a, b, 0);
      JudgedByDelta(cfg, t, u, req, now, w);
      DeltaPassed(cfg, t, u, CurrentRound(u), w.value, req);
    }
  }

  // ---- What an accepted submission changes

  /** The norm kept: clipping brings it down to the clip norm, or below for norms under the floor. */
  predicate NormKept(norm: real, clip: real, after: real) {
    if norm <= clip then after == norm
    else if norm >= NORM_FLOOR then after == clip
    else after == norm * (clip / NORM_FLOOR)
  }

  const NORM_FLOOR: real := 0.000000000001

  /** What is kept of an accepted update to the given round. */
  predicate RecordOf(cfg: Config, round: nat, req: Request, now: real, closes: bool, sub: Submission) {
    && sub.round == round && sub.work == req.work && sub.cell == cfg.cellHash(req.cellId)
    && sub.deltaHash == req.deltaHash && sub.bytes == req.bytes && sub.acceptedAt == now
    && (sub.clipped <==> req.norm > cfg.clipNorm)
    && sub.acceptedHash == (if req.norm > cfg.clipNorm then req.clippedHash else req.deltaHash)
    && sub.normBefore == req.norm && NormKept(req.norm, cfg.clipNorm, sub.normAfter)
    && sub.aggregated == closes && sub.versionAfter == (if closes then round + 1 else round)
  }

  /** The round that follows: a queued unit per shard, nothing accepted. */
  ghost predicate FreshRound(cfg: Config, r: Round, index: nat, hash: string, now: real) {
    && r.index == index && r.active && r.baseVersion == index && r.baseHash == hash && r.startedAt == now
    && r.results == [] && r.cells == [] && r.aggregation.None? && |r.works| == |cfg.shards|
    && forall k :: 0 <= k < |r.works| ==>
         r.works[k] == Work(WorkId(index, index, cfg.shards[k]), Queued, 0, "", None, 0.0, "")
  }

  /** The aggregation of a closed round lists its results, and the files kept for them. */
  ghost predicate Aggregates(
    cfg: Config, a: Aggregation, results: seq<string>, subs: map<string, Submission>, version: nat, hash: string,
    now: real)
  {
    && a.inputs == results && |a.inputHashes| == |results| == a.deltaCount == a.cellCount == cfg.quorum
    && (forall k :: 0 <= k < |results| ==> results[k] in subs && a.inputHashes[k] == subs[results[k]].acceptedHash)
    && a.versionAfter == version && a.outputHash == hash && a.completedAt == now
  }

  /** The round under way with the update of unit `j` taken in. */
  function TakenIn(cfg: Config, r: Round, works: seq<Work>, j: nat, req: Request): Round
    requires j < |works|
  {
    var done := Work(works[j].id, Accepted, works[j].generation, "", works[j].holder, works[j].expiresAt, req.result);
    r.(works := works[j := done], results := r.results + [req.result], cells := r.cells + [cfg.cellHash(req.cellId)])
  }

  /** `u` is the swept state, `t'` the state in which the update of unit `j` is accepted. */
  ghost predicate Accepts(
    cfg: Config, u: Training, t': Training, req: Request, outputHash: Digest, now: real, j: nat)
  {
    && u.version < |u.rounds| && j < |Units(u)| && u.version <= |t'.rounds|
    && var v, r := u.version, u.rounds[u.version];
       var taken, closes := TakenIn(cfg, r, r.works, j, req), |r.results| + 1 == cfg.quorum;
       && req.result in t'.submissions && RecordOf(cfg, v, req, now, closes, t'.submissions[req.result])
       && t'.submissions == u.submissions[req.result := t'.submissions[req.result]]
       && t'.accepted == u.accepted + 1 && t'.uploadedBytes == u.uploadedBytes + req.bytes
       && t'.lifecycle == u.lifecycle && t'.rejected == u.rejected && t'.expired == u.expired
       && t'.reassigned == u.reassigned && t'.recoveries == u.recoveries
       && t'.rounds[..v] == u.rounds[..v]
       && if closes then Closes(cfg, u, t', taken, outputHash, now)
          else
            && |t'.rounds| == v + 1 && t'.rounds[v] == taken
            && t'.version == v && t'.outerStep == u.outerStep && t'.currentHash == u.currentHash
            && t'.complete == u.complete
  }

  /** The accepted update fills the quorum: the round is aggregated, and the next one starts or the campaign is done. */
  ghost predicate Closes(cfg: Config, u: Training, t': Training, taken: Round, outputHash: Digest, now: real) {
    var v := u.version;
    && t'.version == v + 1 && t'.outerStep == u.outerStep + 1 && t'.currentHash == outputHash
    && t'.complete == (v + 1 == cfg.target)
    && |t'.rounds| == v + (if v + 1 == cfg.target then 1 else 2)
    && t'.rounds[v] == taken.(active := false, aggregation := t'.rounds[v].aggregation)
    && t'.rounds[v].aggregation.Some?
    && Aggregates(cfg, t'.rounds[v].aggregation.value, taken.results, t'.submissions, v + 1, outputHash, now)
    && (v + 1 < cfg.target ==> FreshRound(cfg, t'.rounds[v + 1], v + 1, outputHash, now))
  }

  lemma ClippingKeeps(norm: real, clip: real)
    requires clip > 0.0
    ensures NormKept(norm, clip, ClippedNorm(norm, clip))
  {
    if norm > clip && norm > NORM_FLOOR {
      assert norm * (clip / norm) == clip;
    }
    if norm == NORM_FLOOR {
      assert NORM_FLOOR * (clip / NORM_FLOOR) == clip;
    }
  }

  /** The little of the invariant that an acceptance depends on. */
  predicate Underway(cfg: Config, u: Training) {
    && HasCurrent(u) && |u.rounds| == u.version + 1 && CurrentRound(u).index == u.version < cfg.target
    && cfg.clipNorm > 0.0 && |CurrentRound(u).results| < cfg.quorum
  }

  lemma PlainAccepts(cfg: Config, u: Training, j: nat, req: Request, outputHash: Digest, now: real)
    requires Underway(cfg, u) && Admissible(cfg, u, j, req) && !FillsQuorum(cfg, u, j, req, now)
    ensures Accepts(cfg, u, PlainTraining(cfg, u, j, req, now), req, outputHash, now, j)
  {
    ClippingKeeps(req.norm, cfg.clipNorm);
  }

  lemma ClosingAccepts(cfg: Config, u: Training, j: nat, req: Request, outputHash: Digest, now: real)
    requires Underway(cfg, u) && Closing(cfg, u, j, req, now)
    requires forall k :: 0 <= k < |CurrentRound(u).results| ==> CurrentRound(u).results[k] in u.submissions
    ensures Accepts(cfg, u, ClosingTraining(cfg, u, j, req, outputHash, now), req, outputHash, now, j)
  {
    ClippingKeeps(req.norm, cfg.clipNorm);
    var a := AcceptTraining(cfg, u, j, req, now);
    var t' := ClosingTraining(cfg, u, j, req, outputHash, now);
    var results := CurrentRound(a).results;
    assert results[..cfg.quorum] == results;
    assert t'.rounds[u.version].aggregation.Some?;
  }

  // ---- Submissions, over every run

  /** The receipt repeats what was recorded. */
  predicate ReceiptFor(result: string, sub: Submission, receipt: Receipt) {
    receipt == Receipt(result, sub.round, sub.aggregated, sub.versionAfter, sub.acceptedAt, sub.clipped,
                       sub.normBefore, sub.normAfter)
  }

  /** An accepted submission: what it leaves behind, `u` being the swept state, and the receipt. */
  ghost predicate PassedGoes(
    cfg: Config, s: System, req: Request, outputHash: Digest, now: real, u: Training, unit: Work)
  {
    var (s', reply) := Step(cfg, s, Submit(req, outputHash), true, now);
    var t' := s'.state.training;
    && (exists j: nat :: j < |Units(s.state.training)| && Units(s.state.training)[j] == unit
                         && Accepts(cfg, u, t', req, outputHash, now, j))
    && reply.Taken? && !reply.replay
    && req.result in t'.submissions && ReceiptFor(req.result, t'.submissions[req.result], reply.receipt)
  }

  /** A refused submission is counted on the swept state; one that ends in an exception leaves the saved state alone. */
  ghost predicate StoppedGoes(
    cfg: Config, s: System, req: Request, outputHash: Digest, now: real, u: Training, refusal: Refusal)
  {
    var (s', reply) := Step(cfg, s, Submit(req, outputHash), true, now);
    && AnswersWith(reply, refusal)
    && (if refusal.Uncaught? then s'.state == s.state
        else s'.state.training == u.(rejected := s.state.training.rejected + 1))
  }

  /** A submission under a new result id. */
  ghost predicate NewResultGoes(
    cfg: Config, s: System, req: Request, outputHash: Digest, now: real, u: Training, w: Option<Work>)
  {
    var h := SubmitHurdles(cfg, s.state.training, req, now, w);
    && OnlySwept(s.state.training, u, now)
    && (AllPassed(h) ==> w.Some? && PassedGoes(cfg, s, req, outputHash, now, u, w.value))
    && (forall k: nat :: StopsAt(h, k) ==> StoppedGoes(cfg, s, req, outputHash, now, u, h[k].refusal))
  }

  /** A submission under a result id that is known already: nothing is accepted again. */
  ghost predicate KnownResultGoes(cfg: Config, s: System, req: Request, outputHash: Digest, now: real) {
    var (s', reply) := Step(cfg, s, Submit(req, outputHash), true, now);
    var t := s.state.training;
    && req.result in t.submissions
    && var sub := t.submissions[req.result];
       if sub.deltaHash == req.deltaHash && sub.cell == cfg.cellHash(req.cellId) && sub.work == req.work then
         s' == s && reply.Taken? && reply.replay && ReceiptFor(req.result, sub, reply.receipt)
       else
         reply == Refused(ResultIdCollision) && s'.state.training == t.(rejected := t.rejected + 1)
  }

  ghost predicate SubmissionGoes(
    cfg: Config, s: System, req: Request, outputHash: Digest, now: real, w: Option<Work>)
  {
    if req.result in s.state.training.submissions then KnownResultGoes(cfg, s, req, outputHash, now)
    else
      NewResultGoes(cfg, s, req, outputHash, now, Step(cfg, s, ExpireLeases, true, now).0.state.training, w)
  }

  lemma SweptUnderway(cfg: Config, t: Training, now: real)
    requires Inv(cfg, t)
    ensures var u := SweepTraining(t, now);
            HasCurrent(u) ==>
              && Underway(cfg, u)
              && forall k :: 0 <= k < |CurrentRound(u).results| ==> CurrentRound(u).results[k] in u.submissions
  {
    SweepKeeps(cfg, t, now);
    var u := SweepTraining(t, now);
    CurrentIsLast(cfg, u, cfg.quorum - 1);
  }

  /** What the judgement of a submission depends on, `u` being the swept state. */
  ghost predicate Ready(cfg: Config, t: Training, u: Training, op: Op, now: real) {
    && OnlySwept(t, u, now) && Sweeping(t, u, now) && Unambiguous(t) && QuorumCloses(cfg, u, op, now)
    && (HasCurrent(u) ==>
          && Underway(cfg, u)
          && forall k :: 0 <= k < |CurrentRound(u).results| ==> CurrentRound(u).results[k] in u.submissions)
  }

  /** Refused submissions. */
  lemma RefusedGoes(cfg: Config, s: System, req: Request, outputHash: Digest, now: real, refusal: Refusal)
    requires req.result !in s.state.training.submissions
    requires JudgeSubmission(cfg, SweepTraining(s.state.training, now), req, now) == Refuse(refusal)
    ensures StoppedGoes(cfg, s, req, outputHash, now, SweepTraining(s.state.training, now), refusal)
  {
    SweepFacts(cfg, s, now);
  }

  /** The state that an admitted submission leaves behind. */
  lemma AdmittedState(cfg: Config, s: System, op: Op, now: real, j: nat)
    requires op.Submit? && op.request.result !in s.state.training.submissions
    requires Ready(cfg, s.state.training, SweepTraining(s.state.training, now), op, now)
    requires JudgeSubmission(cfg, SweepTraining(s.state.training, now), op.request, now) == Admit(j)
    ensures var (s', reply) := SubmitStep(cfg, s, op.request, op.outputHash, now);
            && Accepts(cfg, SweepTraining(s.state.training, now), s'.state.training, op.request, op.outputHash, now, j)
            && !reply.Failed?
  {
    var u := SweepTraining(s.state.training, now);
    AdmittedIsAdmissible(cfg, u, op.request, now, j);
    AdmittedSubmitFollows(cfg, s, op, now);
    AfterAdmission(cfg, s.state.training, op, now);
    if FillsQuorum(cfg, u, j, op.request, now) {
      ClosingAccepts(cfg, u, j, op.request, op.outputHash, now);
    } else {
      PlainAccepts(cfg, u, j, op.request, op.outputHash, now);
    }
  }

  /** And its receipt. */
  lemma AdmittedReceipt(cfg: Config, s: System, req: Request, outputHash: Digest, now: real, j: nat)
    requires req.result !in s.state.training.submissions
    requires JudgeSubmission(cfg, SweepTraining(s.state.training, now), req, now) == Admit(j)
    requires !SubmitStep(cfg, s, req, outputHash, now).1.Failed?
    ensures var (s', reply) := SubmitStep(cfg, s, req, outputHash, now);
            && reply.Taken? && !reply.replay && req.result in s'.state.training.submissions
            && ReceiptFor(req.result, s'.state.training.submissions[req.result], reply.receipt)
  {
    SweepFacts(cfg, s, now);
    AcceptRecords(cfg, Sweep(cfg, s, now), j, req, outputHash, now);
  }

  /** Admitted submissions. */
  lemma AdmittedGoes(cfg: Config, s: System, req: Request, outputHash: Digest, now: real, j: nat, w: Work)
    requires Ready(cfg, s.state.training, SweepTraining(s.state.training, now), Submit(req, outputHash), now)
    requires req.result !in s.state.training.submissions
    requires JudgeSubmission(cfg, SweepTraining(s.state.training, now), req, now) == Admit(j)
    requires j < |Units(s.state.training)| && Units(s.state.training)[j] == w
    ensures PassedGoes(cfg, s, req, outputHash, now, SweepTraining(s.state.training, now), w)
  {
    AdmittedState(cfg, s, Submit(req, outputHash), now, j);
    AdmittedReceipt(cfg, s, req, outputHash, now, j);
  }

  lemma EveryStopGoes(cfg: Config, s: System, req: Request, outputHash: Digest, now: real, w: Option<Work>)
    requires Ready(cfg, s.state.training, SweepTraining(s.state.training, now), Submit(req, outputHash), now)
    requires Named(s.state.training, req.work, w) && req.result !in s.state.training.submissions
    ensures var h, u := SubmitHurdles(cfg, s.state.training, req, now, w), SweepTraining(s.state.training, now);
            forall k: nat :: StopsAt(h, k) ==> StoppedGoes(cfg, s, req, outputHash, now, u, h[k].refusal)
  {
    var h, u := SubmitHurdles(cfg, s.state.training, req, now, w), SweepTraining(s.state.training, now);
    JudgedSubmission(cfg, s.state.training, u, req, now, w);
    forall k: nat | StopsAt(h, k) ensures StoppedGoes(cfg, s, req, outputHash, now, u, h[k].refusal) {
      RefusedGoes(cfg, s, req, outputHash, now, h[k].refusal);
    }
  }

  lemma NewResultAt(cfg: Config, s: System, req: Request, outputHash: Digest, now: real, w: Option<Work>)
    requires Ready(cfg, s.state.training, SweepTraining(s.state.training, now), Submit(req, outputHash), now)
    requires Named(s.state.training, req.work, w) && req.result !in s.state.training.submissions
    ensures NewResultGoes(cfg, s, req, outputHash, now, SweepTraining(s.state.training, now), w)
  {
    var t, u := s.state.training, SweepTraining(s.state.training, now);
    EveryStopGoes(cfg, s, req, outputHash, now, w);
    if AllPassed(SubmitHurdles(cfg, t, req, now, w)) {
      JudgedSubmission(cfg, t, u, req, now, w);
      AdmittedGoes(cfg, s, req, outputHash, now, JudgeSubmission(cfg, u, req, now).work, w.value);
    }
  }

  lemma ReadyForSubmission(cfg: Config, t: Training, op: Op, now: real)
    requires Inv(cfg, t) && op.Submit?
    ensures Ready(cfg, t, SweepTraining(t, now), op, now)
  {
    SweepExactly(cfg, t, now);
    SweepSweeps(cfg, t, now);
    UnitsAreUnambiguous(cfg, t);
    SweptUnderway(cfg, t, now);
    SweepKeeps(cfg, t, now);
    InvMakesQuorumClose(cfg, SweepTraining(t, now), op, now);
  }

  lemma KnownResultAt(cfg: Config, s: System, req: Request, outputHash: Digest, now: real)
    requires req.result in s.state.training.submissions
    ensures KnownResultGoes(cfg, s, req, outputHash, now)
  {
  }

  lemma ExpiryIsSweep(cfg: Config, s: System, now: real)
    ensures Step(cfg, s, ExpireLeases, true, now).0.state.training == SweepTraining(s.state.training, now)
  {
    SweepFacts(cfg, s, now);
  }

  lemma NewSubmissionAt(cfg: Config, s: System, req: Request, outputHash: Digest, now: real, w: Option<Work>)
    requires Ready(cfg, s.state.training, SweepTraining(s.state.training, now), Submit(req, outputHash), now)
    requires Named(s.state.training, req.work, w) && req.result !in s.state.training.submissions
    ensures SubmissionGoes(cfg, s, req, outputHash, now, w)
  {
    NewResultAt(cfg, s, req, outputHash, now, w);
    ExpiryIsSweep(cfg, s, now);
  }

  lemma SubmissionAt(cfg: Config, s: System, req: Request, outputHash: Digest, now: real, w: Option<Work>)
    requires Inv(cfg, s.state.training) && Named(s.state.training, req.work, w)
    ensures SubmissionGoes(cfg, s, req, outputHash, now, w)
  {
    if req.result in s.state.training.submissions {
      KnownResultAt(cfg, s, req, outputHash, now);
    } else {
      ReadyForSubmission(cfg, s.state.training, Submit(req, outputHash), now);
      NewSubmissionAt(cfg, s, req, outputHash, now, w);
    }
  }

  /**
   Submissions, over every run: accepted when every hurdle is passed, with the
   recorded update, the closed round and the receipt spelled out; refused by the
   first hurdle otherwise. A known result id is answered by its record.
   */
  lemma SubmissionExactly(
    cfg: Config, born: real, ops: seq<Timed>, req: Request, outputHash: Digest, now: real, w: Option<Work>)
    requires ValidConfig(cfg) && Named(Reached(cfg, born, ops), req.work, w)
    ensures SubmissionGoes(cfg, Run(cfg, born, ops), req, outputHash, now, w)
  {
    RunKeeps(cfg, born, ops);
    SubmissionAt(cfg, Run(cfg, born, ops), req, outputHash, now, w);
  }

  lemma AllPassedIsAcceptable(cfg: Config, t: Training, req: Request, now: real, w: Option<Work>, j: nat)
    requires req.result !in t.submissions && w.Some? && w.value.id == req.work
    requires j < |Units(t)| && Units(t)[j] == w.value
    ensures AllPassed(SubmitHurdles(cfg, t, req, now, w)) <==> Acceptable(cfg, t, req, now, j)
  {
    var a := RoundHurdles(t, req);
    var b := LeaseHurdles(w, req.generation, cfg.cellHash(req.cellId), req.token, now);
    var c := DeltaHurdles(cfg, t, req, w);
    StopsInConcat(a + b, c, 0);
    StopsInConcat(a, b, 0);
    if AllPassed(SubmitHurdles(cfg, t, req, now, w)) {
      assert a[0].passed && a[1].passed && a[2].passed && a[3].passed;
      LeasePassed(w, req.generation, cfg.cellHash(req.cellId), req.token, now);
      assert b[3].passed;
      assert c[0].passed && c[1].passed && c[2].passed && c[3].passed && c[4].passed && c[5].passed;
      assert c[6].passed && c[7].passed && c[8].passed && c[9].passed && c[10].passed;
    }
  }

  lemma UnitNamed(t: Training, id: WorkId) returns (w: Option<Work>, j: nat)
    ensures Named(t, id, w) && (w.Some? ==> j < |Units(t)| && Units(t)[j] == w.value)
  {
    w, j := None, 0;
    if exists k :: 0 <= k < |Units(t)| && Units(t)[k].id == id {
      j :| 0 <= j < |Units(t)| && Units(t)[j].id == id;
      w := Some(Units(t)[j]);
    }
  }

  /** The unit a submission is accepted for is the one its id names. */
  lemma AcceptableIsNamed(cfg: Config, t: Training, req: Request, now: real, j: nat, k: nat)
    requires Unambiguous(t) && Acceptable(cfg, t, req, now, j) && k < |Units(t)| && Units(t)[k].id == req.work
    ensures j == k
  {
    assert Units(t)[j].id.shard == Units(t)[k].id.shard;
  }

  lemma PassedIsAcceptable(cfg: Config, t: Training, req: Request, now: real)
    returns (w: Option<Work>)
    requires Unambiguous(t)
    ensures Named(t, req.work, w)
    ensures req.result !in t.submissions && AllPassed(SubmitHurdles(cfg, t, req, now, w))
            <==> exists j: nat :: Acceptable(cfg, t, req, now, j)
  {
    var j;
    w, j := UnitNamed(t, req.work);
    forall k: nat | Acceptable(cfg, t, req, now, k) ensures w.Some? && k == j {
      AcceptableIsNamed(cfg, t, req, now, k, if w.Some? then j else k);
    }
    if req.result !in t.submissions {
      if w.Some? {
        AllPassedIsAcceptable(cfg, t, req, now, w, j);
      } else {
        NoUnitFails(cfg, t, req, now);
      }
    }
  }

  lemma NoUnitFails(cfg: Config, t: Training, req: Request, now: real)
    ensures !AllPassed(SubmitHurdles(cfg, t, req, now, None))
  {
    var h := SubmitHurdles(cfg, t, req, now, None);
    assert !h[4].passed;
  }

  lemma TakenExactly(cfg: Config, s: System, req: Request, outputHash: Digest, now: real, w: Option<Work>)
    requires SubmissionGoes(cfg, s, req, outputHash, now, w)
    ensures NewlyAccepted(cfg, s, Submit(req, outputHash), true, now)
            <==> req.result !in s.state.training.submissions
                 && AllPassed(SubmitHurdles(cfg, s.state.training, req, now, w))
  {
    SomewhereStops(SubmitHurdles(cfg, s.state.training, req, now, w));
  }

  ghost predicate AcceptedWhenAcceptable(
    cfg: Config, s: System, req: Request, outputHash: Digest, authorized: bool, now: real)
  {
    NewlyAccepted(cfg, s, Submit(req, outputHash), authorized, now)
    <==> authorized && exists j: nat :: Acceptable(cfg, s.state.training, req, now, j)
  }

  lemma AcceptedAt(cfg: Config, s: System, req: Request, outputHash: Digest, authorized: bool, now: real)
    requires Inv(cfg, s.state.training)
    ensures AcceptedWhenAcceptable(cfg, s, req, outputHash, authorized, now)
  {
    if authorized {
      UnitsAreUnambiguous(cfg, s.state.training);
      var w := PassedIsAcceptable(cfg, s.state.training, req, now);
      SubmissionAt(cfg, s, req, outputHash, now, w);
      TakenExactly(cfg, s, req, outputHash, now, w);
    }
  }

  /**
   Over every run, a submission under a new result id is newly accepted if and
   only if it is authorized and: its round and adapter version are those of the
   round under way; it names a unit whose lease is live, with its generation, its
   holder and its token; the miner is the cell; schema, result id, identity, shard
   and content check; the delta is not too large; and both counts are numbers.
   */
  lemma AcceptedExactly(
    cfg: Config, born: real, ops: seq<Timed>, req: Request, outputHash: Digest, authorized: bool, now: real)
    requires ValidConfig(cfg)
    ensures AcceptedWhenAcceptable(cfg, Run(cfg, born, ops), req, outputHash, authorized, now)
  {
    RunKeeps(cfg, born, ops);
    AcceptedAt(cfg, Run(cfg, born, ops), req, outputHash, authorized, now);
  }
}
