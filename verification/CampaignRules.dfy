/**
 When a claim and a heartbeat get which answer, and what they change, said from
 the saved state, the request and the clock alone.
 */
module CampaignRules {
  import opened Campaign
  import opened CampaignInvariant
  import opened CampaignAccept
  import opened CampaignRun
  import opened CampaignTheorems
  import opened CampaignReports
  import opened Hurdles
  import opened Wrappers

  // ---- The round under way

  /** The work units of the round under way; none once the target version is reached. */
  function Units(t: Training): seq<Work> {
    if t.version < |t.rounds| then t.rounds[t.version].works else []
  }

  /** The cells whose update the round under way has accepted. */
  function CellsDone(t: Training): seq<string> {
    if t.version < |t.rounds| then t.rounds[t.version].cells else []
  }

  /** Leased, and not run out. */
  predicate Live(w: Work, now: real) { w.status == Leased && w.expiresAt > now }

  /** To be had by a claim: in the queue, or back in it once lapsed leases are swept. */
  predicate Free(w: Work, now: real) { w.status == Queued || (w.status == Leased && w.expiresAt <= now) }

  /** What a sweep makes of a work unit. */
  predicate SweptInto(w: Work, w': Work, now: real) {
    if w.status == Leased && w.expiresAt <= now
    then w' == Work(w.id, Queued, w.generation, "", None, 0.0, w.result)
    else w' == w
  }

  ghost predicate AllSweptInto(works: seq<Work>, works': seq<Work>, now: real) {
    |works'| == |works| && forall j :: 0 <= j < |works| ==> SweptInto(works[j], works'[j], now)
  }

  /** Positions of the leases that have run out. */
  function RunOut(works: seq<Work>, now: real): set<nat> {
    set j: nat | j < |works| && works[j].status == Leased && works[j].expiresAt <= now
  }

  /** `t'` differs from `t` in the round under way and the count of expired leases only. */
  ghost predicate OnlySwept(t: Training, t': Training, now: real) {
    && t'.version == t.version && t'.outerStep == t.outerStep && t'.currentHash == t.currentHash
    && t'.submissions == t.submissions && t'.complete == t.complete && t'.lifecycle == t.lifecycle
    && t'.accepted == t.accepted && t'.uploadedBytes == t.uploadedBytes && t'.rejected == t.rejected
    && t'.reassigned == t.reassigned && t'.recoveries == t.recoveries
    && t'.expired == t.expired + |RunOut(Units(t), now)|
    && |t'.rounds| == |t.rounds| && (forall i :: 0 <= i < |t.rounds| && i != t.version ==> t'.rounds[i] == t.rounds[i])
    && (t.version < |t.rounds| ==>
          && t'.rounds[t.version] == t.rounds[t.version].(works := Units(t'))
          && AllSweptInto(Units(t), Units(t'), now))
  }

  lemma OneMoreRunOut(works: seq<Work>, k: nat, now: real)
    requires |works| == k + 1
    ensures RunOut(works, now) == RunOut(works[..k], now) + (if Lapsed(works[k], now) then {k} else {})
    ensures k !in RunOut(works[..k], now)
  {
    forall j: nat | j < k ensures works[..k][j] == works[j] {
    }
  }

  lemma {:induction false} LapsesCounted(works: seq<Work>, now: real)
    ensures LapsedCount(works, now) == |RunOut(works, now)|
  {
    if works == [] {
      assert RunOut(works, now) == {};
    } else {
      LapsesCounted(works[..|works| - 1], now);
      OneMoreRunOut(works, |works| - 1, now);
    }
  }

  /** The round under way exists exactly until the target version is reached, and has one unit per shard. */
  lemma RoundUnderWay(cfg: Config, t: Training)
    requires Inv(cfg, t)
    ensures HasCurrent(t) <==> t.version < cfg.target
    ensures HasCurrent(t) <==> t.version < |t.rounds|
    ensures HasCurrent(t) ==>
              && |t.rounds| == t.version + 1 && CurrentRound(t) == t.rounds[t.version]
              && RoundShape(cfg, CurrentRound(t), t.version)
              && CurrentRound(t).works == Units(t) && CurrentRound(t).cells == CellsDone(t)
  {
    CurrentIsLast(cfg, t, cfg.quorum - 1);
  }

  lemma SweepExactly(cfg: Config, t: Training, now: real)
    requires Inv(cfg, t)
    ensures OnlySwept(t, SweepTraining(t, now), now)
  {
    RoundUnderWay(cfg, t);
    SweepUnderWay(t, now);
  }

  lemma SweepUnderWay(t: Training, now: real)
    requires HasCurrent(t) <==> t.version < |t.rounds|
    requires HasCurrent(t) ==> |t.rounds| == t.version + 1
    ensures OnlySwept(t, SweepTraining(t, now), now)
  {
    LapsesCounted(Units(t), now);
  }

  // ---- Claims

  /** Unit `j` is what a claim of the cell is given. */
  ghost predicate Claimable(t: Training, cell: string, now: real, j: nat) {
    && t.lifecycle == Running && j < |Units(t)| && Free(Units(t)[j], now)
    && (forall k :: 0 <= k < |Units(t)| && Free(Units(t)[k], now) ==> Units(t)[j].id.shard <= Units(t)[k].id.shard)
    && !HasLease(t, cell, now) && cell !in CellsDone(t)
  }

  predicate LeaseAt(t: Training, cell: string, now: real, j: nat) {
    j < |Units(t)| && Live(Units(t)[j], now) && Units(t)[j].holder == Some(cell)
  }

  predicate HasLease(t: Training, cell: string, now: real) {
    exists j: nat :: j < |Units(t)| && LeaseAt(t, cell, now, j)
  }

  /** The unit as the claim hands it out. */
  function LeasedTo(cfg: Config, w: Work, cell: string, token: string, now: real): Work {
    Work(w.id, Leased, w.generation + 1, token, Some(cell), now + cfg.leaseSeconds, w.result)
  }

  /** A sweep, from the point of view of the checks that follow it. */
  ghost predicate Sweeping(t: Training, u: Training, now: real) {
    && (HasCurrent(u) <==> t.version < |t.rounds|)
    && (HasCurrent(u) ==>
          && AllSweptInto(Units(t), CurrentRound(u).works, now) && CurrentRound(u).cells == CellsDone(t)
          && CurrentRound(u).index == CurrentRound(u).baseVersion == t.version == u.version)
    && u.lifecycle == t.lifecycle && u.version == t.version && u.submissions == t.submissions
  }

  lemma UnderWaySweeps(t: Training, now: real)
    requires HasCurrent(t) <==> t.version < |t.rounds|
    requires HasCurrent(t) ==>
               |t.rounds| == t.version + 1 && CurrentRound(t).index == CurrentRound(t).baseVersion == t.version
    ensures Sweeping(t, SweepTraining(t, now), now)
  {
  }

  lemma SweepSweeps(cfg: Config, t: Training, now: real)
    requires Inv(cfg, t)
    ensures Sweeping(t, SweepTraining(t, now), now)
  {
    RoundUnderWay(cfg, t);
    UnderWaySweeps(t, now);
  }

  /** No two units of the round under way have the same shard, and no cell holds two leases. */
  ghost predicate Unambiguous(t: Training) {
    && (forall j, k :: 0 <= j < k < |Units(t)| ==> Units(t)[j].id.shard != Units(t)[k].id.shard)
    && (forall j, k ::
          0 <= j < k < |Units(t)| && Units(t)[j].status == Leased && Units(t)[k].status == Leased
          ==> Units(t)[j].holder != Units(t)[k].holder)
    && (forall j ::
          0 <= j < |Units(t)| && Units(t)[j].status == Leased
          ==> Units(t)[j].holder.Some? && Units(t)[j].holder.value !in CellsDone(t))
    && (forall j :: 0 <= j < |Units(t)| ==> Units(t)[j].id.round == Units(t)[j].id.version == t.version)
  }

  lemma SafeRoundIsUnambiguous(cfg: Config, t: Training)
    requires ValidConfig(cfg)
    requires t.version < |t.rounds| ==>
               RoundShape(cfg, t.rounds[t.version], t.version) && LeaseSafe(Units(t), CellsDone(t))
    ensures Unambiguous(t)
  {
  }

  lemma UnitsAreUnambiguous(cfg: Config, t: Training)
    requires Inv(cfg, t)
    ensures Unambiguous(t)
  {
    assert t.version < |t.rounds| ==>
        RoundShape(cfg, t.rounds[t.version], t.version) && LeaseSafe(Units(t), CellsDone(t)) by {
      CurrentIsLast(cfg, t, cfg.quorum - 1);
    }
    SafeRoundIsUnambiguous(cfg, t);
  }

  /** Which answer a claim gets: exactly one of the conditions holds. */
  ghost predicate ClaimAnswer(t: Training, cell: string, now: real, v: ClaimVerdict) {
    && (v.LifecycleStops? <==> t.lifecycle != Running) && (v.LifecycleStops? ==> v.lifecycle == t.lifecycle)
    && (v.NothingLeftToDo? <==> t.lifecycle == Running && t.version >= |t.rounds|)
    && (forall j: nat :: v == AlreadyHolds(j) <==> t.lifecycle == Running && LeaseAt(t, cell, now, j))
    && (v.WaitForNextRound?
        <==> t.lifecycle == Running && t.version < |t.rounds| && !HasLease(t, cell, now) && cell in CellsDone(t))
    && (v.WaitForWork?
        <==> && t.lifecycle == Running && t.version < |t.rounds| && !HasLease(t, cell, now)
             && cell !in CellsDone(t) && forall j :: 0 <= j < |Units(t)| ==> !Free(Units(t)[j], now))
    && !v.TooManyLeases?
    && (forall j: nat :: v == Grant(j) <==> Claimable(t, cell, now, j))
  }

  lemma JudgedClaim(cfg: Config, t: Training, u: Training, cell: string, now: real)
    requires cfg.maxLeasesPerCell >= 1 && Unambiguous(t) && Sweeping(t, u, now)
    ensures ClaimAnswer(t, cell, now, JudgeClaim(cfg, u, cell))
  {
    NeverTooManyLeases(cfg, u, cell);
    if HasCurrent(u) {
      var works := CurrentRound(u).works;
      forall j: nat | j < |works| ensures HeldBy(works[j], cell) <==> LeaseAt(t, cell, now, j) {
        assert SweptInto(Units(t)[j], works[j], now);
      }
      forall j: nat | j < |works| ensures works[j].status == Queued <==> Free(Units(t)[j], now) {
        assert SweptInto(Units(t)[j], works[j], now);
      }
    }
  }

  /** `t'` is `u` with unit `j` of the round under way replaced. */
  ghost predicate PutsUnit(u: Training, t': Training, j: nat, w: Work) {
    && u.version < |u.rounds| && j < |Units(u)|
    && t'.rounds == u.rounds[u.version := u.rounds[u.version].(works := Units(u)[j := w])]
  }

  /** What a claim leaves behind, `u` being the state swept of lapsed leases. */
  ghost predicate ClaimLeaves(
    cfg: Config, t: Training, u: Training, t': Training, cell: string, token: string, now: real, v: ClaimVerdict)
  {
    if v.Grant? then
      && v.work < |Units(t)| && PutsUnit(u, t', v.work, LeasedTo(cfg, Units(t)[v.work], cell, token, now))
      && t' == u.(rounds := t'.rounds,
                  reassigned := t.reassigned + (if Units(t)[v.work].generation > 0 then 1 else 0))
    else t' == u
  }

  /** The unit in the reply: newly leased, held already, or none. */
  ghost predicate ClaimHandsOut(
    cfg: Config, t: Training, cell: string, token: string, now: real, v: ClaimVerdict, given: Option<Work>)
  {
    match v
    case Grant(j) => j < |Units(t)| && given == Some(LeasedTo(cfg, Units(t)[j], cell, token, now))
    case AlreadyHolds(j) => j < |Units(t)| && given == Some(Units(t)[j])
    case _ => given == None
  }

  /** A claim in full: the answer by the state, the unit handed out, and the state left behind. */
  ghost predicate ClaimGoes(
    cfg: Config, t: Training, u: Training, t': Training, cell: string, token: string, now: real, reply: Reply)
  {
    && OnlySwept(t, u, now) && reply.ClaimReply?
    && ClaimAnswer(t, cell, now, reply.verdict)
    && ClaimHandsOut(cfg, t, cell, token, now, reply.verdict, reply.granted)
    && ClaimLeaves(cfg, t, u, t', cell, token, now, reply.verdict)
  }

  ghost predicate ClaimStepGoes(cfg: Config, s: System, cellId: string, token: string, now: real) {
    var (s', reply) := Step(cfg, s, Claim(cellId, token), true, now);
    ClaimGoes(cfg, s.state.training, Step(cfg, s, ExpireLeases, true, now).0.state.training, s'.state.training,
              cfg.cellHash(cellId), token, now, reply)
  }

  /**
   Claims, over every run. A unit is newly leased if and only if the campaign
   runs, a round is under way, the cell neither holds a lease nor had an update
   accepted in it, and the unit has the least shard of those in the queue after
   lapsed leases went back to it.
   */
  lemma ClaimExactly(cfg: Config, born: real, ops: seq<Timed>, cellId: string, token: string, now: real)
    requires ValidConfig(cfg)
    ensures ClaimStepGoes(cfg, Run(cfg, born, ops), cellId, token, now)
  {
    RunKeeps(cfg, born, ops);
    ClaimAt(cfg, Run(cfg, born, ops), cellId, token, now);
  }

  lemma ClaimAt(cfg: Config, s: System, cellId: string, token: string, now: real)
    requires Inv(cfg, s.state.training)
    ensures ClaimStepGoes(cfg, s, cellId, token, now)
  {
    ClaimOnce(cfg, s, cellId, token, now);
    StepIsClaimStep(cfg, s, cellId, token, now);
  }

  lemma StepIsClaimStep(cfg: Config, s: System, cellId: string, token: string, now: real)
    ensures Step(cfg, s, Claim(cellId, token), true, now) == ClaimStep(cfg, s, cellId, token, now)
    ensures Step(cfg, s, ExpireLeases, true, now).0 == Sweep(cfg, s, now)
  {
  }

  lemma ClaimOnce(cfg: Config, s: System, cellId: string, token: string, now: real)
    requires Inv(cfg, s.state.training)
    ensures var (s', reply) := ClaimStep(cfg, s, cellId, token, now);
            ClaimGoes(cfg, s.state.training, Sweep(cfg, s, now).state.training, s'.state.training,
                      cfg.cellHash(cellId), token, now, reply)
  {
    var t := s.state.training;
    SweepFacts(cfg, s, now);
    SweepExactly(cfg, t, now);
    SweepSweeps(cfg, t, now);
    UnitsAreUnambiguous(cfg, t);
    JudgedClaim(cfg, t, SweepTraining(t, now), cfg.cellHash(cellId), now);
    ClaimedUnit(cfg, s, cellId, token, now);
  }

  lemma ClaimedUnit(cfg: Config, s: System, cellId: string, token: string, now: real)
    requires var t, u := s.state.training, Sweep(cfg, s, now).state.training;
             && OnlySwept(t, u, now) && Sweeping(t, u, now)
             && (HasCurrent(u) ==> |u.rounds| == u.version + 1)
             && ClaimAnswer(t, cfg.cellHash(cellId), now, JudgeClaim(cfg, u, cfg.cellHash(cellId)))
    ensures var cell := cfg.cellHash(cellId);
            var (s', reply) := ClaimStep(cfg, s, cellId, token, now);
            var t, u := s.state.training, Sweep(cfg, s, now).state.training;
            && reply.ClaimReply? && reply.verdict == JudgeClaim(cfg, u, cell)
            && ClaimHandsOut(cfg, t, cell, token, now, reply.verdict, reply.granted)
            && ClaimLeaves(cfg, t, u, s'.state.training, cell, token, now, reply.verdict)
  {
    var t, u, cell := s.state.training, Sweep(cfg, s, now).state.training, cfg.cellHash(cellId);
    var v := JudgeClaim(cfg, u, cell);
    if v.Grant? {
      assert Claimable(t, cell, now, v.work);
      assert SweptInto(Units(t)[v.work], Units(u)[v.work], now);
    } else if v.AlreadyHolds? {
      assert LeaseAt(t, cell, now, v.work);
      assert SweptInto(Units(t)[v.work], Units(u)[v.work], now);
    }
  }

  // ---- Hurdles

  /** How a refusal reaches the caller. */
  predicate AnswersWith(reply: Reply, refusal: Refusal) {
    match refusal
    case Uncaught(error) => reply == Escaped(error)
    case _ => reply == Refused(refusal)
  }

  /** The work unit of the round under way that an id names, if there is one. */
  ghost predicate Named(t: Training, id: WorkId, w: Option<Work>) {
    match w
    case None => forall j :: 0 <= j < |Units(t)| ==> Units(t)[j].id != id
    case Some(unit) => unit.id == id && exists j :: 0 <= j < |Units(t)| && Units(t)[j] == unit
  }

  predicate Plain(s: string) { forall i :: 0 <= i < |s| ==> s[i] as int < 128 }

  /** What a heartbeat and a submission must show of the lease, in this order. */
  function LeaseHurdles(w: Option<Work>, generation: int, cell: string, token: string, now: real): seq<Hurdle<Refusal>>
  {
    [Hurdle(w.Some? && Live(w.value, now), LeaseNotActive),
     Hurdle(w.Some? && w.value.generation == generation, GenerationMismatch),
     Hurdle(w.Some? && w.value.holder == Some(cell), CellMismatch),
     Hurdle(w.Some? && Plain(w.value.token) && Plain(token), Uncaught("TypeError")),
     Hurdle(w.Some? && w.value.token == token, TokenMismatch)]
  }

  lemma PlainIsAscii(s: string)
    ensures Plain(s) <==> Ascii(s)
  {
  }

  /** The lookup finds the unit that the id names, as the sweep left it. */
  lemma FoundSwept(t: Training, u: Training, id: WorkId, now: real, w: Option<Work>)
    requires Unambiguous(t) && Sweeping(t, u, now) && Named(t, id, w) && HasCurrent(u)
    ensures var found := FindWork(CurrentRound(u).works, id);
            && (found.Some? <==> w.Some?)
            && (found.Some? ==>
                  && found.value < |Units(t)| && Units(t)[found.value] == w.value
                  && SweptInto(w.value, CurrentRound(u).works[found.value], now))
  {
    var works := CurrentRound(u).works;
    forall j: nat | j < |works| ensures works[j].id == Units(t)[j].id {
      assert SweptInto(Units(t)[j], works[j], now);
    }
    if w.Some? {
      var j :| 0 <= j < |Units(t)| && Units(t)[j] == w.value;
      assert works[j].id == id;
      var found := FindWork(works, id);
      assert Units(t)[found.value].id.shard == Units(t)[j].id.shard;
    }
  }

  lemma JudgedLease(
    t: Training, u: Training, id: WorkId, generation: int, cell: string, token: string, now: real, w: Option<Work>)
    requires Unambiguous(t) && Sweeping(t, u, now) && Named(t, id, w)
    ensures var h := LeaseHurdles(w, generation, cell, token, now);
            && (AllPassed(h) <==> JudgeLease(u, id, generation, cell, token).None?)
            && forall k: nat :: StopsAt(h, k) ==> JudgeLease(u, id, generation, cell, token) == Some(h[k].refusal)
  {
    var h := LeaseHurdles(w, generation, cell, token, now);
    if HasCurrent(u) {
      FoundSwept(t, u, id, now, w);
    }
    if w.Some? {
      PlainIsAscii(w.value.token);
    }
    PlainIsAscii(token);
    assert h[0].passed && h[1].passed && h[2].passed && h[3].passed && h[4].passed <==> AllPassed(h);
    forall k: nat | StopsAt(h, k) ensures JudgeLease(u, id, generation, cell, token) == Some(h[k].refusal) {
      assert (k > 0 ==> h[0].passed) && (k > 1 ==> h[1].passed) && (k > 2 ==> h[2].passed) && (k > 3 ==> h[3].passed);
    }
  }

  // ---- Heartbeats

  /** A heartbeat renews the lease if it passes every hurdle, and otherwise leaves the saved state alone. */
  ghost predicate HeartbeatGoes(
    cfg: Config, s: System, cellId: string, id: WorkId, generation: int, token: string, now: real, w: Option<Work>)
  {
    var (s', reply) := Step(cfg, s, Heartbeat(cellId, id, generation, token), true, now);
    var h := LeaseHurdles(w, generation, cfg.cellHash(cellId), token, now);
    var t, u, t' := s.state.training, Step(cfg, s, ExpireLeases, true, now).0.state.training, s'.state.training;
    && (AllPassed(h) <==> reply.Renewed?)
    && (AllPassed(h) ==>
          && reply == Renewed(now + cfg.leaseSeconds) && OnlySwept(t, u, now) && t' == u.(rounds := t'.rounds)
          && w.Some? && exists j: nat :: Renews(cfg, t, u, t', j, w.value, now))
    && (forall k: nat :: StopsAt(h, k) ==> AnswersWith(reply, h[k].refusal) && s'.state == s.state)
  }

  ghost predicate Renews(cfg: Config, t: Training, u: Training, t': Training, j: nat, w: Work, now: real) {
    j < |Units(t)| && Units(t)[j] == w
    && PutsUnit(u, t', j, Work(w.id, Leased, w.generation, w.token, w.holder, now + cfg.leaseSeconds, w.result))
  }

  lemma HeartbeatExactly(
    cfg: Config, born: real, ops: seq<Timed>, cellId: string, id: WorkId, generation: int, token: string, now: real,
    w: Option<Work>)
    requires ValidConfig(cfg) && Named(Reached(cfg, born, ops), id, w)
    ensures HeartbeatGoes(cfg, Run(cfg, born, ops), cellId, id, generation, token, now, w)
  {
    RunKeeps(cfg, born, ops);
    HeartbeatAt(cfg, Run(cfg, born, ops), cellId, id, generation, token, now, w);
  }

  lemma HeartbeatAt(
    cfg: Config, s: System, cellId: string, id: WorkId, generation: int, token: string, now: real, w: Option<Work>)
    requires Inv(cfg, s.state.training) && Named(s.state.training, id, w)
    ensures HeartbeatGoes(cfg, s, cellId, id, generation, token, now, w)
  {
    var t := s.state.training;
    SweepFacts(cfg, s, now);
    SweepExactly(cfg, t, now);
    SweepSweeps(cfg, t, now);
    UnitsAreUnambiguous(cfg, t);
    HeartbeatOnce(cfg, s, cellId, id, generation, token, now, w);
  }

  lemma RefusedHeartbeat(
    cfg: Config, s: System, cellId: string, id: WorkId, generation: int, token: string, now: real, refusal: Refusal)
    requires JudgeLease(Sweep(cfg, s, now).state.training, id, generation, cfg.cellHash(cellId), token) == Some(refusal)
    ensures var (s', reply) := HeartbeatStep(cfg, s, cellId, id, generation, token, now);
            AnswersWith(reply, refusal) && s'.state == s.state && !reply.Renewed?
  {
  }

  lemma PassedHeartbeat(
    cfg: Config, s: System, cellId: string, id: WorkId, generation: int, token: string, now: real, w: Work)
    requires var t, u := s.state.training, Sweep(cfg, s, now).state.training;
             && OnlySwept(t, u, now) && Sweeping(t, u, now) && Unambiguous(t) && Named(t, id, Some(w)) && Live(w, now)
             && (HasCurrent(u) ==> |u.rounds| == u.version + 1)
             && JudgeLease(u, id, generation, cfg.cellHash(cellId), token).None?
    ensures var (s', reply) := HeartbeatStep(cfg, s, cellId, id, generation, token, now);
            var t, u, t' := s.state.training, Sweep(cfg, s, now).state.training, s'.state.training;
            && reply == Renewed(now + cfg.leaseSeconds) && t' == u.(rounds := t'.rounds)
            && exists j: nat :: Renews(cfg, t, u, t', j, w, now)
  {
    var t, u := s.state.training, Sweep(cfg, s, now).state.training;
    FoundSwept(t, u, id, now, Some(w));
    var t' := HeartbeatStep(cfg, s, cellId, id, generation, token, now).0.state.training;
    assert Renews(cfg, t, u, t', FindWork(CurrentRound(u).works, id).value, w, now);
  }

  lemma HeartbeatOnce(
    cfg: Config, s: System, cellId: string, id: WorkId, generation: int, token: string, now: real, w: Option<Work>)
    requires var t, u := s.state.training, Sweep(cfg, s, now).state.training;
             && OnlySwept(t, u, now) && Sweeping(t, u, now) && Unambiguous(t) && Named(t, id, w)
             && (HasCurrent(u) ==> |u.rounds| == u.version + 1)
    ensures HeartbeatGoes(cfg, s, cellId, id, generation, token, now, w)
  {
    var t, u := s.state.training, Sweep(cfg, s, now).state.training;
    var h := LeaseHurdles(w, generation, cfg.cellHash(cellId), token, now);
    JudgedLease(t, u, id, generation, cfg.cellHash(cellId), token, now, w);
    SomewhereStops(h);
    if AllPassed(h) {
      assert h[0].passed;
      PassedHeartbeat(cfg, s, cellId, id, generation, token, now, w.value);
    } else {
      var k: nat :| StopsAt(h, k);
      RefusedHeartbeat(cfg, s, cellId, id, generation, token, now, h[k].refusal);
    }
  }
}
