/**
 The coordinator object. Each operation loads the saved state, changes it in
 place, appends ledger events as it goes, and saves at the end, if it gets there.
 */
module Coordinator {
  import opened Ledger
  import opened Campaign
  import opened CampaignInvariant
  import opened CampaignAccept
  import opened CampaignRun
  import opened Wrappers

  class VolunteerCoordinator {
    const cfg: Config
    /** The state file. */
    var saved: Saved
    /** The ledger file. */
    var ledger: seq<Event<Kind>>

    ghost function Now(): System
      reads this
    {
      System(saved, ledger)
    }

    constructor (cfg: Config, now: real)
      requires ValidConfig(cfg)
      ensures this.cfg == cfg && Now() == Init(cfg, now)
    {
      var t := Training(0, 0, cfg.initialHash, [], map[], false, Running, 0, 0, 0, 0, 0, 0);
      var e := Appended(cfg.eventHash, [], GENESIS, 0, CampaignCreated, now);
      this.cfg := cfg;
      saved := Saved(StartRound(cfg, t, now), 1, e.hash);
      ledger := [e];
      new;
      assert [] + [e] == [e];
    }

    /** Writes the ledger file at once; the returned state still has to be saved. */
    method AppendEvent(state: Saved, kind: Kind, now: real) returns (next: Saved)
      modifies this`ledger
      ensures System(next, ledger) == Log(cfg, System(state, old(ledger)), kind, now)
    {
      var e := Appended(cfg.eventHash, ledger, state.head, state.sequence, kind, now);
      ledger := ledger + [e];
      next := Saved(state.training, e.body.sequence, e.hash);
    }

    /** Puts one lapsed lease back into the queue and logs it. */
    method ExpireOne(state: Saved, j: nat, now: real) returns (next: Saved)
      requires HasCurrent(state.training) && j < |CurrentRound(state.training).works|
      modifies this`ledger
      ensures System(next, ledger) == SweptAt(cfg, System(state, old(ledger)), j, now)
    {
      next := state;
      var work := CurrentRound(state.training).works[j];
      if Lapsed(work, now) {
        var t := PutWork(next.training, j, Requeued(work)).(expired := next.training.expired + 1);
        next := AppendEvent(next.(training := t), LapseOf(CurrentRound(state.training).index, work), now);
      }
    }

    /** Puts every lapsed lease of the current round back into the queue, logging each. */
    method ExpireLeasesIn(state: Saved, now: real) returns (next: Saved)
      modifies this`ledger
      ensures System(next, ledger) == Sweep(cfg, System(state, old(ledger)), now)
    {
      next := state;
      if HasCurrent(state.training) {
        var count := |CurrentRound(state.training).works|;
        ghost var before := System(state, ledger);
        NothingSwept(cfg, before, now);
        for i := 0 to count
          invariant System(next, ledger) == SweptThrough(cfg, before, i, now)
        {
          OneMoreSwept(cfg, before, i, now);
          next := ExpireOne(next, i, now);
        }
        AllSwept(cfg, before, now);
      }
    }

    method ExpireLeases(now: real)
      modifies this
      ensures Now() == Sweep(cfg, old(Now()), now)
    {
      saved := ExpireLeasesIn(saved, now);
    }

    /** Leases a queued work unit to a cell, under the next generation. */
    method GrantWork(state: Saved, j: nat, cell: string, token: string, now: real) returns (next: Saved, work: Work)
      requires HasCurrent(state.training) && j < |CurrentRound(state.training).works|
      modifies this`ledger
      ensures var t := state.training; var w := CurrentRound(t).works[j];
              && work == Granted(cfg, w, cell, token, now)
              && System(next, ledger)
                 == Log(cfg, System(state.(training := GrantTraining(cfg, t, j, cell, token, now)), old(ledger)),
                        WorkLeased(CurrentRound(t).index, w.id, cell, w.generation + 1, w.generation > 0), now)
    {
      var r := CurrentRound(state.training);
      var before := r.works[j];
      work := before.(status := Leased, generation := before.generation + 1, token := token,
                      holder := Some(cell), expiresAt := now + cfg.leaseSeconds);
      var t := PutWork(state.training, j, work);
      if before.generation > 0 {
        t := t.(reassigned := t.reassigned + 1);
      }
      next := AppendEvent(state.(training := t),
        WorkLeased(r.index, work.id, cell, work.generation, before.generation > 0), now);
    }

    method ClaimWork(cellId: string, token: string, now: real) returns (reply: Reply)
      modifies this
      ensures (Now(), reply) == ClaimStep(cfg, old(Now()), cellId, token, now)
    {
      var cell := cfg.cellHash(cellId);
      var state := ExpireLeasesIn(saved, now);
      var verdict := JudgeClaim(cfg, state.training, cell);
      reply := ClaimReply(verdict, None);
      if verdict.AlreadyHolds? {
        reply := ClaimReply(verdict, Some(CurrentRound(state.training).works[verdict.work]));
      } else if verdict.Grant? {
        var work;
        state, work := GrantWork(state, verdict.work, cell, token, now);
        reply := ClaimReply(verdict, Some(work));
      }
      saved := state;
    }

    /** A refusal leaves before the state is saved. */
    method RenewLease(cellId: string, id: WorkId, generation: int, token: string, now: real) returns (reply: Reply)
      modifies this
      ensures (Now(), reply) == HeartbeatStep(cfg, old(Now()), cellId, id, generation, token, now)
    {
      var cell := cfg.cellHash(cellId);
      var state := ExpireLeasesIn(saved, now);
      var refusal := JudgeLease(state.training, id, generation, cell, token);
      if refusal.Some? {
        return ReplyTo(refusal.value);
      }
      var r := CurrentRound(state.training);
      var j := FindWork(r.works, id).value;
      var work := r.works[j].(expiresAt := now + cfg.leaseSeconds);
      state := AppendEvent(state.(training := PutWork(state.training, j, work)),
        LeaseRenewed(r.index, id, cell, work.generation), now);
      saved := state;
      reply := Renewed(work.expiresAt);
    }

    method RejectSubmission(state: Saved, code: Refusal, cell: string, now: real) returns (reply: Reply)
      modifies this
      ensures (Now(), reply) == Reject(cfg, System(state, old(ledger)), code, cell, now)
    {
      var t := state.training;
      saved := AppendEvent(state.(training := t.(rejected := t.rejected + 1)), UpdateRejected(code, cell), now);
      reply := Refused(code);
    }

    /** Closes the round at quorum and starts the next one; `None` is the quorum error. */
    method AggregateRound(state: Saved, outputHash: Digest, now: real) returns (next: Option<Saved>)
      requires HasCurrent(state.training) && |CurrentRound(state.training).results| >= cfg.quorum
      modifies this`ledger
      ensures var r := Aggregate(cfg, System(state, old(ledger)), outputHash, now);
              && (next.None? <==> r.None?)
              && (next.Some? ==> System(next.value, ledger) == r.value)
              && (next.None? ==> ledger == old(ledger))
    {
      var r := CurrentRound(state.training);
      var inputs := r.results[..cfg.quorum];
      if |CellsBehind(state.training, inputs)| != cfg.quorum {
        return None;
      }
      var t := CompleteRound(cfg, state.training, outputHash, now);
      var version := t.version;
      var s := AppendEvent(state.(training := t), RoundAggregated(r.index, version, outputHash), now);
      if version >= cfg.target {
        s := AppendEvent(s.(training := s.training.(complete := true)), TargetReached(version), now);
      } else {
        s := AppendEvent(s.(training := StartRound(cfg, s.training, now)),
          RoundStarted(|s.training.rounds|, outputHash), now);
      }
      return Some(s);
    }

    method SubmitUpdate(req: Request, outputHash: Digest, now: real) returns (reply: Reply)
      modifies this
      ensures (Now(), reply) == SubmitStep(cfg, old(Now()), req, outputHash, now)
    {
      var cell := cfg.cellHash(req.cellId);
      if req.result in saved.training.submissions {
        var sub := saved.training.submissions[req.result];
        if sub.deltaHash == req.deltaHash && sub.cell == cell && sub.work == req.work {
          return Taken(ReceiptOf(req.result, sub), true);
        }
        reply := RejectSubmission(saved, ResultIdCollision, cell, now);
        return;
      }
      var state := ExpireLeasesIn(saved, now);
      var verdict := JudgeSubmission(cfg, state.training, req, now);
      if verdict.Refuse? && verdict.code.Uncaught? {
        return Escaped(verdict.code.error);
      }
      if verdict.Refuse? {
        reply := RejectSubmission(state, verdict.code, cell, now);
        return;
      }
      var t := AcceptTraining(cfg, state.training, verdict.work, req, now);
      state := AppendEvent(state.(training := t), UpdateAccepted(CurrentRound(t).index, req.work, cell, req.result),
        now);
      var aggregated := false;
      if |CurrentRound(t).results| >= cfg.quorum {
        var next := AggregateRound(state, outputHash, now);
        if next.None? {
          return Failed("quorum is not cell-distinct");
        }
        state := next.value;
        aggregated := true;
      }
      state := state.(training := Stamp(state.training, req.result, aggregated));
      saved := state;
      reply := Taken(ReceiptOf(req.result, state.training.submissions[req.result]), false);
    }

    method SetLifecycle(pause: bool, now: real) returns (reply: Reply)
      modifies this
      ensures (Now(), reply) == Step(cfg, old(Now()), Op.SetLifecycle(pause), true, now)
    {
      var target := if pause then Paused else Running;
      if saved.training.lifecycle == Finalized {
        return Failed("already finalized");
      }
      if saved.training.lifecycle != target {
        saved := AppendEvent(saved.(training := saved.training.(lifecycle := target)), LifecycleChanged(target), now);
      }
      reply := Done;
    }

    method Finalize(evaluated: bool, allowIncomplete: bool, now: real) returns (reply: Reply)
      modifies this
      ensures (Now(), reply) == Step(cfg, old(Now()), Op.Finalize(evaluated, allowIncomplete), true, now)
    {
      if !saved.training.complete && !allowIncomplete {
        return Failed("target rounds incomplete");
      }
      if !evaluated {
        return Failed("evaluation changed during finalize");
      }
      saved := AppendEvent(saved.(training := saved.training.(lifecycle := Finalized)),
        CampaignFinalized(saved.training.version), now);
      reply := Done;
    }

    /** Start-up: goes on only when the ledger file verifies against the saved head. */
    method RecoverOnStart(filesIntact: bool, now: real) returns (reply: Reply)
      modifies this
      ensures (Now(), reply) == Step(cfg, old(Now()), Op.Recover(filesIntact), true, now)
    {
      var errors := VerifyLedger(cfg.eventHash, ledger, saved.head, saved.sequence);
      if errors != [] {
        return Failed("ledger invalid");
      }
      if !filesIntact {
        return Failed("artifacts invalid");
      }
      var count := saved.training.recoveries + 1;
      saved := AppendEvent(saved.(training := saved.training.(recoveries := count)), Recovered(count), now);
      reply := Done;
    }
  }

  /** The training state when the expiry loop has passed the first `n` work units. */
  function SweptUpTo(t: Training, n: nat, now: real): Training
    requires HasCurrent(t) && n <= |CurrentRound(t).works|
  {
    var r := CurrentRound(t);
    var works := Swept(r.works[..n], now) + r.works[n..];
    PutRound(t, r.(works := works)).(expired := t.expired + LapsedCount(r.works[..n], now))
  }

  function LapseOf(round: nat, w: Work): Kind {
    LeaseLapsed(round, w.id, w.holder, w.generation)
  }

  function SweptThrough(cfg: Config, s: System, n: nat, now: real): System
    requires HasCurrent(s.state.training) && n <= |CurrentRound(s.state.training).works|
  {
    var r := CurrentRound(s.state.training);
    With(LogLapses(cfg, s, r.index, r.works[..n], now), SweptUpTo(s.state.training, n, now))
  }

  /** One iteration of the expiry loop. */
  function SweptAt(cfg: Config, s: System, j: nat, now: real): System
    requires HasCurrent(s.state.training) && j < |CurrentRound(s.state.training).works|
  {
    var t := s.state.training;
    var w := CurrentRound(t).works[j];
    if !Lapsed(w, now) then s
    else Log(cfg, With(s, PutWork(t, j, Requeued(w)).(expired := t.expired + 1)), LapseOf(CurrentRound(t).index, w),
      now)
  }

  lemma SweptPrefix(works: seq<Work>, n: nat, now: real)
    requires n < |works|
    ensures Swept(works[..n + 1], now) + works[n + 1..]
            == (Swept(works[..n], now) + works[n..])[n := SweptWork(works[n], now)]
    ensures LapsedCount(works[..n + 1], now) == LapsedCount(works[..n], now) + (if Lapsed(works[n], now) then 1 else 0)
  {
    assert works[..n + 1][..n] == works[..n];
  }

  lemma PutWorkTwice(t: Training, works: seq<Work>, expired: nat, n: nat, w: Work)
    requires HasCurrent(t) && n < |works|
    ensures var before := PutRound(t, CurrentRound(t).(works := works)).(expired := expired);
            HasCurrent(before) && CurrentRound(before).works == works
            && PutWork(before, n, w) == PutRound(t, CurrentRound(t).(works := works[n := w])).(expired := expired)
  {
    var before := PutRound(t, CurrentRound(t).(works := works)).(expired := expired);
    assert PutWork(before, n, w).rounds == PutRound(t, CurrentRound(t).(works := works[n := w])).rounds;
  }

  lemma SweepOneMore(t: Training, n: nat, now: real)
    requires HasCurrent(t) && n < |CurrentRound(t).works|
    ensures HasCurrent(SweptUpTo(t, n, now)) && n < |CurrentRound(SweptUpTo(t, n, now)).works|
    ensures var before, w := SweptUpTo(t, n, now), CurrentRound(t).works[n];
            SweptUpTo(t, n + 1, now)
            == if Lapsed(w, now) then PutWork(before, n, Requeued(w)).(expired := before.expired + 1) else before
  {
    var works := CurrentRound(t).works;
    var mixed := Swept(works[..n], now) + works[n..];
    SweptPrefix(works, n, now);
    PutWorkTwice(t, mixed, t.expired + LapsedCount(works[..n], now), n, Requeued(works[n]));
    assert !Lapsed(works[n], now) ==> mixed[n := SweptWork(works[n], now)] == mixed;
  }

  lemma StillToSweep(t: Training, n: nat, now: real)
    requires HasCurrent(t) && n < |CurrentRound(t).works|
    ensures var before := SweptUpTo(t, n, now);
            && HasCurrent(before) && n < |CurrentRound(before).works| == |CurrentRound(t).works|
            && CurrentRound(before).works[n] == CurrentRound(t).works[n]
            && CurrentRound(before).index == CurrentRound(t).index
  {
  }

  /** Logging does not look at the training state. */
  lemma LogThenPut(cfg: Config, s: System, a: Training, b: Training, kind: Kind, now: real)
    ensures Log(cfg, With(With(s, a), b), kind, now) == With(Log(cfg, s, kind, now), b)
  {
  }

  lemma OneMoreSwept(cfg: Config, s: System, n: nat, now: real)
    requires HasCurrent(s.state.training) && n < |CurrentRound(s.state.training).works|
    ensures var before := SweptThrough(cfg, s, n, now);
            && HasCurrent(before.state.training) && n < |CurrentRound(before.state.training).works|
            && SweptThrough(cfg, s, n + 1, now) == SweptAt(cfg, before, n, now)
  {
    var t := s.state.training;
    var r := CurrentRound(t);
    var logged := LogLapses(cfg, s, r.index, r.works[..n], now);
    StillToSweep(t, n, now);
    SweepOneMore(t, n, now);
    assert r.works[..n + 1][..n] == r.works[..n];
    if Lapsed(r.works[n], now) {
      LogThenPut(cfg, logged, SweptUpTo(t, n, now), SweptUpTo(t, n + 1, now), LapseOf(r.index, r.works[n]), now);
    }
  }

  lemma AllSwept(cfg: Config, s: System, now: real)
    requires HasCurrent(s.state.training)
    ensures SweptThrough(cfg, s, |CurrentRound(s.state.training).works|, now) == Sweep(cfg, s, now)
  {
    var works := CurrentRound(s.state.training).works;
    assert works[..|works|] == works;
    SweptAll(s.state.training, now);
  }

  lemma NothingSwept(cfg: Config, s: System, now: real)
    requires HasCurrent(s.state.training)
    ensures SweptThrough(cfg, s, 0, now) == s
  {
    SweptNone(s.state.training, now);
  }

  lemma SweptAll(t: Training, now: real)
    requires HasCurrent(t)
    ensures SweptUpTo(t, |CurrentRound(t).works|, now) == SweepTraining(t, now)
  {
    var works := CurrentRound(t).works;
    assert works[..|works|] == works && Swept(works, now) + works[|works|..] == Swept(works, now);
  }

  lemma SweptNone(t: Training, now: real)
    requires HasCurrent(t)
    ensures SweptUpTo(t, 0, now) == t
  {
    var works := CurrentRound(t).works;
    assert Swept(works[..0], now) + works[0..] == works;
    assert PutRound(t, CurrentRound(t)).rounds == t.rounds;
  }
}
