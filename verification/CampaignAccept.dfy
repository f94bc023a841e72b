/** Accepting an update, closing a round at quorum and starting the next keep the invariant. */
module CampaignAccept {
  import opened Campaign
  import opened CampaignInvariant
  import opened Wrappers

  /** What admission has established about the work unit and the update. */
  predicate Admissible(cfg: Config, t: Training, j: nat, req: Request) {
    && HasCurrent(t) && j < |CurrentRound(t).works|
    && HeldBy(CurrentRound(t).works[j], cfg.cellHash(req.cellId))
    && req.result !in t.submissions && cfg.cellHash(req.cellId) !in CurrentRound(t).cells
  }

  /** Whether an admitted submission fills the quorum. */
  predicate FillsQuorum(cfg: Config, t: Training, j: nat, req: Request, now: real)
    requires HasCurrent(t) && j < |CurrentRound(t).works|
  {
    |CurrentRound(AcceptTraining(cfg, t, j, req, now)).results| >= cfg.quorum
  }

  lemma AdmittedIsAdmissible(cfg: Config, t: Training, req: Request, now: real, j: nat)
    requires JudgeSubmission(cfg, t, req, now) == Admit(j)
    ensures Admissible(cfg, t, j, req)
  {
  }

  lemma AcceptedRoundIsSafe(r: Round, subs: map<string, Submission>, j: nat, w: Work, result: string, sub: Submission)
    requires RoundSafe(r, subs) && j < |r.works| && HeldBy(r.works[j], sub.cell) && sub.cell !in r.cells
    requires w.status == Accepted && result !in subs && sub.round == r.index
    ensures RoundSafe(r.(works := r.works[j := w], results := r.results + [result], cells := r.cells + [sub.cell]),
                      subs[result := sub])
  {
    AcceptedCountUpdate(r.works, j, w);
    var works, cells := r.works[j := w], r.cells + [sub.cell];
    assert LeaseSafe(works, cells) by {
      forall k | 0 <= k < |works| && works[k].status == Leased
        ensures works[k].holder.Some? && works[k].holder.value !in cells
      {
        assert k != j && works[k] == r.works[k] && r.works[k].holder != r.works[j].holder;
      }
    }
  }

  lemma OtherRoundStaysSafe(r: Round, subs: map<string, Submission>, result: string, sub: Submission)
    requires RoundSafe(r, subs) && (result in subs ==> subs[result].cell == sub.cell && subs[result].round == sub.round)
    ensures RoundSafe(r, subs[result := sub])
  {
  }

  lemma LastResultsGrow(rounds: seq<Round>, r: Round, result: string)
    requires rounds != [] && r.results == rounds[|rounds| - 1].results + [result]
    ensures AllResults(rounds[|rounds| - 1 := r]) == AllResults(rounds) + [result]
  {
    var k := |rounds| - 1;
    assert rounds[k := r][..k] == rounds[..k];
  }

  lemma ListGrows(all: seq<string>, subs: map<string, Submission>, result: string, sub: Submission)
    requires Distinct(all) && (forall r :: r in all <==> r in subs) && result !in subs
    ensures Distinct(all + [result])
    ensures forall r :: r in all + [result] <==> r in subs[result := sub]
    ensures BytesOf(all + [result], subs[result := sub]) == BytesOf(all, subs) + sub.bytes
  {
    assert (all + [result])[..|all|] == all;
    BytesFrame(all, subs, subs[result := sub]);
  }

  lemma AccountsGrow(
    rounds: seq<Round>, r: Round, subs: map<string, Submission>, accepted: nat, uploaded: nat, result: string,
    sub: Submission)
    requires Accounts(rounds, subs, accepted, uploaded) && result !in subs
    requires rounds != [] && r.results == rounds[|rounds| - 1].results + [result]
    ensures Accounts(rounds[|rounds| - 1 := r], subs[result := sub], accepted + 1, uploaded + sub.bytes)
  {
    LastResultsGrow(rounds, r, result);
    ListGrows(AllResults(rounds), subs, result, sub);
  }

  lemma SafeGrows(rounds: seq<Round>, r: Round, subs: map<string, Submission>, result: string, sub: Submission)
    requires rounds != [] && Safe(rounds, subs) && result !in subs && RoundSafe(r, subs[result := sub])
    ensures Safe(rounds[|rounds| - 1 := r], subs[result := sub])
  {
    forall i | 0 <= i < |rounds| - 1 ensures RoundSafe(rounds[i], subs[result := sub]) {
      OtherRoundStaysSafe(rounds[i], subs, result, sub);
    }
  }

  /** The round after the acceptance, against the round before it. */
  lemma AcceptedRound(cfg: Config, t: Training, j: nat, req: Request, now: real)
    requires cfg.quorum >= 1 && Core(cfg, t, cfg.quorum - 1) && Admissible(cfg, t, j, req)
    ensures var t' := AcceptTraining(cfg, t, j, req, now);
            var r, r', sub := CurrentRound(t), CurrentRound(t'), Record(cfg, t, req, now);
            && t' == PutRound(t, r').(submissions := t'.submissions, accepted := t'.accepted,
               uploadedBytes := t'.uploadedBytes)
            && r' == r.(works := r'.works, results := r'.results, cells := r'.cells)
               && r'.results == r.results + [req.result]
            && RoundShape(cfg, r', t.version) && |r'.results| <= cfg.quorum
            && RoundSafe(r', t.submissions[req.result := sub])
  {
    var r, t' := CurrentRound(t), AcceptTraining(cfg, t, j, req, now);
    assert RoundShape(cfg, r, t.version) && RoundSafe(r, t.submissions) && |r.results| <= cfg.quorum - 1 by {
      CurrentIsLast(cfg, t, cfg.quorum - 1);
    }
    AcceptedRoundIsSafe(r, t.submissions, j, CurrentRound(t').works[j], req.result, Record(cfg, t, req, now));
  }

  lemma AcceptKeepsShape(cfg: Config, t: Training, j: nat, req: Request, now: real)
    requires cfg.quorum >= 1 && Core(cfg, t, cfg.quorum - 1) && Admissible(cfg, t, j, req)
    ensures var t' := AcceptTraining(cfg, t, j, req, now);
            Shape(cfg, t'.version, t'.outerStep, t'.complete, t'.currentHash, t'.rounds, cfg.quorum)
  {
    AcceptedRound(cfg, t, j, req, now);
    PutRoundKeepsShape(cfg, t, CurrentRound(AcceptTraining(cfg, t, j, req, now)), cfg.quorum);
  }

  lemma AcceptedParts(cfg: Config, t: Training, j: nat, req: Request, now: real)
    requires t.rounds != [] && Admissible(cfg, t, j, req)
    ensures var t' := AcceptTraining(cfg, t, j, req, now);
            && t'.rounds == t.rounds[|t.rounds| - 1 := CurrentRound(t')]
            && t'.submissions == t.submissions[req.result := Record(cfg, t, req, now)]
            && t'.accepted == t.accepted + 1 && t'.uploadedBytes == t.uploadedBytes + Record(cfg, t, req, now).bytes
  {
  }

  lemma AcceptKeepsSafe(
    rounds: seq<Round>, r: Round, subs: map<string, Submission>, accepted: nat, uploaded: nat, result: string,
    sub: Submission)
    requires rounds != [] && r.results == rounds[|rounds| - 1].results + [result] && result !in subs
    requires RoundSafe(r, subs[result := sub]) && Safe(rounds, subs) && Accounts(rounds, subs, accepted, uploaded)
    ensures Safe(rounds[|rounds| - 1 := r], subs[result := sub])
    ensures Accounts(rounds[|rounds| - 1 := r], subs[result := sub], accepted + 1, uploaded + sub.bytes)
  {
    SafeGrows(rounds, r, subs, result, sub);
    AccountsGrow(rounds, r, subs, accepted, uploaded, result, sub);
  }

  lemma AcceptedRest(cfg: Config, t: Training, j: nat, req: Request, now: real)
    requires t.rounds != [] && Admissible(cfg, t, j, req)
    requires Safe(t.rounds, t.submissions) && Accounts(t.rounds, t.submissions, t.accepted, t.uploadedBytes)
    requires RoundSafe(CurrentRound(AcceptTraining(cfg, t, j, req, now)),
                       t.submissions[req.result := Record(cfg, t, req, now)])
    ensures var t' := AcceptTraining(cfg, t, j, req, now);
            Safe(t'.rounds, t'.submissions) && Accounts(t'.rounds, t'.submissions, t'.accepted, t'.uploadedBytes)
  {
    AcceptedParts(cfg, t, j, req, now);
    AcceptKeepsSafe(t.rounds, CurrentRound(AcceptTraining(cfg, t, j, req, now)), t.submissions, t.accepted,
      t.uploadedBytes, req.result, Record(cfg, t, req, now));
  }

  lemma AcceptKeepsRest(cfg: Config, t: Training, j: nat, req: Request, now: real)
    requires cfg.quorum >= 1 && Core(cfg, t, cfg.quorum - 1) && Admissible(cfg, t, j, req)
    ensures var t' := AcceptTraining(cfg, t, j, req, now);
            Safe(t'.rounds, t'.submissions) && Accounts(t'.rounds, t'.submissions, t'.accepted, t'.uploadedBytes)
  {
    AcceptedRound(cfg, t, j, req, now);
    AcceptedRest(cfg, t, j, req, now);
  }

  lemma AcceptKeepsCore(cfg: Config, t: Training, j: nat, req: Request, now: real)
    requires cfg.quorum >= 1 && Core(cfg, t, cfg.quorum - 1) && Admissible(cfg, t, j, req)
    ensures Core(cfg, AcceptTraining(cfg, t, j, req, now), cfg.quorum)
  {
    AcceptKeepsShape(cfg, t, j, req, now);
    AcceptKeepsRest(cfg, t, j, req, now);
  }

  // ---- Closing a round

  lemma {:induction false} DistinctCount(cells: seq<string>)
    requires Distinct(cells)
    ensures |set c | c in cells| == |cells|
  {
    if cells != [] {
      var k := |cells| - 1;
      DistinctCount(cells[..k]);
      assert (set c | c in cells) == (set c | c in cells[..k]) + {cells[k]} by {
        assert cells == cells[..k] + [cells[k]];
      }
      assert cells[k] !in cells[..k];
    }
  }

  lemma DistinctCellsCount(t: Training, results: seq<string>, cells: seq<string>)
    requires |results| == |cells| && Distinct(cells)
    requires forall k ::
               0 <= k < |results|
               ==> results[k] in t.submissions && t.submissions[results[k]].cell == cells[k]
    ensures |CellsBehind(t, results)| == |cells|
  {
    DistinctCount(cells);
    var all := set c | c in cells;
    forall c ensures c in CellsBehind(t, results) <==> c in all {
      if c in all {
        var k :| 0 <= k < |cells| && cells[k] == c;
        assert t.submissions[results[k]].cell == c;
      }
    }
    assert CellsBehind(t, results) == all;
  }

  /** At quorum the inputs come from as many distinct cells: the aggregation error cannot occur. */
  lemma QuorumIsCellDistinct(cfg: Config, t: Training)
    requires Core(cfg, t, cfg.quorum) && HasCurrent(t) && |CurrentRound(t).results| >= cfg.quorum
    ensures |CurrentRound(t).results| == cfg.quorum
    ensures forall k :: 0 <= k < cfg.quorum ==> CurrentRound(t).results[k] in t.submissions
    ensures |CellsBehind(t, CurrentRound(t).results[..cfg.quorum])| == cfg.quorum
  {
    CurrentIsLast(cfg, t, cfg.quorum);
    var r := CurrentRound(t);
    assert r.results[..cfg.quorum] == r.results;
    DistinctCellsCount(t, r.results, r.cells);
  }

  function Advance(cfg: Config, t: Training, outputHash: Digest, now: real): Training
    requires HasCurrent(t) && |CurrentRound(t).results| >= cfg.quorum
  {
    AfterRound(cfg, CompleteRound(cfg, t, outputHash, now), now)
  }

  /** Closing the last round and opening the next one, on the round list alone. */
  lemma ClosedShape(cfg: Config, version: nat, currentHash: string, rounds: seq<Round>, r: Round, next: Round)
    requires Shape(cfg, version, version, false, currentHash, rounds, cfg.quorum)
    requires r == rounds[version].(active := false, aggregation := r.aggregation) && Closed(cfg, r, version)
    requires RoundShape(cfg, next, version + 1) && next.active && next.aggregation.None? && next.results == []
    requires next.baseHash == r.aggregation.value.outputHash
    ensures version + 1 == cfg.target ==>
              Shape(cfg, version + 1, version + 1, true, r.aggregation.value.outputHash, rounds[version := r], 0)
    ensures version + 1 < cfg.target ==>
              Shape(cfg, version + 1, version + 1, false, r.aggregation.value.outputHash,
                rounds[version := r] + [next], 0)
  {
    var a, b := rounds[version := r], rounds[version := r] + [next];
    forall i | 0 <= i <= version ensures HashBefore(cfg, a, i) == HashBefore(cfg, rounds, i) == HashBefore(cfg, b, i) {
    }
    forall i | 0 <= i <= version ensures RoundShape(cfg, a[i], i) && RoundShape(cfg, b[i], i) {
      assert RoundShape(cfg, rounds[i], i);
    }
  }

  lemma AdvanceKeepsShape(cfg: Config, t: Training, outputHash: Digest, now: real)
    requires Core(cfg, t, cfg.quorum) && HasCurrent(t) && |CurrentRound(t).results| == cfg.quorum
    requires |CellsBehind(t, CurrentRound(t).results[..cfg.quorum])| == cfg.quorum
    ensures var t' := Advance(cfg, t, outputHash, now);
            Shape(cfg, t'.version, t'.outerStep, t'.complete, t'.currentHash, t'.rounds, 0)
  {
    CurrentIsLast(cfg, t, cfg.quorum);
    var done := CompleteRound(cfg, t, outputHash, now);
    var r := done.rounds[t.version];
    assert CurrentRound(t).results[..cfg.quorum] == CurrentRound(t).results;
    ClosedShape(cfg, t.version, t.currentHash, t.rounds, r, NewRound(cfg, done, now));
  }

  lemma AppendEmptyRound(rounds: seq<Round>, r: Round)
    requires r.results == []
    ensures AllResults(rounds + [r]) == AllResults(rounds)
  {
    assert (rounds + [r])[..|rounds|] == rounds;
  }

  lemma FreshRoundIsSafe(cfg: Config, t: Training, now: real, subs: map<string, Submission>)
    ensures RoundSafe(NewRound(cfg, t, now), subs)
  {
    var r := NewRound(cfg, t, now);
    NoneAccepted(r.works);
  }

  lemma {:induction false} NoneAccepted(works: seq<Work>)
    requires forall j :: 0 <= j < |works| ==> works[j].status != Accepted
    ensures AcceptedCount(works) == 0
  {
    if works != [] {
      NoneAccepted(works[..|works| - 1]);
    }
  }

  lemma ClosedSafe(
    rounds: seq<Round>, subs: map<string, Submission>, accepted: nat, uploaded: nat, r: Round, next: Round)
    requires rounds != [] && Safe(rounds, subs) && Accounts(rounds, subs, accepted, uploaded)
    requires r == rounds[|rounds| - 1].(active := r.active, aggregation := r.aggregation)
    requires RoundSafe(next, subs) && next.results == []
    ensures var a := rounds[|rounds| - 1 := r];
            && Safe(a, subs) && Accounts(a, subs, accepted, uploaded)
            && Safe(a + [next], subs) && Accounts(a + [next], subs, accepted, uploaded)
  {
    var a := rounds[|rounds| - 1 := r];
    SameResults(rounds, a);
    AppendEmptyRound(a, next);
  }

  lemma AdvanceKeepsSafe(cfg: Config, t: Training, outputHash: Digest, now: real)
    requires HasCurrent(t) && |CurrentRound(t).results| == cfg.quorum
    requires Safe(t.rounds, t.submissions) && Accounts(t.rounds, t.submissions, t.accepted, t.uploadedBytes)
    ensures var t' := Advance(cfg, t, outputHash, now);
            Safe(t'.rounds, t'.submissions) && Accounts(t'.rounds, t'.submissions, t'.accepted, t'.uploadedBytes)
  {
    var done := CompleteRound(cfg, t, outputHash, now);
    FreshRoundIsSafe(cfg, done, now, t.submissions);
    ClosedSafe(t.rounds, t.submissions, t.accepted, t.uploadedBytes, done.rounds[|t.rounds| - 1],
      NewRound(cfg, done, now));
  }

  // ---- The stamped record

  lemma StampKeepsCore(cfg: Config, t: Training, result: string, aggregated: bool, limit: nat)
    requires Core(cfg, t, limit) && result in t.submissions
    ensures Core(cfg, Stamp(t, result, aggregated), limit)
  {
    var sub := Stamp(t, result, aggregated).submissions[result];
    forall i | 0 <= i < |t.rounds| ensures RoundSafe(t.rounds[i], t.submissions[result := sub]) {
      OtherRoundStaysSafe(t.rounds[i], t.submissions, result, sub);
    }
    BytesFrame(AllResults(t.rounds), t.submissions, t.submissions[result := sub]);
  }

  /** The round kept its aggregation record, or got one whose last input is `result`. */
  predicate SameOrClosedBy(r: Round, r': Round, result: string) {
    || r'.aggregation == r.aggregation
    || (&& r.aggregation.None? && r'.aggregation.Some? && r'.aggregation.value.inputs != []
        && r'.aggregation.value.inputs[|r'.aggregation.value.inputs| - 1] == result)
  }

  /** Stamps of earlier submissions survive, the new one is right. */
  lemma StampsGrow(
    rounds: seq<Round>, rounds': seq<Round>, subs: map<string, Submission>, result: string, sub: Submission)
    requires Stamped(rounds, subs) && result !in subs && |rounds| <= |rounds'|
    requires forall i :: 0 <= i < |rounds| ==> SameOrClosedBy(rounds[i], rounds'[i], result)
    requires StampedRight(rounds', sub, result)
    ensures Stamped(rounds', subs[result := sub])
  {
    forall x | x in subs ensures StampedRight(rounds', subs[x], x) {
      assert StampedRight(rounds, subs[x], x);
    }
  }

  lemma PlainAcceptKeepsCore(cfg: Config, t: Training, j: nat, req: Request, now: real)
    requires cfg.quorum >= 1 && Core(cfg, t, cfg.quorum - 1) && Admissible(cfg, t, j, req)
    requires !FillsQuorum(cfg, t, j, req, now)
    ensures Core(cfg, Stamp(AcceptTraining(cfg, t, j, req, now), req.result, false), cfg.quorum - 1)
  {
    var a := AcceptTraining(cfg, t, j, req, now);
    AcceptKeepsCore(cfg, t, j, req, now);
    StampKeepsCore(cfg, a, req.result, false, cfg.quorum - 1);
  }

  /** The little of the shape that the stamps depend on. */
  predicate OpenLast(t: Training) {
    HasCurrent(t) && CurrentRound(t).aggregation.None? && CurrentRound(t).index == t.version == |t.rounds| - 1
  }

  lemma PlainStampsRight(cfg: Config, t: Training, j: nat, req: Request, now: real)
    requires OpenLast(t) && Stamped(t.rounds, t.submissions) && Admissible(cfg, t, j, req)
    ensures var s := Stamp(AcceptTraining(cfg, t, j, req, now), req.result, false);
            Stamped(s.rounds, s.submissions)
  {
    var s := Stamp(AcceptTraining(cfg, t, j, req, now), req.result, false);
    assert s.submissions == t.submissions[req.result := s.submissions[req.result]];
    StampsGrow(t.rounds, s.rounds, t.submissions, req.result, s.submissions[req.result]);
  }

  /** The state after an accepted update below quorum. */
  function PlainTraining(cfg: Config, t: Training, j: nat, req: Request, now: real): Training
    requires Admissible(cfg, t, j, req)
  {
    Stamp(AcceptTraining(cfg, t, j, req, now), req.result, false)
  }

  lemma PlainAcceptKeeps(cfg: Config, t: Training, j: nat, req: Request, now: real)
    requires Admissible(cfg, t, j, req) && !FillsQuorum(cfg, t, j, req, now)
    requires Inv(cfg, t)
    ensures Inv(cfg, PlainTraining(cfg, t, j, req, now))
  {
    PlainAcceptKeepsCore(cfg, t, j, req, now);
    CurrentIsLast(cfg, t, cfg.quorum - 1);
    PlainStampsRight(cfg, t, j, req, now);
  }

  lemma ClosingStampsRight(cfg: Config, t: Training, j: nat, req: Request, outputHash: Digest, now: real)
    requires OpenLast(t) && Stamped(t.rounds, t.submissions) && Admissible(cfg, t, j, req)
    requires var a := AcceptTraining(cfg, t, j, req, now);
             |CurrentRound(a).results| == cfg.quorum
    ensures var s := Stamp(Advance(cfg, AcceptTraining(cfg, t, j, req, now), outputHash, now), req.result, true);
            Stamped(s.rounds, s.submissions)
  {
    var a := AcceptTraining(cfg, t, j, req, now);
    var s := Stamp(Advance(cfg, a, outputHash, now), req.result, true);
    var results := CurrentRound(a).results;
    assert results[..cfg.quorum] == results && results[|results| - 1] == req.result;
    assert s.submissions == t.submissions[req.result := s.submissions[req.result]];
    var last := |t.rounds| - 1;
    assert s.rounds[last].aggregation.value.inputs == results;
    forall i | 0 <= i < last ensures s.rounds[i] == t.rounds[i] {
    }
    StampsGrow(t.rounds, s.rounds, t.submissions, req.result, s.submissions[req.result]);
  }

  lemma ClosingAcceptKeepsCore(cfg: Config, t: Training, j: nat, req: Request, outputHash: Digest, now: real)
    requires cfg.quorum >= 1 && Core(cfg, t, cfg.quorum - 1) && Admissible(cfg, t, j, req)
    requires |CurrentRound(AcceptTraining(cfg, t, j, req, now)).results| >= cfg.quorum
    ensures var a := AcceptTraining(cfg, t, j, req, now);
            && |CurrentRound(a).results| == cfg.quorum
            && |CellsBehind(a, CurrentRound(a).results[..cfg.quorum])| == cfg.quorum
            && Core(cfg, Advance(cfg, a, outputHash, now), 0)
  {
    var a := AcceptTraining(cfg, t, j, req, now);
    AcceptKeepsCore(cfg, t, j, req, now);
    QuorumIsCellDistinct(cfg, a);
    AdvanceKeepsShape(cfg, a, outputHash, now);
    AdvanceKeepsSafe(cfg, a, outputHash, now);
  }

  lemma ClosedStampKeepsCore(cfg: Config, t: Training, result: string)
    requires cfg.quorum >= 1 && Core(cfg, t, 0) && result in t.submissions
    ensures Core(cfg, Stamp(t, result, true), cfg.quorum - 1)
  {
    StampKeepsCore(cfg, t, result, true, cfg.quorum - 1);
  }

  /** An accepted update makes the round reach quorum. */
  predicate Closing(cfg: Config, t: Training, j: nat, req: Request, now: real) {
    && Admissible(cfg, t, j, req)
    && var a := AcceptTraining(cfg, t, j, req, now);
       && |CurrentRound(a).results| == cfg.quorum
       && |CellsBehind(a, CurrentRound(a).results[..cfg.quorum])| == cfg.quorum
  }

  lemma QuorumIsClosing(cfg: Config, t: Training, j: nat, req: Request, outputHash: Digest, now: real)
    requires Admissible(cfg, t, j, req) && FillsQuorum(cfg, t, j, req, now)
    requires Inv(cfg, t)
    ensures Closing(cfg, t, j, req, now)
  {
    ClosingAcceptKeepsCore(cfg, t, j, req, outputHash, now);
  }

  /** The state after the accepted update that reaches quorum. */
  function ClosingTraining(cfg: Config, t: Training, j: nat, req: Request, outputHash: Digest, now: real): Training
    requires Closing(cfg, t, j, req, now)
  {
    Stamp(Advance(cfg, AcceptTraining(cfg, t, j, req, now), outputHash, now), req.result, true)
  }

  lemma ClosingAcceptKeeps(cfg: Config, t: Training, j: nat, req: Request, outputHash: Digest, now: real)
    requires Closing(cfg, t, j, req, now)
    requires Inv(cfg, t)
    ensures Inv(cfg, ClosingTraining(cfg, t, j, req, outputHash, now))
  {
    var a := AcceptTraining(cfg, t, j, req, now);
    var b := Advance(cfg, a, outputHash, now);
    assert req.result in b.submissions;
    assert OpenLast(t) by { CurrentIsLast(cfg, t, cfg.quorum - 1); }
    assert Stamped(Stamp(b, req.result, true).rounds, Stamp(b, req.result, true).submissions) by {
      ClosingStampsRight(cfg, t, j, req, outputHash, now);
    }
    assert Core(cfg, Stamp(b, req.result, true), cfg.quorum - 1) by {
      ClosingAcceptKeepsCore(cfg, t, j, req, outputHash, now);
      ClosedStampKeepsCore(cfg, b, req.result);
    }
  }
}
