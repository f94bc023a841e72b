/** The inductive invariant of the coordinator and its preservation by every state change. */
module CampaignInvariant {
  import opened Campaign
  import opened Wrappers

  // ---- Shape of the round history

  predicate RoundShape(cfg: Config, r: Round, i: nat) {
    && r.index == i && r.baseVersion == i
    && |r.works| == |cfg.shards|
    && forall j :: 0 <= j < |r.works| ==> r.works[j].id == WorkId(i, i, cfg.shards[j])
  }

  predicate Closed(cfg: Config, r: Round, i: nat) {
    && !r.active && r.aggregation.Some?
    && |r.results| == cfg.quorum && r.aggregation.value.inputs == r.results
    && r.aggregation.value.deltaCount == cfg.quorum && r.aggregation.value.cellCount == cfg.quorum
    && r.aggregation.value.versionAfter == i + 1
  }

  /** Hash of the adapter that round `i` starts from. */
  function HashBefore(cfg: Config, rounds: seq<Round>, i: nat): string
    requires i <= |rounds|
  {
    if i == 0 then cfg.initialHash
    else if rounds[i - 1].aggregation.Some? then rounds[i - 1].aggregation.value.outputHash
    else ""
  }

  /**
   Version = completed rounds; exactly the last round is active, with at most
   `limit` accepted results, unless the target is reached.
   */
  predicate Shape(
    cfg: Config, version: nat, outerStep: nat, complete: bool, currentHash: string, rounds: seq<Round>, limit: nat)
  {
    && version <= cfg.target && outerStep == version
    && (complete <==> version == cfg.target)
    && |rounds| == version + (if complete then 0 else 1)
    && (forall i :: 0 <= i < |rounds| ==> RoundShape(cfg, rounds[i], i))
    && (forall i :: 0 <= i < version ==> Closed(cfg, rounds[i], i))
    && (forall i {:trigger HashBefore(cfg, rounds, i)} ::
          0 <= i < |rounds|
          ==> rounds[i].baseHash == HashBefore(cfg, rounds, i))
    && currentHash == HashBefore(cfg, rounds, version)
    && (!complete ==> rounds[version].active && rounds[version].aggregation.None? && |rounds[version].results| <= limit)
  }

  // ---- Leases and acceptance inside one round

  function AcceptedCount(works: seq<Work>): nat {
    if works == [] then 0
    else AcceptedCount(works[..|works| - 1]) + (if works[|works| - 1].status == Accepted then 1 else 0)
  }

  /** No cell holds two leases, and no cell with an accepted update holds one. */
  predicate LeaseSafe(works: seq<Work>, cells: seq<string>) {
    && (forall j ::
          0 <= j < |works| && works[j].status == Leased
          ==> works[j].holder.Some? && works[j].holder.value !in cells)
    && (forall j, k :: 0 <= j < k < |works| && works[j].status == Leased && works[k].status == Leased
                       ==> works[j].holder != works[k].holder)
  }

  predicate RoundSafe(r: Round, subs: map<string, Submission>) {
    && LeaseSafe(r.works, r.cells)
    && Distinct(r.cells) && |r.cells| == |r.results| == AcceptedCount(r.works)
    && forall k :: 0 <= k < |r.results| ==>
         r.results[k] in subs && subs[r.results[k]].cell == r.cells[k] && subs[r.results[k]].round == r.index
  }

  predicate Safe(rounds: seq<Round>, subs: map<string, Submission>) {
    forall i :: 0 <= i < |rounds| ==> RoundSafe(rounds[i], subs)
  }

  // ---- Accounting over all rounds

  function AllResults(rounds: seq<Round>): seq<string> {
    if rounds == [] then [] else AllResults(rounds[..|rounds| - 1]) + rounds[|rounds| - 1].results
  }

  function BytesOf(results: seq<string>, subs: map<string, Submission>): nat {
    if results == [] then 0
    else
      var k := |results| - 1;
      BytesOf(results[..k], subs) + (if results[k] in subs then subs[results[k]].bytes else 0)
  }

  ghost predicate Accounts(rounds: seq<Round>, subs: map<string, Submission>, accepted: nat, uploaded: nat) {
    && Distinct(AllResults(rounds))
    && (forall r :: r in AllResults(rounds) <==> r in subs)
    && accepted == |AllResults(rounds)|
    && uploaded == BytesOf(AllResults(rounds), subs)
  }

  ghost predicate Core(cfg: Config, t: Training, limit: nat) {
    && Shape(cfg, t.version, t.outerStep, t.complete, t.currentHash, t.rounds, limit)
    && Safe(t.rounds, t.submissions)
    && Accounts(t.rounds, t.submissions, t.accepted, t.uploadedBytes)
  }

  /** The recorded outcome of a submission agrees with the round it belongs to. */
  predicate StampedRight(rounds: seq<Round>, sub: Submission, result: string) {
    && sub.round < |rounds|
    && sub.versionAfter == sub.round + (if sub.aggregated then 1 else 0)
    && (sub.aggregated <==>
        var r := rounds[sub.round];
        r.aggregation.Some? && r.aggregation.value.inputs != []
        && r.aggregation.value.inputs[|r.aggregation.value.inputs| - 1] == result)
  }

  predicate Stamped(rounds: seq<Round>, subs: map<string, Submission>) {
    forall r :: r in subs ==> StampedRight(rounds, subs[r], r)
  }

  ghost predicate Inv(cfg: Config, t: Training) {
    ValidConfig(cfg) && Core(cfg, t, cfg.quorum - 1) && Stamped(t.rounds, t.submissions)
  }

  // ---- Small facts

  lemma CurrentIsLast(cfg: Config, t: Training, limit: nat)
    requires Core(cfg, t, limit)
    ensures HasCurrent(t) <==> !t.complete
    ensures HasCurrent(t) ==>
              && CurrentRound(t) == t.rounds[t.version] && |t.rounds| == t.version + 1
              && RoundShape(cfg, CurrentRound(t), t.version) && RoundSafe(CurrentRound(t), t.submissions)
  {
  }

  lemma {:induction false} SameResults(a: seq<Round>, b: seq<Round>)
    requires |a| == |b| && forall i :: 0 <= i < |a| ==> a[i].results == b[i].results
    ensures AllResults(a) == AllResults(b)
  {
    if a != [] {
      SameResults(a[..|a| - 1], b[..|b| - 1]);
    }
  }

  lemma {:induction false} AcceptedCountUpdate(works: seq<Work>, j: nat, w: Work)
    requires j < |works|
    ensures AcceptedCount(works[j := w])
            == AcceptedCount(works)
              + (if w.status == Accepted then 1 else 0) - (if works[j].status == Accepted then 1 else 0)
  {
    var k := |works| - 1;
    if j < k {
      AcceptedCountUpdate(works[..k], j, w);
      assert works[j := w][..k] == works[..k][j := w];
    } else {
      assert works[j := w][..k] == works[..k];
    }
  }

  lemma {:induction false} AcceptedCountSame(a: seq<Work>, b: seq<Work>)
    requires |a| == |b| && forall j :: 0 <= j < |a| ==> (a[j].status == Accepted <==> b[j].status == Accepted)
    ensures AcceptedCount(a) == AcceptedCount(b)
  {
    if a != [] {
      AcceptedCountSame(a[..|a| - 1], b[..|b| - 1]);
    }
  }

  lemma {:induction false} SomeWorkIsOpen(works: seq<Work>)
    ensures AcceptedCount(works) <= |works|
    ensures AcceptedCount(works) < |works| ==> exists j :: 0 <= j < |works| && works[j].status != Accepted
  {
    if works != [] {
      var k := |works| - 1;
      SomeWorkIsOpen(works[..k]);
      if AcceptedCount(works[..k]) < k {
        var j :| 0 <= j < k && works[..k][j].status != Accepted;
        assert works[j].status != Accepted;
      }
    }
  }

  lemma {:induction false} BytesFrame(
    results: seq<string>, subs: map<string, Submission>, subs': map<string, Submission>)
    requires forall r :: r in results ==> r in subs && r in subs' && subs[r].bytes == subs'[r].bytes
    ensures BytesOf(results, subs) == BytesOf(results, subs')
  {
    if results != [] {
      var k := |results| - 1;
      assert results[k] in results;
      forall r | r in results[..k] ensures r in results {
      }
      BytesFrame(results[..k], subs, subs');
    }
  }

  // ---- Changes to one work unit of the current round

  /** A change that leaves every lease of the round unambiguous. */
  predicate ChangesWork(r: Round, j: nat, w: Work)
    requires j < |r.works|
  {
    && w.id == r.works[j].id && w.status != Accepted && r.works[j].status != Accepted
    && (w.status == Leased ==>
          && w.holder.Some? && w.holder.value !in r.cells
          && forall k :: 0 <= k < |r.works| && k != j && r.works[k].status == Leased ==> r.works[k].holder != w.holder)
  }

  predicate WorkChange(t: Training, j: nat, w: Work)
    requires HasCurrent(t) && j < |CurrentRound(t).works|
  {
    ChangesWork(CurrentRound(t), j, w)
  }

  lemma PutRoundKeepsShape(cfg: Config, t: Training, r: Round, limit: nat)
    requires Core(cfg, t, limit) && HasCurrent(t)
    requires r == CurrentRound(t).(works := r.works, results := r.results, cells := r.cells)
    requires RoundShape(cfg, r, t.version) && |r.results| <= limit
    ensures Shape(cfg, t.version, t.outerStep, t.complete, t.currentHash, PutRound(t, r).rounds, limit)
  {
    CurrentIsLast(cfg, t, limit);
    var rounds' := PutRound(t, r).rounds;
    forall i | 0 <= i < |rounds'| ensures HashBefore(cfg, rounds', i) == HashBefore(cfg, t.rounds, i) {
    }
  }

  lemma PutRoundKeepsStamps(t: Training, r: Round)
    requires HasCurrent(t) && Stamped(t.rounds, t.submissions)
    requires r.aggregation == CurrentRound(t).aggregation
    ensures Stamped(PutRound(t, r).rounds, t.submissions)
  {
    forall x | x in t.submissions ensures StampedRight(PutRound(t, r).rounds, t.submissions[x], x) {
      assert StampedRight(t.rounds, t.submissions[x], x);
    }
  }

  lemma PutRoundKeepsAccounts(t: Training, r: Round)
    requires HasCurrent(t) && r.results == CurrentRound(t).results
    requires Accounts(t.rounds, t.submissions, t.accepted, t.uploadedBytes)
    ensures Accounts(PutRound(t, r).rounds, t.submissions, t.accepted, t.uploadedBytes)
  {
    SameResults(t.rounds, PutRound(t, r).rounds);
  }

  lemma PutRoundKeeps(cfg: Config, t: Training, r: Round)
    requires Inv(cfg, t) && HasCurrent(t)
    requires r == CurrentRound(t).(works := r.works)
    requires RoundShape(cfg, r, t.version) && RoundSafe(r, t.submissions)
    ensures Inv(cfg, PutRound(t, r))
  {
    assert |r.results| <= cfg.quorum - 1 by { CurrentIsLast(cfg, t, cfg.quorum - 1); }
    PutRoundKeepsShape(cfg, t, r, cfg.quorum - 1);
    PutRoundKeepsStamps(t, r);
    PutRoundKeepsAccounts(t, r);
  }

  lemma ChangedRoundIsSafe(cfg: Config, r: Round, subs: map<string, Submission>, i: nat, j: nat, w: Work)
    requires RoundShape(cfg, r, i) && RoundSafe(r, subs) && j < |r.works| && ChangesWork(r, j, w)
    ensures RoundShape(cfg, r.(works := r.works[j := w]), i) && RoundSafe(r.(works := r.works[j := w]), subs)
  {
    AcceptedCountUpdate(r.works, j, w);
  }

  lemma WorkChangeKeeps(cfg: Config, t: Training, j: nat, w: Work)
    requires Inv(cfg, t) && HasCurrent(t) && j < |CurrentRound(t).works| && WorkChange(t, j, w)
    ensures Inv(cfg, PutWork(t, j, w))
  {
    var r := CurrentRound(t);
    assert RoundShape(cfg, r, t.version) && RoundSafe(r, t.submissions) by { CurrentIsLast(cfg, t, cfg.quorum - 1); }
    ChangedRoundIsSafe(cfg, r, t.submissions, t.version, j, w);
    PutRoundKeeps(cfg, t, r.(works := r.works[j := w]));
  }

  lemma SweptRoundIsSafe(r: Round, subs: map<string, Submission>, now: real)
    requires RoundSafe(r, subs)
    ensures RoundSafe(r.(works := Swept(r.works, now)), subs)
  {
    var swept := Swept(r.works, now);
    AcceptedCountSame(r.works, swept);
    assert LeaseSafe(swept, r.cells) by {
      assert forall j :: 0 <= j < |swept| && swept[j].status == Leased ==> swept[j] == r.works[j];
    }
  }

  lemma SweepKeeps(cfg: Config, t: Training, now: real)
    requires Inv(cfg, t)
    ensures Inv(cfg, SweepTraining(t, now))
  {
    if HasCurrent(t) {
      CurrentIsLast(cfg, t, cfg.quorum - 1);
      SweptRoundIsSafe(CurrentRound(t), t.submissions, now);
      PutRoundKeeps(cfg, t, CurrentRound(t).(works := Swept(CurrentRound(t).works, now)));
    }
  }

  lemma GrantKeeps(cfg: Config, t: Training, j: nat, cell: string, token: string, now: real)
    requires Inv(cfg, t) && JudgeClaim(cfg, t, cell) == Grant(j)
    ensures Inv(cfg, GrantTraining(cfg, t, j, cell, token, now))
  {
    var w := Granted(cfg, CurrentRound(t).works[j], cell, token, now);
    assert FindLease(CurrentRound(t).works, cell).None?;
    WorkChangeKeeps(cfg, t, j, w);
  }

  lemma RenewKeeps(cfg: Config, t: Training, j: nat, until: real)
    requires Inv(cfg, t) && HasCurrent(t) && j < |CurrentRound(t).works| && CurrentRound(t).works[j].status == Leased
    ensures Inv(cfg, PutWork(t, j, CurrentRound(t).works[j].(expiresAt := until)))
  {
    CurrentIsLast(cfg, t, cfg.quorum - 1);
    WorkChangeKeeps(cfg, t, j, CurrentRound(t).works[j].(expiresAt := until));
  }
}
