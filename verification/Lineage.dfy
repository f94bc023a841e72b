/** The checkpoint lineage report and its conversion into a chain of checkpoints. */
module Lineage {
  import opened Campaign
  import opened CampaignInvariant
  import opened CampaignRun
  import opened CampaignTheorems
  import opened Wrappers

  datatype Entry = Entry(
    round: nat,
    versionBefore: nat,
    versionAfter: nat,
    baseHash: string,
    outputHash: string,
    inputHashes: seq<string>,
    cellCount: nat,
    verified: bool)

  datatype Problem = RoundInvalid(round: nat) | HeadMismatch

  datatype Report = Report(
    initialHash: string,
    currentHash: string,
    version: nat,
    entries: seq<Entry>,
    errors: seq<Problem>)

  function OutputOf(r: Round): string {
    if r.aggregation.Some? then r.aggregation.value.outputHash else ""
  }

  /** One line of the report, checked against the hash the previous line ended with. */
  function EntryFor(cfg: Config, r: Round, expected: string): Entry {
    var after := if r.aggregation.Some? then r.aggregation.value.versionAfter else 0;
    var inputs := if r.aggregation.Some? then r.aggregation.value.deltaCount else 0;
    Entry(r.index, r.baseVersion, after, r.baseHash, OutputOf(r),
          if r.aggregation.Some? then r.aggregation.value.inputHashes else [],
          if r.aggregation.Some? then r.aggregation.value.cellCount else 0,
          r.baseHash == expected && after == r.baseVersion + 1 && "sha256:" <= OutputOf(r) && inputs >= cfg.quorum)
  }

  /** What the report loop has gathered after some rounds. */
  datatype Fold = Fold(expected: string, entries: seq<Entry>, errors: seq<Problem>)

  function FoldRounds(cfg: Config, rounds: seq<Round>): Fold {
    if rounds == [] then Fold(cfg.initialHash, [], [])
    else
      var r := rounds[|rounds| - 1];
      var before := FoldRounds(cfg, rounds[..|rounds| - 1]);
      if r.active then before
      else
        var entry := EntryFor(cfg, r, before.expected);
        Fold(OutputOf(r), before.entries + [entry],
          before.errors + (if entry.verified then [] else [RoundInvalid(r.index)]))
  }

  function ReportOf(cfg: Config, t: Training): Report {
    var fold := FoldRounds(cfg, t.rounds);
    Report(cfg.initialHash, t.currentHash, t.version, fold.entries,
           fold.errors + (if fold.expected == t.currentHash then [] else [HeadMismatch]))
  }

  /** The loop over the rounds computes the report. */
  method CheckpointLineage(cfg: Config, t: Training) returns (report: Report)
    ensures report == ReportOf(cfg, t)
  {
    var expected: string := cfg.initialHash;
    var entries: seq<Entry> := [];
    var errors: seq<Problem> := [];
    for i := 0 to |t.rounds|
      invariant FoldRounds(cfg, t.rounds[..i]) == Fold(expected, entries, errors)
    {
      var r := t.rounds[i];
      assert t.rounds[..i + 1][..i] == t.rounds[..i];
      if r.active {
        continue;
      }
      var entry := EntryFor(cfg, r, expected);
      if !entry.verified {
        errors := errors + [RoundInvalid(r.index)];
      }
      entries := entries + [entry];
      expected := OutputOf(r);
    }
    assert t.rounds[..|t.rounds|] == t.rounds;
    if expected != t.currentHash {
      errors := errors + [HeadMismatch];
    }
    report := Report(cfg.initialHash, t.currentHash, t.version, entries, errors);
  }

  /** Closed rounds `0..k` that chain from the initial adapter. */
  predicate ChainOfRounds(cfg: Config, rounds: seq<Round>) {
    forall i :: 0 <= i < |rounds| ==> ChainLink(cfg, rounds, i)
  }

  predicate ChainLink(cfg: Config, rounds: seq<Round>, i: nat)
    requires i < |rounds|
  {
    RoundShape(cfg, rounds[i], i) && Closed(cfg, rounds[i], i) && rounds[i].baseHash == HashBefore(cfg, rounds, i)
  }

  lemma ChainPrefix(cfg: Config, rounds: seq<Round>, k: nat)
    requires ChainOfRounds(cfg, rounds) && k <= |rounds|
    ensures ChainOfRounds(cfg, rounds[..k])
  {
    forall i | 0 <= i < k ensures ChainLink(cfg, rounds[..k], i) {
      assert ChainLink(cfg, rounds, i);
    }
  }

  /** A good line: steps by one and links two adjacent adapter hashes. */
  predicate GoodEntry(cfg: Config, rounds: seq<Round>, e: Entry, i: nat)
    requires i < |rounds|
  {
    && e.verified && e.round == i && e.versionBefore == i && e.versionAfter == i + 1
    && e.baseHash == HashBefore(cfg, rounds, i) && e.outputHash == HashBefore(cfg, rounds, i + 1)
    && e.cellCount == cfg.quorum
  }

  lemma {:induction false} ChainFolds(cfg: Config, rounds: seq<Round>)
    requires ChainOfRounds(cfg, rounds)
    ensures var f := FoldRounds(cfg, rounds);
            && f.errors == [] && |f.entries| == |rounds| && f.expected == HashBefore(cfg, rounds, |rounds|)
            && forall i :: 0 <= i < |rounds| ==> GoodEntry(cfg, rounds, f.entries[i], i)
  {
    if rounds != [] {
      var k := |rounds| - 1;
      ChainPrefix(cfg, rounds, k);
      ChainFolds(cfg, rounds[..k]);
      var before := FoldRounds(cfg, rounds[..k]);
      assert ChainLink(cfg, rounds, k);
      assert before.expected == HashBefore(cfg, rounds, k);
      forall i | 0 <= i < k ensures GoodEntry(cfg, rounds, before.entries[i], i) {
        assert GoodEntry(cfg, rounds[..k], before.entries[i], i);
      }
    }
  }

  lemma ReachedIsAChain(cfg: Config, t: Training)
    requires Inv(cfg, t)
    ensures t.version <= |t.rounds| && ChainOfRounds(cfg, t.rounds[..t.version])
    ensures HashBefore(cfg, t.rounds[..t.version], t.version) == t.currentHash
  {
    var done := t.rounds[..t.version];
    CurrentIsLast(cfg, t, cfg.quorum - 1);
    forall i | 0 <= i < t.version ensures ChainLink(cfg, done, i) {
      assert Closed(cfg, t.rounds[i], i);
      assert HashBefore(cfg, t.rounds, i) == HashBefore(cfg, done, i);
    }
  }

  lemma LastActiveIsSkipped(cfg: Config, rounds: seq<Round>, k: nat)
    requires |rounds| == k + 1 && rounds[k].active
    ensures FoldRounds(cfg, rounds) == FoldRounds(cfg, rounds[..k])
  {
  }

  lemma RoundsOf(cfg: Config, t: Training)
    requires Inv(cfg, t)
    ensures t.version <= |t.rounds| <= t.version + 1
    ensures |t.rounds| == t.version + 1 ==> t.rounds[t.version].active
  {
  }

  lemma ActiveRoundIsSkipped(cfg: Config, t: Training)
    requires Inv(cfg, t)
    ensures t.version <= |t.rounds| && FoldRounds(cfg, t.rounds) == FoldRounds(cfg, t.rounds[..t.version])
  {
    RoundsOf(cfg, t);
    SkipsActive(cfg, t.rounds, t.version);
  }

  lemma SkipsActive(cfg: Config, rounds: seq<Round>, k: nat)
    requires k <= |rounds| <= k + 1 && (|rounds| == k + 1 ==> rounds[k].active)
    ensures FoldRounds(cfg, rounds) == FoldRounds(cfg, rounds[..k])
  {
    if |rounds| == k {
      assert rounds[..k] == rounds;
    } else {
      LastActiveIsSkipped(cfg, rounds, k);
    }
  }

  /** Line `i` is verified, steps the version by one and starts where line `i - 1` ended. */
  predicate EntryLinks(cfg: Config, entries: seq<Entry>, i: nat)
    requires i < |entries|
  {
    && entries[i].verified && entries[i].cellCount == cfg.quorum
    && entries[i].versionBefore == i && entries[i].versionAfter == i + 1
    && entries[i].baseHash == (if i == 0 then cfg.initialHash else entries[i - 1].outputHash)
  }

  lemma GoodEntriesLink(cfg: Config, rounds: seq<Round>, entries: seq<Entry>)
    requires |entries| == |rounds| && forall i :: 0 <= i < |rounds| ==> GoodEntry(cfg, rounds, entries[i], i)
    ensures forall i :: 0 <= i < |entries| ==> EntryLinks(cfg, entries, i)
    ensures HashBefore(cfg, rounds, |rounds|)
            == (if rounds == [] then cfg.initialHash else entries[|rounds| - 1].outputHash)
  {
    forall i | 0 <= i < |entries| ensures EntryLinks(cfg, entries, i) {
      assert GoodEntry(cfg, rounds, entries[i], i);
      if i > 0 {
        assert GoodEntry(cfg, rounds, entries[i - 1], i - 1);
      }
    }
  }

  /**
   In every reachable state the lineage report is in order: one verified line per
   completed round, stepping the version by one and linking each round's base to
   its predecessor's output, from the initial adapter to the current one.
   */
  lemma LineageIsAlwaysOk(cfg: Config, born: real, ops: seq<Timed>)
    requires ValidConfig(cfg)
    ensures var t := Run(cfg, born, ops).state.training;
            var report := ReportOf(cfg, t);
            && report.errors == [] && |report.entries| == report.version == t.version
            && (forall i :: 0 <= i < t.version ==> EntryLinks(cfg, report.entries, i))
            && t.currentHash == (if t.version == 0 then cfg.initialHash else report.entries[t.version - 1].outputHash)
  {
    var t := Run(cfg, born, ops).state.training;
    assert t.version <= |t.rounds| && ChainOfRounds(cfg, t.rounds[..t.version])
           && HashBefore(cfg, t.rounds[..t.version], t.version) == t.currentHash
           && FoldRounds(cfg, t.rounds) == FoldRounds(cfg, t.rounds[..t.version]) by {
      RunKeeps(cfg, born, ops);
      ReachedIsAChain(cfg, t);
      ActiveRoundIsSkipped(cfg, t);
    }
    var done := t.rounds[..t.version];
    ChainFolds(cfg, done);
    GoodEntriesLink(cfg, done, FoldRounds(cfg, done).entries);
  }

  /** The campaign is complete exactly at the target version; until then exactly the last round is active. */
  lemma ExactlyTheLastRoundIsActive(cfg: Config, born: real, ops: seq<Timed>)
    requires ValidConfig(cfg)
    ensures var t := Run(cfg, born, ops).state.training;
            && t.version <= cfg.target && (t.complete <==> t.version == cfg.target)
            && |t.rounds| == t.version + (if t.complete then 0 else 1)
            && forall i :: 0 <= i < |t.rounds| ==>
                 t.rounds[i].index == i && t.rounds[i].baseVersion == i && (t.rounds[i].active <==> i == t.version)
  {
    var t := Run(cfg, born, ops).state.training;
    RunKeeps(cfg, born, ops);
    forall i | 0 <= i < |t.rounds| ensures RoundShape(cfg, t.rounds[i], i) && (t.rounds[i].active <==> i == t.version) {
      if i < t.version {
        assert Closed(cfg, t.rounds[i], i);
      }
    }
  }

  lemma {:induction false} FoldOfPrefix(cfg: Config, rounds: seq<Round>, k: nat)
    requires k <= |rounds|
    ensures FoldRounds(cfg, rounds[..k]).entries <= FoldRounds(cfg, rounds).entries
  {
    if k < |rounds| {
      FoldOfPrefix(cfg, rounds[..|rounds| - 1], k);
      assert rounds[..|rounds| - 1][..k] == rounds[..k];
    } else {
      assert rounds[..k] == rounds;
    }
  }

  /** A later report only appends lines. */
  lemma LaterReportsExtend(cfg: Config, born: real, ops: seq<Timed>, k: nat, n: nat)
    requires ValidConfig(cfg) && k <= n <= |ops|
    ensures ReportOf(cfg, TrainingAt(cfg, born, ops, k)).entries <= ReportOf(cfg, TrainingAt(cfg, born, ops, n)).entries
  {
    var a, b := TrainingAt(cfg, born, ops, k), TrainingAt(cfg, born, ops, n);
    RunsEvolve(cfg, born, ops, k, n);
    assert FoldRounds(cfg, a.rounds) == FoldRounds(cfg, a.rounds[..a.version]) by {
      RunKeeps(cfg, born, ops[..k]);
      ActiveRoundIsSkipped(cfg, a);
    }
    assert a.rounds[..a.version] == b.rounds[..a.version];
    FoldOfPrefix(cfg, b.rounds, a.version);
  }

  // ---- Conversion to checkpoints

  datatype Checkpoint = Checkpoint(step: nat, digest: string, parent: Option<string>)

  datatype Bridge = Invalid | LinkInvalid | VersionInvalid | HeadDiffers | Converted(checkpoints: seq<Checkpoint>)

  /** `contentHash` is the hash by which a checkpoint names its parent. */
  function ConvertFrom(contentHash: Checkpoint -> string, entries: seq<Entry>, checkpoints: seq<Checkpoint>): Bridge
    requires checkpoints != []
  {
    if entries == [] then Converted(checkpoints)
    else
      var e, previous := entries[0], checkpoints[|checkpoints| - 1];
      if !e.verified then LinkInvalid
      else if e.versionBefore != previous.step || e.versionAfter != e.versionBefore + 1 then VersionInvalid
      else ConvertFrom(contentHash, entries[1..],
                       checkpoints + [Checkpoint(e.versionAfter, e.outputHash, Some(contentHash(previous)))])
  }

  /** The bridge loop: genesis, then one checkpoint per verified line, then the head check. */
  method Convert(contentHash: Checkpoint -> string, report: Report) returns (result: Bridge)
    ensures result == ConvertReport(contentHash, report)
  {
    if report.errors != [] {
      return Invalid;
    }
    var previous := Checkpoint(0, report.initialHash, None);
    var checkpoints := [previous];
    for i := 0 to |report.entries|
      invariant checkpoints != [] && previous == checkpoints[|checkpoints| - 1]
      invariant ConvertFrom(contentHash, report.entries, [Checkpoint(0, report.initialHash, None)])
                == ConvertFrom(contentHash, report.entries[i..], checkpoints)
    {
      var e := report.entries[i];
      assert report.entries[i..][1..] == report.entries[i + 1..];
      if !e.verified {
        return LinkInvalid;
      }
      if e.versionBefore != previous.step || e.versionAfter != e.versionBefore + 1 {
        return VersionInvalid;
      }
      var checkpoint := Checkpoint(e.versionAfter, e.outputHash, Some(contentHash(previous)));
      checkpoints := checkpoints + [checkpoint];
      previous := checkpoint;
    }
    if previous.digest != report.currentHash {
      return HeadDiffers;
    }
    result := Converted(checkpoints);
  }

  function ConvertReport(contentHash: Checkpoint -> string, report: Report): Bridge {
    if report.errors != [] then Invalid
    else
      var r := ConvertFrom(contentHash, report.entries, [Checkpoint(0, report.initialHash, None)]);
      if r.Converted? && r.checkpoints != [] && r.checkpoints[|r.checkpoints| - 1].digest != report.currentHash
        then HeadDiffers
      else r
  }

  /** Checkpoint `k` has step `k`, the digest of version `k`, and points at checkpoint `k - 1`. */
  predicate CheckpointChain(
    contentHash: Checkpoint -> string, checkpoints: seq<Checkpoint>, initialHash: string, entries: seq<Entry>)
  {
    && 0 < |checkpoints| <= |entries| + 1
    && checkpoints[0] == Checkpoint(0, initialHash, None)
    && forall k ::
         1 <= k < |checkpoints|
         ==> LinksTo(contentHash, checkpoints[k], checkpoints[k - 1], k, entries[k - 1])
  }

  predicate LinksTo(contentHash: Checkpoint -> string, c: Checkpoint, parent: Checkpoint, k: nat, e: Entry) {
    c.step == k && c.digest == e.outputHash && c.parent == Some(contentHash(parent))
  }

  predicate StepsByOne(e: Entry, i: nat) {
    e.verified && e.versionBefore == i && e.versionAfter == i + 1
  }

  lemma {:induction false} ConvertFromChain(
    contentHash: Checkpoint -> string, initialHash: string, entries: seq<Entry>, checkpoints: seq<Checkpoint>)
    requires CheckpointChain(contentHash, checkpoints, initialHash, entries)
    requires forall i :: 0 <= i < |entries| ==> StepsByOne(entries[i], i)
    ensures var r := ConvertFrom(contentHash, entries[|checkpoints| - 1..], checkpoints);
            r.Converted? && |r.checkpoints| == |entries| + 1
              && CheckpointChain(contentHash, r.checkpoints, initialHash, entries)
    decreases |entries| + 1 - |checkpoints|
  {
    var k := |checkpoints|;
    if k <= |entries| {
      var e := entries[k - 1];
      assert StepsByOne(e, k - 1);
      assert entries[k - 1..][0] == e && entries[k - 1..][1..] == entries[k..];
      assert checkpoints[k - 1].step == k - 1 by {
        if k > 1 { assert LinksTo(contentHash, checkpoints[k - 1], checkpoints[k - 2], k - 1, entries[k - 2]); }
      }
      var next := checkpoints + [Checkpoint(e.versionAfter, e.outputHash, Some(contentHash(checkpoints[k - 1])))];
      forall i | 1 <= i < |next| ensures LinksTo(contentHash, next[i], next[i - 1], i, entries[i - 1]) {
        if i < k {
          assert LinksTo(contentHash, checkpoints[i], checkpoints[i - 1], i, entries[i - 1]);
        }
      }
      ConvertFromChain(contentHash, initialHash, entries, next);
    } else {
      assert entries[k - 1..] == [];
    }
  }

  /** Every reachable report converts, to checkpoints with steps `0..version` that link back to the initial adapter. */
  lemma ReachableReportsConvert(cfg: Config, born: real, ops: seq<Timed>, contentHash: Checkpoint -> string)
    requires ValidConfig(cfg)
    ensures var t := Run(cfg, born, ops).state.training;
            var report := ReportOf(cfg, t);
            var r := ConvertReport(contentHash, report);
            && r.Converted? && |r.checkpoints| == t.version + 1
            && CheckpointChain(contentHash, r.checkpoints, cfg.initialHash, report.entries)
            && r.checkpoints[t.version].digest == t.currentHash
  {
    var t := Run(cfg, born, ops).state.training;
    var report := ReportOf(cfg, t);
    LineageIsAlwaysOk(cfg, born, ops);
    var genesis := [Checkpoint(0, cfg.initialHash, None)];
    assert report.entries[0..] == report.entries;
    forall i | 0 <= i < |report.entries| ensures StepsByOne(report.entries[i], i) {
      assert EntryLinks(cfg, report.entries, i);
    }
    ConvertFromChain(contentHash, cfg.initialHash, report.entries, genesis);
    var r := ConvertFrom(contentHash, report.entries, genesis);
    if t.version > 0 {
      assert LinksTo(contentHash, r.checkpoints[t.version], r.checkpoints[t.version - 1], t.version,
             report.entries[t.version - 1]);
    }
  }
}
