/** What the lineage report says of any list of rounds, and which reports convert, line by line. */
module LineageRules {
  import opened Campaign
  import opened Lineage
  import opened Wrappers

  /** The completed rounds, in order. */
  function Done(rounds: seq<Round>): (r: seq<Round>) {
    if rounds == [] then []
    else Done(rounds[..|rounds| - 1]) + (if rounds[|rounds| - 1].active then [] else [rounds[|rounds| - 1]])
  }

  /** What line `i` should start from: the output of the line before it, or the initial adapter. */
  function ExpectedBase(cfg: Config, done: seq<Round>, i: nat): string
    requires i <= |done|
  {
    if i == 0 then cfg.initialHash
    else if done[i - 1].aggregation.Some? then done[i - 1].aggregation.value.outputHash
    else ""
  }

  /** A line repeats its round, and is verified exactly if it links up, steps by one and has enough inputs. */
  ghost predicate LineOf(cfg: Config, e: Entry, r: Round, expected: string) {
    && e.round == r.index && e.versionBefore == r.baseVersion && e.baseHash == r.baseHash
    && match r.aggregation
       case None => e.versionAfter == e.cellCount == 0 && e.outputHash == "" && e.inputHashes == [] && !e.verified
       case Some(a) =>
         && e.versionAfter == a.versionAfter && e.cellCount == a.cellCount && e.outputHash == a.outputHash
         && e.inputHashes == a.inputHashes
         && (e.verified <==>
             r.baseHash == expected && a.versionAfter == r.baseVersion + 1 && a.deltaCount >= cfg.quorum)
  }

  ghost predicate LinesOf(cfg: Config, entries: seq<Entry>, done: seq<Round>) {
    |entries| == |done| && forall i :: 0 <= i < |done| ==> LineOf(cfg, entries[i], done[i], ExpectedBase(cfg, done, i))
  }

  /** One error for every line that is not verified. */
  function LineErrors(entries: seq<Entry>): seq<Problem> {
    if entries == [] then []
    else
      var e := entries[|entries| - 1];
      LineErrors(entries[..|entries| - 1]) + (if e.verified then [] else [RoundInvalid(e.round)])
  }

  lemma LineFor(cfg: Config, r: Round, expected: string)
    ensures LineOf(cfg, EntryFor(cfg, r, expected), r, expected)
  {
  }

  lemma OneMoreLine(cfg: Config, entries: seq<Entry>, done: seq<Round>, e: Entry, r: Round)
    requires LinesOf(cfg, entries, done) && LineOf(cfg, e, r, ExpectedBase(cfg, done, |done|))
    ensures LinesOf(cfg, entries + [e], done + [r])
    ensures LineErrors(entries + [e]) == LineErrors(entries) + (if e.verified then [] else [RoundInvalid(e.round)])
  {
    assert (entries + [e])[..|entries|] == entries;
    forall i | 0 <= i < |done + [r]|
      ensures LineOf(cfg, (entries + [e])[i], (done + [r])[i], ExpectedBase(cfg, done + [r], i))
    {
      assert ExpectedBase(cfg, done + [r], i) == ExpectedBase(cfg, done, i);
      assert i < |done| ==> LineOf(cfg, entries[i], done[i], ExpectedBase(cfg, done, i));
    }
  }

  lemma {:induction false} FoldIs(cfg: Config, rounds: seq<Round>)
    ensures var f, done := FoldRounds(cfg, rounds), Done(rounds);
            && LinesOf(cfg, f.entries, done) && f.errors == LineErrors(f.entries)
            && f.expected == ExpectedBase(cfg, done, |done|)
  {
    if rounds != [] {
      var r := rounds[|rounds| - 1];
      var before := FoldRounds(cfg, rounds[..|rounds| - 1]);
      var done := Done(rounds[..|rounds| - 1]);
      FoldIs(cfg, rounds[..|rounds| - 1]);
      if !r.active {
        LineFor(cfg, r, before.expected);
        OneMoreLine(cfg, before.entries, done, EntryFor(cfg, r, before.expected), r);
      }
    }
  }

  /**
   The report of any state: one line per completed round, an error per line that
   is not verified, and one more if the last output is not the current adapter.
   */
  lemma ReportExactly(cfg: Config, t: Training)
    ensures var report, done := ReportOf(cfg, t), Done(t.rounds);
            && report.initialHash == cfg.initialHash && report.currentHash == t.currentHash
            && report.version == t.version
            && LinesOf(cfg, report.entries, done)
            && report.errors
               == LineErrors(report.entries)
                  + (if ExpectedBase(cfg, done, |done|) == t.currentHash then [] else [HeadMismatch])
  {
    FoldIs(cfg, t.rounds);
  }

  // ---- Conversion

  /** Line `i` is verified and goes from version `i` to the next. */
  predicate LineSteps(entries: seq<Entry>, i: nat) {
    i < |entries| && entries[i].verified && entries[i].versionBefore == i && entries[i].versionAfter == i + 1
  }

  predicate StepsUpTo(entries: seq<Entry>, k: nat) {
    forall i: nat :: i < k ==> LineSteps(entries, i)
  }

  /** Line `k` is the first that does not step, and this is what is reported of it. */
  predicate FailsAt(entries: seq<Entry>, k: nat, failure: Bridge) {
    && k < |entries| && StepsUpTo(entries, k) && !LineSteps(entries, k)
    && failure == (if entries[k].verified then VersionInvalid else LinkInvalid)
  }

  /** A conversion that has come as far as line `k`. */
  lemma {:induction false} ConvertGoesOn(
    contentHash: Checkpoint -> string, initialHash: string, entries: seq<Entry>, k: nat, checkpoints: seq<Checkpoint>)
    requires k <= |entries| && StepsUpTo(entries, k) && |checkpoints| == k + 1
    requires CheckpointChain(contentHash, checkpoints, initialHash, entries)
    ensures var r := ConvertFrom(contentHash, entries[k..], checkpoints);
            && (r.Converted? <==> StepsUpTo(entries, |entries|))
            && (r.Converted? ==>
                  |r.checkpoints| == |entries| + 1 && CheckpointChain(contentHash, r.checkpoints, initialHash, entries))
            && (!r.Converted? ==> exists m: nat :: FailsAt(entries, m, r))
    decreases |entries| - k
  {
    if k < |entries| {
      var e, previous := entries[k], checkpoints[k];
      assert entries[k..][0] == e && entries[k..][1..] == entries[k + 1..];
      assert previous.step == k by {
        if k > 0 { assert LinksTo(contentHash, checkpoints[k], checkpoints[k - 1], k, entries[k - 1]); }
      }
      if LineSteps(entries, k) {
        var next := checkpoints + [Checkpoint(e.versionAfter, e.outputHash, Some(contentHash(previous)))];
        ChainGrows(contentHash, initialHash, entries, k, checkpoints, next);
        ConvertGoesOn(contentHash, initialHash, entries, k + 1, next);
      } else {
        assert FailsAt(entries, k, ConvertFrom(contentHash, entries[k..], checkpoints));
      }
    } else {
      assert entries[k..] == [];
    }
  }

  lemma ChainGrows(
    contentHash: Checkpoint -> string, initialHash: string, entries: seq<Entry>, k: nat, checkpoints: seq<Checkpoint>,
    next: seq<Checkpoint>)
    requires k < |entries| && LineSteps(entries, k) && |checkpoints| == k + 1
    requires CheckpointChain(contentHash, checkpoints, initialHash, entries)
    requires next == checkpoints + [Checkpoint(entries[k].versionAfter, entries[k].outputHash,
                                               Some(contentHash(checkpoints[k])))]
    ensures CheckpointChain(contentHash, next, initialHash, entries)
  {
    forall i | 1 <= i < |next| ensures LinksTo(contentHash, next[i], next[i - 1], i, entries[i - 1]) {
      if i < k + 1 {
        assert LinksTo(contentHash, checkpoints[i], checkpoints[i - 1], i, entries[i - 1]);
      }
    }
  }

  /** The digest the lines end with. */
  function LastDigest(report: Report): string {
    if report.entries == [] then report.initialHash else report.entries[|report.entries| - 1].outputHash
  }

  /**
   A report converts exactly if it has no error, every line steps the version by
   one, and the lines end at the current adapter; the first line that does not step
   decides how it fails otherwise.
   */
  lemma ConvertsExactly(contentHash: Checkpoint -> string, report: Report)
    ensures var r, steps := ConvertReport(contentHash, report), StepsUpTo(report.entries, |report.entries|);
            && (r == Invalid <==> report.errors != [])
            && (r.Converted? <==> report.errors == [] && steps && LastDigest(report) == report.currentHash)
            && (r == HeadDiffers <==> report.errors == [] && steps && LastDigest(report) != report.currentHash)
            && (r == LinkInvalid || r == VersionInvalid ==> exists m: nat :: FailsAt(report.entries, m, r))
            && (r.Converted? ==>
                  && |r.checkpoints| == |report.entries| + 1
                  && CheckpointChain(contentHash, r.checkpoints, report.initialHash, report.entries))
  {
    if report.errors == [] {
      var genesis := [Checkpoint(0, report.initialHash, None)];
      assert report.entries[0..] == report.entries;
      ConvertGoesOn(contentHash, report.initialHash, report.entries, 0, genesis);
      var r := ConvertFrom(contentHash, report.entries, genesis);
      if r.Converted? && report.entries != [] {
        var n := |report.entries|;
        assert LinksTo(contentHash, r.checkpoints[n], r.checkpoints[n - 1], n, report.entries[n - 1]);
      }
    }
  }
}
