/**
 The placement problem: devices with memory budgets and per-miner stage limits,
 stages with a peak byte estimate per device type.
 */
module Placement {
  import opened Wrappers

  datatype DeviceType = Cpu | Cuda | JaxTpu

  /** A device is named by the miner that hosts it and a device id that is unique on that miner. */
  datatype Key = Key(miner: string, deviceId: string)

  datatype Device = Device(
    key: Key,
    deviceType: DeviceType,
    dtypes: set<string>,
    totalBytes: nat,
    freeBytes: int,
    maxStages: nat,
    health: real)

  /** `peak` has one estimate for every allowed device type. */
  datatype Stage = Stage(peak: map<DeviceType, nat>)

  datatype Scheduler = Scheduler(
    reserveFraction: real,
    reserveBytes: DeviceType -> nat,
    requiredDtype: DeviceType -> string,
    maxStagesPerMiner: nat,
    beamWidth: nat,
    requiredTypes: set<DeviceType>)

  /** One row of the plan being replaced; `recordedPeak <= 0` means none was recorded. */
  datatype PreviousRow = PreviousRow(key: Key, stage: nat, deviceType: DeviceType, recordedPeak: int)

  datatype Problem = Problem(
    devices: seq<Device>,
    stages: seq<Stage>,
    scheduler: Scheduler,
    previous: seq<PreviousRow>)

  /**
   Each miner sends one capability report, so a device key occurs once and
   devices of the same miner carry the same stage limit.
   */
  predicate WellFormed(p: Problem) {
    && (forall i, j :: 0 <= i < j < |p.devices| ==> p.devices[i].key != p.devices[j].key)
    && (forall i, j :: 0 <= i < j < |p.devices| && p.devices[i].key.miner == p.devices[j].key.miner
                       ==> p.devices[i].maxStages == p.devices[j].maxStages)
    && p.scheduler.beamWidth >= 1
    && 0.0 <= p.scheduler.reserveFraction
  }

  function Max(a: int, b: int): int { if a < b then b else a }
  function Min(a: int, b: int): int { if a < b then a else b }

  function Ceiling(x: real): int { -((-x).Floor) }

  function PeakFor(p: Problem, stage: nat, kind: DeviceType): nat {
    if stage < |p.stages| && kind in p.stages[stage].peak then p.stages[stage].peak[kind] else 0
  }

  function Peak(p: Problem, stage: nat, d: nat): nat
    requires d < |p.devices|
  {
    PeakFor(p, stage, p.devices[d].deviceType)
  }

  function RowPeak(p: Problem, row: PreviousRow): nat {
    if row.recordedPeak > 0 then row.recordedPeak else PeakFor(p, row.stage, row.deviceType)
  }

  /** Bytes the replaced plan holds on a device. */
  function Resident(p: Problem, rows: seq<PreviousRow>, key: Key): nat {
    if rows == [] then 0
    else (if rows[0].key == key then RowPeak(p, rows[0]) else 0) + Resident(p, rows[1..], key)
  }

  function Reserve(p: Problem, d: nat): int
    requires d < |p.devices|
  {
    var dev := p.devices[d];
    Max(Ceiling(dev.totalBytes as real * p.scheduler.reserveFraction), p.scheduler.reserveBytes(dev.deviceType))
  }

  function Reclaimable(p: Problem, d: nat): nat
    requires d < |p.devices|
  {
    if p.devices[d].freeBytes <= 0 || p.devices[d].health <= 0.0 then 0
    else Resident(p, p.previous, p.devices[d].key)
  }

  function Budget(p: Problem, d: nat): (b: int)
    requires d < |p.devices|
    ensures 0 <= b <= Max(0, p.devices[d].totalBytes - Reserve(p, d))
  {
    Min(Max(0, p.devices[d].totalBytes - Reserve(p, d)),
        Max(0, p.devices[d].freeBytes - Reserve(p, d)) + Reclaimable(p, d))
  }

  function Limit(p: Problem, d: nat): int
    requires d < |p.devices|
  {
    Min(p.devices[d].maxStages, p.scheduler.maxStagesPerMiner)
  }

  datatype Rejection = Unhealthy | TypeNotAllowed | DtypeNotSupported | InsufficientMemory
  datatype Verdict = EligibleDevice | Rejected(reason: Rejection)

  function Audit(p: Problem, stage: nat, d: nat): Verdict
    requires stage < |p.stages| && d < |p.devices|
  {
    var dev := p.devices[d];
    if dev.health <= 0.0 then Rejected(Unhealthy)
    else if dev.deviceType !in p.stages[stage].peak then Rejected(TypeNotAllowed)
    else if p.scheduler.requiredDtype(dev.deviceType) !in dev.dtypes then Rejected(DtypeNotSupported)
    else if Peak(p, stage, d) > Budget(p, d) then Rejected(InsufficientMemory)
    else EligibleDevice
  }

  predicate Eligible(p: Problem, stage: nat, d: nat)
    requires stage < |p.stages| && d < |p.devices|
  {
    Audit(p, stage, d).EligibleDevice?
  }

  /** Dictionary lookup with default zero. */
  function Get<K>(m: map<K, nat>, k: K): nat {
    if k in m then m[k] else 0
  }

  predicate StagesOf(p: Problem, remaining: seq<nat>) {
    forall i :: 0 <= i < |remaining| ==> remaining[i] < |p.stages|
  }

  /** `choice` names a device for every remaining stage. */
  ghost predicate Chooses(p: Problem, remaining: seq<nat>, choice: map<nat, nat>) {
    forall i :: 0 <= i < |remaining| ==> remaining[i] in choice && choice[remaining[i]] < |p.devices|
  }

  ghost function Load(p: Problem, remaining: seq<nat>, choice: map<nat, nat>, key: Key): nat
    requires Chooses(p, remaining, choice)
  {
    if remaining == [] then 0
    else
      (if p.devices[choice[remaining[0]]].key == key then Peak(p, remaining[0], choice[remaining[0]]) else 0)
      + Load(p, remaining[1..], choice, key)
  }

  ghost function Hosted(p: Problem, remaining: seq<nat>, choice: map<nat, nat>, miner: string): nat
    requires Chooses(p, remaining, choice)
  {
    if remaining == [] then 0
    else
      (if p.devices[choice[remaining[0]]].key.miner == miner then 1 else 0)
      + Hosted(p, remaining[1..], choice, miner)
  }

  /** Stage `stage` may be put on `d` on top of what is already used. */
  predicate Open(p: Problem, stage: nat, d: nat, used: map<Key, nat>, counts: map<string, nat>)
    requires stage < |p.stages| && d < |p.devices|
  {
    && Eligible(p, stage, d)
    && Get(used, p.devices[d].key) + Peak(p, stage, d) <= Budget(p, d)
    && Get(counts, p.devices[d].key.miner) < Limit(p, d)
  }

  /** Stage number `k` of a plan fits on top of the given usage. */
  ghost predicate StageFits(
    p: Problem, remaining: seq<nat>, used: map<Key, nat>, counts: map<string, nat>, choice: map<nat, nat>, k: nat)
    requires StagesOf(p, remaining) && Chooses(p, remaining, choice) && k < |remaining|
  {
    var d := choice[remaining[k]];
    && Eligible(p, remaining[k], d)
    && Get(used, p.devices[d].key) + Load(p, remaining, choice, p.devices[d].key) <= Budget(p, d)
    && Get(counts, p.devices[d].key.miner) + Hosted(p, remaining, choice, p.devices[d].key.miner) <= Limit(p, d)
  }

  /** `choice` places every remaining stage on top of the given usage. */
  ghost predicate Fits(
    p: Problem, remaining: seq<nat>, used: map<Key, nat>, counts: map<string, nat>, choice: map<nat, nat>)
    requires StagesOf(p, remaining)
  {
    && Chooses(p, remaining, choice)
    && forall k :: 0 <= k < |remaining| ==> StageFits(p, remaining, used, counts, choice, k)
  }

  ghost predicate Feasible(p: Problem, remaining: seq<nat>, used: map<Key, nat>, counts: map<string, nat>)
    requires StagesOf(p, remaining)
  {
    exists choice :: Fits(p, remaining, used, counts, choice)
  }

  function Without(s: seq<nat>, i: nat): seq<nat>
    requires i < |s|
  {
    s[..i] + s[i + 1..]
  }

  function Occupy(p: Problem, stage: nat, d: nat, used: map<Key, nat>): map<Key, nat>
    requires d < |p.devices|
  {
    used[p.devices[d].key := Get(used, p.devices[d].key) + Peak(p, stage, d)]
  }

  function CountIn(p: Problem, d: nat, counts: map<string, nat>): map<string, nat>
    requires d < |p.devices|
  {
    counts[p.devices[d].key.miner := Get(counts, p.devices[d].key.miner) + 1]
  }

  lemma ChoosesWithout(p: Problem, remaining: seq<nat>, i: nat, choice: map<nat, nat>)
    requires i < |remaining| && Chooses(p, remaining, choice)
    ensures Chooses(p, Without(remaining, i), choice)
  {
  }

  /** Taking one stage out removes exactly its own contribution. */
  lemma {:induction false} TakeOut(p: Problem, remaining: seq<nat>, i: nat, choice: map<nat, nat>, key: Key)
    requires i < |remaining| && Chooses(p, remaining, choice)
    ensures Chooses(p, Without(remaining, i), choice)
    ensures var d := choice[remaining[i]];
            && Load(p, remaining, choice, key)
               == Load(p, Without(remaining, i), choice, key)
                  + (if p.devices[d].key == key then Peak(p, remaining[i], d) else 0)
            && Hosted(p, remaining, choice, key.miner)
               == Hosted(p, Without(remaining, i), choice, key.miner)
                  + (if p.devices[d].key.miner == key.miner then 1 else 0)
  {
    ChoosesWithout(p, remaining, i, choice);
    if i == 0 {
      assert Without(remaining, 0) == remaining[1..];
    } else {
      TakeOut(p, remaining[1..], i - 1, choice, key);
      assert Without(remaining, i)[1..] == Without(remaining[1..], i - 1);
    }
  }

  /** A device that carries load, or a miner that hosts a stage, was chosen by some stage. */
  lemma {:induction false} ChosenWhenLoaded(p: Problem, remaining: seq<nat>, choice: map<nat, nat>, key: Key)
    requires Chooses(p, remaining, choice)
    ensures Load(p, remaining, choice, key) > 0
            ==> exists j :: 0 <= j < |remaining| && p.devices[choice[remaining[j]]].key == key
    ensures Hosted(p, remaining, choice, key.miner) > 0
            ==> exists j :: 0 <= j < |remaining| && p.devices[choice[remaining[j]]].key.miner == key.miner
  {
    if remaining != [] {
      var rest := remaining[1..];
      ChosenWhenLoaded(p, rest, choice, key);
      assert forall j :: 0 <= j < |rest| ==> rest[j] == remaining[j + 1];
      assert p.devices[choice[remaining[0]]].key == key
             || (Load(p, rest, choice, key) == Load(p, remaining, choice, key));
    }
  }

  /** Two choices that agree on the remaining stages load every device alike. */
  lemma {:induction false} SameChoiceSameLoad(
    p: Problem, remaining: seq<nat>, a: map<nat, nat>, b: map<nat, nat>, key: Key)
    requires Chooses(p, remaining, a) && Chooses(p, remaining, b)
    requires forall i :: 0 <= i < |remaining| ==> a[remaining[i]] == b[remaining[i]]
    ensures Load(p, remaining, a, key) == Load(p, remaining, b, key)
    ensures Hosted(p, remaining, a, key.miner) == Hosted(p, remaining, b, key.miner)
  {
    if remaining != [] {
      SameChoiceSameLoad(p, remaining[1..], a, b, key);
    }
  }

  lemma SameKeySameBudget(p: Problem, i: nat, j: nat)
    requires WellFormed(p) && i < |p.devices| && j < |p.devices|
    ensures p.devices[i].key == p.devices[j].key ==> i == j
    ensures p.devices[i].key.miner == p.devices[j].key.miner ==> Limit(p, i) == Limit(p, j)
  {
  }

  lemma OthersStillFit(
    p: Problem, remaining: seq<nat>, i: nat, used: map<Key, nat>, counts: map<string, nat>, choice: map<nat, nat>,
    k: nat)
    requires StagesOf(p, remaining) && i < |remaining| && StagesOf(p, Without(remaining, i))
             && k < |Without(remaining, i)|
    requires Chooses(p, remaining, choice) && Chooses(p, Without(remaining, i), choice)
    requires StageFits(p, remaining, used, counts, choice, if k < i then k else k + 1)
    ensures StageFits(p, Without(remaining, i), Occupy(p, remaining[i], choice[remaining[i]], used),
                      CountIn(p, choice[remaining[i]], counts), choice, k)
  {
    assert Without(remaining, i)[k] == remaining[if k < i then k else k + 1];
    TakeOut(p, remaining, i, choice, p.devices[choice[Without(remaining, i)[k]]].key);
  }

  lemma PlacedStageWasOpen(
    p: Problem, remaining: seq<nat>, i: nat, used: map<Key, nat>, counts: map<string, nat>, choice: map<nat, nat>)
    requires StagesOf(p, remaining) && i < |remaining|
    requires Fits(p, remaining, used, counts, choice)
    ensures Open(p, remaining[i], choice[remaining[i]], used, counts)
    ensures StagesOf(p, Without(remaining, i))
    ensures Fits(p, Without(remaining, i), Occupy(p, remaining[i], choice[remaining[i]], used),
                 CountIn(p, choice[remaining[i]], counts), choice)
  {
    var s, d := remaining[i], choice[remaining[i]];
    var rest := Without(remaining, i);
    TakeOut(p, remaining, i, choice, p.devices[d].key);
    assert StageFits(p, remaining, used, counts, choice, i);
    forall k | 0 <= k < |rest| ensures StageFits(p, rest, Occupy(p, s, d, used), CountIn(p, d, counts), choice, k) {
      assert StageFits(p, remaining, used, counts, choice, if k < i then k else k + 1);
      OthersStillFit(p, remaining, i, used, counts, choice, k);
    }
  }

  lemma ChooseOneMore(p: Problem, remaining: seq<nat>, i: nat, d: nat, choice: map<nat, nat>)
    requires Distinct(remaining) && i < |remaining| && d < |p.devices|
    requires Chooses(p, Without(remaining, i), choice)
    ensures var full := choice[remaining[i] := d];
            && Chooses(p, remaining, full) && Chooses(p, Without(remaining, i), full)
            && full[remaining[i]] == d
            && forall k ::
                 0 <= k < |Without(remaining, i)|
                 ==> full[Without(remaining, i)[k]] == choice[Without(remaining, i)[k]]
  {
    var rest := Without(remaining, i);
    forall k | 0 <= k < |rest| ensures rest[k] != remaining[i] {
      assert rest[k] == remaining[if k < i then k else k + 1];
    }
    forall j | 0 <= j < |remaining| && j != i ensures remaining[j] in choice && choice[remaining[j]] < |p.devices| {
      assert remaining[j] == rest[if j < i then j else j - 1];
    }
  }

  /** On the device that takes the extra stage, nothing overflows. */
  lemma TakerStaysWithin(
    p: Problem, rest: seq<nat>, s: nat, used: map<Key, nat>, counts: map<string, nat>, d: nat, choice: map<nat, nat>)
    requires WellFormed(p) && StagesOf(p, rest) && s < |p.stages| && d < |p.devices|
    requires Open(p, s, d, used, counts)
    requires Fits(p, rest, Occupy(p, s, d, used), CountIn(p, d, counts), choice)
    ensures Get(used, p.devices[d].key) + Peak(p, s, d) + Load(p, rest, choice, p.devices[d].key) <= Budget(p, d)
    ensures Get(counts, p.devices[d].key.miner) + 1 + Hosted(p, rest, choice, p.devices[d].key.miner) <= Limit(p, d)
  {
    var key := p.devices[d].key;
    ChosenWhenLoaded(p, rest, choice, key);
    if Load(p, rest, choice, key) > 0 {
      var k :| 0 <= k < |rest| && p.devices[choice[rest[k]]].key == key;
      assert StageFits(p, rest, Occupy(p, s, d, used), CountIn(p, d, counts), choice, k);
      SameKeySameBudget(p, d, choice[rest[k]]);
    }
    if Hosted(p, rest, choice, key.miner) > 0 {
      var k :| 0 <= k < |rest| && p.devices[choice[rest[k]]].key.miner == key.miner;
      assert StageFits(p, rest, Occupy(p, s, d, used), CountIn(p, d, counts), choice, k);
      SameKeySameBudget(p, d, choice[rest[k]]);
    }
  }

  lemma PutStageFits(
    p: Problem, remaining: seq<nat>, i: nat, used: map<Key, nat>, counts: map<string, nat>, d: nat,
    choice: map<nat, nat>, j: nat)
    requires WellFormed(p) && StagesOf(p, remaining) && Distinct(remaining) && i < |remaining| && d < |p.devices|
             && j < |remaining|
    requires Open(p, remaining[i], d, used, counts)
    requires StagesOf(p, Without(remaining, i))
    requires Fits(p, Without(remaining, i), Occupy(p, remaining[i], d, used), CountIn(p, d, counts), choice)
    requires Chooses(p, remaining, choice[remaining[i] := d])
    ensures StageFits(p, remaining, used, counts, choice[remaining[i] := d], j)
  {
    var s, rest, full := remaining[i], Without(remaining, i), choice[remaining[i] := d];
    ChooseOneMore(p, remaining, i, d, choice);
    TakerStaysWithin(p, rest, s, used, counts, d, choice);
    var key := p.devices[full[remaining[j]]].key;
    TakeOut(p, remaining, i, full, key);
    SameChoiceSameLoad(p, rest, choice, full, key);
    if j != i {
      var k := if j < i then j else j - 1;
      assert remaining[j] == rest[k];
      assert StageFits(p, rest, Occupy(p, s, d, used), CountIn(p, d, counts), choice, k);
    }
  }

  lemma OpenStageCanBePut(
    p: Problem, remaining: seq<nat>, i: nat, used: map<Key, nat>, counts: map<string, nat>, d: nat,
    choice: map<nat, nat>)
    requires WellFormed(p) && StagesOf(p, remaining) && Distinct(remaining) && i < |remaining| && d < |p.devices|
    requires Open(p, remaining[i], d, used, counts)
    requires StagesOf(p, Without(remaining, i))
    requires Fits(p, Without(remaining, i), Occupy(p, remaining[i], d, used), CountIn(p, d, counts), choice)
    ensures Fits(p, remaining, used, counts, choice[remaining[i] := d])
  {
    var s, rest, full := remaining[i], Without(remaining, i), choice[remaining[i] := d];
    ChooseOneMore(p, remaining, i, d, choice);
    forall j | 0 <= j < |remaining| ensures StageFits(p, remaining, used, counts, full, j) {
      PutStageFits(p, remaining, i, used, counts, d, choice, j);
    }
  }

  ghost predicate FeasibleVia(
    p: Problem, remaining: seq<nat>, i: nat, used: map<Key, nat>, counts: map<string, nat>, d: nat)
    requires StagesOf(p, remaining) && i < |remaining|
  {
    && d < |p.devices|
    && Open(p, remaining[i], d, used, counts)
    && StagesOf(p, Without(remaining, i))
    && Feasible(p, Without(remaining, i), Occupy(p, remaining[i], d, used), CountIn(p, d, counts))
  }

  /**
   Branching on any single remaining stage loses no solution: the rest is
   placeable exactly when it is placeable after putting that stage on one of
   the devices open to it.
   */
  lemma BranchingIsExact(p: Problem, remaining: seq<nat>, i: nat, used: map<Key, nat>, counts: map<string, nat>)
    requires WellFormed(p) && StagesOf(p, remaining) && Distinct(remaining) && i < |remaining|
    ensures Feasible(p, remaining, used, counts) <==> exists d :: FeasibleVia(p, remaining, i, used, counts, d)
  {
    if Feasible(p, remaining, used, counts) {
      var choice :| Fits(p, remaining, used, counts, choice);
      PlacedStageWasOpen(p, remaining, i, used, counts, choice);
      assert FeasibleVia(p, remaining, i, used, counts, choice[remaining[i]]);
    }
    if exists d :: FeasibleVia(p, remaining, i, used, counts, d) {
      var d :| FeasibleVia(p, remaining, i, used, counts, d);
      var choice :| Fits(p, Without(remaining, i), Occupy(p, remaining[i], d, used), CountIn(p, d, counts), choice);
      OpenStageCanBePut(p, remaining, i, used, counts, d, choice);
    }
  }

  /** Zero entries of the usage dictionaries carry no information. */
  function NonZero<K(!new)>(m: map<K, nat>): (r: map<K, nat>)
    ensures forall k :: Get(r, k) == Get(m, k)
    ensures forall k :: k in r ==> r[k] != 0
  {
    map k | k in m && m[k] != 0 :: m[k]
  }

  lemma FeasibleReadsLookupsOnly(
    p: Problem, remaining: seq<nat>, used: map<Key, nat>, counts: map<string, nat>, used': map<Key, nat>,
    counts': map<string, nat>)
    requires StagesOf(p, remaining)
    requires forall k :: Get(used, k) == Get(used', k)
    requires forall m :: Get(counts, m) == Get(counts', m)
    ensures Feasible(p, remaining, used, counts) <==> Feasible(p, remaining, used', counts')
  {
    forall choice ensures Fits(p, remaining, used, counts, choice) <==> Fits(p, remaining, used', counts', choice) {
      if Chooses(p, remaining, choice) {
        forall k | 0 <= k < |remaining|
          ensures StageFits(p, remaining, used, counts, choice, k)
                  <==> StageFits(p, remaining, used', counts', choice, k)
        {
        }
      }
    }
  }
}
