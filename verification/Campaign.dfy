/**
 The volunteer round coordinator as a state machine: leased work units, quorum
 aggregation, successive rounds, and the ledger every operation appends to.
 */
module Campaign {
  import opened Ledger
  import opened Wrappers

  /** The text form of every file digest. */
  type Digest = s: string | "sha256:" <= s witness "sha256:"

  // ---- State

  datatype WorkId = WorkId(round: nat, version: nat, shard: nat)

  datatype Status = Queued | Leased | Accepted

  datatype Work = Work(
    id: WorkId,
    status: Status,
    generation: nat,
    token: string,
    holder: Option<string>,
    expiresAt: real,
    result: string)

  datatype Aggregation = Aggregation(
    inputs: seq<string>,
    inputHashes: seq<string>,
    deltaCount: nat,
    cellCount: nat,
    versionAfter: nat,
    outputHash: Digest,
    completedAt: real)

  datatype Round = Round(
    index: nat,
    active: bool,
    baseVersion: nat,
    baseHash: string,
    works: seq<Work>,
    results: seq<string>,
    cells: seq<string>,
    startedAt: real,
    aggregation: Option<Aggregation>)

  datatype Submission = Submission(
    round: nat,
    work: WorkId,
    cell: string,
    deltaHash: string,
    acceptedHash: string,
    bytes: nat,
    normBefore: real,
    normAfter: real,
    clipped: bool,
    acceptedAt: real,
    aggregated: bool,
    versionAfter: nat)

  datatype Lifecycle = Running | Paused | Finalized

  datatype Training = Training(
    version: nat,
    outerStep: nat,
    currentHash: Digest,
    rounds: seq<Round>,
    submissions: map<string, Submission>,
    complete: bool,
    lifecycle: Lifecycle,
    accepted: nat,
    uploadedBytes: nat,
    rejected: nat,
    expired: nat,
    reassigned: nat,
    recoveries: nat)

  datatype Kind =
    | CampaignCreated
    | WorkLeased(round: nat, work: WorkId, cell: string, generation: nat, reassigned: bool)
    | LeaseLapsed(round: nat, work: WorkId, previousHolder: Option<string>, generation: nat)
    | LeaseRenewed(round: nat, work: WorkId, cell: string, generation: nat)
    | UpdateAccepted(round: nat, work: WorkId, cell: string, result: string)
    | UpdateRejected(code: Refusal, cell: string)
    | RoundAggregated(round: nat, versionAfter: nat, outputHash: Digest)
    | TargetReached(version: nat)
    | RoundStarted(round: nat, baseHash: string)
    | LifecycleChanged(target: Lifecycle)
    | CampaignFinalized(version: nat)
    | Recovered(count: nat)
    | Administered(what: string)

  /** Campaign manifest, and the two hashes the coordinator relies on. */
  datatype Config = Config(
    shards: seq<nat>,
    quorum: nat,
    target: nat,
    leaseSeconds: real,
    maxLeasesPerCell: nat,
    clipNorm: real,
    maxDeltaBytes: nat,
    initialHash: Digest,
    cellHash: string -> string,
    eventHash: Body<Kind> -> string)

  /** What manifest validation guarantees. */
  predicate ValidConfig(cfg: Config) {
    && 2 <= cfg.quorum <= |cfg.shards|
    && (forall i, j :: 0 <= i < j < |cfg.shards| ==> cfg.shards[i] != cfg.shards[j])
    && cfg.target >= 1 && cfg.leaseSeconds > 0.0 && cfg.maxLeasesPerCell >= 1 && cfg.clipNorm > 0.0
  }

  /** `state` is the last saved state file, `ledger` the ledger file. */
  datatype Saved = Saved(training: Training, sequence: nat, head: string)
  datatype System = System(state: Saved, ledger: seq<Event<Kind>>)

  function Log(cfg: Config, s: System, kind: Kind, now: real): System {
    var e := Appended(cfg.eventHash, s.ledger, s.state.head, s.state.sequence, kind, now);
    System(Saved(s.state.training, e.body.sequence, e.hash), s.ledger + [e])
  }

  function With(s: System, t: Training): System {
    s.(state := s.state.(training := t))
  }

  // ---- Rounds and work units

  predicate HasCurrent(t: Training) {
    !t.complete && t.rounds != [] && t.rounds[|t.rounds| - 1].active
  }

  function CurrentRound(t: Training): Round
    requires HasCurrent(t)
  {
    t.rounds[|t.rounds| - 1]
  }

  function PutRound(t: Training, r: Round): Training
    requires t.rounds != []
  {
    t.(rounds := t.rounds[|t.rounds| - 1 := r])
  }

  function PutWork(t: Training, j: nat, w: Work): Training
    requires HasCurrent(t) && j < |CurrentRound(t).works|
  {
    PutRound(t, CurrentRound(t).(works := CurrentRound(t).works[j := w]))
  }

  function NewRound(cfg: Config, t: Training, now: real): Round {
    var index := |t.rounds|;
    Round(index, true, t.version, t.currentHash,
          seq(|cfg.shards|, i requires 0 <= i < |cfg.shards| =>
            Work(WorkId(index, t.version, cfg.shards[i]), Queued, 0, "", None, 0.0, "")),
          [], [], now, None)
  }

  function StartRound(cfg: Config, t: Training, now: real): Training {
    t.(rounds := t.rounds + [NewRound(cfg, t, now)])
  }

  function Init(cfg: Config, now: real): System {
    var t := Training(0, 0, cfg.initialHash, [], map[], false, Running, 0, 0, 0, 0, 0, 0);
    Log(cfg, System(Saved(StartRound(cfg, t, now), 0, GENESIS), []), CampaignCreated, now)
  }

  function FindWork(works: seq<Work>, id: WorkId): (r: Option<nat>)
    ensures r.Some? ==> r.value < |works| && works[r.value].id == id
    ensures r.None? ==> forall j :: 0 <= j < |works| ==> works[j].id != id
  {
    if works == [] then None
    else if works[|works| - 1].id == id then Some(|works| - 1)
    else FindWork(works[..|works| - 1], id)
  }

  // ---- Lease expiry

  predicate Lapsed(w: Work, now: real) {
    w.status == Leased && w.expiresAt <= now
  }

  function Requeued(w: Work): Work {
    w.(status := Queued, token := "", holder := None, expiresAt := 0.0)
  }

  function SweptWork(w: Work, now: real): Work {
    if Lapsed(w, now) then Requeued(w) else w
  }

  function Swept(works: seq<Work>, now: real): (r: seq<Work>)
    ensures |r| == |works|
    ensures forall j :: 0 <= j < |works| ==> r[j] == SweptWork(works[j], now)
  {
    seq(|works|, j requires 0 <= j < |works| => SweptWork(works[j], now))
  }

  function LapsedCount(works: seq<Work>, now: real): nat {
    if works == [] then 0
    else LapsedCount(works[..|works| - 1], now) + (if Lapsed(works[|works| - 1], now) then 1 else 0)
  }

  /** Every lapsed lease of the current round goes back to the queue. */
  function SweepTraining(t: Training, now: real): Training {
    if !HasCurrent(t) then t
    else
      var r := CurrentRound(t);
      PutRound(t, r.(works := Swept(r.works, now))).(expired := t.expired + LapsedCount(r.works, now))
  }

  function LogLapses(cfg: Config, s: System, round: nat, works: seq<Work>, now: real): System {
    if works == [] then s
    else
      var w := works[|works| - 1];
      var p := LogLapses(cfg, s, round, works[..|works| - 1], now);
      if Lapsed(w, now) then Log(cfg, p, LeaseLapsed(round, w.id, w.holder, w.generation), now) else p
  }

  function Sweep(cfg: Config, s: System, now: real): System {
    var t := s.state.training;
    if !HasCurrent(t) then s
    else With(LogLapses(cfg, s, CurrentRound(t).index, CurrentRound(t).works, now), SweepTraining(t, now))
  }

  // ---- Claim

  predicate HeldBy(w: Work, cell: string) {
    w.status == Leased && w.holder == Some(cell)
  }

  function LeasesOf(works: seq<Work>, cell: string): nat {
    if works == [] then 0
    else LeasesOf(works[..|works| - 1], cell) + (if HeldBy(works[|works| - 1], cell) then 1 else 0)
  }

  /** A lease the cell holds. */
  function FindLease(works: seq<Work>, cell: string): (r: Option<nat>)
    ensures r.Some? ==> r.value < |works| && HeldBy(works[r.value], cell)
    ensures r.None? ==> forall j :: 0 <= j < |works| ==> !HeldBy(works[j], cell)
  {
    if works == [] then None
    else
      var k := |works| - 1;
      var earlier := FindLease(works[..k], cell);
      if earlier.Some? then earlier else if HeldBy(works[k], cell) then Some(k) else None
  }

  /** The queued work unit with the smallest shard index. */
  function FirstQueued(works: seq<Work>): (r: Option<nat>)
    ensures r.Some? ==>
              && r.value < |works| && works[r.value].status == Queued
              && forall j ::
                   0 <= j < |works| && works[j].status == Queued
                   ==> works[r.value].id.shard <= works[j].id.shard
    ensures r.None? ==> forall j :: 0 <= j < |works| ==> works[j].status != Queued
  {
    if works == [] then None
    else
      var k := |works| - 1;
      var earlier := FirstQueued(works[..k]);
      if works[k].status != Queued then earlier
      else if earlier.Some? && works[earlier.value].id.shard <= works[k].id.shard then earlier
      else Some(k)
  }

  datatype ClaimVerdict =
    | LifecycleStops(lifecycle: Lifecycle)
    | NothingLeftToDo
    | AlreadyHolds(work: nat)
    | WaitForNextRound
    | WaitForWork
    | TooManyLeases
    | Grant(work: nat)

  /** The claim decision, on the state after lapsed leases were swept. */
  function JudgeClaim(cfg: Config, t: Training, cell: string): (v: ClaimVerdict)
    ensures v.AlreadyHolds?
            ==> HasCurrent(t) && v.work < |CurrentRound(t).works| && HeldBy(CurrentRound(t).works[v.work], cell)
    ensures v.Grant?
            ==> HasCurrent(t) && v.work < |CurrentRound(t).works| && CurrentRound(t).works[v.work].status == Queued
  {
    if t.lifecycle != Running then LifecycleStops(t.lifecycle)
    else if !HasCurrent(t) then NothingLeftToDo
    else
      var r := CurrentRound(t);
      var held := FindLease(r.works, cell);
      if held.Some? then AlreadyHolds(held.value)
      else if cell in r.cells then WaitForNextRound
      else
        var queued := FirstQueued(r.works);
        if queued.None? then WaitForWork
        else if LeasesOf(r.works, cell) >= cfg.maxLeasesPerCell then TooManyLeases
        else Grant(queued.value)
  }

  function Granted(cfg: Config, w: Work, cell: string, token: string, now: real): Work {
    w.(status := Leased, generation := w.generation + 1, token := token, holder := Some(cell),
      expiresAt := now + cfg.leaseSeconds)
  }

  function GrantTraining(cfg: Config, t: Training, j: nat, cell: string, token: string, now: real): Training
    requires HasCurrent(t) && j < |CurrentRound(t).works|
  {
    var w := CurrentRound(t).works[j];
    PutWork(t, j, Granted(cfg, w, cell, token, now)).(reassigned := t.reassigned + (if w.generation > 0 then 1 else 0))
  }

  // ---- Heartbeat and submission

  datatype Refusal =
    | ResultIdCollision
    | StaleAdapterVersion
    | RoundClosed
    | RoundFork
    | LeaseNotActive
    | GenerationMismatch
    | CellMismatch
    | TokenMismatch
    | LeaseExpired
    | CellIdentityMismatch
    | DistinctCellViolation
    | DeltaInvalid(code: string)
    | DeltaTooLarge
    /** Not a refusal: an exception that no handler catches. */
    | Uncaught(error: string)

  const LAST_ASCII: char := 127 as char

  predicate Ascii(s: string) { forall i :: 0 <= i < |s| ==> s[i] <= LAST_ASCII }

  /** The checks heartbeat and submission share, in their order. The comparison of tokens takes ASCII only. */
  function JudgeLease(t: Training, id: WorkId, generation: int, cell: string, token: string): (v: Option<Refusal>)
    ensures v.None? ==>
              && HasCurrent(t) && FindWork(CurrentRound(t).works, id).Some?
              && var w := CurrentRound(t).works[FindWork(CurrentRound(t).works, id).value];
                 HeldBy(w, cell) && w.generation == generation && w.token == token
  {
    if !HasCurrent(t) then Some(LeaseNotActive)
    else
      var found := FindWork(CurrentRound(t).works, id);
      if found.None? || CurrentRound(t).works[found.value].status != Leased then Some(LeaseNotActive)
      else
        var w := CurrentRound(t).works[found.value];
        if w.generation != generation then Some(GenerationMismatch)
        else if w.holder != Some(cell) then Some(CellMismatch)
        else if !Ascii(w.token) || !Ascii(token) then Some(Uncaught("TypeError"))
        else if w.token != token then Some(TokenMismatch)
        else None
  }

  /** What converting a field of the submitted manifest to an integer gives: a number, or one of two exceptions. */
  datatype Field = Number(value: int) | Unreadable | Infinite

  /** A group of checks on the submitted delta. */
  datatype Check = Passes | Fails(code: string) | Raises(error: string)

  /**
   What a submission carries. `identity` are the checks of names, hashes and the
   base model version, `content` those of the delta file and the losses;
   `clippedHash` is the hash of the file that clipping would write.
   */
  datatype Request = Request(
    cellId: string,
    work: WorkId,
    generation: int,
    token: string,
    result: string,
    round: int,
    version: Field,
    minerId: string,
    schema: bool,
    identity: Check,
    shard: Field,
    content: Check,
    deltaHash: string,
    clippedHash: string,
    bytes: nat,
    samples: Field,
    tokens: Field,
    norm: real)

  function Outcome(c: Check): Option<Refusal> {
    match c
    case Passes => None
    case Fails(code) => Some(DeltaInvalid(code))
    case Raises(error) => Some(Uncaught(error))
  }

  /** The checks on the delta, in their order. The sample and token counts are read last, with no handler. */
  function JudgeDelta(cfg: Config, t: Training, r: Round, w: Work, req: Request): (v: Option<Refusal>)
    requires req.version.Number?
    ensures v.None? ==> req.result !in t.submissions && req.result != "" && req.version.value == r.baseVersion
  {
    if !req.schema then Some(DeltaInvalid("adapter_delta_schema_mismatch"))
    else if req.result == "" then Some(DeltaInvalid("result_id_missing"))
    else if req.result in t.submissions then Some(DeltaInvalid("duplicate_result"))
    else if !req.identity.Passes? then Outcome(req.identity)
    else if req.version.value != r.baseVersion then Some(DeltaInvalid("adapter_version_mismatch"))
    else
      match req.shard
      case Unreadable => Some(DeltaInvalid("dataset_shard_index_invalid"))
      case Infinite => Some(Uncaught("OverflowError"))
      case Number(shard) =>
        if shard != w.id.shard then Some(DeltaInvalid("dataset_shard_index_mismatch"))
        else if !req.content.Passes? then Outcome(req.content)
        else if req.bytes > cfg.maxDeltaBytes then Some(DeltaTooLarge)
        else if !req.samples.Number? || !req.tokens.Number? then Some(Uncaught("ValueError or OverflowError"))
        else None
  }

  datatype SubmitVerdict = Refuse(code: Refusal) | Admit(work: nat)

  function JudgeSubmission(cfg: Config, t: Training, req: Request, now: real): (v: SubmitVerdict)
    ensures v.Admit? ==>
              && JudgeLease(t, req.work, req.generation, cfg.cellHash(req.cellId), req.token).None?
              && v.work == FindWork(CurrentRound(t).works, req.work).value
              && CurrentRound(t).works[v.work].expiresAt > now
              && req.result !in t.submissions && req.result != ""
              && cfg.cellHash(req.cellId) !in CurrentRound(t).cells
              && req.version == Number(CurrentRound(t).baseVersion) && req.round == CurrentRound(t).index
  {
    var cell := cfg.cellHash(req.cellId);
    if req.version.Infinite? then Refuse(Uncaught("OverflowError"))
    else if req.version.Unreadable? || req.version.value < t.version then Refuse(StaleAdapterVersion)
    else if !HasCurrent(t) then Refuse(RoundClosed)
    else
      var r := CurrentRound(t);
      if req.round != r.index then Refuse(RoundFork)
      else
        var lease := JudgeLease(t, req.work, req.generation, cell, req.token);
        if lease.Some? then Refuse(lease.value)
        else
          var j := FindWork(r.works, req.work).value;
          if r.works[j].expiresAt <= now then Refuse(LeaseExpired)
          else if req.minerId != req.cellId then Refuse(CellIdentityMismatch)
          else if cell in r.cells then Refuse(DistinctCellViolation)
          else
            var delta := JudgeDelta(cfg, t, r, r.works[j], req);
            if delta.Some? then Refuse(delta.value) else Admit(j)
  }

  /** The norm left after scaling a delta down to the clip norm. */
  function ClippedNorm(norm: real, clip: real): real {
    if norm > clip then norm * (clip / (if norm > 0.000000000001 then norm else 0.000000000001)) else norm
  }

  function Record(cfg: Config, t: Training, req: Request, now: real): Submission
    requires HasCurrent(t)
  {
    var clipped := req.norm > cfg.clipNorm;
    Submission(CurrentRound(t).index, req.work, cfg.cellHash(req.cellId), req.deltaHash,
               if clipped then req.clippedHash else req.deltaHash, req.bytes,
               req.norm, ClippedNorm(req.norm, cfg.clipNorm), clipped, now, false, 0)
  }

  function AcceptTraining(cfg: Config, t: Training, j: nat, req: Request, now: real): Training
    requires HasCurrent(t) && j < |CurrentRound(t).works|
  {
    var r := CurrentRound(t);
    var w := r.works[j].(status := Accepted, result := req.result, token := "");
    PutRound(t, r.(works := r.works[j := w],
                   results := r.results + [req.result],
                   cells := r.cells + [cfg.cellHash(req.cellId)])).(
      submissions := t.submissions[req.result := Record(cfg, t, req, now)],
      accepted := t.accepted + 1,
      uploadedBytes := t.uploadedBytes + req.bytes)
  }

  /** Distinct cells behind a list of accepted results. */
  function CellsBehind(t: Training, results: seq<string>): set<string> {
    set k | 0 <= k < |results| && results[k] in t.submissions :: t.submissions[results[k]].cell
  }

  /** Hash of the file that was kept for an accepted result. */
  function AcceptedHash(t: Training, result: string): string {
    if result in t.submissions then t.submissions[result].acceptedHash else ""
  }

  function CompleteRound(cfg: Config, t: Training, outputHash: Digest, now: real): Training
    requires HasCurrent(t) && |CurrentRound(t).results| >= cfg.quorum
  {
    var r := CurrentRound(t);
    var inputs := r.results[..cfg.quorum];
    var record := Aggregation(
      inputs, seq(cfg.quorum, k requires 0 <= k < cfg.quorum => AcceptedHash(t, inputs[k])),
      |inputs|, |CellsBehind(t, inputs)|, t.version + 1, outputHash, now);
    PutRound(t, r.(active := false, aggregation := Some(record))).(
      version := t.version + 1,
      outerStep := t.outerStep + 1,
      currentHash := outputHash)
  }

  function AfterRound(cfg: Config, t: Training, now: real): Training {
    if t.version >= cfg.target then t.(complete := true) else StartRound(cfg, t, now)
  }

  /** `none` is the aggregation error for a quorum that is not cell-distinct. */
  function Aggregate(cfg: Config, s: System, outputHash: Digest, now: real): Option<System>
    requires HasCurrent(s.state.training) && |CurrentRound(s.state.training).results| >= cfg.quorum
  {
    var t := s.state.training;
    var r := CurrentRound(t);
    if |CellsBehind(t, r.results[..cfg.quorum])| != cfg.quorum then None
    else
      var done := CompleteRound(cfg, t, outputHash, now);
      var logged := Log(cfg, With(s, done), RoundAggregated(r.index, done.version, outputHash), now);
      var after := AfterRound(cfg, done, now);
      Some(Log(cfg, With(logged, after),
               if after.complete then TargetReached(done.version) else RoundStarted(|done.rounds|, outputHash), now))
  }

  function Stamp(t: Training, result: string, aggregated: bool): Training
    requires result in t.submissions
  {
    var stamped := t.submissions[result].(aggregated := aggregated, versionAfter := t.version);
    t.(submissions := t.submissions[result := stamped])
  }

  // ---- Operations

  datatype Op =
    | Claim(cellId: string, token: string)
    | Heartbeat(hbCellId: string, work: WorkId, generation: int, lease: string)
    | Submit(request: Request, outputHash: Digest)
    | ExpireLeases
    | SetLifecycle(pause: bool)
    | Finalize(evaluated: bool, allowIncomplete: bool)
    | Recover(filesIntact: bool)
    | Administer(whats: seq<string>)

  datatype Receipt = Receipt(
    result: string,
    round: nat,
    aggregated: bool,
    versionAfter: nat,
    acceptedAt: real,
    clipped: bool,
    normBefore: real,
    normAfter: real)

  datatype Reply =
    | Unauthorized
    | ClaimReply(verdict: ClaimVerdict, granted: Option<Work>)
    | Renewed(until: real)
    | Refused(code: Refusal)
    | Escaped(error: string)
    | Taken(receipt: Receipt, replay: bool)
    | Done
    | Failed(reason: string)

  function ReceiptOf(result: string, sub: Submission): Receipt {
    Receipt(result, sub.round, sub.aggregated, sub.versionAfter, sub.acceptedAt, sub.clipped, sub.normBefore,
      sub.normAfter)
  }

  function ClaimStep(cfg: Config, s: System, cellId: string, token: string, now: real): (System, Reply) {
    var cell := cfg.cellHash(cellId);
    var swept := Sweep(cfg, s, now);
    var t := swept.state.training;
    var verdict := JudgeClaim(cfg, t, cell);
    match verdict
    case Grant(j) =>
      var w := CurrentRound(t).works[j];
      var next := GrantTraining(cfg, t, j, cell, token, now);
      (Log(cfg, With(swept, next),
           WorkLeased(CurrentRound(t).index, w.id, cell, w.generation + 1, w.generation > 0), now),
       ClaimReply(verdict, Some(Granted(cfg, w, cell, token, now))))
    case AlreadyHolds(j) => (swept, ClaimReply(verdict, Some(CurrentRound(t).works[j])))
    case _ => (swept, ClaimReply(verdict, None))
  }

  function ReplyTo(code: Refusal): Reply {
    if code.Uncaught? then Escaped(code.error) else Refused(code)
  }

  /** A refused heartbeat raises before the state is saved; what it appended stays in the ledger file. */
  function HeartbeatStep(
    cfg: Config, s: System, cellId: string, id: WorkId, generation: int, token: string, now: real): (System, Reply)
  {
    var cell := cfg.cellHash(cellId);
    var swept := Sweep(cfg, s, now);
    var t := swept.state.training;
    var refusal := JudgeLease(t, id, generation, cell, token);
    if refusal.Some? then (System(s.state, swept.ledger), ReplyTo(refusal.value))
    else
      var j := FindWork(CurrentRound(t).works, id).value;
      var w := CurrentRound(t).works[j].(expiresAt := now + cfg.leaseSeconds);
      (Log(cfg, With(swept, PutWork(t, j, w)), LeaseRenewed(CurrentRound(t).index, id, cell, w.generation), now),
       Renewed(w.expiresAt))
  }

  function Reject(cfg: Config, s: System, code: Refusal, cell: string, now: real): (System, Reply) {
    var t := s.state.training;
    (Log(cfg, With(s, t.(rejected := t.rejected + 1)), UpdateRejected(code, cell), now), Refused(code))
  }

  function AcceptStep(cfg: Config, s: System, j: nat, req: Request, outputHash: Digest, now: real): (System, Reply)
    requires HasCurrent(s.state.training) && j < |CurrentRound(s.state.training).works|
  {
    var t := AcceptTraining(cfg, s.state.training, j, req, now);
    var logged := Log(cfg, With(s, t),
      UpdateAccepted(CurrentRound(t).index, req.work, cfg.cellHash(req.cellId), req.result), now);
    if |CurrentRound(t).results| < cfg.quorum then
      var stamped := Stamp(t, req.result, false);
      (With(logged, stamped), Taken(ReceiptOf(req.result, stamped.submissions[req.result]), false))
    else
      var aggregated := Aggregate(cfg, logged, outputHash, now);
      if aggregated.None? then (logged, Failed("quorum is not cell-distinct"))
      else
        var stamped := Stamp(aggregated.value.state.training, req.result, true);
        (With(aggregated.value, stamped), Taken(ReceiptOf(req.result, stamped.submissions[req.result]), false))
  }

  /** A refusal is logged and saved; an exception leaves before the state is saved. */
  function SubmitStep(cfg: Config, s: System, req: Request, outputHash: Digest, now: real): (System, Reply) {
    var cell := cfg.cellHash(req.cellId);
    if req.result in s.state.training.submissions then
      var sub := s.state.training.submissions[req.result];
      if sub.deltaHash == req.deltaHash && sub.cell == cell && sub.work == req.work then
        (s, Taken(ReceiptOf(req.result, sub), true))
      else Reject(cfg, s, ResultIdCollision, cell, now)
    else
      var swept := Sweep(cfg, s, now);
      match JudgeSubmission(cfg, swept.state.training, req, now)
      case Refuse(code) =>
        if code.Uncaught? then (System(s.state, swept.ledger), Escaped(code.error))
        else Reject(cfg, swept, code, cell, now)
      case Admit(j) =>
        var (after, reply) := AcceptStep(cfg, swept, j, req, outputHash, now);
        if reply.Failed? then (System(s.state, after.ledger), reply) else (after, reply)
  }

  ghost predicate LedgerOk(cfg: Config, s: System) {
    Verifies(cfg.eventHash, s.ledger, s.state.head, s.state.sequence)
  }

  /** Operations outside training: their events, and no change of the training state. */
  function LogEach(cfg: Config, s: System, whats: seq<string>, now: real): System {
    if whats == [] then s
    else Log(cfg, LogEach(cfg, s, whats[..|whats| - 1], now), Administered(whats[|whats| - 1]), now)
  }

  ghost function Step(cfg: Config, s: System, op: Op, authorized: bool, now: real): (System, Reply) {
    var t := s.state.training;
    if !authorized && !op.Recover? then (s, Unauthorized)
    else
      match op
      case Claim(cellId, token) => ClaimStep(cfg, s, cellId, token, now)
      case Heartbeat(cellId, work, generation, lease) => HeartbeatStep(cfg, s, cellId, work, generation, lease, now)
      case Submit(request, outputHash) => SubmitStep(cfg, s, request, outputHash, now)
      case ExpireLeases => (Sweep(cfg, s, now), Done)
      case SetLifecycle(pause) =>
        var target := if pause then Paused else Running;
        if t.lifecycle == Finalized then (s, Failed("already finalized"))
        else if t.lifecycle == target then (s, Done)
        else (Log(cfg, With(s, t.(lifecycle := target)), LifecycleChanged(target), now), Done)
      case Finalize(evaluated, allowIncomplete) =>
        if !t.complete && !allowIncomplete then (s, Failed("target rounds incomplete"))
        else if !evaluated then (s, Failed("evaluation changed during finalize"))
        else (Log(cfg, With(s, t.(lifecycle := Finalized)), CampaignFinalized(t.version), now), Done)
      case Recover(filesIntact) =>
        if !LedgerOk(cfg, s) then (s, Failed("ledger invalid"))
        else if !filesIntact then (s, Failed("artifacts invalid"))
        else (Log(cfg, With(s, t.(recoveries := t.recoveries + 1)), Recovered(t.recoveries + 1), now), Done)
      case Administer(whats) => (LogEach(cfg, s, whats, now), Done)
  }
}
