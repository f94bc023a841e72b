/** What admission control guarantees over every run, under a fixed policy and a nondecreasing clock. */
module AdmissionRuns {
  import opened MapSums
  import opened Admission
  import opened Wrappers

  datatype Op =
    | Issue(id: string, cell: string, scopes: set<string>, ttl: int)
    | Revoke(id: string)
    | Authorize(request: Request)

  datatype Event = Event(op: Op, now: real)

  ghost function StepOf(p: Policy, s: State, e: Event): (State, Verdict) {
    match e.op
    case Issue(id, cell, scopes, ttl) => IssueStep(p, s, id, cell, scopes, ttl, e.now)
    case Revoke(id) => RevokeStep(s, id)
    case Authorize(request) => AuthorizeStep(p, s, request, e.now)
  }

  ghost function Run(p: Policy, events: seq<Event>): State {
    if events == [] then EMPTY
    else StepOf(p, Run(p, events[..|events| - 1]), events[|events| - 1]).0
  }

  /** The clock never goes back, and a credential is issued under a new token. */
  ghost predicate Proper(p: Policy, events: seq<Event>) {
    events == [] ||
    var k := |events| - 1;
    && Proper(p, events[..k])
    && (k > 0 ==> events[k - 1].now <= events[k].now)
    && (events[k].op.Issue? ==> events[k].op.id !in Run(p, events[..k]).records)
  }

  /** The clock reading of the last event. */
  function Last(events: seq<Event>): real
    requires events != []
  {
    events[|events| - 1].now
  }

  datatype Grant = Grant(id: string, nonce: string, at: real, bytes: int, submission: bool)

  ghost predicate Grants(p: Policy, s: State, e: Event) {
    e.op.Authorize? && StepOf(p, s, e).1.Granted?
  }

  function GrantOf(r: Request, now: real): Grant { Grant(r.id, r.nonce, now, r.bytes, r.submission) }

  /** Every authorization granted in a run, in order. */
  ghost function Log(p: Policy, events: seq<Event>): seq<Grant> {
    if events == [] then []
    else
      var k := |events| - 1;
      var e := events[k];
      Log(p, events[..k]) + (if Grants(p, Run(p, events[..k]), e) then [GrantOf(e.op.request, e.now)] else [])
  }

  // ---- One authorization

  lemma GrantedEffect(p: Policy, s: State, r: Request, now: real)
    requires AuthorizeStep(p, s, r, now).1.Granted?
    ensures r.id in s.records
    ensures var t, w := AuthorizeStep(p, s, r, now).0, WindowAt(p, s.windows, r.id, now);
            && Key(r.id, r.nonce) !in Remembered(s.replay, now)
            && t.replay == Remembered(s.replay, now)[Key(r.id, r.nonce) := now + p.replayTtl]
            && t.records == s.records[r.id := Charged(s.records[r.id], r)]
            && t.windows == s.windows[r.id := w.(requests := w.requests + 1, bytes := w.bytes + r.bytes)]
            && MeterOf(p, s.records[r.id], w, r).Free?
            && t.counters.authentications == s.counters.authentications + 1
  {
  }

  lemma DeniedMeter(p: Policy, s: State, r: Request, now: real)
    requires r.id in s.records && !MeterStep(p, s, r, now).1.Granted?
    ensures var t := MeterStep(p, s, r, now).0;
            && t.records == s.records && t.counters.authentications == s.counters.authentications
               && t.replay == s.replay
            && t.windows == s.windows[r.id := WindowAt(p, s.windows, r.id, now)]
  {
  }

  lemma DeniedEffect(p: Policy, s: State, r: Request, now: real)
    requires !AuthorizeStep(p, s, r, now).1.Granted?
    ensures var t := AuthorizeStep(p, s, r, now).0;
            && t.records == s.records && t.counters.authentications == s.counters.authentications
            && (t.replay == s.replay || t.replay == Remembered(s.replay, now))
            && (t.windows == s.windows || t.windows == s.windows[r.id := WindowAt(p, s.windows, r.id, now)])
  {
    if CredentialRefusal(s, r, now).None? {
      var pruned := s.(replay := Remembered(s.replay, now));
      if !MeterStep(p, pruned, r, now).1.Granted? {
        DeniedMeter(p, pruned, r, now);
      }
    }
  }

  // ---- Replay memory

  /** A grant is either old enough to be forgotten, or its key is still remembered long enough. */
  ghost predicate Remembers(p: Policy, s: State, g: Grant, now: real) {
    && g.at <= now
    && (g.at + p.replayTtl <= now
        || (Key(g.id, g.nonce) in s.replay && s.replay[Key(g.id, g.nonce)] >= g.at + p.replayTtl))
  }

  ghost predicate RemembersAll(p: Policy, s: State, log: seq<Grant>, now: real) {
    forall i :: 0 <= i < |log| ==> Remembers(p, s, log[i], now)
  }

  lemma StepRemembers(p: Policy, s: State, e: Event, g: Grant, before: real)
    requires Remembers(p, s, g, before) && before <= e.now
    ensures Remembers(p, StepOf(p, s, e).0, g, e.now)
    ensures Grants(p, s, e) && g.id == e.op.request.id && g.nonce == e.op.request.nonce ==> e.now >= g.at + p.replayTtl
  {
    if e.op.Authorize? {
      if Grants(p, s, e) {
        GrantedEffect(p, s, e.op.request, e.now);
      } else {
        DeniedEffect(p, s, e.op.request, e.now);
      }
    }
  }

  lemma {:induction false} RunRemembers(p: Policy, events: seq<Event>)
    requires ValidPolicy(p) && Proper(p, events) && events != []
    ensures RemembersAll(p, Run(p, events), Log(p, events), Last(events))
  {
    var k := |events| - 1;
    var s, e := Run(p, events[..k]), events[k];
    if k > 0 {
      RunRemembers(p, events[..k]);
      forall i | 0 <= i < |Log(p, events[..k])| ensures Remembers(p, Run(p, events), Log(p, events[..k])[i], e.now) {
        StepRemembers(p, s, e, Log(p, events[..k])[i], Last(events[..k]));
      }
    }
    if Grants(p, s, e) {
      GrantedEffect(p, s, e.op.request, e.now);
    }
  }

  /** Two grants of the same credential and nonce are at least the replay time apart. */
  lemma {:induction false} ReplaysAreApart(p: Policy, events: seq<Event>, i: nat, j: nat)
    requires ValidPolicy(p) && Proper(p, events) && i < j < |Log(p, events)|
    requires Log(p, events)[i].id == Log(p, events)[j].id && Log(p, events)[i].nonce == Log(p, events)[j].nonce
    ensures Log(p, events)[j].at >= Log(p, events)[i].at + p.replayTtl
  {
    var k := |events| - 1;
    var before := Log(p, events[..k]);
    if j < |before| {
      ReplaysAreApart(p, events[..k], i, j);
    } else {
      RunRemembers(p, events[..k]);
      StepRemembers(p, Run(p, events[..k]), events[k], before[i], Last(events[..k]));
    }
  }

  // ---- Lifetime quotas and accounting

  function RequestsOf(log: seq<Grant>, id: string): nat {
    if log == [] then 0 else RequestsOf(log[..|log| - 1], id) + (if log[|log| - 1].id == id then 1 else 0)
  }

  function BytesOf(log: seq<Grant>, id: string): int {
    if log == [] then 0
    else BytesOf(log[..|log| - 1], id) + (if log[|log| - 1].id == id then log[|log| - 1].bytes else 0)
  }

  function SubmissionsOf(log: seq<Grant>, id: string): nat {
    if log == [] then 0
    else SubmissionsOf(log[..|log| - 1], id) + (if log[|log| - 1].id == id && log[|log| - 1].submission then 1 else 0)
  }

  lemma OneMoreGrant(log: seq<Grant>, g: Grant, id: string)
    ensures RequestsOf(log + [g], id) == RequestsOf(log, id) + (if g.id == id then 1 else 0)
    ensures BytesOf(log + [g], id) == BytesOf(log, id) + (if g.id == id then g.bytes else 0)
    ensures SubmissionsOf(log + [g], id) == SubmissionsOf(log, id) + (if g.id == id && g.submission then 1 else 0)
  {
    assert (log + [g])[..|log|] == log;
  }

  /** A credential's counters are what was granted to it, and within its quotas. */
  ghost predicate Tallied(p: Policy, s: State, log: seq<Grant>, id: string) {
    if id in s.records then
      && s.records[id].requests == RequestsOf(log, id)
      && s.records[id].bytes == BytesOf(log, id) <= p.maxUploadPerCredential
      && s.records[id].submissions == SubmissionsOf(log, id) <= p.maxSubmissionsPerCredential
    else RequestsOf(log, id) == BytesOf(log, id) == SubmissionsOf(log, id) == 0
  }

  lemma StepTallies(p: Policy, s: State, log: seq<Grant>, e: Event, id: string)
    requires ValidPolicy(p) && Tallied(p, s, log, id)
    requires e.op.Issue? ==> e.op.id !in s.records
    ensures Tallied(p, StepOf(p, s, e).0, log + (if Grants(p, s, e) then [GrantOf(e.op.request, e.now)] else []), id)
  {
    if Grants(p, s, e) {
      GrantedEffect(p, s, e.op.request, e.now);
      OneMoreGrant(log, GrantOf(e.op.request, e.now), id);
    } else {
      assert log + [] == log;
      if e.op.Authorize? {
        DeniedEffect(p, s, e.op.request, e.now);
      }
    }
  }

  /** Lifetime upload and submission quotas are never exceeded. */
  lemma {:induction false} QuotasAreKept(p: Policy, events: seq<Event>, id: string)
    requires ValidPolicy(p) && Proper(p, events)
    ensures Tallied(p, Run(p, events), Log(p, events), id)
    ensures BytesOf(Log(p, events), id) <= p.maxUploadPerCredential
    ensures SubmissionsOf(Log(p, events), id) <= p.maxSubmissionsPerCredential
  {
    if events != [] {
      var k := |events| - 1;
      QuotasAreKept(p, events[..k], id);
      StepTallies(p, Run(p, events[..k]), Log(p, events[..k]), events[k], id);
    }
  }

  function Requests(records: map<string, Record>): map<string, int> {
    map id | id in records :: records[id].requests
  }

  lemma RecordChanged(records: map<string, Record>, id: string, r: Record)
    ensures Sum(Requests(records[id := r]))
         == Sum(Requests(records)) + r.requests - (if id in records then records[id].requests else 0)
  {
    assert Requests(records[id := r]) == Requests(records)[id := r.requests];
    SumPut(Requests(records), id, r.requests);
  }

  lemma AuthorizeAccounts(p: Policy, s: State, r: Request, now: real)
    ensures var (t, v) := AuthorizeStep(p, s, r, now); var granted := if v.Granted? then 1 else 0;
            && t.counters.authentications == s.counters.authentications + granted
            && Sum(Requests(t.records)) == Sum(Requests(s.records)) + granted
  {
    if AuthorizeStep(p, s, r, now).1.Granted? {
      GrantedEffect(p, s, r, now);
      RecordChanged(s.records, r.id, Charged(s.records[r.id], r));
    } else {
      DeniedEffect(p, s, r, now);
    }
  }

  lemma RegisterAccounts(p: Policy, s: State, e: Event)
    requires !e.op.Authorize? && (e.op.Issue? ==> e.op.id !in s.records)
    ensures var t := StepOf(p, s, e).0;
            t.counters.authentications == s.counters.authentications
              && Sum(Requests(t.records)) == Sum(Requests(s.records))
  {
    var t := StepOf(p, s, e).0;
    if t.records != s.records {
      RecordChanged(s.records, e.op.id, t.records[e.op.id]);
    }
  }

  lemma StepAccounts(p: Policy, s: State, e: Event)
    requires e.op.Issue? ==> e.op.id !in s.records
    ensures var t, granted := StepOf(p, s, e).0, if Grants(p, s, e) then 1 else 0;
            && t.counters.authentications == s.counters.authentications + granted
            && Sum(Requests(t.records)) == Sum(Requests(s.records)) + granted
  {
    if e.op.Authorize? {
      AuthorizeAccounts(p, s, e.op.request, e.now);
    } else {
      RegisterAccounts(p, s, e);
    }
  }

  /** The authentication counter is the number of grants and the sum of all request counts. */
  lemma {:induction false} AuthenticationsAddUp(p: Policy, events: seq<Event>)
    requires Proper(p, events)
    ensures Run(p, events).counters.authentications == |Log(p, events)| == Sum(Requests(Run(p, events).records))
  {
    if events == [] {
      assert Requests(map[]) == map[];
    } else {
      var k := |events| - 1;
      AuthenticationsAddUp(p, events[..k]);
      StepAccounts(p, Run(p, events[..k]), events[k]);
    }
  }

  // ---- Active credentials

  lemma SubsetSize<T>(a: set<T>, b: set<T>)
    requires a <= b
    ensures |a| <= |b|
  {
    assert b == a + (b - a);
  }

  /** From `now` on there are never more active credentials than the policy allows. */
  ghost predicate WithinCapacity(p: Policy, records: map<string, Record>, now: real) {
    && (forall t :: now <= t ==> |ActiveIds(records, t)| <= p.maxActive)
    && (forall cell, t :: now <= t ==> |ActiveIdsOf(records, cell, t)| <= p.maxActivePerCell)
  }

  lemma FewerLater(a: map<string, Record>, b: map<string, Record>, now: real, t: real, cell: string)
    requires now <= t
    requires forall id ::
               id in b ==>
                 && id in a && b[id].cell == a[id].cell && b[id].expiresAt == a[id].expiresAt
                 && (a[id].revoked ==> b[id].revoked)
    ensures |ActiveIds(b, t)| <= |ActiveIds(a, now)| && |ActiveIdsOf(b, cell, t)| <= |ActiveIdsOf(a, cell, now)|
  {
    SubsetSize(ActiveIds(b, t), ActiveIds(a, now));
    SubsetSize(ActiveIdsOf(b, cell, t), ActiveIdsOf(a, cell, now));
  }

  lemma OneMoreActive(a: map<string, Record>, id: string, r: Record, now: real, t: real, cell: string)
    requires now <= t && id !in a
    ensures |ActiveIds(a[id := r], t)| <= |ActiveIds(a, now)| + 1
    ensures |ActiveIdsOf(a[id := r], cell, t)| <= |ActiveIdsOf(a, cell, now)| + (if cell == r.cell then 1 else 0)
  {
    SubsetSize(ActiveIds(a[id := r], t), ActiveIds(a, now) + {id});
    SubsetSize(ActiveIdsOf(a[id := r], cell, t), ActiveIdsOf(a, cell, now) + (if cell == r.cell then {id} else {}));
  }

  lemma StepCapacityAt(p: Policy, s: State, e: Event, cell: string, at: real)
    requires WithinCapacity(p, s.records, e.now) && e.now <= at
    requires e.op.Issue? ==> e.op.id !in s.records
    ensures var t := StepOf(p, s, e).0;
            |ActiveIds(t.records, at)| <= p.maxActive && |ActiveIdsOf(t.records, cell, at)| <= p.maxActivePerCell
  {
    var t := StepOf(p, s, e).0;
    match e.op {
      case Issue(id, c, scopes, ttl) =>
        if t.records != s.records {
          OneMoreActive(s.records, id, t.records[id], e.now, at, cell);
        }
      case Revoke(id) => FewerLater(s.records, t.records, e.now, at, cell);
      case Authorize(r) =>
        if Grants(p, s, e) {
          GrantedEffect(p, s, r, e.now);
        } else {
          DeniedEffect(p, s, r, e.now);
        }
        FewerLater(s.records, t.records, e.now, at, cell);
    }
  }

  lemma StepCapacity(p: Policy, s: State, e: Event)
    requires WithinCapacity(p, s.records, e.now)
    requires e.op.Issue? ==> e.op.id !in s.records
    ensures WithinCapacity(p, StepOf(p, s, e).0.records, e.now)
  {
    var t := StepOf(p, s, e).0;
    forall at | e.now <= at ensures |ActiveIds(t.records, at)| <= p.maxActive {
      StepCapacityAt(p, s, e, "", at);
    }
    forall cell, at | e.now <= at ensures |ActiveIdsOf(t.records, cell, at)| <= p.maxActivePerCell {
      StepCapacityAt(p, s, e, cell, at);
    }
  }

  /** In every run, in total and for every cell. */
  lemma {:induction false} CapacityIsKept(p: Policy, events: seq<Event>)
    requires ValidPolicy(p) && Proper(p, events) && events != []
    ensures WithinCapacity(p, Run(p, events).records, Last(events))
  {
    var k := |events| - 1;
    if k > 0 {
      CapacityIsKept(p, events[..k]);
    } else {
      assert Run(p, events[..k]) == EMPTY;
      forall cell, t ensures ActiveIds(EMPTY.records, t) == {} == ActiveIdsOf(EMPTY.records, cell, t) {
      }
    }
    StepCapacity(p, Run(p, events[..k]), events[k]);
  }

  // ---- The request window

  /** Times of the grants to one credential: in its current window, in the one before, and earlier. */
  datatype Trace = Trace(older: seq<real>, previous: seq<real>, current: seq<real>)

  function Times(t: Trace): seq<real> { t.older + t.previous + t.current }

  function TimesOf(log: seq<Grant>, id: string): seq<real> {
    if log == [] then []
    else TimesOf(log[..|log| - 1], id) + (if log[|log| - 1].id == id then [log[|log| - 1].at] else [])
  }

  function CountIn(times: seq<real>, from_: real, until: real): nat {
    if times == [] then 0
    else CountIn(times[..|times| - 1], from_, until) + (if from_ <= times[|times| - 1] < until then 1 else 0)
  }

  lemma {:induction false} CountConcat(a: seq<real>, b: seq<real>, from_: real, until: real)
    ensures CountIn(a + b, from_, until) == CountIn(a, from_, until) + CountIn(b, from_, until)
  {
    if b == [] {
      assert a + b == a;
    } else {
      CountConcat(a, b[..|b| - 1], from_, until);
      assert (a + b)[..|a + b| - 1] == a + b[..|b| - 1];
    }
  }

  lemma {:induction false} CountAtMost(times: seq<real>, from_: real, until: real)
    ensures CountIn(times, from_, until) <= |times|
  {
    if times != [] {
      CountAtMost(times[..|times| - 1], from_, until);
    }
  }

  lemma {:induction false} NoneBefore(times: seq<real>, from_: real, until: real)
    requires forall i :: 0 <= i < |times| ==> times[i] < from_
    ensures CountIn(times, from_, until) == 0
  {
    if times != [] {
      NoneBefore(times[..|times| - 1], from_, until);
    }
  }

  ghost predicate AllUpTo(times: seq<real>, bound: real) {
    forall i :: 0 <= i < |times| ==> times[i] <= bound
  }

  function WindowOf(windows: map<string, Window>, id: string): Option<Window> {
    if id in windows then Some(windows[id]) else None
  }

  /** How the trace of a credential relates to its window. */
  ghost predicate Traced(p: Policy, window: Option<Window>, t: Trace, now: real) {
    match window
    case None => t == Trace([], [], [])
    case Some(w) =>
      && |t.current| == w.requests <= p.maxRequestsPerWindow && |t.previous| <= p.maxRequestsPerWindow
      && AllUpTo(t.older, w.startedAt - p.windowSeconds) && AllUpTo(t.previous, w.startedAt) && AllUpTo(t.current, now)
      && w.startedAt <= now
  }

  /** The trace once the window was opened or rolled over at `now`. */
  function Rolled(p: Policy, window: Option<Window>, t: Trace, now: real): Trace {
    if window.Some? && now - window.value.startedAt >= p.windowSeconds
    then Trace(t.older + t.previous, t.current, [])
    else t
  }

  lemma RollKeepsTrace(p: Policy, windows: map<string, Window>, id: string, t: Trace, before: real, now: real)
    requires ValidPolicy(p) && Traced(p, WindowOf(windows, id), t, before) && before <= now
    ensures Traced(p, Some(WindowAt(p, windows, id, now)), Rolled(p, WindowOf(windows, id), t, now), now)
    ensures Times(Rolled(p, WindowOf(windows, id), t, now)) == Times(t)
  {
  }

  ghost predicate SparseFrom(p: Policy, times: seq<real>, from_: real) {
    CountIn(times, from_, from_ + p.windowSeconds) <= 2 * p.maxRequestsPerWindow
  }

  /** At most twice the limit in one window length from any instant on. */
  ghost predicate Sparse(p: Policy, times: seq<real>) {
    forall from_ :: SparseFrom(p, times, from_)
  }

  lemma OneMoreInWindow(p: Policy, w: Window, t: Trace, now: real, from_: real)
    requires AllUpTo(t.older, w.startedAt - p.windowSeconds) && w.startedAt <= now
    requires |t.previous| <= p.maxRequestsPerWindow && |t.current| < p.maxRequestsPerWindow
    requires SparseFrom(p, Times(t), from_)
    ensures SparseFrom(p, Times(t) + [now], from_)
  {
    var until := from_ + p.windowSeconds;
    CountConcat(Times(t), [now], from_, until);
    CountAtMost([now], from_, until);
    if from_ <= now < until {
      NoneBefore(t.older, from_, until);
      CountConcat(t.older + t.previous, t.current, from_, until);
      CountConcat(t.older, t.previous, from_, until);
      CountAtMost(t.previous, from_, until);
      CountAtMost(t.current, from_, until);
    } else {
      assert [now][..0] == [];
    }
  }

  lemma OneMoreTime(log: seq<Grant>, g: Grant, id: string)
    ensures TimesOf(log + [g], id) == TimesOf(log, id) + (if g.id == id then [g.at] else [])
  {
    assert (log + [g])[..|log|] == log;
  }

  /** A grant at `now` joins the current window. */
  lemma GrantKeepsTrace(p: Policy, w: Window, t: Trace, now: real, bytes: int) returns (t': Trace)
    requires Traced(p, Some(w), t, now) && w.requests < p.maxRequestsPerWindow && Sparse(p, Times(t))
    ensures Times(t') == Times(t) + [now] && Sparse(p, Times(t'))
    ensures Traced(p, Some(Window(w.startedAt, w.requests + 1, bytes)), t', now)
  {
    t' := t.(current := t.current + [now]);
    assert Times(t') == Times(t) + [now];
    forall from_ ensures SparseFrom(p, Times(t) + [now], from_) {
      assert SparseFrom(p, Times(t), from_);
      OneMoreInWindow(p, w, t, now, from_);
    }
  }

  lemma TracedLater(p: Policy, window: Option<Window>, t: Trace, now: real, later: real)
    requires Traced(p, window, t, now) && now <= later
    ensures Traced(p, window, t, later)
  {
  }

  lemma GrantTraces(p: Policy, s: State, r: Request, now: real, id: string, t: Trace, before: real) returns (t': Trace)
    requires ValidPolicy(p) && Traced(p, WindowOf(s.windows, id), t, before) && before <= now && Sparse(p, Times(t))
    requires AuthorizeStep(p, s, r, now).1.Granted?
    ensures Traced(p, WindowOf(AuthorizeStep(p, s, r, now).0.windows, id), t', now) && Sparse(p, Times(t'))
    ensures Times(t') == Times(t) + (if r.id == id then [now] else [])
  {
    GrantedEffect(p, s, r, now);
    if r.id == id {
      var w := WindowAt(p, s.windows, id, now);
      RollKeepsTrace(p, s.windows, id, t, before, now);
      t' := GrantKeepsTrace(p, w, Rolled(p, WindowOf(s.windows, id), t, now), now, w.bytes + r.bytes);
    } else {
      t' := t;
      assert Times(t) + [] == Times(t);
      TracedLater(p, WindowOf(s.windows, id), t, before, now);
    }
  }

  lemma DenialTraces(p: Policy, s: State, r: Request, now: real, id: string, t: Trace, before: real) returns (t': Trace)
    requires ValidPolicy(p) && Traced(p, WindowOf(s.windows, id), t, before) && before <= now
    requires !AuthorizeStep(p, s, r, now).1.Granted?
    ensures Traced(p, WindowOf(AuthorizeStep(p, s, r, now).0.windows, id), t', now) && Times(t') == Times(t)
  {
    DeniedEffect(p, s, r, now);
    t' := t;
    TracedLater(p, WindowOf(s.windows, id), t, before, now);
    if r.id == id && AuthorizeStep(p, s, r, now).0.windows != s.windows {
      RollKeepsTrace(p, s.windows, id, t, before, now);
      t' := Rolled(p, WindowOf(s.windows, id), t, now);
    }
  }

  lemma StepTraces(
    p: Policy, s: State, e: Event, id: string, t: Trace, before: real, log: seq<Grant>) returns (t': Trace)
    requires ValidPolicy(p) && Traced(p, WindowOf(s.windows, id), t, before) && before <= e.now
    requires Sparse(p, Times(t)) && Times(t) == TimesOf(log, id)
    ensures Traced(p, WindowOf(StepOf(p, s, e).0.windows, id), t', e.now) && Sparse(p, Times(t'))
    ensures Times(t') == TimesOf(log + (if Grants(p, s, e) then [GrantOf(e.op.request, e.now)] else []), id)
  {
    assert log + [] == log;
    if Grants(p, s, e) {
      t' := GrantTraces(p, s, e.op.request, e.now, id, t, before);
      OneMoreTime(log, GrantOf(e.op.request, e.now), id);
    } else if e.op.Authorize? {
      t' := DenialTraces(p, s, e.op.request, e.now, id, t, before);
    } else {
      t' := t;
      TracedLater(p, WindowOf(s.windows, id), t, before, e.now);
    }
  }

  /** What a run leaves behind for one credential. */
  lemma {:induction false} RunTraces(p: Policy, events: seq<Event>, id: string) returns (t: Trace)
    requires ValidPolicy(p) && Proper(p, events)
    ensures Times(t) == TimesOf(Log(p, events), id) && Sparse(p, Times(t))
    ensures events == [] ==> t == Trace([], [], [])
    ensures events != [] ==> Traced(p, WindowOf(Run(p, events).windows, id), t, Last(events))
  {
    t := Trace([], [], []);
    if events == [] {
      forall from_ ensures SparseFrom(p, Times(t), from_) {
      }
    } else {
      var k := |events| - 1;
      t := RunTraces(p, events[..k], id);
      var before := if k == 0 then events[k].now else Last(events[..k]);
      t := StepTraces(p, Run(p, events[..k]), events[k], id, t, before, Log(p, events[..k]));
    }
  }

  /** In any half-open interval of one window length, a credential is granted at most twice the limit. */
  lemma AtMostTwiceTheLimit(p: Policy, events: seq<Event>, id: string, from_: real)
    requires ValidPolicy(p) && Proper(p, events)
    ensures CountIn(TimesOf(Log(p, events), id), from_, from_ + p.windowSeconds) <= 2 * p.maxRequestsPerWindow
  {
    var t := RunTraces(p, events, id);
    assert SparseFrom(p, Times(t), from_);
  }

  // ---- The factor two is real

  const NONCE := "nonce-0000-a"

  /** A policy with the given limit: a window of three times as many seconds, and one second of replay memory. */
  function TightPolicy(limit: nat): Policy {
    Policy((3 * limit) as real, limit, 1, 1, 1, 1.0, 1, 1, 1, 4 * limit)
  }

  function Ask(bytes: int): Op {
    Authorize(Request("c", "cell", "work:claim", NONCE, bytes, false, ""))
  }

  /** One grant a second, from two thirds of the first window on. */
  function GrantTime(limit: nat, i: nat): real { (2 * limit + i) as real }

  /** A request of too many bytes opens the window at 0 and is refused. */
  function Opening(limit: nat): seq<Event> {
    [Event(Issue("c", "cell", {"work:claim"}, 4 * limit), 0.0), Event(Ask(2), 0.0)]
  }

  function AskAt(limit: nat, n: nat): Event { Event(Ask(0), GrantTime(limit, n)) }

  /** The state after `n` grants. */
  function BurstState(limit: nat, n: nat): State {
    State(map["c" := Record("cell", {"work:claim"}, (4 * limit) as real, false, n, 0, 0)],
          map["c" := if n <= limit then Window(0.0, n, 0) else Window((3 * limit) as real, n - limit, 0)],
          if n == 0 then map[] else map[Key("c", NONCE) := GrantTime(limit, n)],
          Counters(n, 1, 0, 0, 0, 0, 1))
  }

  lemma OneMoreEvent(p: Policy, events: seq<Event>, e: Event)
    ensures Run(p, events + [e]) == StepOf(p, Run(p, events), e).0
    ensures Log(p, events + [e])
            == Log(p, events) + (if Grants(p, Run(p, events), e) then [GrantOf(e.op.request, e.now)] else [])
    ensures Proper(p, events) && (events != [] ==> Last(events) <= e.now)
            && (e.op.Issue? ==> e.op.id !in Run(p, events).records)
            ==> Proper(p, events + [e])
  {
    assert (events + [e])[..|events|] == events;
  }

  /** The grants of the first `n` requests. */
  function BurstLog(limit: nat, n: nat): seq<Grant> {
    if n == 0 then [] else BurstLog(limit, n - 1) + [Grant("c", NONCE, GrantTime(limit, n - 1), 0, false)]
  }

  ghost predicate BurstSoFar(limit: nat, n: nat, p: Policy, events: seq<Event>) {
    && Run(p, events) == BurstState(limit, n) && Log(p, events) == BurstLog(limit, n) && Proper(p, events)
    && events != [] && Last(events) <= GrantTime(limit, n)
  }

  lemma BurstOpens(limit: nat, p: Policy) returns (opening: seq<Event>)
    requires limit >= 1 && p == TightPolicy(limit)
    ensures BurstSoFar(limit, 0, p, opening)
  {
    opening := Opening(limit);
    var issue, ask := Opening(limit)[0], Opening(limit)[1];
    OneMoreEvent(p, [], issue);
    assert [] + [issue] == [issue];
    OneMoreEvent(p, [issue], ask);
    assert [issue] + [ask] == Opening(limit);
    assert Remembered(map[], 0.0) == map[];
  }

  /** The window has room, or is rolled over. */
  lemma BurstHasRoom(limit: nat, n: nat, now: real)
    requires 1 <= limit && n < 2 * limit && now == GrantTime(limit, n)
    ensures var s := BurstState(limit, n); var w := WindowAt(TightPolicy(limit), s.windows, "c", now);
            && w.requests < limit && w.bytes == 0
            && w.(requests := w.requests + 1) == BurstState(limit, n + 1).windows["c"]
  {
  }

  /** The nonce was just forgotten. */
  lemma BurstForgets(limit: nat, n: nat, now: real)
    requires now == GrantTime(limit, n)
    ensures Remembered(BurstState(limit, n).replay, now) == map[]
    ensures now + 1.0 == GrantTime(limit, n + 1)
  {
  }

  /** Each request is granted. */
  lemma BurstGoesOn(limit: nat, n: nat, p: Policy)
    requires 1 <= limit && n < 2 * limit && p == TightPolicy(limit)
    ensures Grants(p, BurstState(limit, n), AskAt(limit, n))
    ensures StepOf(p, BurstState(limit, n), AskAt(limit, n)).0 == BurstState(limit, n + 1)
  {
    var s, now, r := BurstState(limit, n), GrantTime(limit, n), Ask(0).request;
    assert s.records["c"].expiresAt > now;
    assert CredentialRefusal(s, r, now).None?;
    BurstForgets(limit, n, now);
    BurstHasRoom(limit, n, now);
    assert MeterOf(p, s.records["c"], WindowAt(p, s.windows, "c", now), r).Free?;
  }

  lemma BurstOneMore(limit: nat, n: nat, p: Policy, before: seq<Event>)
    requires 1 <= limit && n < 2 * limit && p == TightPolicy(limit) && BurstSoFar(limit, n, p, before)
    ensures BurstSoFar(limit, n + 1, p, before + [AskAt(limit, n)])
  {
    BurstGoesOn(limit, n, p);
    OneMoreEvent(p, before, AskAt(limit, n));
  }

  ghost predicate GoesOn<E>(soFar: (nat, seq<E>) -> bool, next: nat -> E, m: nat, n: nat, before: seq<E>) {
    n < m && soFar(n, before) ==> soFar(n + 1, before + [next(n)])
  }

  /** What holds at first and is kept by one more event can be had for any number of events. */
  lemma {:induction false} EventByEvent<E(!new)>(
    soFar: (nat, seq<E>) -> bool, opening: seq<E>, next: nat -> E, m: nat, n: nat) returns (events: seq<E>)
    requires soFar(0, opening) && n <= m && forall k, before :: GoesOn(soFar, next, m, k, before)
    ensures soFar(n, events)
  {
    if n == 0 {
      events := opening;
    } else {
      var before := EventByEvent(soFar, opening, next, m, n - 1);
      assert GoesOn(soFar, next, m, n - 1, before);
      events := before + [next(n - 1)];
    }
  }

  lemma {:induction false} BurstIsDense(limit: nat, n: nat)
    requires n <= 2 * limit
    ensures CountIn(TimesOf(BurstLog(limit, n), "c"), GrantTime(limit, 0), GrantTime(limit, 3 * limit)) == n
  {
    if n > 0 {
      var g := Grant("c", NONCE, GrantTime(limit, n - 1), 0, false);
      var times := TimesOf(BurstLog(limit, n - 1), "c");
      BurstIsDense(limit, n - 1);
      OneMoreTime(BurstLog(limit, n - 1), g, "c");
      assert (times + [g.at])[..|times|] == times;
    }
  }

  ghost function BurstsOf(limit: nat, p: Policy): (nat, seq<Event>) -> bool {
    (n: nat, before: seq<Event>) => BurstSoFar(limit, n, p, before)
  }

  function AsksAt(limit: nat): nat -> Event { (n: nat) => AskAt(limit, n) }

  lemma BurstExtends(limit: nat, p: Policy, m: nat, n: nat, before: seq<Event>)
    requires limit >= 1 && p == TightPolicy(limit) && m == 2 * limit
    ensures GoesOn(BurstsOf(limit, p), AsksAt(limit), m, n, before)
  {
    if n < m && BurstsOf(limit, p)(n, before) {
      BurstOneMore(limit, n, p, before);
    }
  }

  lemma BurstIsGranted(limit: nat, p: Policy, m: nat) returns (events: seq<Event>)
    requires limit >= 1 && p == TightPolicy(limit) && m == 2 * limit
    ensures BurstsOf(limit, p)(m, events)
  {
    var opening := BurstOpens(limit, p);
    forall n: nat, before ensures GoesOn(BurstsOf(limit, p), AsksAt(limit), m, n, before) {
      BurstExtends(limit, p, m, n, before);
    }
    events := EventByEvent(BurstsOf(limit, p), opening, AsksAt(limit), m, m);
  }

  lemma BurstReaches(limit: nat, p: Policy) returns (events: seq<Event>)
    requires limit >= 1 && p == TightPolicy(limit)
    ensures Proper(p, events)
    ensures CountIn(TimesOf(Log(p, events), "c"), GrantTime(limit, 0), GrantTime(limit, 3 * limit)) == 2 * limit
  {
    events := BurstIsGranted(limit, p, 2 * limit);
    BurstIsDense(limit, 2 * limit);
  }

  /** For every limit there are a policy and a run that reach twice the limit within one window length. */
  lemma TwiceTheLimitIsReached(limit: nat) returns (p: Policy, events: seq<Event>, from_: real)
    requires limit >= 1
    ensures ValidPolicy(p) && p.maxRequestsPerWindow == limit && Proper(p, events)
    ensures CountIn(TimesOf(Log(p, events), "c"), from_, from_ + p.windowSeconds) == 2 * limit
  {
    p, from_ := TightPolicy(limit), GrantTime(limit, 0);
    events := BurstReaches(limit, p);
    assert from_ + p.windowSeconds == GrantTime(limit, 3 * limit);
  }
}
