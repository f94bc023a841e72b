/**
 Admission control for cell credentials: issue, revoke and authorize, with a
 fixed request window per credential, replay memory and lifetime quotas.
 */
module Admission {
  import opened Wrappers

  datatype Policy = Policy(
    windowSeconds: real,
    maxRequestsPerWindow: nat,
    maxUploadPerWindow: int,
    maxUploadPerCredential: int,
    maxSubmissionsPerCredential: nat,
    replayTtl: real,
    maxReplayEntries: nat,
    maxActive: nat,
    maxActivePerCell: nat,
    maxTtlSeconds: int)

  /** Policy values are at least one. */
  predicate ValidPolicy(p: Policy) {
    && p.windowSeconds >= 1.0 && p.maxRequestsPerWindow >= 1 && p.maxUploadPerWindow >= 1
    && p.maxUploadPerCredential >= 1 && p.maxSubmissionsPerCredential >= 1 && p.replayTtl >= 1.0
    && p.maxReplayEntries >= 1 && p.maxActive >= 1 && p.maxActivePerCell >= 1 && p.maxTtlSeconds >= 1
  }

  const CELL_SCOPES: set<string> := {
    "artifact:read", "upload:read", "upload:write", "work:claim", "work:heartbeat", "work:submit",
    "browser:claim", "browser:heartbeat", "browser:submit"
  }

  datatype Record = Record(
    cell: string,
    scopes: set<string>,
    expiresAt: real,
    revoked: bool,
    requests: nat,
    bytes: int,
    submissions: nat)

  datatype Window = Window(startedAt: real, requests: nat, bytes: int)

  /** What the replay memory is keyed by. */
  datatype Key = Key(id: string, nonce: string)

  datatype Counters = Counters(
    authentications: nat,
    issued: nat,
    revocations: nat,
    scopeRejections: nat,
    replayRejections: nat,
    quotaRejections: nat,
    rateRejections: nat)

  /** Credentials are identified by the hash of their token. */
  datatype State = State(
    records: map<string, Record>,
    windows: map<string, Window>,
    replay: map<Key, real>,
    counters: Counters)

  const EMPTY := State(map[], map[], map[], Counters(0, 0, 0, 0, 0, 0, 0))

  datatype Verdict = Granted | Denied(code: string)

  // ---- Issue and revoke

  predicate Active(r: Record, now: real) { !r.revoked && r.expiresAt > now }

  function ActiveIds(records: map<string, Record>, now: real): set<string> {
    set id | id in records && Active(records[id], now)
  }

  function ActiveIdsOf(records: map<string, Record>, cell: string, now: real): set<string> {
    set id | id in records && Active(records[id], now) && records[id].cell == cell
  }

  function IssueStep(
    p: Policy, s: State, id: string, cell: string, scopes: set<string>, ttl: int, now: real): (State, Verdict)
  {
    var full := s.(counters := s.counters.(quotaRejections := s.counters.quotaRejections + 1));
    if scopes == {} || !(scopes <= CELL_SCOPES) then (s, Denied("volunteer_credential_scope_invalid"))
    else if |ActiveIds(s.records, now)| >= p.maxActive then (full, Denied("volunteer_credential_capacity_exceeded"))
    else if |ActiveIdsOf(s.records, cell, now)| >= p.maxActivePerCell then
      (full, Denied("volunteer_cell_credential_capacity_exceeded"))
    else if ttl < 1 || ttl > p.maxTtlSeconds then (s, Denied("community_credential_ttl_invalid"))
    else
      var r := Record(cell, scopes, (now.Floor + ttl) as real, false, 0, 0, 0);
      (s.(records := s.records[id := r], counters := s.counters.(issued := s.counters.issued + 1)), Granted)
  }

  function RevokeStep(s: State, id: string): (State, Verdict) {
    if id !in s.records then (s, Denied("volunteer_credential_not_found"))
    else
      var r := s.records[id];
      (s.(records := s.records[id := r.(revoked := true)],
          counters := if r.revoked then s.counters else s.counters.(revocations := s.counters.revocations + 1)),
            Granted)
  }

  // ---- Authorize

  /** `claims` is the code of a failed signature or claims check, empty when it passes. */
  datatype Request = Request(
    id: string,
    cell: string,
    scope: string,
    nonce: string,
    bytes: int,
    submission: bool,
    claims: string)

  /** A missing scope is counted, the other refusals of a credential are not. */
  datatype Refusal = ScopeMissing | Because(code: string)

  function CodeOf(refusal: Refusal): string {
    if refusal.ScopeMissing? then "volunteer_cell_credential_scope_missing" else refusal.code
  }

  /** The checks on the credential itself, and on the form of the nonce. */
  function CredentialRefusal(s: State, r: Request, now: real): (refusal: Option<Refusal>)
    ensures refusal.None? ==> r.id in s.records
  {
    if r.id !in s.records then Some(Because("volunteer_cell_credential_invalid"))
    else
      var c := s.records[r.id];
      if c.revoked then Some(Because("volunteer_cell_credential_revoked"))
      else if c.expiresAt <= now then Some(Because("volunteer_cell_credential_expired"))
      else if c.cell != r.cell then Some(Because("volunteer_cell_credential_identity_mismatch"))
      else if r.scope !in c.scopes then Some(ScopeMissing)
      else if r.claims != "" then Some(Because(r.claims))
      else if |r.nonce| < 12 || |r.nonce| > 256 then Some(Because("volunteer_request_nonce_required"))
      else None
  }

  /** Replay entries that have not expired. */
  function Remembered(replay: map<Key, real>, now: real): map<Key, real> {
    map k | k in replay && replay[k] > now :: replay[k]
  }

  /** The credential's window after it was opened or rolled over. */
  function WindowAt(p: Policy, windows: map<string, Window>, id: string, now: real): Window {
    if id !in windows || now - windows[id].startedAt >= p.windowSeconds then Window(now, 0, 0) else windows[id]
  }

  datatype Meter = Free | RateLimited(code: string) | NegativeBytes | QuotaExceeded(code: string)

  function MeterOf(p: Policy, c: Record, w: Window, r: Request): Meter {
    if w.requests >= p.maxRequestsPerWindow then RateLimited("volunteer_request_rate_limited")
    else if r.bytes < 0 then NegativeBytes
    else if w.bytes + r.bytes > p.maxUploadPerWindow then RateLimited("volunteer_upload_rate_limited")
    else if c.bytes + r.bytes > p.maxUploadPerCredential then QuotaExceeded("volunteer_upload_quota_exceeded")
    else if r.submission && c.submissions >= p.maxSubmissionsPerCredential
      then QuotaExceeded("volunteer_submission_quota_exceeded")
    else Free
  }

  function Charged(c: Record, r: Request): Record {
    c.(requests := c.requests + 1, bytes := c.bytes + r.bytes,
      submissions := c.submissions + (if r.submission then 1 else 0))
  }

  /** A request is charged to its window, its credential and the replay memory together. */
  function GrantTo(p: Policy, s: State, r: Request, w: Window, now: real): State
    requires r.id in s.records
  {
    State(s.records[r.id := Charged(s.records[r.id], r)],
          s.windows[r.id := w.(requests := w.requests + 1, bytes := w.bytes + r.bytes)],
          s.replay[Key(r.id, r.nonce) := now + p.replayTtl],
          s.counters.(authentications := s.counters.authentications + 1))
  }

  function MeterStep(p: Policy, s: State, r: Request, now: real): (State, Verdict)
    requires r.id in s.records
  {
    var w := WindowAt(p, s.windows, r.id, now);
    var rolled := s.(windows := s.windows[r.id := w]);
    match MeterOf(p, s.records[r.id], w, r)
    case RateLimited(code) =>
      (rolled.(counters := s.counters.(rateRejections := s.counters.rateRejections + 1)), Denied(code))
    case NegativeBytes => (rolled, Denied("volunteer_upload_byte_count_invalid"))
    case QuotaExceeded(code) =>
      (rolled.(counters := s.counters.(quotaRejections := s.counters.quotaRejections + 1)), Denied(code))
    case Free => (GrantTo(p, s, r, w, now), Granted)
  }

  /** A denial keeps what was pruned, rolled and counted on the way. */
  function AuthorizeStep(p: Policy, s: State, r: Request, now: real): (State, Verdict) {
    var refusal := CredentialRefusal(s, r, now);
    if refusal == Some(ScopeMissing) then
      (s.(counters := s.counters.(scopeRejections := s.counters.scopeRejections + 1)), Denied(CodeOf(ScopeMissing)))
    else if refusal.Some? then (s, Denied(CodeOf(refusal.value)))
    else
      var pruned := s.(replay := Remembered(s.replay, now));
      if Key(r.id, r.nonce) in pruned.replay then
        (pruned.(counters := s.counters.(replayRejections := s.counters.replayRejections + 1)),
          Denied("volunteer_request_replay_detected"))
      else if |pruned.replay| >= p.maxReplayEntries then
        (pruned.(counters := s.counters.(quotaRejections := s.counters.quotaRejections + 1)),
          Denied("volunteer_replay_window_capacity_exceeded"))
      else MeterStep(p, pruned, r, now)
  }

  // ---- The operator object

  class OperatorPolicy {
    const policy: Policy
    var records: map<string, Record>
    var windows: map<string, Window>
    var replay: map<Key, real>
    var counters: Counters

    constructor (policy: Policy)
      ensures this.policy == policy && Now() == EMPTY
    {
      this.policy := policy;
      records, windows, replay, counters := map[], map[], map[], Counters(0, 0, 0, 0, 0, 0, 0);
    }

    ghost function Now(): State
      reads this
    {
      State(records, windows, replay, counters)
    }

    method ActiveCredentials(now: real) returns (ids: set<string>)
      ensures ids == ActiveIds(records, now)
    {
      ids := {};
      var rest := records;
      while rest != map[]
        invariant forall id :: id in rest ==> id in records && rest[id] == records[id]
        invariant forall id :: id in ids <==> id in records && id !in rest && Active(records[id], now)
        decreases |rest|
      {
        var id :| id in rest;
        if Active(rest[id], now) {
          ids := ids + {id};
        }
        rest := rest - {id};
      }
    }

    method Issue(id: string, cell: string, scopes: set<string>, ttl: int, now: real) returns (verdict: Verdict)
      modifies this
      ensures (Now(), verdict) == IssueStep(policy, old(Now()), id, cell, scopes, ttl, now)
    {
      if scopes == {} || !(scopes <= CELL_SCOPES) {
        return Denied("volunteer_credential_scope_invalid");
      }
      var active := ActiveCredentials(now);
      if |active| >= policy.maxActive {
        counters := counters.(quotaRejections := counters.quotaRejections + 1);
        return Denied("volunteer_credential_capacity_exceeded");
      }
      var same := set a | a in active && records[a].cell == cell;
      assert same == ActiveIdsOf(records, cell, now);
      if |same| >= policy.maxActivePerCell {
        counters := counters.(quotaRejections := counters.quotaRejections + 1);
        return Denied("volunteer_cell_credential_capacity_exceeded");
      }
      if ttl < 1 || ttl > policy.maxTtlSeconds {
        return Denied("community_credential_ttl_invalid");
      }
      records := records[id := Record(cell, scopes, (now.Floor + ttl) as real, false, 0, 0, 0)];
      counters := counters.(issued := counters.issued + 1);
      verdict := Granted;
    }

    method Revoke(id: string) returns (verdict: Verdict)
      modifies this
      ensures (Now(), verdict) == RevokeStep(old(Now()), id)
    {
      if id !in records {
        return Denied("volunteer_credential_not_found");
      }
      var changed := !records[id].revoked;
      records := records[id := records[id].(revoked := true)];
      if changed {
        counters := counters.(revocations := counters.revocations + 1);
      }
      verdict := Granted;
    }

    method PruneReplay(now: real)
      modifies this`replay
      ensures replay == Remembered(old(replay), now)
    {
      var expired := set k | k in replay && replay[k] <= now;
      ghost var all := expired;
      while expired != {}
        invariant expired <= all
        invariant replay == old(replay) - (all - expired)
        decreases |expired|
      {
        var k :| k in expired;
        replay := replay - {k};
        expired := expired - {k};
      }
      assert all - expired == all;
    }

    method Authorize(r: Request, now: real) returns (verdict: Verdict)
      modifies this
      ensures (Now(), verdict) == AuthorizeStep(policy, old(Now()), r, now)
    {
      var refusal := RefuseCredential(r, now);
      if refusal.Some? {
        if refusal.value.ScopeMissing? {
          counters := counters.(scopeRejections := counters.scopeRejections + 1);
        }
        return Denied(CodeOf(refusal.value));
      }
      PruneReplay(now);
      var key := Key(r.id, r.nonce);
      if key in replay {
        counters := counters.(replayRejections := counters.replayRejections + 1);
        return Denied("volunteer_request_replay_detected");
      }
      if |replay| >= policy.maxReplayEntries {
        counters := counters.(quotaRejections := counters.quotaRejections + 1);
        return Denied("volunteer_replay_window_capacity_exceeded");
      }
      verdict := Charge(r, now);
    }

    method RefuseCredential(r: Request, now: real) returns (refusal: Option<Refusal>)
      ensures refusal == CredentialRefusal(Now(), r, now)
    {
      if r.id !in records {
        return Some(Because("volunteer_cell_credential_invalid"));
      }
      var c := records[r.id];
      if c.revoked {
        return Some(Because("volunteer_cell_credential_revoked"));
      }
      if c.expiresAt <= now {
        return Some(Because("volunteer_cell_credential_expired"));
      }
      if c.cell != r.cell {
        return Some(Because("volunteer_cell_credential_identity_mismatch"));
      }
      if r.scope !in c.scopes {
        return Some(ScopeMissing);
      }
      if r.claims != "" {
        return Some(Because(r.claims));
      }
      if |r.nonce| < 12 || |r.nonce| > 256 {
        return Some(Because("volunteer_request_nonce_required"));
      }
      return None;
    }

    /** Opens the credential's window, or starts it over when it has run out. */
    method RollWindow(id: string, now: real)
      modifies this`windows
      ensures windows == old(windows)[id := WindowAt(policy, old(windows), id, now)]
    {
      if id !in windows {
        windows := windows[id := Window(now, 0, 0)];
      }
      if now - windows[id].startedAt >= policy.windowSeconds {
        windows := windows[id := Window(now, 0, 0)];
      }
    }

    method Charge(r: Request, now: real) returns (verdict: Verdict)
      requires r.id in records
      modifies this
      ensures (Now(), verdict) == MeterStep(policy, old(Now()), r, now)
    {
      RollWindow(r.id, now);
      var w, c := windows[r.id], records[r.id];
      if w.requests >= policy.maxRequestsPerWindow {
        counters := counters.(rateRejections := counters.rateRejections + 1);
        return Denied("volunteer_request_rate_limited");
      }
      if r.bytes < 0 {
        return Denied("volunteer_upload_byte_count_invalid");
      }
      if w.bytes + r.bytes > policy.maxUploadPerWindow {
        counters := counters.(rateRejections := counters.rateRejections + 1);
        return Denied("volunteer_upload_rate_limited");
      }
      if c.bytes + r.bytes > policy.maxUploadPerCredential {
        counters := counters.(quotaRejections := counters.quotaRejections + 1);
        return Denied("volunteer_upload_quota_exceeded");
      }
      if r.submission && c.submissions >= policy.maxSubmissionsPerCredential {
        counters := counters.(quotaRejections := counters.quotaRejections + 1);
        return Denied("volunteer_submission_quota_exceeded");
      }
      replay := replay[Key(r.id, r.nonce) := now + policy.replayTtl];
      windows := windows[r.id := w.(requests := w.requests + 1, bytes := w.bytes + r.bytes)];
      assert windows == old(windows)[r.id := windows[r.id]];
      records := records[r.id := Charged(c, r)];
      counters := counters.(authentications := counters.authentications + 1);
      verdict := Granted;
    }
  }
}
