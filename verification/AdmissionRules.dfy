/**
 When a credential is issued, when a request is granted, and what each leaves
 behind, said from the records, the policy and the clock alone; and over whole
 runs, what every grant goes back to.
 */
module AdmissionRules {
  import opened Admission
  import opened AdmissionRuns
  import opened Hurdles
  import opened Wrappers

  /** The counter a denial is added to. */
  datatype Counted = Nowhere | Scopes | Replays | Quotas | Rates

  datatype Denial = Denial(code: string, counted: Counted)

  function WithDenial(c: Counters, counted: Counted): Counters {
    match counted
    case Nowhere => c
    case Scopes => c.(scopeRejections := c.scopeRejections + 1)
    case Replays => c.(replayRejections := c.replayRejections + 1)
    case Quotas => c.(quotaRejections := c.quotaRejections + 1)
    case Rates => c.(rateRejections := c.rateRejections + 1)
  }

  // ---- Issuing

  function LiveIds(s: State, now: real): set<string> {
    set id | id in s.records && !s.records[id].revoked && s.records[id].expiresAt > now
  }

  function LiveIdsOf(s: State, cell: string, now: real): set<string> {
    set id | id in s.records && !s.records[id].revoked && s.records[id].expiresAt > now && s.records[id].cell == cell
  }

  function IssueHurdles(
    p: Policy, s: State, cell: string, scopes: set<string>, ttl: int, now: real): seq<Hurdle<Denial>>
  {
    [Hurdle(scopes != {} && forall x :: x in scopes ==> x in CELL_SCOPES,
            Denial("volunteer_credential_scope_invalid", Nowhere)),
     Hurdle(|LiveIds(s, now)| < p.maxActive, Denial("volunteer_credential_capacity_exceeded", Quotas)),
     Hurdle(|LiveIdsOf(s, cell, now)| < p.maxActivePerCell,
            Denial("volunteer_cell_credential_capacity_exceeded", Quotas)),
     Hurdle(1 <= ttl <= p.maxTtlSeconds, Denial("community_credential_ttl_invalid", Nowhere))]
  }

  /** A credential is issued exactly when all hurdles are passed, and then unrevoked, unused and for `ttl` seconds. */
  lemma IssueExactly(
    p: Policy, s: State, id: string, cell: string, scopes: set<string>, ttl: int, now: real)
    ensures var h := IssueHurdles(p, s, cell, scopes, ttl, now);
            var (s', v) := StepOf(p, s, Event(Issue(id, cell, scopes, ttl), now));
            && s'.windows == s.windows && s'.replay == s.replay
            && (AllPassed(h) <==> v.Granted?)
            && (AllPassed(h) ==>
                  && id in s'.records && s'.records == s.records[id := s'.records[id]]
                  && s'.records[id] == Record(cell, scopes, now.Floor as real + ttl as real, false, 0, 0, 0)
                  && s'.counters == s.counters.(issued := s.counters.issued + 1))
            && (forall k: nat :: StopsAt(h, k) ==>
                  && v == Denied(h[k].refusal.code) && s'.records == s.records
                  && s'.counters == WithDenial(s.counters, h[k].refusal.counted))
  {
    var h := IssueHurdles(p, s, cell, scopes, ttl, now);
    assert LiveIds(s, now) == ActiveIds(s.records, now);
    assert LiveIdsOf(s, cell, now) == ActiveIdsOf(s.records, cell, now);
    SomewhereStops(h);
    forall k: nat | StopsAt(h, k)
      ensures
        var (s', v) := StepOf(p, s, Event(Issue(id, cell, scopes, ttl), now));
        && v == Denied(h[k].refusal.code) && s'.records == s.records
        && s'.counters == WithDenial(s.counters, h[k].refusal.counted)
    {
      assert (k > 0 ==> h[0].passed) && (k > 1 ==> h[1].passed) && (k > 2 ==> h[2].passed);
    }
    if AllPassed(h) {
      assert h[0].passed && h[1].passed && h[2].passed && h[3].passed;
    }
  }

  /** Revoking marks the record, and counts once; an unknown credential is refused. */
  lemma RevokeExactly(p: Policy, s: State, id: string, now: real)
    ensures var (s', v) := StepOf(p, s, Event(Revoke(id), now));
            && s'.windows == s.windows && s'.replay == s.replay
            && (id !in s.records ==> s' == s && v == Denied("volunteer_credential_not_found"))
            && (id in s.records ==>
                  && v.Granted? && id in s'.records && s'.records[id] == s.records[id].(revoked := true)
                  && s'.records == s.records[id := s'.records[id]]
                  && s'.counters == s.counters.(revocations := s'.counters.revocations)
                  && s'.counters.revocations == s.counters.revocations + (if s.records[id].revoked then 0 else 1))
  {
  }

  // ---- Authorizing

  /** Replay entries that have not run out. */
  function Unexpired(s: State, now: real): set<Key> {
    set k | k in s.replay && s.replay[k] > now
  }

  /** What the credential's window has used up: nothing, if it is not open or has run out. */
  function WindowUse(p: Policy, s: State, id: string, now: real): (nat, int) {
    if id in s.windows && now - s.windows[id].startedAt < p.windowSeconds
    then (s.windows[id].requests, s.windows[id].bytes)
    else (0, 0)
  }

  /** When the credential's window began. */
  function WindowStart(p: Policy, s: State, id: string, now: real): real {
    if id in s.windows && now - s.windows[id].startedAt < p.windowSeconds then s.windows[id].startedAt else now
  }

  /** What a request must show of its credential. */
  function CredentialHurdles(s: State, r: Request, now: real): seq<Hurdle<Denial>> {
    var c := if r.id in s.records then Some(s.records[r.id]) else None;
    [Hurdle(c.Some?, Denial("volunteer_cell_credential_invalid", Nowhere)),
     Hurdle(c.Some? && !c.value.revoked, Denial("volunteer_cell_credential_revoked", Nowhere)),
     Hurdle(c.Some? && c.value.expiresAt > now, Denial("volunteer_cell_credential_expired", Nowhere)),
     Hurdle(c.Some? && c.value.cell == r.cell, Denial("volunteer_cell_credential_identity_mismatch", Nowhere)),
     Hurdle(c.Some? && r.scope in c.value.scopes, Denial("volunteer_cell_credential_scope_missing", Scopes)),
     Hurdle(r.claims == "", Denial(r.claims, Nowhere)),
     Hurdle(12 <= |r.nonce| <= 256, Denial("volunteer_request_nonce_required", Nowhere))]
  }

  /** Freshness and room in the replay memory. */
  function ReplayHurdles(p: Policy, s: State, r: Request, now: real): seq<Hurdle<Denial>> {
    [Hurdle(Key(r.id, r.nonce) !in s.replay || s.replay[Key(r.id, r.nonce)] <= now,
            Denial("volunteer_request_replay_detected", Replays)),
     Hurdle(|Unexpired(s, now)| < p.maxReplayEntries, Denial("volunteer_replay_window_capacity_exceeded", Quotas))]
  }

  /** The window of the credential, and what it may use in its lifetime. */
  function MeterHurdles(p: Policy, s: State, r: Request, now: real): seq<Hurdle<Denial>> {
    var (requests, bytes) := WindowUse(p, s, r.id, now);
    var c := if r.id in s.records then Some(s.records[r.id]) else None;
    [Hurdle(requests < p.maxRequestsPerWindow, Denial("volunteer_request_rate_limited", Rates)),
     Hurdle(r.bytes >= 0, Denial("volunteer_upload_byte_count_invalid", Nowhere)),
     Hurdle(bytes + r.bytes <= p.maxUploadPerWindow, Denial("volunteer_upload_rate_limited", Rates)),
     Hurdle(c.Some? && c.value.bytes + r.bytes <= p.maxUploadPerCredential,
            Denial("volunteer_upload_quota_exceeded", Quotas)),
     Hurdle(c.Some? && (r.submission ==> c.value.submissions < p.maxSubmissionsPerCredential),
            Denial("volunteer_submission_quota_exceeded", Quotas))]
  }

  function AuthorizeHurdles(p: Policy, s: State, r: Request, now: real): seq<Hurdle<Denial>> {
    CredentialHurdles(s, r, now) + ReplayHurdles(p, s, r, now) + MeterHurdles(p, s, r, now)
  }

  /** What a grant leaves behind: charges to credential and window, and the nonce remembered for the replay time. */
  ghost predicate Charges(p: Policy, s: State, s': State, r: Request, now: real) {
    var (requests, bytes) := WindowUse(p, s, r.id, now);
    && r.id in s.records && r.id in s'.records && r.id in s'.windows
    && s'.records == s.records[r.id := s'.records[r.id]] && s'.windows == s.windows[r.id := s'.windows[r.id]]
    && (var c := s.records[r.id];
        s'.records[r.id] == c.(requests := c.requests + 1, bytes := c.bytes + r.bytes,
                               submissions := c.submissions + (if r.submission then 1 else 0)))
    && s'.windows[r.id] == Window(WindowStart(p, s, r.id, now), requests + 1, bytes + r.bytes)
    && (forall k :: k in s'.replay <==> k == Key(r.id, r.nonce) || k in Unexpired(s, now))
    && (forall k :: k in s'.replay ==>
          s'.replay[k] == if k == Key(r.id, r.nonce) then now + p.replayTtl else s.replay[k])
    && s'.counters == s.counters.(authentications := s.counters.authentications + 1)
  }

  /** What a denial at hurdle `k` leaves behind: pruned nonces and a rolled window, as far as the checks got. */
  ghost predicate Declines(p: Policy, s: State, s': State, r: Request, now: real, k: nat, counted: Counted) {
    && s'.records == s.records && s'.counters == WithDenial(s.counters, counted)
    && (k < 7 ==> s'.replay == s.replay)
    && (k >= 7 ==>
          && (forall x :: x in s'.replay <==> x in Unexpired(s, now))
          && (forall x :: x in s'.replay ==> s'.replay[x] == s.replay[x]))
    && (k < 9 ==> s'.windows == s.windows)
    && (k >= 9 ==>
          var (requests, bytes) := WindowUse(p, s, r.id, now);
          s'.windows == s.windows[r.id := Window(WindowStart(p, s, r.id, now), requests, bytes)])
  }

  lemma PrunedIsUnexpired(s: State, now: real)
    ensures Remembered(s.replay, now).Keys == Unexpired(s, now)
    ensures |Remembered(s.replay, now)| == |Unexpired(s, now)|
  {
    var m := Remembered(s.replay, now);
    assert m.Keys == Unexpired(s, now);
    assert |m| == |m.Keys|;
  }

  lemma WindowIsUse(p: Policy, s: State, id: string, now: real)
    ensures var (requests, bytes) := WindowUse(p, s, id, now);
            WindowAt(p, s.windows, id, now) == Window(WindowStart(p, s, id, now), requests, bytes)
  {
  }

  lemma CredentialJudged(s: State, r: Request, now: real)
    ensures var h, refusal := CredentialHurdles(s, r, now), CredentialRefusal(s, r, now);
            && (AllPassed(h) <==> refusal.None?)
            && (forall k: nat :: StopsAt(h, k) ==>
                  && refusal.Some? && CodeOf(refusal.value) == h[k].refusal.code
                  && h[k].refusal.counted == (if refusal.value.ScopeMissing? then Scopes else Nowhere))
  {
    var h, refusal := CredentialHurdles(s, r, now), CredentialRefusal(s, r, now);
    SomewhereStops(h);
    forall k: nat | StopsAt(h, k)
      ensures
        && refusal.Some? && CodeOf(refusal.value) == h[k].refusal.code
        && h[k].refusal.counted == (if refusal.value.ScopeMissing? then Scopes else Nowhere)
    {
      assert (k > 0 ==> h[0].passed) && (k > 1 ==> h[1].passed) && (k > 2 ==> h[2].passed) && (k > 3 ==> h[3].passed);
      assert (k > 4 ==> h[4].passed) && (k > 5 ==> h[5].passed);
    }
    if AllPassed(h) {
      assert h[0].passed && h[1].passed && h[2].passed && h[3].passed && h[4].passed && h[5].passed && h[6].passed;
    }
  }

  lemma MeterJudged(p: Policy, s: State, r: Request, now: real)
    requires r.id in s.records
    ensures var h := MeterHurdles(p, s, r, now);
            var (s', v) := MeterStep(p, s, r, now);
            && (AllPassed(h) ==> v.Granted?)
            && (forall k: nat :: StopsAt(h, k) ==>
                  && v == Denied(h[k].refusal.code)
                  && s' == s.(windows := s.windows[r.id := WindowAt(p, s.windows, r.id, now)],
                              counters := WithDenial(s.counters, h[k].refusal.counted)))
  {
    var h := MeterHurdles(p, s, r, now);
    WindowIsUse(p, s, r.id, now);
    forall k: nat | StopsAt(h, k)
      ensures
        var (s', v) := MeterStep(p, s, r, now);
        && v == Denied(h[k].refusal.code)
        && s' == s.(windows := s.windows[r.id := WindowAt(p, s.windows, r.id, now)],
                    counters := WithDenial(s.counters, h[k].refusal.counted))
    {
      assert (k > 0 ==> h[0].passed) && (k > 1 ==> h[1].passed) && (k > 2 ==> h[2].passed) && (k > 3 ==> h[3].passed);
    }
    if AllPassed(h) {
      assert h[0].passed && h[1].passed && h[2].passed && h[3].passed && h[4].passed;
    }
  }

  /** A denial at hurdle `k`. */
  lemma DeniedAt(p: Policy, s: State, r: Request, now: real, k: nat)
    requires StopsAt(AuthorizeHurdles(p, s, r, now), k)
    ensures var h := AuthorizeHurdles(p, s, r, now);
            var (s', v) := AuthorizeStep(p, s, r, now);
            v == Denied(h[k].refusal.code) && Declines(p, s, s', r, now, k, h[k].refusal.counted)
  {
    var a, b, c := CredentialHurdles(s, r, now), ReplayHurdles(p, s, r, now), MeterHurdles(p, s, r, now);
    CredentialJudged(s, r, now);
    PrunedIsUnexpired(s, now);
    StopsInConcat(a + b, c, k);
    if k < |a + b| {
      StopsInConcat(a, b, k);
      if k == 8 {
        assert b[0].passed;
      }
    } else {
      StopsInConcat(a, b, 0);
      assert b[0].passed && b[1].passed;
      var pruned := s.(replay := Remembered(s.replay, now));
      MeterJudged(p, pruned, r, now);
      assert MeterHurdles(p, pruned, r, now) == c;
      WindowIsUse(p, s, r.id, now);
    }
  }

  lemma GrantedAt(p: Policy, s: State, r: Request, now: real)
    requires AllPassed(AuthorizeHurdles(p, s, r, now))
    ensures var (s', v) := AuthorizeStep(p, s, r, now);
            v.Granted? && Charges(p, s, s', r, now)
  {
    var a, b, c := CredentialHurdles(s, r, now), ReplayHurdles(p, s, r, now), MeterHurdles(p, s, r, now);
    StopsInConcat(a + b, c, 0);
    StopsInConcat(a, b, 0);
    CredentialJudged(s, r, now);
    PrunedIsUnexpired(s, now);
    assert b[0].passed && b[1].passed;
    var pruned := s.(replay := Remembered(s.replay, now));
    assert MeterHurdles(p, pruned, r, now) == c;
    MeterJudged(p, pruned, r, now);
    WindowIsUse(p, s, r.id, now);
  }

  /** A request is granted exactly when it passes every hurdle, and otherwise denied by the first it does not pass. */
  lemma AuthorizeExactly(p: Policy, s: State, r: Request, now: real)
    ensures var h := AuthorizeHurdles(p, s, r, now);
            var (s', v) := StepOf(p, s, Event(Authorize(r), now));
            && (AllPassed(h) <==> v.Granted?)
            && (AllPassed(h) ==> Charges(p, s, s', r, now))
            && (forall k: nat :: StopsAt(h, k) ==>
                  v == Denied(h[k].refusal.code) && Declines(p, s, s', r, now, k, h[k].refusal.counted))
  {
    var h := AuthorizeHurdles(p, s, r, now);
    SomewhereStops(h);
    forall k: nat | StopsAt(h, k)
      ensures
        var (s', v) := AuthorizeStep(p, s, r, now);
        v == Denied(h[k].refusal.code) && Declines(p, s, s', r, now, k, h[k].refusal.counted)
    {
      DeniedAt(p, s, r, now, k);
    }
    if AllPassed(h) {
      GrantedAt(p, s, r, now);
    }
  }

  // ---- What a record goes back to

  /** Event `i` issues the credential. */
  ghost predicate IssuesAt(p: Policy, events: seq<Event>, i: nat, id: string) {
    && i < |events| && events[i].op.Issue? && events[i].op.id == id
    && StepOf(p, Run(p, events[..i]), events[i]).1.Granted?
  }

  predicate RevokesAt(events: seq<Event>, i: nat, j: nat, id: string) {
    i < j < |events| && events[j].op == Revoke(id)
  }

  /** The credential is revoked by some event after `i`. */
  ghost predicate RevokedSince(events: seq<Event>, i: nat, id: string) {
    exists j: nat :: RevokesAt(events, i, j, id)
  }

  /** When a credential issued by event `i` runs out. */
  function RunsOutAt(events: seq<Event>, i: nat): real
    requires i < |events| && events[i].op.Issue?
  {
    events[i].now.Floor as real + events[i].op.ttl as real
  }

  /** The record is that of the credential issued by event `i`, revoked if an event after it says so. */
  ghost predicate IsRecordOf(p: Policy, events: seq<Event>, i: nat, id: string, c: Record) {
    && IssuesAt(p, events, i, id)
    && c.cell == events[i].op.cell && c.scopes == events[i].op.scopes && c.expiresAt == RunsOutAt(events, i)
    && (c.revoked <==> RevokedSince(events, i, id))
  }

  lemma IssuesInPrefix(p: Policy, events: seq<Event>, k: nat, i: nat, id: string)
    requires i < k <= |events|
    ensures IssuesAt(p, events[..k], i, id) <==> IssuesAt(p, events, i, id)
  {
    assert events[..k][..i] == events[..i];
  }

  lemma RevokedOneMore(events: seq<Event>, k: nat, i: nat, id: string)
    requires i < k && |events| == k + 1
    ensures RevokedSince(events, i, id) <==> RevokedSince(events[..k], i, id) || events[k].op == Revoke(id)
  {
    if RevokedSince(events[..k], i, id) {
      var j: nat :| RevokesAt(events[..k], i, j, id);
      assert RevokesAt(events, i, j, id);
    }
    if events[k].op == Revoke(id) {
      assert RevokesAt(events, i, k, id);
    }
    if RevokedSince(events, i, id) {
      var j: nat :| RevokesAt(events, i, j, id);
      assert j < k ==> RevokesAt(events[..k], i, j, id);
    }
  }

  /** An event other than its own issue changes of a record only whether it is revoked. */
  lemma RecordKept(p: Policy, s: State, e: Event, id: string)
    requires e.op.Issue? ==> e.op.id !in s.records
    ensures var s' := StepOf(p, s, e).0;
            && (id in s'.records <==> id in s.records || (e.op.Issue? && e.op.id == id && StepOf(p, s, e).1.Granted?))
            && (id in s.records ==>
                  && s'.records[id].cell == s.records[id].cell && s'.records[id].scopes == s.records[id].scopes
                  && s'.records[id].expiresAt == s.records[id].expiresAt
                  && (s'.records[id].revoked <==> s.records[id].revoked || e.op == Revoke(id)))
  {
    if e.op.Authorize? {
      if Grants(p, s, e) {
        GrantedEffect(p, s, e.op.request, e.now);
      } else {
        DeniedEffect(p, s, e.op.request, e.now);
      }
    }
  }

  lemma JustIssued(p: Policy, events: seq<Event>, k: nat, id: string)
    requires |events| == k + 1 && IssuesAt(p, events, k, id)
    ensures id in Run(p, events).records && IsRecordOf(p, events, k, id, Run(p, events).records[id])
  {
    var e := events[k];
    IssueExactly(p, Run(p, events[..k]), id, e.op.cell, e.op.scopes, e.op.ttl, e.now);
    forall j: nat ensures !RevokesAt(events, k, j, id) {
    }
  }

  ghost predicate GoesBack(p: Policy, events: seq<Event>, id: string, records: map<string, Record>) {
    && (id in records <==> exists i: nat :: IssuesAt(p, events, i, id))
    && forall i: nat :: IssuesAt(p, events, i, id) ==> id in records && IsRecordOf(p, events, i, id, records[id])
  }

  /** An event that does not issue the credential. */
  lemma StillGoesBack(p: Policy, events: seq<Event>, k: nat, id: string, before: map<string, Record>,
                      after: map<string, Record>)
    requires |events| == k + 1 && GoesBack(p, events[..k], id, before) && !IssuesAt(p, events, k, id)
    requires id in after <==> id in before
    requires id in before ==>
               && after[id].cell == before[id].cell && after[id].scopes == before[id].scopes
               && after[id].expiresAt == before[id].expiresAt
               && (after[id].revoked <==> before[id].revoked || events[k].op == Revoke(id))
    ensures GoesBack(p, events, id, after)
  {
    forall i: nat | i < k ensures IssuesAt(p, events[..k], i, id) <==> IssuesAt(p, events, i, id) {
      IssuesInPrefix(p, events, k, i, id);
    }
    forall i: nat | IssuesAt(p, events, i, id) ensures IsRecordOf(p, events, i, id, after[id]) {
      assert IssuesAt(p, events[..k], i, id) && events[..k][i] == events[i];
      RevokedOneMore(events, k, i, id);
    }
  }

  /** The event that issues the credential, which is not there before. */
  lemma NowGoesBack(p: Policy, events: seq<Event>, k: nat, id: string)
    requires |events| == k + 1 && IssuesAt(p, events, k, id)
    requires GoesBack(p, events[..k], id, Run(p, events[..k]).records) && id !in Run(p, events[..k]).records
    ensures GoesBack(p, events, id, Run(p, events).records)
  {
    JustIssued(p, events, k, id);
    forall i: nat | i < k ensures !IssuesAt(p, events, i, id) {
      IssuesInPrefix(p, events, k, i, id);
    }
  }

  /** Every record goes back to the one event that issued the credential, and to its revocations. */
  lemma {:induction false} RecordsGoBack(p: Policy, events: seq<Event>, id: string)
    requires Proper(p, events)
    ensures GoesBack(p, events, id, Run(p, events).records)
  {
    if events != [] {
      var k := |events| - 1;
      RecordsGoBack(p, events[..k], id);
      if IssuesAt(p, events, k, id) {
        NowGoesBack(p, events, k, id);
      } else {
        RecordKept(p, Run(p, events[..k]), events[k], id);
        StillGoesBack(p, events, k, id, Run(p, events[..k]).records, Run(p, events).records);
      }
    }
  }

  // ---- What a grant goes back to

  /** Event `i` entitles the request: it issued the credential, for its cell and scope, neither run out nor revoked. */
  ghost predicate Entitles(p: Policy, events: seq<Event>, i: nat, r: Request, now: real) {
    && IssuesAt(p, events, i, r.id)
    && events[i].op.cell == r.cell && r.scope in events[i].op.scopes
    && now < RunsOutAt(events, i) && !RevokedSince(events, i, r.id)
  }

  /** The request is entitled, its claims check, and its nonce has a proper length. */
  ghost predicate Entitled(p: Policy, events: seq<Event>, r: Request, now: real) {
    (exists i: nat :: Entitles(p, events, i, r, now)) && r.claims == "" && 12 <= |r.nonce| <= 256
  }

  /** No grant of the credential under this nonce within the replay time. */
  ghost predicate FreshNonce(p: Policy, log: seq<Grant>, r: Request, now: real) {
    forall m :: 0 <= m < |log| && log[m].id == r.id && log[m].nonce == r.nonce ==> log[m].at + p.replayTtl <= now
  }

  /** Within the window, and with what was granted before within the lifetime quotas. */
  ghost predicate WithinLimits(p: Policy, s: State, log: seq<Grant>, r: Request, now: real) {
    var (requests, bytes) := WindowUse(p, s, r.id, now);
    && requests < p.maxRequestsPerWindow && r.bytes >= 0 && bytes + r.bytes <= p.maxUploadPerWindow
    && BytesOf(log, r.id) + r.bytes <= p.maxUploadPerCredential
    && (r.submission ==> SubmissionsOf(log, r.id) < p.maxSubmissionsPerCredential)
  }

  /** A remembered nonce is that of a grant, and is remembered for the replay time. */
  ghost predicate ComesFrom(p: Policy, log: seq<Grant>, k: Key, expiry: real) {
    exists m :: 0 <= m < |log| && log[m].id == k.id && log[m].nonce == k.nonce && log[m].at + p.replayTtl == expiry
  }

  lemma LogGrows(p: Policy, events: seq<Event>, n: nat)
    requires |events| == n + 1
    ensures var e := events[n];
            Log(p, events)
            == Log(p, events[..n]) + (if Grants(p, Run(p, events[..n]), e) then [GrantOf(e.op.request, e.now)] else [])
  {
  }

  lemma ComesFromLonger(p: Policy, log: seq<Grant>, longer: seq<Grant>, k: Key, expiry: real)
    requires log <= longer && ComesFrom(p, log, k, expiry)
    ensures ComesFrom(p, longer, k, expiry)
  {
    var m :| 0 <= m < |log| && log[m].id == k.id && log[m].nonce == k.nonce && log[m].at + p.replayTtl == expiry;
    assert longer[m] == log[m];
  }

  lemma StepReplay(p: Policy, s: State, e: Event, k: Key)
    requires k in StepOf(p, s, e).0.replay
    ensures (k in s.replay && s.replay[k] == StepOf(p, s, e).0.replay[k])
            || (Grants(p, s, e) && k == Key(e.op.request.id, e.op.request.nonce)
                && StepOf(p, s, e).0.replay[k] == e.now + p.replayTtl)
  {
    if e.op.Authorize? {
      if Grants(p, s, e) {
        GrantedEffect(p, s, e.op.request, e.now);
      } else {
        DeniedEffect(p, s, e.op.request, e.now);
      }
    }
  }

  lemma {:induction false} ReplayGoesBack(p: Policy, events: seq<Event>, k: Key)
    requires k in Run(p, events).replay
    ensures ComesFrom(p, Log(p, events), k, Run(p, events).replay[k])
  {
    var n := |events| - 1;
    var s, e := Run(p, events[..n]), events[n];
    StepReplay(p, s, e, k);
    LogGrows(p, events, n);
    if k in s.replay && s.replay[k] == Run(p, events).replay[k] {
      ReplayGoesBack(p, events[..n], k);
      ComesFromLonger(p, Log(p, events[..n]), Log(p, events), k, s.replay[k]);
    } else {
      assert Log(p, events)[|Log(p, events)| - 1] == GrantOf(e.op.request, e.now);
    }
  }

  lemma FreshExactly(p: Policy, events: seq<Event>, r: Request, now: real)
    requires ValidPolicy(p) && Proper(p, events) && (events != [] ==> Last(events) <= now)
    ensures FreshNonce(p, Log(p, events), r, now)
            <==> Key(r.id, r.nonce) !in Run(p, events).replay || Run(p, events).replay[Key(r.id, r.nonce)] <= now
  {
    var k, s, log := Key(r.id, r.nonce), Run(p, events), Log(p, events);
    if events != [] {
      RunRemembers(p, events);
      forall m | 0 <= m < |log| && log[m].id == r.id && log[m].nonce == r.nonce
        ensures log[m].at + p.replayTtl <= now || (k in s.replay && s.replay[k] >= log[m].at + p.replayTtl)
      {
        assert Remembers(p, s, log[m], Last(events));
      }
    }
    if k in s.replay {
      ReplayGoesBack(p, events, k);
    }
  }

  lemma CredentialPassed(s: State, r: Request, now: real)
    ensures AllPassed(CredentialHurdles(s, r, now))
            <==> && r.id in s.records && !s.records[r.id].revoked && s.records[r.id].expiresAt > now
                 && s.records[r.id].cell == r.cell && r.scope in s.records[r.id].scopes
                 && r.claims == "" && 12 <= |r.nonce| <= 256
  {
    var h := CredentialHurdles(s, r, now);
    if AllPassed(h) {
      assert h[0].passed && h[1].passed && h[2].passed && h[3].passed && h[4].passed && h[5].passed && h[6].passed;
    }
  }

  lemma EntitledExactly(p: Policy, events: seq<Event>, r: Request, now: real)
    requires Proper(p, events)
    ensures Entitled(p, events, r, now) <==> AllPassed(CredentialHurdles(Run(p, events), r, now))
  {
    var s := Run(p, events);
    CredentialPassed(s, r, now);
    RecordsGoBack(p, events, r.id);
    forall i: nat | IssuesAt(p, events, i, r.id)
      ensures
        Entitles(p, events, i, r, now)
        <==> && !s.records[r.id].revoked && s.records[r.id].expiresAt > now
             && s.records[r.id].cell == r.cell && r.scope in s.records[r.id].scopes
    {
      assert IsRecordOf(p, events, i, r.id, s.records[r.id]);
    }
  }

  lemma MeterPassed(p: Policy, s: State, r: Request, now: real)
    requires r.id in s.records
    ensures AllPassed(MeterHurdles(p, s, r, now))
            <==> var (requests, bytes) := WindowUse(p, s, r.id, now);
                 && requests < p.maxRequestsPerWindow && r.bytes >= 0 && bytes + r.bytes <= p.maxUploadPerWindow
                 && s.records[r.id].bytes + r.bytes <= p.maxUploadPerCredential
                 && (r.submission ==> s.records[r.id].submissions < p.maxSubmissionsPerCredential)
  {
    var h := MeterHurdles(p, s, r, now);
    if AllPassed(h) {
      assert h[0].passed && h[1].passed && h[2].passed && h[3].passed && h[4].passed;
    }
  }

  lemma LimitsExactly(p: Policy, events: seq<Event>, r: Request, now: real)
    requires ValidPolicy(p) && Proper(p, events) && r.id in Run(p, events).records
    ensures WithinLimits(p, Run(p, events), Log(p, events), r, now)
            <==> AllPassed(MeterHurdles(p, Run(p, events), r, now))
  {
    QuotasAreKept(p, events, r.id);
    MeterPassed(p, Run(p, events), r, now);
  }

  /**
   Over every run, a request is granted if and only if an earlier event issued its
   credential, for its cell and scope, and it has neither run out nor been revoked
   since; its claims check and its nonce has 12 to 256 characters and was not
   granted within the replay time; the replay memory has room; and the window and
   what was granted before leave room within the limits.
   */
  lemma GrantedExactly(p: Policy, events: seq<Event>, r: Request, now: real)
    requires ValidPolicy(p) && Proper(p, events) && (events != [] ==> Last(events) <= now)
    ensures Grants(p, Run(p, events), Event(Authorize(r), now))
            <==> && Entitled(p, events, r, now)
                 && FreshNonce(p, Log(p, events), r, now)
                 && |Unexpired(Run(p, events), now)| < p.maxReplayEntries
                 && WithinLimits(p, Run(p, events), Log(p, events), r, now)
  {
    var s := Run(p, events);
    var a, b, c := CredentialHurdles(s, r, now), ReplayHurdles(p, s, r, now), MeterHurdles(p, s, r, now);
    AuthorizeExactly(p, s, r, now);
    StopsInConcat(a + b, c, 0);
    StopsInConcat(a, b, 0);
    EntitledExactly(p, events, r, now);
    FreshExactly(p, events, r, now);
    CredentialPassed(s, r, now);
    if AllPassed(a) {
      LimitsExactly(p, events, r, now);
    }
    assert AllPassed(b) <==> b[0].passed && b[1].passed;
  }

  /** Event `i` revokes a credential that was issued. */
  ghost predicate Revokes(p: Policy, events: seq<Event>, i: nat, id: string) {
    && i < |events| && events[i].op == Revoke(id)
    && StepOf(p, Run(p, events[..i]), events[i]).1.Granted?
  }

  /** A revoked credential does not entitle a request any more. */
  lemma RevokedIsNotEntitled(p: Policy, events: seq<Event>, i: nat, r: Request, now: real)
    requires Proper(p, events) && i < |events| && Revokes(p, events, i, r.id)
    ensures !Entitled(p, events, r, now)
  {
    ProperPrefix(p, events, i);
    RecordsGoBack(p, events[..i], r.id);
    var m: nat :| IssuesAt(p, events[..i], m, r.id);
    IssuesInPrefix(p, events, i, m, r.id);
    forall j: nat ensures !Entitles(p, events, j, r, now) {
      if IssuesAt(p, events, j, r.id) {
        IssuedOnce(p, events, j, m, r.id);
        assert RevokesAt(events, j, i, r.id);
      }
    }
  }

  /** Once a credential is revoked, no later request for it is granted. */
  lemma RevokedIsNeverGranted(p: Policy, events: seq<Event>, i: nat, k: nat, id: string)
    requires Proper(p, events) && i < k < |events| && Revokes(p, events, i, id)
    ensures Grants(p, Run(p, events[..k]), events[k]) ==> events[k].op.request.id != id
  {
    ProperPrefix(p, events, k);
    if Grants(p, Run(p, events[..k]), events[k]) && events[k].op.request.id == id {
      EntitledAfterGrant(p, events[..k], events[k].op.request, events[k].now);
      assert events[..k][..i] == events[..i];
      RevokedIsNotEntitled(p, events[..k], i, events[k].op.request, events[k].now);
    }
  }

  lemma EntitledAfterGrant(p: Policy, events: seq<Event>, r: Request, now: real)
    requires Proper(p, events) && Grants(p, Run(p, events), Event(Authorize(r), now))
    ensures Entitled(p, events, r, now)
  {
    var s := Run(p, events);
    var a, b, c := CredentialHurdles(s, r, now), ReplayHurdles(p, s, r, now), MeterHurdles(p, s, r, now);
    AuthorizeExactly(p, s, r, now);
    StopsInConcat(a + b, c, 0);
    StopsInConcat(a, b, 0);
    EntitledExactly(p, events, r, now);
  }

  lemma {:induction false} ProperPrefix(p: Policy, events: seq<Event>, k: nat)
    requires Proper(p, events) && k <= |events|
    ensures Proper(p, events[..k])
  {
    if k < |events| {
      ProperPrefix(p, events[..|events| - 1], k);
      assert events[..|events| - 1][..k] == events[..k];
    } else {
      assert events[..k] == events;
    }
  }

  /** A credential is issued by one event only. */
  lemma IssuedOnce(p: Policy, events: seq<Event>, i: nat, j: nat, id: string)
    requires Proper(p, events) && IssuesAt(p, events, i, id) && IssuesAt(p, events, j, id)
    ensures i == j
  {
    if i != j {
      var a, b := if i < j then i else j, if i < j then j else i;
      ProperPrefix(p, events, b + 1);
      ProperPrefix(p, events, b);
      assert events[..b + 1][..b] == events[..b];
      IssuesInPrefix(p, events, b, a, id);
      RecordsGoBack(p, events[..b], id);
    }
  }

  /** Every entry of the log is of an entitled request. */
  ghost predicate EarnedAt(p: Policy, events: seq<Event>, k: nat, g: Grant) {
    && k < |events| && events[k].op.Authorize?
    && var r := events[k].op.request;
       && g == Grant(r.id, r.nonce, events[k].now, r.bytes, r.submission)
       && Entitled(p, events[..k], r, events[k].now)
  }

  /** Every entry of the log is a request that was entitled when it came. */
  lemma {:induction false} GrantsAreEarned(p: Policy, events: seq<Event>, m: nat)
    requires Proper(p, events) && m < |Log(p, events)|
    ensures exists k: nat :: EarnedAt(p, events, k, Log(p, events)[m])
  {
    var n := |events| - 1;
    LogGrows(p, events, n);
    if m < |Log(p, events[..n])| {
      GrantsAreEarned(p, events[..n], m);
      var k: nat :| EarnedAt(p, events[..n], k, Log(p, events[..n])[m]);
      assert events[..n][..k] == events[..k];
      assert EarnedAt(p, events, k, Log(p, events)[m]);
    } else {
      EntitledAfterGrant(p, events[..n], events[n].op.request, events[n].now);
      assert EarnedAt(p, events, n, Log(p, events)[m]);
    }
  }

  /** From entry `n` on the log has none for the credential. */
  predicate NoneFrom(log: seq<Grant>, n: nat, id: string) {
    forall m :: n <= m < |log| ==> log[m].id != id
  }

  lemma NoneExtends(log: seq<Grant>, longer: seq<Grant>, n: nat, id: string)
    requires n <= |log| && log <= longer && NoneFrom(log, n, id) && NoneFrom(longer, |log|, id)
    ensures NoneFrom(longer, n, id)
  {
  }

  /** The log after the first `n` events. */
  ghost function LogAfter(p: Policy, events: seq<Event>, n: nat): seq<Grant>
    requires n <= |events|
  {
    Log(p, events[..n])
  }

  lemma RevokedStaysOut(p: Policy, events: seq<Event>, i: nat, n: nat, id: string)
    requires Proper(p, events) && i < n < |events| && Revokes(p, events, i, id)
    ensures LogAfter(p, events, n) <= LogAfter(p, events, n + 1)
    ensures NoneFrom(LogAfter(p, events, n + 1), |LogAfter(p, events, n)|, id)
  {
    assert events[..n + 1][..n] == events[..n];
    LogGrows(p, events[..n + 1], n);
    RevokedIsNeverGranted(p, events, i, n, id);
  }

  lemma RevokingLogsNothing(p: Policy, events: seq<Event>, i: nat)
    requires i < |events| && events[i].op.Revoke?
    ensures LogAfter(p, events, i + 1) == LogAfter(p, events, i)
  {
    assert events[..i + 1][..i] == events[..i];
    LogGrows(p, events[..i + 1], i);
  }

  ghost predicate AddsNone(log: nat -> seq<Grant>, n: nat, id: string) {
    log(n) <= log(n + 1) && NoneFrom(log(n + 1), |log(n)|, id)
  }

  lemma {:induction false} NoneAdded(log: nat -> seq<Grant>, i: nat, n: nat, id: string)
    requires i <= n && forall m: nat :: i <= m < n ==> AddsNone(log, m, id)
    ensures |log(i)| <= |log(n)| && NoneFrom(log(n), |log(i)|, id)
    decreases n
  {
    if i < n {
      NoneAdded(log, i, n - 1, id);
      assert AddsNone(log, n - 1, id);
      NoneExtends(log(n - 1), log(n), |log(i)|, id);
    }
  }

  /** After a credential was revoked, the log has no new entry for it. */
  lemma RevokedLogsNothing(p: Policy, events: seq<Event>, i: nat, n: nat, id: string)
    requires Proper(p, events) && i < n <= |events| && Revokes(p, events, i, id)
    ensures |LogAfter(p, events, i)| <= |LogAfter(p, events, n)|
    ensures NoneFrom(LogAfter(p, events, n), |LogAfter(p, events, i)|, id)
  {
    ghost var log: nat -> seq<Grant> := (m: nat) => if m <= |events| then LogAfter(p, events, m) else [];
    forall m: nat | i <= m < n ensures AddsNone(log, m, id) {
      if m == i {
        RevokingLogsNothing(p, events, i);
      } else {
        RevokedStaysOut(p, events, i, m, id);
      }
    }
    NoneAdded(log, i, n, id);
  }
}
