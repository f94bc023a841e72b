/**
 Authorizations whose operation raises before it saves, as a refused heartbeat
 does: the window charge and the nonce are lost with the state. What the limits
 then still say.
 */
module AdmissionLosses {
  import opened Admission
  import opened AdmissionRuns
  import opened Wrappers

  /** An event, and whether the operation it belongs to went on to save. A denial is always saved. */
  datatype Attempt = Attempt(event: Event, saved: bool)

  ghost predicate Lost(p: Policy, s: State, a: Attempt) {
    !a.saved && Grants(p, s, a.event)
  }

  /** The events that left a mark: all but the lost ones. */
  ghost function Marks(p: Policy, attempts: seq<Attempt>): seq<Event> {
    if attempts == [] then []
    else
      var k := |attempts| - 1;
      var marks := Marks(p, attempts[..k]);
      if Lost(p, Run(p, marks), attempts[k]) then marks else marks + [attempts[k].event]
  }

  /** A run with losses is a run without the lost events. */
  ghost function StateAfter(p: Policy, attempts: seq<Attempt>): State {
    Run(p, Marks(p, attempts))
  }

  datatype Outcome = Outcome(grant: Grant, saved: bool)

  /** Every grant of a run in order, lost ones included. */
  ghost function Granted(p: Policy, attempts: seq<Attempt>): seq<Outcome> {
    if attempts == [] then []
    else
      var k := |attempts| - 1;
      Granted(p, attempts[..k]) + GrantedNow(p, StateAfter(p, attempts[..k]), attempts[k])
  }

  function SavedOf(outcomes: seq<Outcome>): seq<Grant> {
    if outcomes == [] then []
    else
      var o := outcomes[|outcomes| - 1];
      SavedOf(outcomes[..|outcomes| - 1]) + (if o.saved then [o.grant] else [])
  }

  function Clock(attempts: seq<Attempt>): real
    requires attempts != []
  {
    attempts[|attempts| - 1].event.now
  }

  /** The clock never goes back, and a credential is issued under a new token. */
  ghost predicate Orderly(p: Policy, attempts: seq<Attempt>) {
    attempts == [] ||
    var k := |attempts| - 1;
    var e := attempts[k].event;
    && Orderly(p, attempts[..k])
    && (k > 0 ==> attempts[k - 1].event.now <= e.now)
    && (e.op.Issue? ==> e.op.id !in StateAfter(p, attempts[..k]).records)
  }

  // ---- One more attempt

  ghost function GrantedNow(p: Policy, s: State, a: Attempt): seq<Outcome> {
    if Grants(p, s, a.event) then [Outcome(GrantOf(a.event.op.request, a.event.now), a.saved)] else []
  }

  /** What one more attempt leaves, grants and marks. */
  lemma OneMoreAttempt(p: Policy, before: seq<Attempt>, a: Attempt)
    ensures var all, s, lost := before + [a], StateAfter(p, before), Lost(p, StateAfter(p, before), a);
            && StateAfter(p, all) == (if lost then s else StepOf(p, s, a.event).0)
            && Granted(p, all) == Granted(p, before) + GrantedNow(p, s, a)
            && Marks(p, all) == (if lost then Marks(p, before) else Marks(p, before) + [a.event])
  {
    assert (before + [a])[..|before|] == before;
    OneMoreEvent(p, Marks(p, before), a.event);
  }

  lemma OneMoreOrderly(p: Policy, before: seq<Attempt>, a: Attempt)
    ensures Orderly(p, before + [a])
            <==> && Orderly(p, before) && (before != [] ==> Clock(before) <= a.event.now)
                 && (a.event.op.Issue? ==> a.event.op.id !in StateAfter(p, before).records)
  {
    assert (before + [a])[..|before|] == before;
  }

  lemma SavedOfOneMore(outcomes: seq<Outcome>, o: Outcome)
    ensures SavedOf(outcomes + [o]) == SavedOf(outcomes) + (if o.saved then [o.grant] else [])
  {
    assert (outcomes + [o])[..|outcomes|] == outcomes;
  }

  lemma SavedNow(p: Policy, marks: seq<Event>, before: seq<Outcome>, a: Attempt, s: State)
    requires s == Run(p, marks) && SavedOf(before) == Log(p, marks)
    ensures SavedOf(before + GrantedNow(p, s, a)) == Log(p, if Lost(p, s, a) then marks else marks + [a.event])
  {
    OneMoreEvent(p, marks, a.event);
    assert before + [] == before;
    if Grants(p, s, a.event) {
      SavedOfOneMore(before, Outcome(GrantOf(a.event.op.request, a.event.now), a.saved));
    }
  }

  /** The saved grants are those of the run without the lost events. */
  lemma {:induction false} SavedAreLogged(p: Policy, attempts: seq<Attempt>)
    ensures SavedOf(Granted(p, attempts)) == Log(p, Marks(p, attempts))
  {
    if attempts != [] {
      var k := |attempts| - 1;
      SavedAreLogged(p, attempts[..k]);
      assert attempts[..k] + [attempts[k]] == attempts;
      OneMoreAttempt(p, attempts[..k], attempts[k]);
      SavedNow(p, Marks(p, attempts[..k]), Granted(p, attempts[..k]), attempts[k], StateAfter(p, attempts[..k]));
    }
  }

  lemma {:induction false} MarksAreProper(p: Policy, attempts: seq<Attempt>)
    requires Orderly(p, attempts)
    ensures Proper(p, Marks(p, attempts))
    ensures Marks(p, attempts) != [] ==> attempts != [] && Last(Marks(p, attempts)) <= Clock(attempts)
  {
    if attempts != [] {
      var k := |attempts| - 1;
      var before, a := attempts[..k], attempts[k];
      assert before + [a] == attempts;
      OneMoreOrderly(p, before, a);
      MarksAreProper(p, before);
      OneMoreAttempt(p, before, a);
      OneMoreEvent(p, Marks(p, before), a.event);
    }
  }

  // ---- What the limits still say

  /** The window limit holds of the grants that were saved. */
  lemma SavedGrantsAreLimited(p: Policy, attempts: seq<Attempt>, id: string, from_: real)
    requires ValidPolicy(p) && Orderly(p, attempts)
    ensures CountIn(TimesOf(SavedOf(Granted(p, attempts)), id), from_, from_ + p.windowSeconds)
            <= 2 * p.maxRequestsPerWindow
  {
    SavedAreLogged(p, attempts);
    MarksAreProper(p, attempts);
    AtMostTwiceTheLimit(p, Marks(p, attempts), id, from_);
  }

  predicate SameKey(g: Grant, h: Grant) { g.id == h.id && g.nonce == h.nonce }

  /** A saved grant keeps its credential and nonce from being granted again within the replay time. */
  lemma SavedNonceIsRemembered(p: Policy, attempts: seq<Attempt>, g: Grant, e: Event)
    requires ValidPolicy(p) && Orderly(p, attempts) && g in SavedOf(Granted(p, attempts))
    requires attempts != [] && Clock(attempts) <= e.now
    requires Grants(p, StateAfter(p, attempts), e) && SameKey(g, GrantOf(e.op.request, e.now))
    ensures e.now >= g.at + p.replayTtl
  {
    var marks := Marks(p, attempts);
    SavedAreLogged(p, attempts);
    MarksAreProper(p, attempts);
    var i :| 0 <= i < |Log(p, marks)| && Log(p, marks)[i] == g;
    RunRemembers(p, marks);
    StepRemembers(p, Run(p, marks), e, Log(p, marks)[i], Last(marks));
  }

  lemma {:induction false} SavedIsInSavedOf(outcomes: seq<Outcome>, i: nat)
    requires i < |outcomes| && outcomes[i].saved
    ensures outcomes[i].grant in SavedOf(outcomes)
  {
    if i < |outcomes| - 1 {
      SavedIsInSavedOf(outcomes[..|outcomes| - 1], i);
    }
  }

  /** If a credential and nonce are granted again within the replay time, the earlier grant was lost. */
  lemma {:induction false} EarlyRepeatMeansLoss(p: Policy, attempts: seq<Attempt>, i: nat, j: nat)
    requires ValidPolicy(p) && Orderly(p, attempts) && i < j < |Granted(p, attempts)|
    requires SameKey(Granted(p, attempts)[i].grant, Granted(p, attempts)[j].grant)
    requires Granted(p, attempts)[j].grant.at < Granted(p, attempts)[i].grant.at + p.replayTtl
    ensures !Granted(p, attempts)[i].saved
  {
    var k := |attempts| - 1;
    var before := Granted(p, attempts[..k]);
    if j < |before| {
      EarlyRepeatMeansLoss(p, attempts[..k], i, j);
    } else if before[i].saved {
      SavedIsInSavedOf(before, i);
      SavedNonceIsRemembered(p, attempts[..k], before[i].grant, attempts[k].event);
    }
  }

  // ---- Lost grants are not limited

  /** `n` times the same request, each granted and lost. */
  function Repeated(a: Attempt, n: nat): seq<Attempt> {
    if n == 0 then [] else Repeated(a, n - 1) + [a]
  }

  /** A lost grant leaves everything as it was, so that it can be had again. */
  lemma LossChangesNothing(p: Policy, before: seq<Attempt>, a: Attempt)
    requires Lost(p, StateAfter(p, before), a) && Orderly(p, before)
    requires before != [] ==> Clock(before) <= a.event.now
    ensures Orderly(p, before + [a]) && StateAfter(p, before + [a]) == StateAfter(p, before)
    ensures Granted(p, before + [a]) == Granted(p, before) + [Outcome(GrantOf(a.event.op.request, a.event.now), false)]
  {
    OneMoreAttempt(p, before, a);
    OneMoreOrderly(p, before, a);
  }

  function Copies(o: Outcome, n: nat): seq<Outcome> {
    if n == 0 then [] else Copies(o, n - 1) + [o]
  }

  /** `all` goes on from `attempts` with `n` copies of `a`, and each of them was granted, with outcome `o`. */
  ghost predicate AllGranted(
    p: Policy, attempts: seq<Attempt>, a: Attempt, o: Outcome, n: nat, all: seq<Attempt>)
  {
    && all == attempts + Repeated(a, n) && Orderly(p, all) && StateAfter(p, all) == StateAfter(p, attempts)
    && (all != [] ==> Clock(all) <= a.event.now)
    && Granted(p, all) == Granted(p, attempts) + Copies(o, n)
  }

  ghost predicate Repeatable(p: Policy, attempts: seq<Attempt>, a: Attempt, o: Outcome) {
    && Lost(p, StateAfter(p, attempts), a) && Orderly(p, attempts)
    && (attempts != [] ==> Clock(attempts) <= a.event.now)
    && o == Outcome(GrantOf(a.event.op.request, a.event.now), false)
  }

  lemma NoCopy(p: Policy, attempts: seq<Attempt>, a: Attempt, o: Outcome)
    requires Repeatable(p, attempts, a, o)
    ensures AllGranted(p, attempts, a, o, 0, attempts)
  {
    assert attempts + [] == attempts;
    assert Granted(p, attempts) + [] == Granted(p, attempts);
  }

  lemma OneMoreCopy(p: Policy, attempts: seq<Attempt>, a: Attempt, o: Outcome, n: nat, all: seq<Attempt>)
    requires Repeatable(p, attempts, a, o) && AllGranted(p, attempts, a, o, n, all)
    ensures AllGranted(p, attempts, a, o, n + 1, all + [a])
  {
    LossChangesNothing(p, all, a);
  }

  ghost function CopiesOf(p: Policy, attempts: seq<Attempt>, a: Attempt, o: Outcome): (nat, seq<Attempt>) -> bool {
    (n: nat, all: seq<Attempt>) => AllGranted(p, attempts, a, o, n, all)
  }

  /** What is granted once and lost is granted any number of times, at the same instant, under the same nonce. */
  lemma LostGrantsAreUnlimited(p: Policy, attempts: seq<Attempt>, a: Attempt, o: Outcome, m: nat)
    returns (all: seq<Attempt>)
    requires Repeatable(p, attempts, a, o)
    ensures AllGranted(p, attempts, a, o, m, all)
  {
    var soFar, next := CopiesOf(p, attempts, a, o), (n: nat) => a;
    NoCopy(p, attempts, a, o);
    forall n: nat, before ensures GoesOn(soFar, next, m, n, before) {
      if soFar(n, before) {
        OneMoreCopy(p, attempts, a, o, n, before);
      }
    }
    all := EventByEvent(soFar, attempts, next, m, m);
  }

  /** So neither limit binds what is not saved: any number of grants in one instant, under a limit of one. */
  lemma LossesDefeatTheLimits(n: nat) returns (p: Policy, attempts: seq<Attempt>, o: Outcome)
    ensures ValidPolicy(p) && p.maxRequestsPerWindow == 1 && Orderly(p, attempts)
    ensures Granted(p, attempts) == Copies(o, n)
  {
    p := TightPolicy(1);
    var ask := Attempt(Event(Ask(0), 0.0), false);
    var issue := Attempt(Event(Issue("c", "cell", {"work:claim"}, 4), 0.0), true);
    IssuedCanAsk(p, issue, ask);
    o := Outcome(GrantOf(Ask(0).request, 0.0), false);
    attempts := LostGrantsAreUnlimited(p, [issue], ask, o, n);
  }

  lemma IssuedCanAsk(p: Policy, issue: Attempt, ask: Attempt)
    requires p == TightPolicy(1) && ask == Attempt(Event(Ask(0), 0.0), false)
    requires issue == Attempt(Event(Issue("c", "cell", {"work:claim"}, 4), 0.0), true)
    ensures Orderly(p, [issue]) && Granted(p, [issue]) == [] && Lost(p, StateAfter(p, [issue]), ask)
  {
    OneMoreAttempt(p, [], issue);
    OneMoreOrderly(p, [], issue);
    assert [] + [issue] == [issue];
    assert ActiveIds(map[], 0.0) == {} == ActiveIdsOf(map[], "cell", 0.0);
    assert StateAfter(p, [issue]).records == map["c" := Record("cell", {"work:claim"}, 4.0, false, 0, 0, 0)];
    assert Remembered(map[], 0.0) == map[];
  }
}
