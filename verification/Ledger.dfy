/** The append-only, hash-chained audit ledger. */
module Ledger {
  import opened Wrappers

  /** Everything of an event that its hash covers. */
  datatype Body<K> = Body(sequence: nat, kind: K, previous: string, recordedAt: real)

  datatype Event<K> = Event(body: Body<K>, hash: string)

  /** What the first event names as its predecessor. */
  const GENESIS: string := "sha256:0000000000000000000000000000000000000000000000000000000000000000"

  datatype Finding = Missing | ChainBroken | EventHashMismatch | HeadMismatch | SequenceMismatch

  function HeadOf<K>(events: seq<Event<K>>): string {
    if events == [] then GENESIS else events[|events| - 1].hash
  }

  /** Each event names its predecessor's hash and carries its own. */
  ghost predicate Chained<K>(hash: Body<K> -> string, events: seq<Event<K>>) {
    events == [] ||
    var k := |events| - 1;
    && Chained(hash, events[..k])
    && events[k].body.previous == HeadOf(events[..k])
    && events[k].hash == hash(events[k].body)
  }

  /** The ledger file verifies against a saved head and event count. */
  ghost predicate Verifies<K>(hash: Body<K> -> string, events: seq<Event<K>>, head: string, sequence: nat) {
    events != [] && Chained(hash, events) && HeadOf(events) == head && |events| == sequence
  }

  /** The verification loop reports nothing exactly when the ledger verifies. */
  method VerifyLedger<K>(
    hash: Body<K> -> string, events: seq<Event<K>>, head: string, sequence: nat) returns (errors: seq<Finding>)
    ensures errors == [] <==> Verifies(hash, events, head, sequence)
    ensures Missing in errors <==> events == []
    ensures ChainBroken in errors || EventHashMismatch in errors <==> !Chained(hash, events)
  {
    errors := [];
    var previous := GENESIS;
    var count := 0;
    if events == [] {
      errors := [Missing];
    } else {
      while count < |events|
        invariant 0 <= count <= |events|
        invariant errors == [] && Chained(hash, events[..count]) && previous == HeadOf(events[..count])
      {
        var event := events[count];
        count := count + 1;
        assert events[..count] == events[..count - 1] + [event];
        assert events[..count][..count - 1] == events[..count - 1];
        ChainedPrefix(hash, events, count);
        if event.body.previous != previous {
          errors := [ChainBroken];
          break;
        }
        if event.hash != hash(event.body) {
          errors := [EventHashMismatch];
          break;
        }
        previous := event.hash;
      }
      assert errors == [] ==> events[..count] == events;
    }
    if previous != head {
      errors := errors + [HeadMismatch];
    }
    if count != sequence {
      errors := errors + [SequenceMismatch];
    }
  }

  lemma {:induction false} ChainedPrefix<K>(hash: Body<K> -> string, events: seq<Event<K>>, k: nat)
    requires k <= |events|
    ensures Chained(hash, events) ==> Chained(hash, events[..k])
  {
    if k < |events| {
      ChainedPrefix(hash, events[..|events| - 1], k);
      assert events[..|events| - 1][..k] == events[..k];
    } else {
      assert events[..k] == events;
    }
  }

  function Appended<K>(
    hash: Body<K> -> string, events: seq<Event<K>>, head: string, sequence: nat, kind: K, now: real): Event<K>
  {
    var body := Body(sequence + 1, kind, head, now);
    Event(body, hash(body))
  }

  /** Appending keeps a ledger verified, with the new head and count. */
  lemma AppendKeepsChain<K>(
    hash: Body<K> -> string, events: seq<Event<K>>, head: string, sequence: nat, kind: K, now: real)
    requires Chained(hash, events) && HeadOf(events) == head && |events| == sequence
    ensures var e := Appended(hash, events, head, sequence, kind, now);
            Verifies(hash, events + [e], e.hash, sequence + 1)
  {
    var e := Appended(hash, events, head, sequence, kind, now);
    assert (events + [e])[..|events|] == events;
  }

  /** Somewhere the two ledgers hold different events with the same hash. */
  ghost predicate Clash<K>(hash: Body<K> -> string, a: seq<Event<K>>, b: seq<Event<K>>)
    requires |a| == |b|
  {
    exists i :: 0 <= i < |a| && Collide(hash, a[i].body, b[i].body)
  }

  /** The head and the count determine the whole history, unless the hash collides on the two histories. */
  lemma {:induction false} HeadAndCountDetermineTheLedger<K>(
    hash: Body<K> -> string, a: seq<Event<K>>, b: seq<Event<K>>)
    requires Chained(hash, a) && Chained(hash, b)
    requires HeadOf(a) == HeadOf(b) && |a| == |b|
    ensures a != b <==> Clash(hash, a, b)
  {
    if a != [] && !Clash(hash, a, b) {
      var k := |a| - 1;
      assert a[k] == b[k];
      assert forall i :: 0 <= i < k ==> a[..k][i] == a[i] && b[..k][i] == b[i];
      HeadAndCountDetermineTheLedger(hash, a[..k], b[..k]);
      assert a == a[..k] + [a[k]] && b == b[..k] + [b[k]];
    }
  }

  /** Two ledgers that verify with the same saved head and count differ only where their events collide. */
  lemma VerifiedLedgersAgree<K>(
    hash: Body<K> -> string, a: seq<Event<K>>, b: seq<Event<K>>, head: string, sequence: nat)
    requires Verifies(hash, a, head, sequence) && Verifies(hash, b, head, sequence)
    ensures a == b <==> !Clash(hash, a, b)
  {
    HeadAndCountDetermineTheLedger(hash, a, b);
  }
}
