/** The cyclic data cursor of the CPU and CUDA training loops. */
module Cursor {
  import opened Arithmetic
  import opened Wrappers

  /** Shard size, batch size and micro-batches per optimizer step. */
  datatype Shard = Shard(size: nat, batch: nat, accumulation: nat)

  /** The shard positions one micro-batch draws. */
  function Batch(size: nat, cursor: nat, batch: nat): seq<nat>
    requires size >= 1
  {
    seq(batch, offset => (cursor + offset) % size)
  }

  /** The endless sample stream that starts at a cursor, cut after `n` draws. */
  function Draws(size: nat, start: nat, n: nat): (d: seq<nat>)
    requires size >= 1
    ensures |d| == n
  {
    seq(n, k => (start + k) % size)
  }

  /** Draws that a number of optimizer steps takes. */
  function Used(s: Shard, steps: nat): nat { steps * (s.accumulation * s.batch) }

  /** The cursor points where the stream from `start` stands after `n` draws. */
  predicate At(size: nat, cursor: nat, start: nat, n: nat)
    requires size >= 1
  {
    cursor % size == (start + n) % size
  }

  // ---- Remainders

  lemma ModAdd(a: int, b: int, m: int)
    requires m >= 1
    ensures (a % m + b) % m == (a + b) % m
  {
    var q, r := (a + b) / m, (a + b) % m;
    DivUnique(a % m + b, m, q - a / m, r);
  }

  lemma SameRemainder(a: int, b: int, c: int, m: int)
    requires m >= 1 && a % m == b % m
    ensures (a + c) % m == (b + c) % m
  {
    ModAdd(a, c, m);
    ModAdd(b, c, m);
  }

  lemma RemainderTwice(a: int, m: int)
    requires m >= 1
    ensures (a % m) % m == a % m
  {
    ModAdd(a, 0, m);
  }

  /** Drawing a micro-batch and moving the cursor continues the stream. */
  lemma BatchContinues(size: nat, cursor: nat, start: nat, n: nat, batch: nat)
    requires size >= 1 && At(size, cursor, start, n)
    ensures Draws(size, start, n) + Batch(size, cursor, batch) == Draws(size, start, n + batch)
    ensures At(size, (cursor + batch) % size, start, n + batch)
  {
    forall offset | 0 <= offset < batch
      ensures Batch(size, cursor, batch)[offset] == Draws(size, start, n + batch)[n + offset]
    {
      SameRemainder(cursor, start + n, offset, size);
    }
    SameRemainder(cursor, start + n, batch, size);
    RemainderTwice(cursor + batch, size);
  }

  // ---- The loops

  /** One optimizer step: `accumulation` micro-batches. */
  method TrainStep(s: Shard, before: nat, ghost start: nat, ghost n: nat) returns (cursor: nat, drawn: seq<nat>)
    requires s.size >= 1 && At(s.size, before, start, n)
    ensures Draws(s.size, start, n) + drawn == Draws(s.size, start, n + s.accumulation * s.batch)
    ensures At(s.size, cursor, start, n + s.accumulation * s.batch)
  {
    cursor, drawn := before, [];
    for micro := 0 to s.accumulation
      invariant Draws(s.size, start, n) + drawn == Draws(s.size, start, n + micro * s.batch)
      invariant At(s.size, cursor, start, n + micro * s.batch)
    {
      BatchContinues(s.size, cursor, start, n + micro * s.batch, s.batch);
      assert (micro + 1) * s.batch == micro * s.batch + s.batch;
      Associates(Draws(s.size, start, n), drawn, Batch(s.size, cursor, s.batch));
      drawn := drawn + Batch(s.size, cursor, s.batch);
      cursor := (cursor + s.batch) % s.size;
    }
  }

  lemma Associates(a: seq<nat>, b: seq<nat>, c: seq<nat>)
    ensures (a + b) + c == a + (b + c)
  {
  }

  /** A saved checkpoint: the optimizer step and the cursor. */
  datatype Checkpoint = Checkpoint(step: nat, cursor: nat)

  /** The CPU loop: a fixed number of local steps; `None` when the shard has no sample indexes. */
  method TrainLocal(s: Shard, start: nat, localSteps: nat) returns (r: Option<(nat, seq<nat>)>)
    ensures r.None? <==> s.size == 0
    ensures r.Some? ==>
              && r.value.1 == Draws(s.size, start, Used(s, localSteps))
              && At(s.size, r.value.0, start, Used(s, localSteps))
  {
    if s.size == 0 {
      return None;
    }
    var cursor, drawn: seq<nat> := start, [];
    for step := 0 to localSteps
      invariant drawn == Draws(s.size, start, Used(s, step))
      invariant At(s.size, cursor, start, Used(s, step))
    {
      var more;
      cursor, more := TrainStep(s, cursor, start, Used(s, step));
      drawn := drawn + more;
    }
    r := Some((cursor, drawn));
  }

  datatype Outcome =
    | Trained(drawn: seq<nat>, checkpoints: seq<Checkpoint>)
    | NoSampleIndexes
    | StepPastTarget
    | NothingToDo

  /** Every checkpoint names its step, and a cursor from which the stream goes on. */
  ghost predicate CheckpointsFollow(s: Shard, start: nat, stepStart: nat, checkpoints: seq<Checkpoint>)
    requires s.size >= 1
  {
    forall k :: 0 <= k < |checkpoints| ==>
      checkpoints[k].step == stepStart + k + 1 && At(s.size, checkpoints[k].cursor, start, Used(s, k + 1))
  }

  /** The CUDA loop: from a start or a loaded checkpoint to a target step, saving a checkpoint after every step. */
  method TrainCuda(s: Shard, start: nat, stepStart: nat, target: nat) returns (r: Outcome)
    ensures s.size == 0 ==> r == NoSampleIndexes
    ensures s.size >= 1 && stepStart > target ==> r == StepPastTarget
    ensures s.size >= 1 && stepStart == target ==> r == NothingToDo
    ensures s.size >= 1 && stepStart < target ==>
              && r.Trained? && r.drawn == Draws(s.size, start, Used(s, target - stepStart))
              && |r.checkpoints| == target - stepStart && CheckpointsFollow(s, start, stepStart, r.checkpoints)
  {
    if s.size == 0 {
      return NoSampleIndexes;
    }
    if stepStart > target {
      return StepPastTarget;
    }
    var cursor, optimizerStep, drawn: seq<nat> := start, stepStart, [];
    var checkpoints: seq<Checkpoint> := [];
    while optimizerStep < target
      invariant stepStart <= optimizerStep <= target && |checkpoints| == optimizerStep - stepStart
      invariant drawn == Draws(s.size, start, Used(s, optimizerStep - stepStart))
      invariant At(s.size, cursor, start, Used(s, optimizerStep - stepStart))
      invariant CheckpointsFollow(s, start, stepStart, checkpoints)
    {
      var more;
      cursor, more := TrainStep(s, cursor, start, Used(s, optimizerStep - stepStart));
      drawn := drawn + more;
      optimizerStep := optimizerStep + 1;
      checkpoints := checkpoints + [Checkpoint(optimizerStep, cursor)];
    }
    if checkpoints == [] {
      return NothingToDo;
    }
    r := Trained(drawn, checkpoints);
  }

  // ---- Resuming

  lemma DrawsContinue(size: nat, start: nat, cursor: nat, n: nat, m: nat)
    requires size >= 1 && At(size, cursor, start, n)
    ensures Draws(size, start, n + m) == Draws(size, start, n) + Draws(size, cursor, m)
  {
    forall k | 0 <= k < m ensures Draws(size, cursor, m)[k] == Draws(size, start, n + m)[n + k] {
      SameRemainder(cursor, start + n, k, size);
    }
  }

  /**
   Stop at any checkpointed step and resume from its saved step and cursor: the
   two sample streams joined are the stream of the uninterrupted run.
   */
  lemma ResumeContinuesTheStream(
    s: Shard, start: nat, stepStart: nat, checkpoints: seq<Checkpoint>, k: nat, target: nat)
    requires s.size >= 1 && k < |checkpoints| && CheckpointsFollow(s, start, stepStart, checkpoints)
    requires checkpoints[k].step <= target
    ensures Draws(s.size, start, Used(s, checkpoints[k].step - stepStart))
          + Draws(s.size, checkpoints[k].cursor, Used(s, target - checkpoints[k].step))
         == Draws(s.size, start, Used(s, target - stepStart))
  {
    var a, b := checkpoints[k].step - stepStart, target - checkpoints[k].step;
    assert target - stepStart == a + b;
    DrawsContinue(s.size, start, checkpoints[k].cursor, Used(s, a), Used(s, b));
  }

  // ---- Fairness

  function CountOf(drawn: seq<nat>, position: nat): nat {
    if drawn == [] then 0
    else CountOf(drawn[..|drawn| - 1], position) + (if drawn[|drawn| - 1] == position then 1 else 0)
  }

  /** The first draw that hits a position. */
  function FirstHit(size: nat, start: nat, position: nat): nat
    requires size >= 1
  {
    (position - start) % size
  }

  lemma HitsWhen(size: nat, start: nat, position: nat, n: nat)
    requires size >= 1 && position < size
    ensures (start + n) % size == position <==> n % size == FirstHit(size, start, position)
  {
    if (start + n) % size == position {
      ModAdd(start + n, 0 - start, size);
    }
    if n % size == FirstHit(size, start, position) {
      SameRemainder(n, position - start, start, size);
      DivUnique(position, size, 0, position);
    }
  }

  lemma QuotientStep(n: nat, size: nat, d: nat)
    requires size >= 1 && d < size
    ensures (n + 1) / size + (if d < (n + 1) % size then 1 else 0)
         == n / size + (if d < n % size then 1 else 0) + (if n % size == d then 1 else 0)
  {
    var q, r := n / size, n % size;
    assert n == q * size + r;
    if r + 1 < size {
      DivUnique(n + 1, size, q, r + 1);
    } else {
      assert n + 1 == (q + 1) * size + 0;
      DivUnique(n + 1, size, q + 1, 0);
    }
  }

  lemma {:induction false} CountIs(size: nat, start: nat, position: nat, n: nat)
    requires size >= 1 && position < size
    ensures CountOf(Draws(size, start, n), position)
         == n / size + (if FirstHit(size, start, position) < n % size then 1 else 0)
  {
    if n == 0 {
      DivUnique(0, size, 0, 0);
    } else {
      var k := n - 1;
      CountIs(size, start, position, k);
      assert Draws(size, start, n)[..k] == Draws(size, start, k);
      HitsWhen(size, start, position, k);
      QuotientStep(k, size, FirstHit(size, start, position));
    }
  }

  /** After any number of draws, every shard position was drawn floor or ceiling of draws / size times. */
  lemma DrawsAreEven(size: nat, start: nat, position: nat, n: nat)
    requires size >= 1 && position < size
    ensures var count := CountOf(Draws(size, start, n), position);
            count == n / size || (count == n / size + 1 && n % size != 0)
  {
    CountIs(size, start, position, n);
  }
}
