/** The browser probe: a masked xorshift over unbounded integers. */
module Probe {
  import opened Arithmetic
  import opened Bitwise

  /** Word size, modulus, the three shift amounts, and the two constants mixed in. */
  datatype Params = Params(word: nat, modulus: nat, first: nat, second: nat, third: nat, indexMix: int, roundAdd: int)

  const XORSHIFT := Params(32, 0x1_0000_0000, 13, 17, 5, 0x9E3779B9, 0x6D2B79F5)

  /** The modulus is the word's, and the shifts empty the word within the inverse's number of terms. */
  ghost predicate Good(p: Params) {
    && p.modulus == Pow2(p.word)
    && p.word <= 3 * p.first && p.word <= 2 * p.second && p.word <= 7 * p.third
  }

  lemma XorshiftIsGood()
    ensures Good(XORSHIFT)
  {
    assert Pow2(8) == 256;
    assert Pow2(16) == 65536;
    assert Pow2(24) == 16777216;
  }

  /** `x & 0xFFFFFFFF`, also of a negative integer. */
  function Mask(p: Params, x: int): nat
    requires p.modulus >= 1
  {
    x % p.modulus
  }

  lemma MaskIsLow(p: Params, x: nat)
    requires Good(p)
    ensures Mask(p, x) == Low(x, p.word)
  {
    LowIsRemainder(x, p.word);
  }

  // ---- The code

  function Scramble(p: Params, value: nat): nat {
    var a := Xor(value, Low(Shl(value, p.first), p.word));
    var b := Xor(a, Shr(a, p.second));
    Xor(b, Low(Shl(b, p.third), p.word))
  }

  /** The two halves of a round, as functions: scramble a word, and add to it within the word. */
  datatype Kernel = Kernel(scramble: nat -> nat, unscramble: nat -> nat, add: (nat, int) -> nat, roundAdd: int)

  function KernelOf(p: Params): Kernel
    requires p.modulus >= 1
  {
    Kernel((x: nat) => Scramble(p, x), (x: nat) => Unscramble(p, x), (x: nat, y: int) => Mask(p, x + y), p.roundAdd)
  }

  function Round(k: Kernel, value: nat, round: nat, index: int): nat {
    k.add(k.scramble(value), k.roundAdd + round + index)
  }

  function Start(p: Params, seed: int, index: int): nat
    requires p.modulus >= 1
  {
    Mask(p, XorSigned(seed, Mask(p, index * p.indexMix)))
  }

  /** The seed counts only up to its low digits. */
  lemma StartOfMasked(p: Params, seed: int, index: int)
    requires Good(p)
    ensures Start(p, seed, index) == Xor(Mask(p, seed), Mask(p, index * p.indexMix))
  {
    var mix := Mask(p, index * p.indexMix);
    XorSignedMasked(seed, mix, p.word);
    SmallRemainder(mix, p.modulus);
  }

  function Rounds(k: Kernel, value: nat, index: int, rounds: nat): nat
    decreases rounds
  {
    if rounds == 0 then value else Round(k, Rounds(k, value, index, rounds - 1), rounds - 1, index)
  }

  function Value(p: Params, seed: int, index: int, rounds: nat): nat
    requires p.modulus >= 1
  {
    Rounds(KernelOf(p), Start(p, seed, index), index, rounds)
  }

  method ProbeValue(p: Params, seed: int, index: int, rounds: nat) returns (value: nat)
    requires p.modulus >= 1
    ensures value == Value(p, seed, index, rounds)
  {
    value := Mask(p, XorSigned(seed, Mask(p, index * p.indexMix)));
    ghost var k := KernelOf(p);
    for roundIndex := 0 to rounds
      invariant value == Rounds(k, Start(p, seed, index), index, roundIndex)
    {
      value := ProbeRound(p, value, roundIndex, index);
    }
  }

  /** The body of the round loop. */
  method ProbeRound(p: Params, before: nat, roundIndex: nat, index: int) returns (value: nat)
    requires p.modulus >= 1
    ensures value == Round(KernelOf(p), before, roundIndex, index)
  {
    value := Xor(before, Low(Shl(before, p.first), p.word));
    value := Xor(value, Shr(value, p.second));
    value := Xor(value, Low(Shl(value, p.third), p.word));
    assert value == Scramble(p, before);
    value := Mask(p, value + (p.roundAdd + roundIndex + index));
  }

  method BrowserProbeValue(seed: int, index: int, rounds: nat) returns (value: nat)
    ensures value == Value(XORSHIFT, seed, index, rounds)
  {
    value := ProbeValue(XORSHIFT, seed, index, rounds);
  }

  // ---- One xorshift step and its inverse

  /** A shift by any amount within the word, as a function of the amount and the word. */
  type Shift = (nat, nat) -> nat

  function Up(word: nat): Shift { (k: nat, x: nat) => Low(Shl(x, k), word) }

  function Down(): Shift { (k: nat, x: nat) => Shr(x, k) }

  ghost predicate ShiftAt(op: Shift, word: nat, j: nat, k: nat, x: nat, y: nat) {
    Fits(x, word) && Fits(y, word) ==>
      && op(0, x) == x && Fits(op(k, x), word) && (k >= word ==> op(k, x) == 0)
      && op(j, op(k, x)) == op(j + k, x)
      && op(k, Xor(x, y)) == Xor(op(k, x), op(k, y))
  }

  /** Shifts add up, distribute over exclusive or, and empty the word in the end. */
  ghost predicate IsShift(op: Shift, word: nat) {
    forall j, k, x, y :: ShiftAt(op, word, j, k, x, y)
  }

  lemma UpAdds(word: nat, j: nat, k: nat, x: nat)
    requires Fits(x, word)
    ensures Fits(Low(Shl(x, k), word), word)
    ensures Low(Shl(Low(Shl(x, k), word), j), word) == Low(Shl(x, j + k), word)
  {
    LowLow(Shl(x, k), word);
    LowShlLow(Shl(x, k), j, word);
    ShlShl(x, k, j);
  }

  lemma UpIsLinear(word: nat, k: nat, x: nat, y: nat)
    ensures Low(Shl(Xor(x, y), k), word) == Xor(Low(Shl(x, k), word), Low(Shl(y, k), word))
  {
    ShlXor(x, y, k);
    LowXor(Shl(x, k), Shl(y, k), word);
  }

  lemma UpShiftAt(op: Shift, word: nat, j: nat, k: nat, x: nat, y: nat)
    requires op == Up(word)
    ensures ShiftAt(op, word, j, k, x, y)
  {
    if Fits(x, word) && Fits(y, word) {
      UpAdds(word, j, k, x);
      UpIsLinear(word, k, x, y);
      if k >= word {
        LowOfShl(x, k, word);
      }
    }
  }

  lemma UpIsShift(word: nat)
    ensures IsShift(Up(word), word)
  {
    forall j: nat, k: nat, x: nat, y: nat ensures ShiftAt(Up(word), word, j, k, x, y) {
      UpShiftAt(Up(word), word, j, k, x, y);
    }
  }

  lemma DownIsShift(word: nat)
    ensures IsShift(Down(), word)
  {
    forall j: nat, k: nat, x: nat, y: nat ensures ShiftAt(Down(), word, j, k, x, y) {
      if Fits(x, word) && Fits(y, word) {
        ShrFits(x, k, word);
        ShrShr(x, k, j);
        ShrXor(x, y, k);
        if k >= word {
          ShrOfFits(x, k, word);
        }
      }
    }
  }

  function Step(op: Shift, k: nat, x: nat): nat { Xor(x, op(k, x)) }

  /** x ^ (x shifted by k) ^ ... ^ (x shifted by (n-1)k) */
  function Series(op: Shift, k: nat, n: nat, x: nat): nat {
    if n == 0 then 0 else Xor(Series(op, k, n - 1, x), op((n - 1) * k, x))
  }

  lemma {:induction false} SeriesIsWord(op: Shift, word: nat, k: nat, n: nat, x: nat)
    requires IsShift(op, word) && Fits(x, word)
    ensures Fits(Series(op, k, n, x), word)
  {
    ZeroFits(word);
    if n > 0 {
      SeriesIsWord(op, word, k, n - 1, x);
      assert ShiftAt(op, word, 0, (n - 1) * k, x, x);
      XorFits(Series(op, k, n - 1, x), op((n - 1) * k, x), word);
    }
  }

  lemma StepIsWord(op: Shift, word: nat, k: nat, x: nat)
    requires IsShift(op, word) && Fits(x, word)
    ensures Fits(Step(op, k, x), word)
  {
    assert ShiftAt(op, word, 0, k, x, x);
    XorFits(x, op(k, x), word);
  }

  lemma Multiples(n: nat, k: nat)
    requires n >= 1
    ensures n * k == (n - 1) * k + k
  {
  }

  /** The series telescopes on a step. */
  lemma {:induction false} SeriesOfStep(op: Shift, word: nat, k: nat, n: nat, x: nat)
    requires IsShift(op, word) && Fits(x, word)
    ensures Series(op, k, n, Step(op, k, x)) == Xor(x, op(n * k, x))
  {
    if n == 0 {
      assert ShiftAt(op, word, 0, 0, x, x);
      XorZero(x);
    } else {
      var j := (n - 1) * k;
      Multiples(n, k);
      SeriesOfStep(op, word, k, n - 1, x);
      assert ShiftAt(op, word, 0, k, x, x);
      assert ShiftAt(op, word, 0, j, x, op(k, x));
      assert ShiftAt(op, word, j, k, x, x);
      XorCancels(x, op(j, x), op(j + k, x));
    }
  }

  /** The series commutes with the shift, and is linear. */
  lemma {:induction false} SeriesOfXor(op: Shift, word: nat, k: nat, n: nat, x: nat, y: nat)
    requires IsShift(op, word) && Fits(x, word) && Fits(y, word)
    ensures Series(op, k, n, Xor(x, y)) == Xor(Series(op, k, n, x), Series(op, k, n, y))
  {
    if n == 0 {
      XorZero(0);
    } else {
      var j := (n - 1) * k;
      SeriesOfXor(op, word, k, n - 1, x, y);
      assert ShiftAt(op, word, 0, j, x, y);
      XorSwaps(Series(op, k, n - 1, x), Series(op, k, n - 1, y), op(j, x), op(j, y));
    }
  }

  lemma {:induction false} ZeroFits(w: nat)
    ensures Fits(0, w)
  {
    if w > 0 {
      ZeroFits(w - 1);
    }
  }

  lemma {:induction false} ShiftOfSeries(op: Shift, word: nat, k: nat, n: nat, x: nat)
    requires IsShift(op, word) && Fits(x, word)
    ensures op(k, Series(op, k, n, x)) == Series(op, k, n, op(k, x))
  {
    assert ShiftAt(op, word, k, k, x, x);
    if n == 0 {
      assert ShiftAt(op, word, 0, k, 0, 0);
      ZeroFits(word);
      XorZero(op(k, 0));
      XorZero(0);
    } else {
      var j := (n - 1) * k;
      ShiftOfSeries(op, word, k, n - 1, x);
      SeriesIsWord(op, word, k, n - 1, x);
      assert ShiftAt(op, word, k, j, x, x) && ShiftAt(op, word, j, k, x, x);
      assert ShiftAt(op, word, 0, k, Series(op, k, n - 1, x), op(j, x));
    }
  }

  /** The explicit inverse of a step, on both sides. */
  lemma StepInverts(op: Shift, word: nat, k: nat, n: nat, x: nat)
    requires IsShift(op, word) && Fits(x, word) && n * k >= word
    ensures Series(op, k, n, Step(op, k, x)) == x && Step(op, k, Series(op, k, n, x)) == x
  {
    SeriesOfStep(op, word, k, n, x);
    assert ShiftAt(op, word, 0, n * k, x, x);
    XorZero(x);
    ShiftOfSeries(op, word, k, n, x);
    assert ShiftAt(op, word, 0, k, x, x);
    SeriesOfXor(op, word, k, n, x, op(k, x));
  }

  // ---- The whole probe and its inverse

  function Unscramble(p: Params, value: nat): nat {
    Series(Up(p.word), p.first, 3, Series(Down(), p.second, 2, Series(Up(p.word), p.third, 7, value)))
  }

  function Unround(k: Kernel, value: nat, round: nat, index: int): nat {
    k.unscramble(k.add(value, -(k.roundAdd + round + index)))
  }

  function Unrounds(k: Kernel, value: nat, index: int, rounds: nat): nat
    decreases rounds
  {
    if rounds == 0 then value else Unrounds(k, Unround(k, value, rounds - 1, index), index, rounds - 1)
  }

  /** The seed that gives a value. */
  function SeedOf(p: Params, value: nat, index: int, rounds: nat): nat
    requires p.modulus >= 1
  {
    Xor(Unrounds(KernelOf(p), value, index, rounds), Mask(p, index * p.indexMix))
  }

  lemma ScrambleUndone(p: Params, x: nat)
    requires Good(p) && Fits(x, p.word)
    ensures Fits(Scramble(p, x), p.word) && Unscramble(p, Scramble(p, x)) == x
  {
    var up, down := Up(p.word), Down();
    UpIsShift(p.word);
    DownIsShift(p.word);
    var a := Step(up, p.first, x);
    var b := Step(down, p.second, a);
    StepIsWord(up, p.word, p.first, x);
    StepIsWord(down, p.word, p.second, a);
    StepIsWord(up, p.word, p.third, b);
    StepInverts(up, p.word, p.first, 3, x);
    StepInverts(down, p.word, p.second, 2, a);
    StepInverts(up, p.word, p.third, 7, b);
    assert Scramble(p, x) == Step(up, p.third, b);
  }

  lemma ScrambleReached(p: Params, x: nat)
    requires Good(p) && Fits(x, p.word)
    ensures Fits(Unscramble(p, x), p.word) && Scramble(p, Unscramble(p, x)) == x
  {
    var up, down := Up(p.word), Down();
    UpIsShift(p.word);
    DownIsShift(p.word);
    var c := Series(up, p.third, 7, x);
    var d := Series(down, p.second, 2, c);
    SeriesIsWord(up, p.word, p.third, 7, x);
    SeriesIsWord(down, p.word, p.second, 2, c);
    SeriesIsWord(up, p.word, p.first, 3, d);
    StepInverts(up, p.word, p.third, 7, x);
    StepInverts(down, p.word, p.second, 2, c);
    StepInverts(up, p.word, p.first, 3, d);
    assert Scramble(p, Unscramble(p, x))
           == Step(up, p.third, Step(down, p.second, Step(up, p.first, Unscramble(p, x))));
  }

  lemma AddThenSubtract(x: int, y: int, m: int)
    requires 0 <= x < m
    ensures ((x + y) % m - y) % m == x
  {
    var q := (x + y) / m;
    assert (x + y) % m - y == -q * m + x;
    DivUnique((x + y) % m - y, m, -q, x);
  }

  /** On words below `m`, both halves of a round have two-sided inverses. */
  ghost predicate ScramblesBack(k: Kernel, m: nat, x: nat) {
    && k.scramble(x) < m && k.unscramble(x) < m
    && k.unscramble(k.scramble(x)) == x && k.scramble(k.unscramble(x)) == x
  }

  ghost predicate AddsBack(k: Kernel, m: nat, x: nat, y: int) {
    k.add(x, y) < m && k.add(x, -y) < m && k.add(k.add(x, y), -y) == x && k.add(k.add(x, -y), y) == x
  }

  ghost predicate Inverts(k: Kernel, m: nat, x: nat, y: int) {
    x < m ==> ScramblesBack(k, m, x) && AddsBack(k, m, x, y)
  }

  ghost predicate AllInvert(k: Kernel, m: nat) {
    forall x, y :: Inverts(k, m, x, y)
  }

  lemma AddInverts(p: Params, x: nat, y: int)
    requires x < p.modulus
    ensures Mask(p, x + y) < p.modulus && Mask(p, Mask(p, x + y) + -y) == x
  {
    AddThenSubtract(x, y, p.modulus);
    assert Mask(p, x + y) + -y == (x + y) % p.modulus - y;
  }

  lemma KernelAddsBackBy(p: Params, k: Kernel, x: nat, y: int, z: int)
    requires x < p.modulus && k == KernelOf(p) && y + z == 0
    ensures k.add(x, y) < p.modulus && k.add(k.add(x, y), z) == x
  {
    AddInverts(p, x, y);
    assert k.add(x, y) == Mask(p, x + y) && z == -y;
    assert k.add(k.add(x, y), z) == Mask(p, Mask(p, x + y) + z);
  }

  lemma KernelAddsBack(p: Params, x: nat, y: int)
    requires x < p.modulus
    ensures AddsBack(KernelOf(p), p.modulus, x, y)
  {
    KernelAddsBackBy(p, KernelOf(p), x, y, -y);
    KernelAddsBackBy(p, KernelOf(p), x, -y, y);
  }

  lemma KernelScramblesBack(p: Params, x: nat)
    requires Good(p) && x < p.modulus
    ensures ScramblesBack(KernelOf(p), p.modulus, x)
  {
    ScrambleInverts(p, x);
  }

  lemma KernelInverts(p: Params)
    requires Good(p)
    ensures AllInvert(KernelOf(p), p.modulus)
  {
    forall x: nat, y: int ensures Inverts(KernelOf(p), p.modulus, x, y) {
      if x < p.modulus {
        KernelScramblesBack(p, x);
        KernelAddsBack(p, x, y);
      }
    }
  }

  lemma ScrambleInverts(p: Params, x: nat)
    requires Good(p) && x < p.modulus
    ensures Scramble(p, x) < p.modulus && Unscramble(p, x) < p.modulus
    ensures Unscramble(p, Scramble(p, x)) == x && Scramble(p, Unscramble(p, x)) == x
  {
    FitsExactly(x, p.word);
    ScrambleUndone(p, x);
    ScrambleReached(p, x);
    FitsExactly(Scramble(p, x), p.word);
    FitsExactly(Unscramble(p, x), p.word);
  }

  lemma RoundInverts(k: Kernel, m: nat, x: nat, round: nat, index: int)
    requires AllInvert(k, m) && x < m
    ensures Round(k, x, round, index) < m && Unround(k, Round(k, x, round, index), round, index) == x
    ensures Unround(k, x, round, index) < m && Round(k, Unround(k, x, round, index), round, index) == x
  {
    var y := k.roundAdd + round + index;
    assert Inverts(k, m, x, y);
    assert Inverts(k, m, k.scramble(x), y);
    assert Inverts(k, m, k.add(x, -y), y);
  }

  lemma {:induction false} RoundsUndone(k: Kernel, m: nat, x: nat, index: int, rounds: nat)
    requires AllInvert(k, m) && x < m
    ensures Rounds(k, x, index, rounds) < m && Unrounds(k, Rounds(k, x, index, rounds), index, rounds) == x
    decreases rounds
  {
    if rounds > 0 {
      RoundsUndone(k, m, x, index, rounds - 1);
      RoundInverts(k, m, Rounds(k, x, index, rounds - 1), rounds - 1, index);
    }
  }

  lemma {:induction false} RoundsReached(k: Kernel, m: nat, x: nat, index: int, rounds: nat)
    requires AllInvert(k, m) && x < m
    ensures Unrounds(k, x, index, rounds) < m && Rounds(k, Unrounds(k, x, index, rounds), index, rounds) == x
    decreases rounds
  {
    if rounds > 0 {
      RoundInverts(k, m, x, rounds - 1, index);
      RoundsReached(k, m, Unround(k, x, rounds - 1, index), index, rounds - 1);
    }
  }

  lemma XorTwice(x: nat, y: nat)
    ensures Xor(Xor(x, y), y) == x
  {
    XorAssociates(x, y, y);
    XorZero(y);
    XorZero(x);
  }

  lemma XorOfWords(p: Params, x: nat, y: nat)
    requires Good(p) && x < p.modulus && y < p.modulus
    ensures Xor(x, y) < p.modulus && Mask(p, x) == x
  {
    FitsExactly(x, p.word);
    FitsExactly(y, p.word);
    XorFits(x, y, p.word);
    FitsExactly(Xor(x, y), p.word);
    SmallRemainder(x, p.modulus);
  }

  lemma SeedRecovered(p: Params, x: nat, index: int, rounds: nat)
    requires Good(p) && x < p.modulus
    ensures Value(p, x, index, rounds) < p.modulus && SeedOf(p, Value(p, x, index, rounds), index, rounds) == x
  {
    var mix := Mask(p, index * p.indexMix);
    XorOfWords(p, x, mix);
    StartOfMasked(p, x, index);
    KernelInverts(p);
    RoundsUndone(KernelOf(p), p.modulus, Xor(x, mix), index, rounds);
    XorTwice(x, mix);
  }

  lemma ValueReached(p: Params, x: nat, index: int, rounds: nat)
    requires Good(p) && x < p.modulus
    ensures SeedOf(p, x, index, rounds) < p.modulus && Value(p, SeedOf(p, x, index, rounds), index, rounds) == x
  {
    var mix := Mask(p, index * p.indexMix);
    KernelInverts(p);
    RoundsReached(KernelOf(p), p.modulus, x, index, rounds);
    var u := Unrounds(KernelOf(p), x, index, rounds);
    XorOfWords(p, u, mix);
    XorOfWords(p, Xor(u, mix), mix);
    StartOfMasked(p, Xor(u, mix), index);
    XorTwice(u, mix);
  }

  /** For every index and number of rounds, a bijection of 32-bit seeds onto 32-bit values. */
  lemma ProbeIsABijection(x: nat, index: int, rounds: nat)
    requires x < 0x1_0000_0000
    ensures Value(XORSHIFT, x, index, rounds) < 0x1_0000_0000 && SeedOf(XORSHIFT, x, index, rounds) < 0x1_0000_0000
    ensures SeedOf(XORSHIFT, Value(XORSHIFT, x, index, rounds), index, rounds) == x
    ensures Value(XORSHIFT, SeedOf(XORSHIFT, x, index, rounds), index, rounds) == x
  {
    XorshiftIsGood();
    SeedRecovered(XORSHIFT, x, index, rounds);
    ValueReached(XORSHIFT, x, index, rounds);
  }

  /** A seed counts only up to its low 32 bits. */
  lemma OnlyLowBitsCount(p: Params, seed: int, index: int, rounds: nat)
    requires Good(p)
    ensures Value(p, seed, index, rounds) == Value(p, Mask(p, seed), index, rounds)
  {
    StartOfMasked(p, seed, index);
    StartOfMasked(p, Mask(p, seed), index);
    SmallRemainder(Mask(p, seed), p.modulus);
  }
}
