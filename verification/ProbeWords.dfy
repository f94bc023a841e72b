/** The same probe on registers of a fixed width, which the masked integer code refines. */
module ProbeWords {
  import opened Arithmetic
  import opened Bitwise
  import opened Probe

  /** A register: its bits, least significant first. */
  type Word = seq<bool>

  function Bits(x: nat, w: nat): (b: Word)
    ensures |b| == w
  {
    if w == 0 then [] else [x % 2 == 1] + Bits(x / 2, w - 1)
  }

  function WXor(a: Word, b: Word): Word
    requires |a| == |b|
  {
    seq(|a|, i requires 0 <= i < |a| => a[i] != b[i])
  }

  /** Shift left; the top bits fall out of the register. */
  function WUp(a: Word, k: nat): Word {
    seq(|a|, i requires 0 <= i < |a| => i >= k && a[i - k])
  }

  function WDown(a: Word, k: nat): Word {
    seq(|a|, i requires 0 <= i < |a| => i + k < |a| && a[i + k])
  }

  /** Ripple-carry addition; the last carry is dropped. */
  function WAdd(a: Word, b: Word, carry: bool): (s: Word)
    requires |a| == |b|
    ensures |s| == |a|
  {
    if a == [] then []
    else
      var out := if a[0] then (if b[0] then true else carry) else (b[0] && carry);
      [(a[0] != b[0]) != carry] + WAdd(a[1..], b[1..], out)
  }

  function WScramble(p: Params, v: Word): (r: Word)
    ensures |r| == |v|
  {
    var a := WXor(v, WUp(v, p.first));
    var b := WXor(a, WDown(a, p.second));
    WXor(b, WUp(b, p.third))
  }

  /** Three wrapping additions, as on a machine whose registers hold every operand. */
  function WRound(p: Params, v: Word, roundAdd: Word, round: Word, index: Word): (r: Word)
    requires |v| == |roundAdd| == |round| == |index|
    ensures |r| == |v|
  {
    WAdd(WAdd(WAdd(WScramble(p, v), roundAdd, false), round, false), index, false)
  }

  function WordOf(p: Params, x: int): (b: Word)
    requires p.modulus >= 1
    ensures |b| == p.word
  {
    Bits(Mask(p, x), p.word)
  }

  function WRounds(p: Params, v: Word, index: int, rounds: nat): (r: Word)
    requires p.modulus >= 1 && |v| == p.word
    ensures |r| == p.word
    decreases rounds
  {
    if rounds == 0 then v
    else WRound(p, WRounds(p, v, index, rounds - 1), WordOf(p, p.roundAdd), WordOf(p, rounds - 1), WordOf(p, index))
  }

  function WValue(p: Params, seed: int, index: int, rounds: nat): Word
    requires p.modulus >= 1
  {
    WRounds(p, WXor(WordOf(p, seed), WordOf(p, index * p.indexMix)), index, rounds)
  }

  // ---- Each operation on integers is the one on registers

  lemma {:induction false} BitAt(x: nat, w: nat, i: nat)
    requires i < w
    ensures Bits(x, w)[i] == (Shr(x, i) % 2 == 1)
    decreases i
  {
    if i > 0 {
      BitAt(x / 2, w - 1, i - 1);
    }
  }

  lemma {:induction false} BitsXor(x: nat, y: nat, w: nat)
    ensures Bits(Xor(x, y), w) == WXor(Bits(x, w), Bits(y, w))
    decreases w
  {
    if w > 0 {
      XorDigits(x, y);
      BitsXor(x / 2, y / 2, w - 1);
    }
  }

  lemma {:induction false} BitsLow(x: nat, w: nat)
    ensures Bits(Low(x, w), w) == Bits(x, w)
    decreases w
  {
    if w > 0 {
      BitsLow(x / 2, w - 1);
    }
  }

  lemma {:induction false} BitsShorter(x: nat, v: nat, w: nat)
    requires v <= w
    ensures Bits(x, w)[..v] == Bits(x, v)
    decreases v
  {
    if v > 0 {
      BitsShorter(x / 2, v - 1, w - 1);
    }
  }

  lemma UpOnce(a: Word, k: nat)
    ensures WUp(WUp(a, k), 1) == WUp(a, k + 1)
  {
  }

  lemma {:induction false} BitsShl(x: nat, k: nat, w: nat)
    ensures Bits(Shl(x, k), w) == WUp(Bits(x, w), k)
    decreases k
  {
    if k > 0 {
      ShlEven(x, k);
      BitsShl(x, k - 1, w);
      var y := Shl(x, k - 1);
      if w > 0 {
        assert Bits(2 * y, w) == [false] + Bits(y, w - 1);
        BitsShorter(y, w - 1, w);
        assert Bits(2 * y, w) == WUp(Bits(y, w), 1);
        UpOnce(Bits(x, w), k - 1);
      }
    }
  }

  lemma {:induction false} TopBitsAreZero(x: nat, w: nat, i: nat)
    requires Fits(x, w) && i >= w
    ensures Shr(x, i) % 2 == 0
  {
    ShrOfFits(x, i, w);
  }

  lemma BitsShr(x: nat, k: nat, w: nat)
    requires Fits(x, w)
    ensures Bits(Shr(x, k), w) == WDown(Bits(x, w), k)
  {
    forall i: nat | i < w ensures Bits(Shr(x, k), w)[i] == WDown(Bits(x, w), k)[i] {
      BitAt(Shr(x, k), w, i);
      ShrShr(x, k, i);
      if i + k < w {
        BitAt(x, w, i + k);
      } else {
        TopBitsAreZero(x, w, i + k);
      }
    }
  }

  lemma {:induction false} BitsAdd(x: nat, y: nat, carry: bool, w: nat)
    ensures Bits(x + y + (if carry then 1 else 0), w) == WAdd(Bits(x, w), Bits(y, w), carry)
    decreases w
  {
    if w > 0 {
      var c := if carry then 1 else 0;
      var out := x % 2 + y % 2 + c >= 2;
      assert (x + y + c) / 2 == x / 2 + y / 2 + (if out then 1 else 0);
      BitsAdd(x / 2, y / 2, out, w - 1);
    }
  }

  lemma {:induction false} MaskDistributes(x: int, y: int, m: int)
    requires m >= 1
    ensures (x % m + y % m) % m == (x + y) % m
  {
    var q := (x + y) / m;
    var r := (x + y) % m;
    DivUnique(x % m + y % m, m, q - x / m - y / m, r);
  }

  lemma WordAdd(p: Params, x: int, y: int)
    requires Good(p)
    ensures WordOf(p, x + y) == WAdd(WordOf(p, x), WordOf(p, y), false)
  {
    var a, b := Mask(p, x), Mask(p, y);
    MaskDistributes(x, y, p.modulus);
    MaskIsLow(p, a + b);
    BitsLow(a + b, p.word);
    BitsAdd(a, b, false, p.word);
  }

  // ---- The refinement

  lemma ScrambleRefines(p: Params, x: nat)
    requires Good(p) && Fits(x, p.word)
    ensures Bits(Scramble(p, x), p.word) == WScramble(p, Bits(x, p.word))
  {
    var w := p.word;
    var a := Xor(x, Low(Shl(x, p.first), w));
    var b := Xor(a, Shr(a, p.second));
    BitsXor(x, Low(Shl(x, p.first), w), w);
    BitsLow(Shl(x, p.first), w);
    BitsShl(x, p.first, w);
    LowLow(Shl(x, p.first), w);
    XorFits(x, Low(Shl(x, p.first), w), w);
    BitsXor(a, Shr(a, p.second), w);
    BitsShr(a, p.second, w);
    BitsXor(b, Low(Shl(b, p.third), w), w);
    BitsLow(Shl(b, p.third), w);
    BitsShl(b, p.third, w);
  }

  lemma MaskOfWord(p: Params, x: nat)
    requires Good(p) && x < p.modulus
    ensures Fits(x, p.word) && Bits(x, p.word) == WordOf(p, x)
  {
    FitsExactly(x, p.word);
    SmallRemainder(x, p.modulus);
  }

  lemma ScrambledWord(p: Params, x: nat)
    requires Good(p) && x < p.modulus
    ensures WordOf(p, Scramble(p, x)) == WScramble(p, Bits(x, p.word))
  {
    MaskOfWord(p, x);
    ScrambleInverts(p, x);
    MaskOfWord(p, Scramble(p, x));
    ScrambleRefines(p, x);
  }

  lemma ThreeAdditions(p: Params, s: int, a: int, b: int, c: int)
    requires Good(p)
    ensures WordOf(p, s + (a + b + c))
            == WAdd(WAdd(WAdd(WordOf(p, s), WordOf(p, a), false), WordOf(p, b), false), WordOf(p, c), false)
  {
    WordAdd(p, s, a);
    WordAdd(p, s + a, b);
    WordAdd(p, s + a + b, c);
    assert s + (a + b + c) == s + a + b + c;
  }

  lemma RoundIs(p: Params, x: nat, round: nat, index: int)
    requires p.modulus >= 1
    ensures Bits(Round(KernelOf(p), x, round, index), p.word)
            == WordOf(p, Scramble(p, x) + (p.roundAdd + round + index))
  {
  }

  lemma RoundRefines(p: Params, x: nat, round: nat, index: int)
    requires Good(p) && x < p.modulus
    ensures Bits(Round(KernelOf(p), x, round, index), p.word)
         == WRound(p, Bits(x, p.word), WordOf(p, p.roundAdd), WordOf(p, round), WordOf(p, index))
  {
    RoundIs(p, x, round, index);
    ScrambledWord(p, x);
    ThreeAdditions(p, Scramble(p, x), p.roundAdd, round, index);
  }

  /** The value before each round is a word, and the register after it holds the next one. */
  ghost predicate Tracks(p: Params, k: Kernel, x: nat, index: int, rounds: nat)
    requires p.modulus >= 1
  {
    var v := Rounds(k, x, index, rounds);
    v < p.modulus && Bits(v, p.word) == WRounds(p, Bits(x, p.word), index, rounds)
  }

  ghost predicate StepRefines(p: Params, k: Kernel, v: nat, round: nat, index: int)
    requires p.modulus >= 1
  {
    v < p.modulus ==>
      && Round(k, v, round, index) < p.modulus
      && Bits(Round(k, v, round, index), p.word)
         == WRound(p, Bits(v, p.word), WordOf(p, p.roundAdd), WordOf(p, round), WordOf(p, index))
  }

  lemma {:induction false} RoundsRefine(p: Params, k: Kernel, x: nat, index: int, rounds: nat)
    requires p.modulus >= 1 && x < p.modulus && forall v, r :: StepRefines(p, k, v, r, index)
    ensures Tracks(p, k, x, index, rounds)
    decreases rounds
  {
    if rounds > 0 {
      RoundsRefine(p, k, x, index, rounds - 1);
      assert StepRefines(p, k, Rounds(k, x, index, rounds - 1), rounds - 1, index);
    }
  }

  lemma KernelRefines(p: Params, v: nat, round: nat, index: int)
    requires Good(p)
    ensures StepRefines(p, KernelOf(p), v, round, index)
  {
    if v < p.modulus {
      KernelInverts(p);
      RoundInverts(KernelOf(p), p.modulus, v, round, index);
      RoundRefines(p, v, round, index);
    }
  }

  /** The masked integer code computes, bit for bit, what 32-bit registers do. */
  lemma CodeRefinesRegisters(p: Params, seed: int, index: int, rounds: nat)
    requires Good(p)
    ensures Bits(Value(p, seed, index, rounds), p.word) == WValue(p, seed, index, rounds)
  {
    forall v: nat, r: nat ensures StepRefines(p, KernelOf(p), v, r, index) {
      KernelRefines(p, v, r, index);
    }
    StartOfMasked(p, seed, index);
    XorOfWords(p, Mask(p, seed), Mask(p, index * p.indexMix));
    BitsXor(Mask(p, seed), Mask(p, index * p.indexMix), p.word);
    RoundsRefine(p, KernelOf(p), Start(p, seed, index), index, rounds);
  }

  /** The browser probe is the 32-bit register machine with shifts 13, 17 and 5 and these two constants. */
  lemma BrowserProbeOnRegisters(seed: int, index: int, rounds: nat)
    ensures Value(XORSHIFT, seed, index, rounds) < 0x1_0000_0000
    ensures Bits(Value(XORSHIFT, seed, index, rounds), 32)
            == WValue(Params(32, 0x1_0000_0000, 13, 17, 5, 0x9E3779B9, 0x6D2B79F5), seed, index, rounds)
  {
    XorshiftIsGood();
    OnlyLowBitsCount(XORSHIFT, seed, index, rounds);
    SeedRecovered(XORSHIFT, Mask(XORSHIFT, seed), index, rounds);
    CodeRefinesRegisters(XORSHIFT, seed, index, rounds);
  }
}
