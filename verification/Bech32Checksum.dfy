/**
 `bech32_polymod`, the BCH checksum of section "Checksum" of BIP-173: its
 round over the bits of the register, and the integer loop of the script,
 proved to compute the same register.
 */
module Bech32Checksum {
  import opened Numerals
  import opened ShiftRegister

  // ---- Numbers as bits ----

  function Bools(ds: seq<nat>): (w: Bits)
    ensures |w| == |ds| && forall i :: 0 <= i < |w| ==> w[i] == (ds[i] == 1)
  {
    seq(|ds|, i requires 0 <= i < |ds| => ds[i] == 1)
  }

  function Nats(w: Bits): (ds: seq<nat>)
    ensures |ds| == |w| && Below(2, ds) && forall i :: 0 <= i < |w| ==> ds[i] == if w[i] then 1 else 0
  {
    seq(|w|, i requires 0 <= i < |w| => if w[i] then 1 else 0)
  }

  /** The lowest `len` bits of a number. */
  function ToBits(len: nat, n: nat): (w: Bits)
    ensures |w| == len
  {
    Bools(Digits(2, len, n))
  }

  function FromBits(w: Bits): nat
  {
    Val(2, Nats(w))
  }

  lemma {:induction false} BitsRoundTrip(w: Bits)
    ensures ToBits(|w|, FromBits(w)) == w
  {
    DigitsOfVal(2, Nats(w));
  }

  lemma {:induction false} NumberRoundTrip(len: nat, n: nat)
    requires n < Pow(2, len)
    ensures FromBits(ToBits(len, n)) == n
  {
    ValOfDigits(2, len, n);
    assert Nats(Bools(Digits(2, len, n))) == Digits(2, len, n);
  }

  // ---- The round ----

  predicate IsTable(g: seq<Word>) { |g| == 5 }

  function Pick(on: bool, w: Bits): (r: Bits)
    ensures |r| == |w|
  {
    if on then w else Off(|w|)
  }

  /** XOR of the generators i, i + 1, ... that the bits of `b` select; the lowest bit selects the first. */
  function Feedback(g: seq<Word>, b: Bits, i: nat): (w: Word)
    requires IsTable(g) && |b| == 5 && i <= 5
    decreases 5 - i
  {
    if i == 5 then Off(30) else Xor(Pick(b[4 - i], g[i]), Feedback(g, b, i + 1))
  }

  /** One round: shift five bits out, a value in, and fold the lost bits back. */
  function Step(g: seq<Word>, c: Word, v: Word): Word
    requires IsTable(g)
  {
    Xor(Xor(c[5..] + Off(5), v), Feedback(g, c[..5], 0))
  }

  lemma {:induction false} PickXor(x: bool, y: bool, w: Word, f: Word, h: Word)
    ensures Xor(Pick(x != y, w), Xor(f, h)) == Xor(Xor(Pick(x, w), f), Xor(Pick(y, w), h))
  {
    assert Pick(x != y, w) == Xor(Pick(x, w), Pick(y, w));
    XorSwap(Pick(x, w), Pick(y, w), f, h);
  }

  lemma {:induction false} FeedbackXor(g: seq<Word>, a: Bits, b: Bits, i: nat)
    requires IsTable(g) && |a| == |b| == 5 && i <= 5
    ensures Feedback(g, Xor(a, b), i) == Xor(Feedback(g, a, i), Feedback(g, b, i))
    decreases 5 - i
  {
    if i < 5 {
      FeedbackXor(g, a, b, i + 1);
      PickXor(a[4 - i], b[4 - i], g[i], Feedback(g, a, i + 1), Feedback(g, b, i + 1));
    } else {
      assert Xor(Off(30), Off(30)) == Off(30);
    }
  }

  lemma {:induction false} StepXor(g: seq<Word>, a: Word, b: Word, v: Word, w: Word)
    requires IsTable(g)
    ensures Step(g, Xor(a, b), Xor(v, w)) == Xor(Step(g, a, v), Step(g, b, w))
  {
    var a', b' := a[5..] + Off(5), b[5..] + Off(5);
    assert Xor(a, b)[5..] + Off(5) == Xor(a', b');
    assert Xor(a, b)[..5] == Xor(a[..5], b[..5]);
    XorSwap(a', b', v, w);
    FeedbackXor(g, a[..5], b[..5], 0);
    XorSwap(Xor(a', v), Xor(b', w), Feedback(g, a[..5], 0), Feedback(g, b[..5], 0));
  }

  lemma {:induction false} FeedbackOfZeros(g: seq<Word>, i: nat)
    requires IsTable(g) && i <= 5
    ensures Feedback(g, Off(5), i) == Off(30)
    decreases 5 - i
  {
    if i < 5 { FeedbackOfZeros(g, i + 1); }
  }

  lemma {:induction false} StepShifts(g: seq<Word>, c: Word, e: Bits)
    requires IsTable(g) && c[..5] == Off(5) && |e| == 5
    ensures Step(g, c, Wide(e)) == c[5..] + e
  {
    FeedbackOfZeros(g, 0);
  }

  /** Only zero feeds back to zero in the lowest five bits. */
  ghost predicate LowIndependent(g: seq<Word>)
    requires IsTable(g)
  {
    forall b: Bits :: |b| == 5 && Feedback(g, b, 0)[25..] == Off(5) ==> b == Off(5)
  }

  lemma {:induction false} StepOfZeroOnly(g: seq<Word>, d: Word)
    requires IsTable(g) && LowIndependent(g) && Step(g, d, Off(30)) == Off(30)
    ensures d == Off(30)
  {
    var top, s := d[..5], d[5..] + Off(5);
    assert Xor(s, Off(30)) == s;
    XorCancel(s, Feedback(g, top, 0));
    assert s[25..] == Off(5);
    FeedbackOfZeros(g, 0);
    assert d == top + s[..25];
  }

  /** A round never merges two registers: what the checksum has seen it cannot forget. */
  lemma {:induction false} StepInjective(g: seq<Word>, a: Word, b: Word, v: Word)
    requires IsTable(g) && LowIndependent(g) && Step(g, a, v) == Step(g, b, v)
    ensures a == b
  {
    StepXor(g, a, b, v, v);
    XorCancel(v, v);
    XorCancel(Step(g, a, v), Step(g, b, v));
    StepOfZeroOnly(g, Xor(a, b));
    XorCancel(a, b);
  }

  // ---- The generators of BIP-173 ----

  /** GEN in the script. */
  function Gen(): (g: seq<nat>)
    ensures |g| == 5
  {
    [0x3b6a57b2, 0x26508e6d, 0x1ea119fa, 0x3d4233dd, 0x2a1462b3]
  }

  function Words(g: seq<nat>): (t: seq<Word>)
    ensures |t| == |g| && forall i :: 0 <= i < |t| ==> t[i] == ToBits(30, g[i])
  {
    seq(|g|, i requires 0 <= i < |g| => ToBits(30, g[i]))
  }

  lemma {:induction false} FeedbackUnfolded(g: seq<Word>, b: Bits)
    requires IsTable(g) && |b| == 5
    ensures Feedback(g, b, 0) == Xor(Pick(b[4], g[0]), Xor(Pick(b[3], g[1]), Xor(Pick(b[2], g[2]),
                                 Xor(Pick(b[1], g[3]), Xor(Pick(b[0], g[4]), Off(30))))))
  {
    assert Feedback(g, b, 3) == Xor(Pick(b[1], g[3]), Feedback(g, b, 4));
    assert Feedback(g, b, 1) == Xor(Pick(b[3], g[1]), Feedback(g, b, 2));
  }

  lemma {:induction false} FiveDigits(n: nat)
    ensures Digits(2, 5, n) == [n / 16 % 2, n / 8 % 2, n / 4 % 2, n / 2 % 2, n % 2]
  {
    assert Digits(2, 2, n / 8) == [n / 16 % 2, n / 8 % 2];
    assert Digits(2, 3, n / 4) == Digits(2, 2, n / 8) + [n / 4 % 2];
    assert Digits(2, 4, n / 2) == Digits(2, 3, n / 4) + [n / 2 % 2];
  }

  /** The lowest five bits of each generator. */
  ghost predicate LowTable(g: seq<Word>)
    requires IsTable(g)
  {
    && g[0][25] && !g[0][26] && !g[0][27] && g[0][28] && !g[0][29]
    && !g[1][25] && g[1][26] && g[1][27] && !g[1][28] && g[1][29]
    && g[2][25] && g[2][26] && !g[2][27] && g[2][28] && !g[2][29]
    && g[3][25] && g[3][26] && g[3][27] && !g[3][28] && g[3][29]
    && g[4][25] && !g[4][26] && !g[4][27] && g[4][28] && g[4][29]
  }

  /** The five equations over GF(2) that follow have only the zero solution. */
  lemma {:induction false} LowTableIndependent(g: seq<Word>, b: Bits)
    requires IsTable(g) && LowTable(g) && |b| == 5 && Feedback(g, b, 0)[25..] == Off(5)
    ensures b == Off(5)
  {
    FeedbackUnfolded(g, b);
    var f := Feedback(g, b, 0);
    assert !f[25..][0] && !f[25..][1] && !f[25..][2] && !f[25..][3] && !f[25..][4];
    assert f[25] == (b[4] != (b[2] != (b[1] != b[0])));
    assert f[26] == (b[3] != (b[2] != b[1]));
    assert f[27] == (b[3] != b[1]);
    assert f[28] == (b[4] != (b[2] != b[0]));
    assert f[29] == (b[3] != (b[1] != b[0]));
  }

  /** The lowest five bits of a number. */
  predicate Low(n: nat, b4: bool, b3: bool, b2: bool, b1: bool, b0: bool)
  {
    && (n / 16 % 2 == 1) == b4 && (n / 8 % 2 == 1) == b3 && (n / 4 % 2 == 1) == b2
    && (n / 2 % 2 == 1) == b1 && (n % 2 == 1) == b0
  }

  lemma {:induction false} LowBits(g: nat, b4: bool, b3: bool, b2: bool, b1: bool, b0: bool)
    requires Low(g, b4, b3, b2, b1, b0)
    ensures var w := ToBits(30, g); w[25] == b4 && w[26] == b3 && w[27] == b2 && w[28] == b1 && w[29] == b0
  {
    DigitsSuffix(2, 30, 5, g);
    FiveDigits(g);
    var d := Digits(2, 5, g);
    forall i | 25 <= i < 30 ensures ToBits(30, g)[i] == (d[i - 25] == 1) {
      assert Digits(2, 30, g)[25..][i - 25] == d[i - 25];
    }
  }

  predicate LowNumbers(g: seq<nat>)
    requires |g| == 5
  {
    && Low(g[0], true, false, false, true, false)
    && Low(g[1], false, true, true, false, true)
    && Low(g[2], true, true, false, true, false)
    && Low(g[3], true, true, true, false, true)
    && Low(g[4], true, false, false, true, true)
  }

  lemma {:induction false} LowNumbersLowTable(g: seq<nat>)
    requires |g| == 5 && LowNumbers(g)
    ensures LowTable(Words(g))
  {
    LowBits(g[0], true, false, false, true, false);
    LowBits(g[1], false, true, true, false, true);
    LowBits(g[2], true, true, false, true, false);
    LowBits(g[3], true, true, true, false, true);
    LowBits(g[4], true, false, false, true, true);
  }

  lemma {:induction false} GeneratorsAreLow(g: seq<nat>)
    requires g == Gen()
    ensures LowNumbers(g)
  {
  }

  lemma {:induction false} GeneratorsLowTable(g: seq<nat>)
    requires g == Gen()
    ensures LowTable(Words(g))
  {
    GeneratorsAreLow(g);
    LowNumbersLowTable(g);
  }

  lemma {:induction false} GeneratorsIndependent(g: seq<nat>)
    requires g == Gen()
    ensures LowIndependent(Words(g))
  {
    GeneratorsLowTable(g);
    var t := Words(g);
    forall b: Bits | |b| == 5 && Feedback(t, b, 0)[25..] == Off(5) ensures b == Off(5) {
      LowTableIndependent(t, b);
    }
  }

  // ---- The checksum of a value sequence ----

  function RoundOf(g: seq<Word>): Round
    requires IsTable(g)
  {
    (c: Word, v: Word) => Step(g, c, v)
  }

  lemma {:induction false} RoundProperties(g: seq<Word>)
    requires IsTable(g) && LowIndependent(g)
    ensures Linear(RoundOf(g)) && Shifts(RoundOf(g)) && Injective(RoundOf(g))
  {
    var step := RoundOf(g);
    forall a: Word, b: Word, v: Word, w: Word
      ensures step(Xor(a, b), Xor(v, w)) == Xor(step(a, v), step(b, w))
    {
      StepXor(g, a, b, v, w);
    }
    forall c: Word, e: Bits | c[..5] == Off(5) && |e| == 5
      ensures step(c, Wide(e)) == c[5..] + e
    {
      StepShifts(g, c, e);
    }
    forall a: Word, b: Word, v: Word | step(a, v) == step(b, v)
      ensures a == b
    {
      StepInjective(g, a, b, v);
    }
  }

  /** The register that holds the number 1. */
  function One(): Word
  {
    Off(29) + [true]
  }

  lemma {:induction false} OneBits(n: nat)
    requires n == 1
    ensures ToBits(30, n) == One()
  {
    ValZeros(2, 29);
    ValSnoc(2, Zeros(29), 1);
    DigitsOfVal(2, Zeros(29) + [1]);
  }

  /** The register after the values, from the initial register 1. */
  function Register(gen: seq<nat>, values: seq<nat>): Word
    requires |gen| == 5
  {
    Run(RoundOf(Words(gen)), One(), Words(values))
  }

  /** XOR of integers of at most 30 bits. */
  function IntXor(x: nat, y: nat): nat
  {
    FromBits(Xor(ToBits(30, x), ToBits(30, y)))
  }

  lemma {:induction false} FromBitsAppend(x: Bits, y: Bits)
    ensures Pow(2, |y|) > 0
    ensures FromBits(x + y) == FromBits(x) * Pow(2, |y|) + FromBits(y)
    ensures FromBits(x + y) / Pow(2, |y|) == FromBits(x)
    ensures FromBits(x + y) % Pow(2, |y|) == FromBits(y)
  {
    assert Nats(x + y) == Nats(x) + Nats(y);
    ValAppend(2, Nats(x), Nats(y));
    ValSplit(2, Nats(x), Nats(y));
  }

  lemma {:induction false} FromBitsBound(w: Bits)
    ensures FromBits(w) < Pow(2, |w|)
  {
    ValBound(2, Nats(w));
  }

  lemma {:induction false} BitOf(len: nat, n: nat, k: nat)
    requires k < len
    ensures ToBits(len, n)[len - 1 - k] <==> n / Pow(2, k) % 2 == 1
  {
    assert Digits(2, len, n) == Digits(2, len - 1, n / 2) + [n % 2];
    if k > 0 {
      BitOf(len - 1, n / 2, k - 1);
      DivDiv(n, 2, Pow(2, k - 1));
    }
  }

  /** The mask and shift of the script are a cut of the register. */
  lemma {:induction false} ShiftMask(c: Word)
    ensures var n := FromBits(c);
            ToBits(5, n / 0x2000000) == c[..5] && ToBits(30, n % 0x2000000 * 32) == c[5..] + Off(5)
  {
    var n := FromBits(c);
    PowersOfTwo();
    assert c == c[..5] + c[5..];
    FromBitsAppend(c[..5], c[5..]);
    BitsRoundTrip(c[..5]);
    FromBitsAppend(c[5..], Off(5));
    ValZeros(2, 5);
    assert Nats(Off(5)) == Zeros(5);
    BitsRoundTrip(c[5..] + Off(5));
  }

  lemma {:induction false} IntXorBits(x: nat, y: nat)
    ensures ToBits(30, IntXor(x, y)) == Xor(ToBits(30, x), ToBits(30, y))
  {
    BitsRoundTrip(Xor(ToBits(30, x), ToBits(30, y)));
  }

  // ---- The loop of the script ----

  lemma {:induction false} XorOff(w: Word)
    ensures Xor(w, Off(30)) == w
  {
  }

  lemma {:induction false} NumberBelow(x: nat, y: nat)
    ensures IntXor(x, y) < 0x40000000
  {
    PowersOfTwo();
    FromBitsBound(Xor(ToBits(30, x), ToBits(30, y)));
  }

  /** The register once the generators i, i + 1, ... are folded into `chk`. */
  ghost function Folded(gen: seq<nat>, b: nat, i: nat, chk: nat): Word
    requires |gen| == 5 && i <= 5
  {
    Xor(ToBits(30, chk), Feedback(Words(gen), ToBits(5, b), i))
  }

  lemma {:induction false} FoldOne(gen: seq<nat>, b: nat, i: nat, chk: nat)
    requires |gen| == 5 && i < 5
    ensures Folded(gen, b, i, chk) == Folded(gen, b, i + 1, if b / Pow(2, i) % 2 == 1 then IntXor(chk, gen[i]) else chk)
  {
    BitOf(5, b, i);
    IntXorBits(chk, gen[i]);
    XorAssoc(ToBits(30, chk), Pick(ToBits(5, b)[4 - i], Words(gen)[i]), Feedback(Words(gen), ToBits(5, b), i + 1));
    XorOff(ToBits(30, chk));
  }

  lemma {:induction false} FoldDone(gen: seq<nat>, b: nat, chk: nat)
    requires |gen| == 5
    ensures Folded(gen, b, 5, chk) == ToBits(30, chk)
  {
    XorOff(ToBits(30, chk));
  }

  lemma {:induction false} XorAssoc(a: Word, b: Word, c: Word)
    ensures Xor(a, Xor(b, c)) == Xor(Xor(a, b), c)
  {
  }

  /** The inner loop, over the five bits that were shifted out. */
  method FoldGenerators(gen: seq<nat>, b: nat, start: nat) returns (chk: nat)
    requires |gen| == 5 && start < 0x40000000
    ensures chk < 0x40000000
    ensures ToBits(30, chk) == Folded(gen, b, 0, start)
  {
    chk := start;
    var i := 0;
    while i < 5
      invariant i <= 5 && chk < 0x40000000
      invariant Folded(gen, b, i, chk) == Folded(gen, b, 0, start)
    {
      FoldOne(gen, b, i, chk);
      NumberBelow(chk, gen[i]);
      chk := if b / Pow(2, i) % 2 == 1 then IntXor(chk, gen[i]) else chk;
      i := i + 1;
    }
    FoldDone(gen, b, chk);
  }

  lemma {:induction false} RoundOnNumbers(gen: seq<nat>, chk: nat, v: nat)
    requires |gen| == 5 && chk < 0x40000000
    ensures Step(Words(gen), ToBits(30, chk), ToBits(30, v))
         == Folded(gen, chk / 0x2000000, 0, IntXor(chk % 0x2000000 * 32, v))
  {
    PowersOfTwo();
    NumberRoundTrip(30, chk);
    ShiftMask(ToBits(30, chk));
    IntXorBits(chk % 0x2000000 * 32, v);
  }

  lemma {:induction false} RegisterSnoc(gen: seq<nat>, values: seq<nat>, k: nat)
    requires |gen| == 5 && k < |values|
    ensures Register(gen, values[..k + 1]) == Step(Words(gen), Register(gen, values[..k]), ToBits(30, values[k]))
  {
    var step := RoundOf(Words(gen));
    assert Words(values[..k + 1]) == Words(values[..k]) + [ToBits(30, values[k])];
    RunAppend(step, One(), Words(values[..k]), [ToBits(30, values[k])]);
  }

  method Polymod(gen: seq<nat>, values: seq<nat>) returns (chk: nat)
    requires |gen| == 5 && Below(0x40000000, values)
    ensures chk < 0x40000000
    ensures ToBits(30, chk) == Register(gen, values)
  {
    chk := 1;
    OneBits(chk);
    for k := 0 to |values|
      invariant chk < 0x40000000
      invariant ToBits(30, chk) == Register(gen, values[..k])
    {
      RoundOnNumbers(gen, chk, values[k]);
      NumberBelow(chk % 0x2000000 * 32, values[k]);
      RegisterSnoc(gen, values, k);
      chk := FoldGenerators(gen, chk / 0x2000000, IntXor(chk % 0x2000000 * 32, values[k]));
    }
    assert values[..|values|] == values;
  }
}
