/** Regrouping of bytes into five-bit symbols and back, most significant bit first. */
module Regroup {
  import opened Numerals
  import opened Wrappers

  // ---- Python's shifts of unbounded integers ----

  function Shl(x: nat, k: nat): nat
  {
    if k == 0 then x else 2 * Shl(x, k - 1)
  }

  function Shr(x: nat, k: nat): nat
  {
    if k == 0 then x else Shr(x, k - 1) / 2
  }

  lemma {:induction false} ShlShl(x: nat, j: nat, k: nat)
    ensures Shl(Shl(x, j), k) == Shl(x, j + k)
  {
    if k > 0 { ShlShl(x, j, k - 1); }
  }

  lemma {:induction false} ShrShr(x: nat, j: nat, k: nat)
    ensures Shr(Shr(x, j), k) == Shr(x, j + k)
  {
    if k > 0 { ShrShr(x, j, k - 1); }
  }

  lemma {:induction false} ShlLess(x: nat, y: nat, k: nat)
    ensures x < y <==> Shl(x, k) < Shl(y, k)
  {
    if k > 0 { ShlLess(x, y, k - 1); }
  }

  /** Shifting up and back down loses nothing; down and back up loses the low bits only. */
  lemma {:induction false} ShlShr(x: nat, k: nat)
    ensures Shr(Shl(x, k), k) == x
    ensures Shl(Shr(x, k), k) <= x < Shl(Shr(x, k) + 1, k)
  {
    if k > 0 {
      ShlShr(x, k - 1);
      ShlShl(x, 1, k - 1);
      ShrShr(Shl(x, k), 1, k - 1);
      assert Shr(Shl(x, k), 1) == Shl(x, k - 1);
      var y := Shr(x, k - 1);
      ShlShl(y / 2, 1, k - 1);
      ShlShl(y / 2 + 1, 1, k - 1);
      ShlLess(y, 2 * (y / 2), k - 1);
      ShlLess(2 * (y / 2 + 1), y + 1, k - 1);
    }
  }

  lemma {:induction false} Shl5(x: nat)
    ensures Shl(x, 5) == 32 * x && Shr(x, 5) == x / 32
  {
    assert Shl(x, 1) == 2 * x && Shr(x, 1) == x / 2;
    assert Shl(x, 2) == 4 * x && Shr(x, 2) == x / 4;
    assert Shl(x, 3) == 8 * x && Shr(x, 3) == x / 8;
    assert Shl(x, 4) == 16 * x && Shr(x, 4) == x / 16;
  }

  lemma {:induction false} Shl8(x: nat)
    ensures Shl(x, 8) == 256 * x && Shr(x, 8) == x / 256
  {
    Shl5(x);
    assert Shl(x, 6) == 64 * x && Shr(x, 6) == x / 64;
    assert Shl(x, 7) == 128 * x && Shr(x, 7) == x / 128;
  }

  lemma {:induction false} PowIsShift(n: nat)
    ensures Pow(32, n) == Shl(1, 5 * n) && Pow(256, n) == Shl(1, 8 * n)
  {
    if n > 0 {
      PowIsShift(n - 1);
      ShlShl(1, 5 * (n - 1), 5);
      Shl5(Shl(1, 5 * (n - 1)));
      ShlShl(1, 8 * (n - 1), 8);
      Shl8(Shl(1, 8 * (n - 1)));
    }
  }

  // ---- Regrouping ----

  /** How many five-bit symbols hold `n` bytes, the last one padded with zeros. */
  function SymbolCount(n: nat): nat
  {
    (8 * n + 4) / 5
  }

  function PadBits(n: nat): (k: nat)
    ensures 8 * n + k == 5 * SymbolCount(n) && k < 5
  {
    5 * SymbolCount(n) - 8 * n
  }

  /** The bits of the bytes, padded with zeros, read five at a time. */
  function ToFives(bytes: seq<nat>): (ds: seq<nat>)
    ensures |ds| == SymbolCount(|bytes|) && Below(32, ds)
  {
    Digits(32, SymbolCount(|bytes|), Shl(Val(256, bytes), PadBits(|bytes|)))
  }

  /**
   Section "Segwit address format" of BIP-173: the bits are rearranged into
   groups of eight; an incomplete group at the end must be four bits or less,
   all zeros, and is discarded.
   */
  function FromFives(ds: seq<nat>): (r: Option<seq<nat>>)
    ensures r.Some? ==> Below(256, r.value) && |r.value| == 5 * |ds| / 8
  {
    var rest := 5 * |ds| % 8;
    var whole := Shr(Val(32, ds), rest);
    if rest > 4 || Shl(whole, rest) != Val(32, ds) then None
    else Some(Digits(256, 5 * |ds| / 8, whole))
  }

  lemma {:induction false} FitsSymbols(v: nat, n: nat, k: nat, count: nat)
    requires v < Pow(256, n) && 8 * n + k == 5 * count
    ensures Shl(v, k) < Pow(32, count)
  {
    PowIsShift(n);
    PowIsShift(count);
    ShlShl(1, 8 * n, k);
    ShlLess(v, Pow(256, n), k);
  }

  lemma {:induction false} ValToFives(bytes: seq<nat>)
    requires Below(256, bytes)
    ensures Val(32, ToFives(bytes)) == Shl(Val(256, bytes), PadBits(|bytes|))
  {
    var n, v, k := |bytes|, Val(256, bytes), PadBits(|bytes|);
    ValBound(256, bytes);
    FitsSymbols(v, n, k, SymbolCount(n));
    ValOfDigits(32, SymbolCount(n), Shl(v, k));
  }

  lemma {:induction false} FromFivesOf(ds: seq<nat>, v: nat, n: nat, k: nat)
    requires |ds| == SymbolCount(n) && k == PadBits(n) && Val(32, ds) == Shl(v, k)
    ensures FromFives(ds) == Some(Digits(256, n, v))
  {
    assert 5 * |ds| % 8 == k && 5 * |ds| / 8 == n;
    ShlShr(v, k);
  }

  lemma {:induction false} RegroupRoundTrip(bytes: seq<nat>)
    requires Below(256, bytes)
    ensures FromFives(ToFives(bytes)) == Some(bytes)
  {
    ValToFives(bytes);
    FromFivesOf(ToFives(bytes), Val(256, bytes), |bytes|, PadBits(|bytes|));
    DigitsOfVal(256, bytes);
  }

  /** Only one symbol sequence decodes to given bytes. */
  lemma {:induction false} RegroupUnique(ds: seq<nat>, bytes: seq<nat>)
    requires Below(32, ds) && FromFives(ds) == Some(bytes)
    ensures ToFives(bytes) == ds
  {
    var rest := 5 * |ds| % 8;
    var v := Shr(Val(32, ds), rest);
    assert SymbolCount(|bytes|) == |ds| && PadBits(|bytes|) == rest;
    assert v < Pow(256, |bytes|) by {
      ValBound(32, ds);
      PowIsShift(|ds|);
      PowIsShift(|bytes|);
      ShlShl(1, 8 * |bytes|, rest);
      ShlLess(v, Pow(256, |bytes|), rest);
    }
    ValOfDigits(256, |bytes|, v);
    DigitsOfVal(32, ds);
  }

  // ---- The loop of the script ----

  /** Taking the next five bits off an accumulator that is never masked. */
  lemma {:induction false} EmitSymbol(val: nat, bits: nat, out: seq<nat>)
    requires bits >= 5 && Val(32, out) == Shr(val, bits)
    ensures Val(32, out + [Shr(val, bits - 5) % 32]) == Shr(val, bits - 5)
  {
    var q := Shr(val, bits - 5);
    ShrShr(val, bits - 5, 5);
    Shl5(q);
    ValSnoc(32, out, q % 32);
  }

  lemma {:induction false} TakeByte(val: nat, byte: nat, bits: nat)
    requires byte < 256
    ensures Shr(Shl(val, 8) + byte, bits + 8) == Shr(val, bits)
  {
    Shl8(val);
    Shl8(256 * val + byte);
    ShrShr(256 * val + byte, 8, bits);
  }

  lemma {:induction false} PadLast(val: nat, bits: nat, out: seq<nat>)
    requires 0 < bits < 5 && Val(32, out) == Shr(val, bits)
    ensures Val(32, out + [Shl(val, 5 - bits) % 32]) == Shl(val, 5 - bits)
  {
    var y := Shl(val, 5 - bits);
    ShlShr(val, 5 - bits);
    ShrShr(y, 5 - bits, bits);
    Shl5(y);
    ValSnoc(32, out, y % 32);
  }

  /** What the loops keep: the symbols after the version are the upper bits of `val`. */
  ghost predicate Emitted(out: seq<nat>, val: nat, bits: nat, total: nat)
  {
    && |out| >= 1 && out[0] == 0 && Below(32, out)
    && total == 5 * (|out| - 1) + bits
    && Val(32, out[1..]) == Shr(val, bits)
  }

  /** The inner loop: emit symbols while five bits are left over. */
  method Drain(val: nat, bits0: nat, out0: seq<nat>, ghost total: nat) returns (bits: nat, out: seq<nat>)
    requires Emitted(out0, val, bits0, total)
    ensures Emitted(out, val, bits, total) && bits < 5
  {
    bits, out := bits0, out0;
    while bits >= 5
      invariant Emitted(out, val, bits, total)
    {
      EmitSymbol(val, bits, out[1..]);
      bits := bits - 5;
      var d := Shr(val, bits) % 32;
      assert (out + [d])[1..] == out[1..] + [d];
      out := out + [d];
    }
  }

  lemma {:induction false} NextByte(witprog: seq<nat>, i: nat, bits: nat, out: seq<nat>)
    requires Below(256, witprog) && i < |witprog| && Emitted(out, Val(256, witprog[..i]), bits, 8 * i)
    ensures Val(256, witprog[..i + 1]) == Shl(Val(256, witprog[..i]), 8) + witprog[i]
    ensures Emitted(out, Val(256, witprog[..i + 1]), bits + 8, 8 * (i + 1))
  {
    var val := Val(256, witprog[..i]);
    assert witprog[..i + 1] == witprog[..i] + [witprog[i]];
    ValSnoc(256, witprog[..i], witprog[i]);
    Shl8(val);
    TakeByte(val, witprog[i], bits);
  }

  lemma {:induction false} SameSymbols(witprog: seq<nat>, ds: seq<nat>)
    requires Below(256, witprog) && |ds| == SymbolCount(|witprog|) && Below(32, ds)
    requires Val(32, ds) == Shl(Val(256, witprog), PadBits(|witprog|))
    ensures ds == ToFives(witprog)
  {
    ValToFives(witprog);
    ValInjective(32, ds, ToFives(witprog));
  }

  lemma {:induction false} Complete(witprog: seq<nat>, out: seq<nat>)
    requires Below(256, witprog) && |out| == 1 + SymbolCount(|witprog|) && out[0] == 0 && Below(32, out)
    requires Val(32, out[1..]) == Shl(Val(256, witprog), PadBits(|witprog|))
    ensures out == [0] + ToFives(witprog)
  {
    SameSymbols(witprog, out[1..]);
    assert out == [out[0]] + out[1..];
  }

  /** `val`, `bits` and `out` as the script updates them; `out` starts with witness version 0. */
  method ConvertBits(witprog: seq<nat>) returns (out: seq<nat>)
    requires Below(256, witprog)
    ensures out == [0] + ToFives(witprog)
  {
    var val, bits := 0, 0;
    out := [0];
    for i := 0 to |witprog|
      invariant val == Val(256, witprog[..i])
      invariant bits < 5 && Emitted(out, val, bits, 8 * i)
    {
      NextByte(witprog, i, bits, out);
      val := Shl(val, 8) + witprog[i];
      bits, out := Drain(val, bits + 8, out, 8 * (i + 1));
    }
    assert witprog[..|witprog|] == witprog;
    if bits > 0 {
      PadLast(val, bits, out[1..]);
      var d := Shl(val, 5 - bits) % 32;
      assert (out + [d])[1..] == out[1..] + [d];
      out := out + [d];
    }
    Complete(witprog, out);
  }
}
