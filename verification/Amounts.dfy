/**
 Decimal amounts: `parseHumanAmount` against the exact value of the text.
 Arithmetic is exact; only the `Number(...)` guard of the parser sees a rounded value.
 */
module Amounts {
  import opened Numerals
  import opened Wrappers

  // ---- Digit strings ----

  predicate IsDigit(c: char) { '0' <= c <= '9' }

  predicate AllDigits(s: string) { forall i :: 0 <= i < |s| ==> IsDigit(s[i]) }

  function Vals(s: string): (ds: seq<nat>)
    requires AllDigits(s)
    ensures |ds| == |s| && Below(10, ds)
  {
    seq(|s|, i requires 0 <= i < |s| => s[i] as int - '0' as int)
  }

  function Str(ds: seq<nat>): (s: string)
    requires Below(10, ds)
    ensures |s| == |ds| && AllDigits(s) && Vals(s) == ds
  {
    seq(|ds|, i requires 0 <= i < |ds| => (ds[i] + '0' as int) as char)
  }

  /** `BigInt` of a digit string; zero for the empty one, as `safeBigInt` has it. */
  function Number(s: string): nat
    requires AllDigits(s)
  {
    Val(10, Vals(s))
  }

  /** `toString` of an integer. */
  function Dec(n: nat): (s: string)
    ensures s != "" && AllDigits(s)
  {
    if n == 0 then "0" else Str(Minimal(10, n))
  }

  function Text(n: int): string
  {
    if n < 0 then "-" + Dec(-n) else Dec(n)
  }

  lemma {:induction false} NumberOfDec(n: nat)
    ensures Number(Dec(n)) == n
  {
    ValOfMinimal(10, n);
    if n == 0 { assert Vals("0") == [0]; }
  }

  lemma {:induction false} NumberAppend(s: string, t: string)
    requires AllDigits(s) && AllDigits(t)
    ensures Number(s + t) == Number(s) * Pow(10, |t|) + Number(t)
  {
    assert Vals(s + t) == Vals(s) + Vals(t);
    ValAppend(10, Vals(s), Vals(t));
  }

  lemma {:induction false} NumberBelow(s: string)
    requires AllDigits(s)
    ensures Number(s) < Pow(10, |s|)
  {
    ValBound(10, Vals(s));
  }

  function Repeat(c: char, k: nat): (s: string)
    ensures |s| == k && forall i :: 0 <= i < k ==> s[i] == c
  {
    seq(k, _ => c)
  }

  function PadStart(s: string, k: int): string
  {
    if k <= |s| then s else Repeat('0', k - |s|) + s
  }

  function PadEnd(s: string, k: int): string
  {
    if k <= |s| then s else s + Repeat('0', k - |s|)
  }

  function Slice(s: string, k: nat): string
  {
    if k <= |s| then s[..k] else s
  }

  lemma {:induction false} NumberOfZeros(k: nat)
    ensures Number(Repeat('0', k)) == 0
  {
    ValZeros(10, k);
    assert Vals(Repeat('0', k)) == Zeros(k);
  }

  // ---- The parser ----

  /** The characters that `trim` removes. */
  predicate IsSpace(c: char)
  {
    var n := c as int;
    9 <= n <= 13 || n == 0x20 || n == 0xA0 || n == 0x1680 || 0x2000 <= n <= 0x200A
    || n == 0x2028 || n == 0x2029 || n == 0x202F || n == 0x205F || n == 0x3000 || n == 0xFEFF
  }

  function Trim(s: string): string
  {
    if s != "" && IsSpace(s[0]) then Trim(s[1..])
    else if s != "" && IsSpace(s[|s| - 1]) then Trim(s[..|s| - 1])
    else s
  }

  predicate AllSpace(s: string) { forall i :: 0 <= i < |s| ==> IsSpace(s[i]) }

  predicate Trimmed(s: string)
  {
    s == "" || (!IsSpace(s[0]) && !IsSpace(s[|s| - 1]))
  }

  /** White space, then a text that begins and ends with none, then white space. */
  predicate Wrapped(s: string, a: string, t: string, b: string)
  {
    s == a + t + b && AllSpace(a) && AllSpace(b) && Trimmed(t)
  }

  lemma {:induction false} WrappedMore(c: char, s: string, a: string, t: string, b: string)
    requires IsSpace(c) && Wrapped(s, a, t, b)
    ensures Wrapped([c] + s, [c] + a, t, b) && Wrapped(s + [c], a, t, b + [c])
  {
    assert [c] + s == [c] + a + t + b && s + [c] == a + t + (b + [c]);
  }

  /** Trimming takes white space off both ends, and only that. */
  lemma {:induction false} TrimIs(s: string) returns (a: string, b: string)
    ensures Wrapped(s, a, Trim(s), b)
    decreases |s|
  {
    var n := |s| - 1;
    if s != "" && IsSpace(s[0]) {
      a, b := TrimIs(s[1..]);
      WrappedMore(s[0], s[1..], a, Trim(s[1..]), b);
      a := [s[0]] + a;
      assert s == [s[0]] + s[1..];
    } else if s != "" && IsSpace(s[n]) {
      a, b := TrimIs(s[..n]);
      WrappedMore(s[n], s[..n], a, Trim(s[..n]), b);
      b := b + [s[n]];
      assert s == s[..n] + [s[n]];
    } else {
      a, b := "", "";
    }
  }

  /** And there is only one way to do that. */
  lemma {:induction false} TrimUnique(a: string, t: string, b: string)
    requires Wrapped(a + t + b, a, t, b)
    ensures Trim(a + t + b) == t
    decreases |a| + |b|
  {
    var s := a + t + b;
    if a != "" {
      assert s[1..] == a[1..] + t + b;
      TrimUnique(a[1..], t, b);
    } else if b != "" {
      if t == "" {
        assert s[1..] == "" + t + b[1..];
        TrimUnique("", t, b[1..]);
      } else {
        assert s[..|s| - 1] == a + t + b[..|b| - 1];
        TrimUnique(a, t, b[..|b| - 1]);
      }
    } else {
      assert s == t;
    }
  }

  function FirstDot(s: string): (k: nat)
    ensures k <= |s| && (forall i :: 0 <= i < k ==> s[i] != '.') && (k < |s| ==> s[k] == '.')
  {
    if s == "" || s[0] == '.' then 0 else 1 + FirstDot(s[1..])
  }

  /** The two sides of a text that matches `^\d+(\.\d+)?$`; no fraction is the empty one. */
  datatype Decimal = Decimal(whole: string, frac: string)

  function Match(s: string): (r: Option<Decimal>)
    ensures r.Some? ==> AllDigits(r.value.whole) && AllDigits(r.value.frac) && r.value.whole != ""
  {
    var k := FirstDot(s);
    if k == |s| then (if s != "" && AllDigits(s) then Some(Decimal(s, "")) else None)
    else
      var w, f := s[..k], s[k + 1..];
      if w != "" && f != "" && AllDigits(w) && AllDigits(f) then Some(Decimal(w, f)) else None
  }

  /** The grammar: digits, and possibly a point and more digits. */
  predicate Spells(s: string, d: Decimal)
  {
    && d.whole != "" && AllDigits(d.whole) && AllDigits(d.frac)
    && s == if d.frac == "" then d.whole else d.whole + "." + d.frac
  }

  /** A text matches exactly if it is spelled by the grammar, and as what it is. */
  lemma {:induction false} MatchIff(s: string, d: Decimal)
    ensures Match(s) == Some(d) <==> Spells(s, d)
  {
    if Spells(s, d) {
      DotAt(d.whole, d.frac);
      assert d.frac != "" ==> s[..|d.whole|] == d.whole && s[|d.whole| + 1..] == d.frac;
    }
    if Match(s) == Some(d) && FirstDot(s) < |s| {
      assert s == s[..FirstDot(s)] + "." + s[FirstDot(s) + 1..];
    }
  }

  lemma {:induction false} DotAt(w: string, rest: string)
    requires AllDigits(w)
    ensures FirstDot(w + "." + rest) == |w| && FirstDot(w) == |w|
  {
    if w != "" {
      assert (w + "." + rest)[1..] == w[1..] + "." + rest;
      DotAt(w[1..], rest);
    }
  }

  /** All digits of a decimal as one number: its value is this over ten to the number of fraction digits. */
  function Unscaled(d: Decimal): nat
    requires AllDigits(d.whole) && AllDigits(d.frac)
  {
    Number(d.whole + d.frac)
  }

  /** Where the rounding of `Number(...)` matters: from `over` on it gives infinity, up to 1/`tiny` it gives zero. */
  datatype Double = Double(over: nat, tiny: nat)

  predicate Overflows(dbl: Double, d: Decimal)
    requires AllDigits(d.whole) && AllDigits(d.frac)
  {
    Unscaled(d) >= dbl.over * Pow(10, |d.frac|)
  }

  predicate Vanishes(dbl: Double, d: Decimal)
    requires AllDigits(d.whole) && AllDigits(d.frac)
  {
    Unscaled(d) * dbl.tiny <= Pow(10, |d.frac|)
  }

  function Digitwise(d: Decimal, decimals: nat): nat
    requires AllDigits(d.whole) && AllDigits(d.frac)
  {
    var whole := Number(d.whole) * Pow(10, decimals);
    if d.frac == "" then whole
    else
      var frac := PadEnd(Slice(d.frac, decimals), decimals);
      whole + Number(frac)
  }

  function ParseHumanAmount(dbl: Double, input: string, decimals: nat): nat
  {
    var m := Match(Trim(input));
    if m.None? || Overflows(dbl, m.value) || Vanishes(dbl, m.value) then 0 else Digitwise(m.value, decimals)
  }

  lemma {:induction false} QuotientIsNat(x: nat, m: nat)
    requires m > 0
    ensures x / m >= 0
  {
  }

  /** What the text denotes in the smallest unit, rounded down. */
  function Exact(d: Decimal, decimals: nat): nat
    requires AllDigits(d.whole) && AllDigits(d.frac)
  {
    var scaled, scale := Unscaled(d) * Pow(10, decimals), Pow(10, |d.frac|);
    QuotientIsNat(scaled, scale);
    scaled / scale
  }

  lemma {:induction false} DivCancel(x: nat, m: nat, n: nat)
    requires m > 0 && n > 0
    ensures m * n > 0 && (x * m) / (m * n) == x / n
  {
    MulLe(1, n, m);
    DivMod(x, n);
    var q, r := x / n, x % n;
    MulLe(r + 1, n, m);
    assert x * m == q * (m * n) + r * m by {
      Distribute(q, n, r, m);
    }
    DivUnique(x * m, m * n, q, r * m);
  }

  lemma {:induction false} ExactPadded(w: nat, f: nat, pk: nat, pe: nat)
    requires pk > 0
    ensures (w * pk + f) * (pk * pe) / pk == w * (pk * pe) + f * pe
  {
    var x := w * pk + f;
    MulAssoc(x, pe, pk);
    assert x * (pk * pe) == x * pe * pk;
    DivUnique(x * (pk * pe), pk, x * pe, 0);
    Distribute(w, pk, f, pe);
  }

  lemma {:induction false} ExactCut(w: nat, f1: nat, f2: nat, pd: nat, pe: nat)
    requires pd > 0 && pe > f2
    ensures pd * pe > 0 && (w * (pd * pe) + (f1 * pe + f2)) * pd / (pd * pe) == w * pd + f1
  {
    var x := w * (pd * pe) + (f1 * pe + f2);
    DivCancel(x, pd, pe);
    Distribute(w, pd, f1, pe);
    DivUnique(x, pe, w * pd + f1, f2);
  }

  lemma {:induction false} DigitwisePadded(d: Decimal, decimals: nat)
    requires AllDigits(d.whole) && AllDigits(d.frac) && |d.frac| <= decimals
    ensures Digitwise(d, decimals) == Number(d.whole) * Pow(10, decimals)
            + Number(d.frac) * Pow(10, decimals - |d.frac|)
  {
    var e := decimals - |d.frac|;
    NumberAppend(d.frac, Repeat('0', e));
    NumberOfZeros(e);
    if d.frac == "" {
      assert Vals(d.frac) == [];
    } else {
      assert Slice(d.frac, decimals) == d.frac;
      if e == 0 { assert d.frac + Repeat('0', e) == d.frac; }
    }
  }

  lemma {:induction false} DigitwiseCut(d: Decimal, decimals: nat, f1: string, f2: string)
    requires AllDigits(d.whole) && AllDigits(d.frac) && AllDigits(f1) && AllDigits(f2)
    requires d.frac == f1 + f2 && |f1| == decimals && f2 != ""
    ensures Digitwise(d, decimals) == Number(d.whole) * Pow(10, decimals) + Number(f1)
  {
    assert PadEnd(Slice(d.frac, decimals), decimals) == f1;
  }

  lemma {:induction false} CutIsExact(d: Decimal, decimals: nat, f1: string, f2: string)
    requires AllDigits(d.whole) && AllDigits(d.frac) && AllDigits(f1) && AllDigits(f2)
    requires d.frac == f1 + f2 && |f1| == decimals && f2 != ""
    ensures Exact(d, decimals) == Number(d.whole) * Pow(10, decimals) + Number(f1)
  {
    PowAdd(10, decimals, |f2|);
    NumberAppend(d.whole, d.frac);
    NumberAppend(f1, f2);
    NumberBelow(f2);
    ExactCut(Number(d.whole), Number(f1), Number(f2), Pow(10, decimals), Pow(10, |f2|));
  }

  lemma {:induction false} PaddedIsExact(d: Decimal, decimals: nat)
    requires AllDigits(d.whole) && AllDigits(d.frac) && |d.frac| <= decimals
    ensures Exact(d, decimals)
         == Number(d.whole) * Pow(10, decimals) + Number(d.frac) * Pow(10, decimals - |d.frac|)
  {
    var k := |d.frac|;
    NumberAppend(d.whole, d.frac);
    PowAdd(10, k, decimals - k);
    ExactPadded(Number(d.whole), Number(d.frac), Pow(10, k), Pow(10, decimals - k));
  }

  /** Cutting and padding digits is exact division. */
  lemma {:induction false} DigitwiseIsExact(d: Decimal, decimals: nat)
    requires AllDigits(d.whole) && AllDigits(d.frac)
    ensures Digitwise(d, decimals) == Exact(d, decimals)
  {
    if |d.frac| <= decimals {
      DigitwisePadded(d, decimals);
      PaddedIsExact(d, decimals);
    } else {
      var f1, f2 := d.frac[..decimals], d.frac[decimals..];
      assert d.frac == f1 + f2;
      DigitwiseCut(d, decimals, f1, f2);
      CutIsExact(d, decimals, f1, f2);
    }
  }

  /** Ten to the decimals stays below the reciprocal of what rounds to zero: true of doubles up to 321 decimals. */
  predicate Fine(dbl: Double, decimals: nat)
  {
    dbl.over > 0 && Pow(10, decimals) < dbl.tiny
  }

  lemma {:induction false} ThousandBelow1024(q: nat)
    ensures Pow(10, 3 * q) <= Pow(2, 10 * q)
  {
    if q > 0 {
      ThousandBelow1024(q - 1);
      PowAdd(10, 3, 3 * (q - 1));
      PowAdd(2, 10, 10 * (q - 1));
      assert Pow(10, 2) == 100 && Pow(10, 3) == 1000;
      PowersOfTwo();
      PowAdd(2, 5, 5);
      var a, b := Pow(10, 3 * (q - 1)), Pow(2, 10 * (q - 1));
      assert 1000 * a <= 1024 * b;
    }
  }

  /** IEEE 754 double precision has `tiny` 2^1075: half the least subnormal number rounds to zero. */
  lemma {:induction false} DoublesAreFine(dbl: Double, decimals: nat, e: nat)
    requires dbl.over > 0 && dbl.tiny == Pow(2, e) && e == 1075 && decimals <= 321
    ensures Fine(dbl, decimals)
  {
    ThousandBelow1024(107);
    PowMonotone(10, decimals, 321);
    PowMonotone(2, 1070, e - 1);
    assert Pow(2, e) == 2 * Pow(2, e - 1);
  }

  lemma {:induction false} VanishingIsZero(dbl: Double, d: Decimal, decimals: nat)
    requires AllDigits(d.whole) && AllDigits(d.frac) && Fine(dbl, decimals) && Vanishes(dbl, d)
    ensures Exact(d, decimals) == 0
  {
    var u, p, k := Unscaled(d), Pow(10, decimals), Pow(10, |d.frac|);
    if u == 0 {
      assert u * p == 0;
    } else {
      MulLess(p, dbl.tiny, u);
    }
    DivUnique(u * p, k, 0, u * p);
  }

  lemma {:induction false} MulLess(x: int, y: int, m: int)
    requires x < y && m > 0
    ensures m * x < m * y
  {
  }

  lemma {:induction false} OverflowIsPositive(dbl: Double, d: Decimal, decimals: nat)
    requires AllDigits(d.whole) && AllDigits(d.frac) && dbl.over > 0 && Overflows(dbl, d)
    ensures Exact(d, decimals) > 0
  {
    var u, p, k := Unscaled(d), Pow(10, decimals), Pow(10, |d.frac|);
    MulLe(1, dbl.over, k);
    MulLe(1, p, u);
    assert u * p >= k;
    if u * p / k == 0 {
      DivMod(u * p, k);
      assert false;
    }
  }

  /** Every other text is answered with zero. */
  lemma {:induction false} OthersAreZero(dbl: Double, input: string, decimals: nat)
    requires forall d :: !Spells(Trim(input), d)
    ensures ParseHumanAmount(dbl, input, decimals) == 0
  {
    var m := Match(Trim(input));
    if m.Some? { MatchIff(Trim(input), m.value); }
  }

  /**
   Every text of the grammar is parsed to its exact value, rounded down, unless it
   denotes a number that overflows a double: then the answer is wrong, namely zero.
   */
  lemma {:induction false} ParseIsExactIffFinite(dbl: Double, input: string, decimals: nat)
    requires Fine(dbl, decimals) && Match(Trim(input)).Some?
    ensures ParseHumanAmount(dbl, input, decimals) == Exact(Match(Trim(input)).value, decimals)
       <==> !Overflows(dbl, Match(Trim(input)).value)
  {
    var d := Match(Trim(input)).value;
    DigitwiseIsExact(d, decimals);
    if Overflows(dbl, d) { OverflowIsPositive(dbl, d, decimals); }
    else if Vanishes(dbl, d) { VanishingIsZero(dbl, d, decimals); }
  }
}
