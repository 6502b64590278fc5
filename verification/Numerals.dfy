/**
 Positional numerals, most significant digit first, in any base above one.
 The address codecs, the mnemonic packing and the decimal printers are all
 regroupings of such numerals.
 */
module Numerals {

  function Pow(b: nat, k: nat): (p: nat)
    ensures b > 0 ==> p > 0
  {
    if k == 0 then 1 else b * Pow(b, k - 1)
  }

  /** The number that a digit sequence denotes. */
  function Val(b: nat, ds: seq<nat>): nat
  {
    if ds == [] then 0 else Val(b, ds[..|ds| - 1]) * b + ds[|ds| - 1]
  }

  /** The lowest `len` digits of `n`. */
  function Digits(b: nat, len: nat, n: nat): (ds: seq<nat>)
    requires b > 1
    ensures |ds| == len && Below(b, ds)
  {
    if len == 0 then [] else Digits(b, len - 1, n / b) + [n % b]
  }

  predicate Below(b: nat, ds: seq<nat>)
  {
    forall i :: 0 <= i < |ds| ==> ds[i] < b
  }

  function Zeros(k: nat): (zs: seq<nat>)
    ensures |zs| == k && forall i :: 0 <= i < k ==> zs[i] == 0
  {
    seq(k, _ => 0)
  }

  // ---- Arithmetic ----

  lemma {:induction false} PowAdd(b: nat, j: nat, k: nat)
    ensures Pow(b, j + k) == Pow(b, j) * Pow(b, k)
  {
    if j > 0 {
      PowAdd(b, j - 1, k);
      MulAssoc(b, Pow(b, j - 1), Pow(b, k));
    }
  }

  lemma {:induction false} MulAssoc(x: int, y: int, z: int)
    ensures (x * y) * z == x * (y * z)
  {
  }

  lemma {:induction false} Distribute(v: int, p: int, w: int, b: int)
    ensures (v * p + w) * b == v * (b * p) + w * b
  {
    MulAssoc(v, p, b);
  }

  lemma {:induction false} DivUnique(x: int, m: int, q: int, r: int)
    requires m > 0 && 0 <= r < m && x == q * m + r
    ensures x / m == q && x % m == r
  {
    var d := x / m - q;
    assert d * m == r - x % m;
    if d != 0 {
      MultipleAtLeast(d, m);
      assert false;
    }
  }

  lemma {:induction false} MultipleAtLeast(d: int, m: int)
    requires m > 0 && d != 0
    ensures d * m >= m || d * m <= -m
  {
  }

  lemma {:induction false} DivMod(x: nat, m: nat)
    requires m > 0
    ensures x / m * m + x % m == x
  {
  }

  lemma {:induction false} DivSmaller(x: nat, m: nat)
    requires m > 1 && x > 0
    ensures x / m < x
  {
    DivBelow(x, m, x);
  }

  lemma {:induction false} DivBelow(x: nat, m: nat, y: nat)
    requires m > 0 && x < m * y
    ensures x / m < y
  {
    if x / m >= y {
      MulLe(y, x / m, m);
      assert false;
    }
  }

  lemma {:induction false} MulLe(x: int, y: int, m: int)
    requires x <= y && m >= 0
    ensures x * m <= y * m
  {
  }

  lemma {:induction false} DivDiv(x: nat, m: nat, n: nat)
    requires m > 0 && n > 0
    ensures m * n > 0 && x / (m * n) == x / m / n
  {
    MulLe(1, n, m);
    var q, r, s := x / m / n, x / m % n, x % m;
    MulAssoc(q, n, m);
    Distribute(q, n, r, m);
    MulLe(r, n - 1, m);
    DivUnique(x, m * n, q, r * m + s);
  }

  // ---- Digit sequences ----

  lemma {:induction false} ValSnoc(b: nat, ds: seq<nat>, d: nat)
    ensures Val(b, ds + [d]) == Val(b, ds) * b + d
  {
    assert (ds + [d])[..|ds|] == ds;
  }

  lemma {:induction false} ValAppend(b: nat, xs: seq<nat>, ys: seq<nat>)
    ensures Val(b, xs + ys) == Val(b, xs) * Pow(b, |ys|) + Val(b, ys)
  {
    if ys == [] {
      assert xs + ys == xs;
    } else {
      var ys' := ys[..|ys| - 1];
      assert (xs + ys)[..|xs + ys| - 1] == xs + ys';
      ValAppend(b, xs, ys');
      Distribute(Val(b, xs), Pow(b, |ys'|), Val(b, ys'), b);
    }
  }

  lemma {:induction false} ValBound(b: nat, ds: seq<nat>)
    requires b > 0 && Below(b, ds)
    ensures Val(b, ds) < Pow(b, |ds|)
  {
    if ds != [] {
      var ds' := ds[..|ds| - 1];
      ValBound(b, ds');
      MulLe(Val(b, ds') + 1, Pow(b, |ds'|), b);
      assert (Val(b, ds') + 1) * b == Val(b, ds') * b + b;
    }
  }

  lemma {:induction false} DigitsOfVal(b: nat, ds: seq<nat>)
    requires b > 1 && Below(b, ds)
    ensures Digits(b, |ds|, Val(b, ds)) == ds
  {
    if ds != [] {
      var ds' := ds[..|ds| - 1];
      DigitsOfVal(b, ds');
      DivUnique(Val(b, ds), b, Val(b, ds'), ds[|ds| - 1]);
    }
  }

  lemma {:induction false} DigitsSnoc(b: nat, len: nat, n: nat)
    requires b > 1
    ensures Digits(b, len + 1, n) == Digits(b, len, n / b) + [n % b]
    ensures Val(b, Digits(b, len + 1, n)) == Val(b, Digits(b, len, n / b)) * b + n % b
  {
    ValSnoc(b, Digits(b, len, n / b), n % b);
  }

  lemma {:induction false} ValOfDigits(b: nat, len: nat, n: nat)
    requires b > 1 && n < Pow(b, len)
    ensures Val(b, Digits(b, len, n)) == n
  {
    if len > 0 {
      DivBelow(n, b, Pow(b, len - 1));
      ValOfDigits(b, len - 1, n / b);
      DigitsSnoc(b, len - 1, n);
      DivMod(n, b);
    }
  }

  lemma {:induction false} DigitsSuffix(b: nat, len: nat, k: nat, n: nat)
    requires b > 1 && k <= len
    ensures Digits(b, len, n)[len - k..] == Digits(b, k, n)
  {
    if k > 0 {
      DigitsSuffix(b, len - 1, k - 1, n / b);
      assert Digits(b, len, n) == Digits(b, len - 1, n / b) + [n % b];
    }
  }

  /** Numerals of one length denote different numbers. */
  lemma {:induction false} ValInjective(b: nat, xs: seq<nat>, ys: seq<nat>)
    requires b > 1 && Below(b, xs) && Below(b, ys) && |xs| == |ys|
    requires Val(b, xs) == Val(b, ys)
    ensures xs == ys
  {
    DigitsOfVal(b, xs);
    DigitsOfVal(b, ys);
  }

  /** Dividing by a power of the base cuts a numeral in two. */
  lemma {:induction false} ValSplit(b: nat, xs: seq<nat>, ys: seq<nat>)
    requires b > 0 && Below(b, ys)
    ensures Pow(b, |ys|) > 0
    ensures Val(b, xs + ys) / Pow(b, |ys|) == Val(b, xs)
    ensures Val(b, xs + ys) % Pow(b, |ys|) == Val(b, ys)
  {
    ValAppend(b, xs, ys);
    ValBound(b, ys);
    DivUnique(Val(b, xs + ys), Pow(b, |ys|), Val(b, xs), Val(b, ys));
  }

  lemma {:induction false} ValZeros(b: nat, k: nat)
    ensures Val(b, Zeros(k)) == 0
  {
    if k > 0 {
      ValZeros(b, k - 1);
      assert Zeros(k)[..k - 1] == Zeros(k - 1);
    }
  }

  lemma {:induction false} ValLeadingZeros(b: nat, k: nat, ds: seq<nat>)
    ensures Val(b, Zeros(k) + ds) == Val(b, ds)
  {
    ValAppend(b, Zeros(k), ds);
    ValZeros(b, k);
  }

  lemma {:induction false} PowersOfTwo()
    ensures Pow(2, 5) == 32 && Pow(2, 8) == 256 && Pow(2, 11) == 2048
    ensures Pow(2, 25) == 0x2000000 && Pow(2, 30) == 0x40000000
  {
    assert Pow(2, 2) == 4;
    PowAdd(2, 2, 2);
    PowAdd(2, 4, 1);
    PowAdd(2, 4, 4);
    PowAdd(2, 8, 2);
    PowAdd(2, 10, 1);
    PowAdd(2, 10, 10);
    PowAdd(2, 20, 5);
    PowAdd(2, 25, 5);
  }

  // ---- Numerals without leading zeros ----

  /** The digits of `n` without leading zeros; none at all for zero. */
  function Minimal(b: nat, n: nat): (ds: seq<nat>)
    requires b > 1
    ensures Below(b, ds)
    ensures n > 0 ==> ds != [] && ds[0] != 0
    ensures n == 0 ==> ds == []
  {
    if n == 0 then []
    else
      DivSmaller(n, b);
      Minimal(b, n / b) + [n % b]
  }

  lemma {:induction false} ValOfMinimal(b: nat, n: nat)
    requires b > 1
    ensures Val(b, Minimal(b, n)) == n
  {
    if n > 0 {
      DivSmaller(n, b);
      ValOfMinimal(b, n / b);
      ValSnoc(b, Minimal(b, n / b), n % b);
      DivMod(n, b);
    }
  }

  lemma {:induction false} MinimalOfVal(b: nat, ds: seq<nat>)
    requires b > 1 && Below(b, ds) && (ds != [] ==> ds[0] != 0)
    ensures Minimal(b, Val(b, ds)) == ds
  {
    if ds != [] {
      var n := |ds| - 1;
      MinimalOfVal(b, ds[..n]);
      DivUnique(Val(b, ds), b, Val(b, ds[..n]), ds[n]);
      assert Val(b, ds) > 0;
    }
  }

  // ---- More about fixed-length numerals ----

  /** Numerals of numbers with fewer digits are padded with zeros in front. */
  lemma {:induction false} DigitsPadded(b: nat, k: nat, ds: seq<nat>)
    requires b > 1 && Below(b, ds)
    ensures Digits(b, k + |ds|, Val(b, ds)) == Zeros(k) + ds
  {
    ValLeadingZeros(b, k, ds);
    DigitsOfVal(b, Zeros(k) + ds);
  }

  /** Dropping the last `k` digits divides. */
  lemma {:induction false} DigitsPrefix(b: nat, len: nat, k: nat, n: nat)
    requires b > 1 && k <= len
    ensures Digits(b, len, n)[..len - k] == Digits(b, len - k, n / Pow(b, k))
  {
    if k > 0 {
      DigitsPrefix(b, len - 1, k - 1, n / b);
      DivDiv(n, b, Pow(b, k - 1));
    }
  }

  lemma {:induction false} PowMonotone(b: nat, j: nat, k: nat)
    requires b > 0 && j <= k
    ensures Pow(b, j) <= Pow(b, k)
  {
    if j < k {
      PowMonotone(b, j, k - 1);
      MulLe(1, b, Pow(b, k - 1));
    }
  }
}
