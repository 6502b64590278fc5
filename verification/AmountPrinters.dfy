/** The printers `formatBnbWei`, `formatAmount` and `fmtUsdScaled`, and what parsing their output gives back. */
module AmountPrinters {
  import opened Numerals
  import opened Wrappers
  import opened Amounts

  // ---- BigInt division rounds towards zero ----

  function Quot(x: int, m: nat): int
    requires m > 0
  {
    if x >= 0 then x / m else -((-x) / m)
  }

  function Rem(x: int, m: nat): int
    requires m > 0
  {
    if x >= 0 then x % m else -((-x) % m)
  }

  lemma {:induction false} QuotRem(v: nat, m: nat)
    requires m > 0
    ensures Quot(v, m) >= 0 && 0 <= Rem(v, m) < m && v == Quot(v, m) * m + Rem(v, m)
    ensures Quot(v, m) == v / m && Rem(v, m) == v % m
  {
    DivMod(v, m);
  }

  lemma {:induction false} StrPadded(k: nat, ds: seq<nat>)
    requires Below(10, ds)
    ensures Str(Zeros(k) + ds) == Repeat('0', k) + Str(ds)
  {
  }

  /** The digits of `toString`. */
  lemma {:induction false} DecDigits(n: nat, k: nat) returns (m: seq<nat>)
    requires k > 0 && n < Pow(10, k)
    ensures Below(10, m) && Dec(n) == Str(m) && Val(10, m) == n && 1 <= |m| <= k
  {
    if n == 0 {
      m := [0];
      assert Str([0]) == "0";
    } else {
      m := Minimal(10, n);
      ValOfMinimal(10, n);
      MinimalLength(10, n, k);
    }
  }

  /** `padStart(k, '0')` of a number below 10^k is its numeral of k digits. */
  lemma {:induction false} PadStartDec(n: nat, k: nat)
    requires k > 0 && n < Pow(10, k)
    ensures PadStart(Dec(n), k) == Str(Digits(10, k, n))
  {
    var m := DecDigits(n, k);
    DigitsPadded(10, k - |m|, m);
    StrPadded(k - |m|, m);
    if k == |m| { assert Repeat('0', 0) + Str(m) == Str(m); }
  }

  lemma {:induction false} MinimalLength(b: nat, n: nat, k: nat)
    requires b > 1 && n < Pow(b, k)
    ensures |Minimal(b, n)| <= k
  {
    if n > 0 {
      DivSmaller(n, b);
      DivBelow(n, b, Pow(b, k - 1));
      MinimalLength(b, n / b, k - 1);
    }
  }

  lemma {:induction false} NumberOfStr(len: nat, n: nat)
    requires n < Pow(10, len)
    ensures Number(Str(Digits(10, len, n))) == n
  {
    ValOfDigits(10, len, n);
  }

  // ---- Texts that the parser reads as they are ----

  lemma {:induction false} TrimDigits(s: string)
    requires s != "" && IsDigit(s[0]) && IsDigit(s[|s| - 1])
    ensures Trim(s) == s
  {
  }

  lemma {:induction false} MatchWhole(w: string)
    requires w != "" && AllDigits(w)
    ensures Match(Trim(w)) == Some(Decimal(w, ""))
  {
    DotAt(w, "");
    TrimDigits(w);
  }

  lemma {:induction false} MatchDecimal(w: string, f: string)
    requires w != "" && f != "" && AllDigits(w) && AllDigits(f)
    ensures Match(Trim(w + "." + f)) == Some(Decimal(w, f))
  {
    DotAt(w, f);
    var s := w + "." + f;
    assert s[|s| - 1] == f[|f| - 1];
    TrimDigits(s);
    assert s[..|w|] == w && s[|w| + 1..] == f;
  }

  // ---- formatBnbWei ----

  /** A whole part and a remainder of `total` decimals, of which the first `shown` are printed. */
  function FixedPoint(q: int, r: int, total: nat, shown: nat): string
  {
    Text(q) + "." + Slice(PadStart(Text(r), total), shown)
  }

  /** What `formatBnbWei` prints before the unit. */
  function FormatBnbWei(v: int): string
  {
    var base := Pow(10, 18);
    FixedPoint(Quot(v, base), Rem(v, base), 18, 6)
  }

  lemma {:induction false} CutDigits(r: nat, total: nat, shown: nat, p: nat)
    requires shown <= total && p == Pow(10, total - shown)
    ensures Slice(Str(Digits(10, total, r)), shown) == Str(Digits(10, shown, r / p))
  {
    DigitsPrefix(10, total, total - shown, r);
    StrPrefix(Digits(10, total, r), shown);
  }

  lemma {:induction false} FixedPointText(q: nat, r: nat, total: nat, shown: nat, p: nat)
    requires shown <= total && total > 0 && r < Pow(10, total) && p == Pow(10, total - shown)
    ensures FixedPoint(q, r, total, shown) == Dec(q) + "." + Str(Digits(10, shown, r / p))
  {
    PadStartDec(r, total);
    CutDigits(r, total, shown, p);
  }

  lemma {:induction false} StrPrefix(ds: seq<nat>, k: nat)
    requires Below(10, ds) && k <= |ds|
    ensures Str(ds)[..k] == Str(ds[..k])
  {
  }

  lemma {:induction false} BnbUnscaled(v: nat, q: nat, r: nat, base: nat, micro: nat, six: nat)
    requires base == Pow(10, 18) && micro == Pow(10, 12) && six == Pow(10, 6) && v == q * base + r && r < base
    ensures r / micro < six
    ensures Number(Dec(q) + Str(Digits(10, 6, r / micro))) == v / micro
  {
    PowAdd(10, 12, 6);
    DivBelow(r, micro, six);
    NumberOfStr(6, r / micro);
    NumberOfDec(q);
    NumberAppend(Dec(q), Str(Digits(10, 6, r / micro)));
    SplitDiv(v, q, r, micro, six);
  }

  lemma {:induction false} SplitDiv(v: nat, q: nat, r: nat, micro: nat, six: nat)
    requires micro > 0 && v == q * (micro * six) + r
    ensures v / micro == q * six + r / micro
  {
    DivMod(r, micro);
    MulAssoc(q, six, micro);
    Distribute2(q * six, r / micro, micro);
    DivUnique(v, micro, q * six + r / micro, r % micro);
  }

  lemma {:induction false} Distribute2(x: int, y: int, m: int)
    ensures (x + y) * m == x * m + y * m
  {
  }

  lemma {:induction false} BnbExact(v: nat, micro: nat, six: nat, base: nat)
    requires micro > 0 && six > 0 && base == six * micro
    ensures v / micro * base / six == v - v % micro
  {
    DivMod(v, micro);
    MulAssoc(v / micro, micro, six);
    DivUnique(v / micro * base, six, v / micro * micro, 0);
  }

  /**
   Printing and parsing back drops exactly what is below 10^12 wei, if the value is
   not negative and fits a double; for every other value the text does not stand for it.
   */
  lemma {:induction false} BnbPrintParse(dbl: Double, v: int)
    requires Fine(dbl, 18)
    ensures ParseHumanAmount(dbl, FormatBnbWei(v), 18) == v - v % Pow(10, 12) <==> 0 <= v < dbl.over * Pow(10, 18)
  {
    var base, micro, six := Pow(10, 18), Pow(10, 12), Pow(10, 6);
    if v >= 0 {
      QuotRem(v, base);
      var q, r := Quot(v, base), Rem(v, base);
      var w, f := Dec(q), Str(Digits(10, 6, r / micro));
      PowAdd(10, 6, 12);
      FixedPointText(q, r, 18, 6, micro);
      BnbUnscaled(v, q, r, base, micro, six);
      MatchDecimal(w, f);
      ParseIsExactIffFinite(dbl, FormatBnbWei(v), 18);
      BnbExact(v, micro, six, base);
      assert Exact(Decimal(w, f), 18) == v - v % micro;
      OverflowScaled(v, dbl.over, six, micro);
    } else {
      DivModInt(v, micro);
    }
  }

  lemma {:induction false} DivModInt(v: int, m: nat)
    requires m > 0 && v < 0
    ensures v - v % m < 0
  {
  }

  lemma {:induction false} OverflowScaled(v: nat, over: nat, six: nat, micro: nat)
    requires micro > 0
    ensures v / micro >= over * six <==> v >= over * (six * micro)
  {
    DivMod(v, micro);
    MulAssoc(over, six, micro);
    if v / micro >= over * six { MulLe(over * six, v / micro, micro); }
    else { MulLe(v / micro + 1, over * six, micro); }
  }

  lemma {:induction false} DecLength(n: nat, k: nat)
    requires k > 0
    ensures |Dec(n)| <= k <==> n < Pow(10, k)
  {
    if n < Pow(10, k) {
      var m := DecDigits(n, k);
    } else if |Dec(n)| <= k {
      NumberOfDec(n);
      NumberBelow(Dec(n));
      PowMonotone(10, |Dec(n)|, k);
    }
  }

  /** Padding puts zeros in front of the sign; it is among the first characters if the digits are many enough. */
  lemma {:induction false} SignInFraction(r: nat, total: nat, shown: nat)
    requires shown + 1 < total && 0 < r < Pow(10, total)
    ensures var f := Slice(PadStart("-" + Dec(r), total), shown);
            |f| == shown && ('-' in f <==> shown > 0 && r >= Pow(10, total - shown - 1))
  {
    DecLength(r, total);
    DecLength(r, total - shown - 1);
    var d := Dec(r);
    var s := PadStart("-" + d, total);
    var at := if |d| < total then total - |d| - 1 else 0;
    assert s[at] == '-' && forall i :: 0 <= i < |s| && i != at ==> s[i] != '-';
    assert s[..shown] == Slice(s, shown);
    if at < shown { assert s[..shown][at] == '-'; }
  }

  lemma {:induction false} QuotRemNegative(v: nat, m: nat, q: nat, r: nat)
    requires v > 0 && v == q * m + r && r < m
    ensures Quot(0 - v, m) == 0 - q && Rem(0 - v, m) == 0 - r && (q > 0 || r > 0)
  {
    DivUnique(v, m, q, r);
  }

  /** Both parts carry the sign. */
  lemma {:induction false} NegativeFixedPoint(q: nat, r: nat, total: nat, shown: nat, edge: nat) returns (f: string)
    requires 0 < shown && shown + 1 < total && r < Pow(10, total) && edge == Pow(10, total - shown - 1)
    ensures FixedPoint(0 - q, 0 - r, total, shown) == (if q == 0 then "0" else "-" + Dec(q)) + "." + f
    ensures |f| == shown && ('-' in f <==> r > 0 && r >= edge)
  {
    f := Slice(PadStart(Text(0 - r), total), shown);
    if r > 0 { SignInFraction(r, total, shown); }
  }

  lemma {:induction false} BnbText(v: int, base: nat)
    requires base == Pow(10, 18)
    ensures FormatBnbWei(v) == FixedPoint(Quot(v, base), Rem(v, base), 18, 6)
  {
  }

  /**
   A negative amount of wei: the whole part has a sign unless it is zero, and so
   has the remainder, which shows up behind the point from 10^11 wei on.
   */
  lemma {:induction false} BnbOfNegative(v: nat, q: nat, r: nat, base: nat, edge: nat) returns (f: string)
    requires base == Pow(10, 18) && edge == Pow(10, 11) && v > 0 && v == q * base + r && r < base
    ensures FormatBnbWei(0 - v) == (if q == 0 then "0" else "-" + Dec(q)) + "." + f
    ensures |f| == 6 && ('-' in f <==> r > 0 && r >= edge)
  {
    BnbText(0 - v, base);
    QuotRemNegative(v, base, q, r);
    f := NegativeFixedPoint(q, r, 18, 6, edge);
  }

  // ---- formatAmount ----

  function StripZeros(s: string): string
  {
    if s != "" && s[|s| - 1] == '0' then StripZeros(s[..|s| - 1]) else s
  }

  function Joined(w: string, f: string): string
  {
    if f == "" then w else w + "." + f
  }

  /** `formatAmount` of an amount of a coin with `decimals` decimals. */
  function FormatAmount(raw: int, decimals: nat): string
  {
    var factor := Pow(10, decimals);
    var whole, frac := Quot(raw, factor), Rem(raw, factor);
    if frac == 0 then Text(whole) else Text(whole) + "." + StripZeros(PadStart(Text(frac), decimals))
  }

  lemma {:induction false} StripZerosValue(s: string)
    requires AllDigits(s)
    ensures var t := StripZeros(s);
            |t| <= |s| && AllDigits(t) && Number(s) == Number(t) * Pow(10, |s| - |t|)
  {
    if s != "" && s[|s| - 1] == '0' {
      var n := |s| - 1;
      StripZerosValue(s[..n]);
      var t := StripZeros(s[..n]);
      assert s == s[..n] + "0" && Vals("0") == [0];
      NumberAppend(s[..n], "0");
      assert Pow(10, 1) == 10 && Val(10, [0]) == 0;
      MulAssoc(Number(t), Pow(10, n - |t|), 10);
    }
  }

  lemma {:induction false} StrippedNotEmpty(s: string)
    requires AllDigits(s) && Number(s) > 0
    ensures StripZeros(s) != ""
  {
    StripZerosValue(s);
    assert Vals("") == [];
  }

  /** The fraction that is printed, without its trailing zeros. */
  lemma {:induction false} FractionText(frac: nat, decimals: nat, t: string)
    requires frac == 0 || (decimals > 0 && frac < Pow(10, decimals))
    requires t == if frac == 0 then "" else StripZeros(PadStart(Dec(frac), decimals))
    ensures (t == "" <==> frac == 0) && |t| <= decimals && AllDigits(t) && Number(t) * Pow(10, decimals - |t|) == frac
  {
    if frac == 0 {
      assert Vals("") == [];
    } else {
      var s := PadStart(Dec(frac), decimals);
      assert AllDigits(s) && |s| == decimals && Number(s) == frac by {
        PadStartDec(frac, decimals);
        NumberOfStr(decimals, frac);
      }
      StripZerosValue(s);
      StrippedNotEmpty(s);
    }
  }

  lemma {:induction false} AmountValue(w: string, t: string, whole: nat, frac: nat, decimals: nat, factor: nat)
    requires AllDigits(w) && AllDigits(t) && |t| <= decimals && factor == Pow(10, decimals)
    requires Number(w) == whole && Number(t) * Pow(10, decimals - |t|) == frac
    ensures Number(w + t) * Pow(10, decimals - |t|) == whole * factor + frac
  {
    var e := decimals - |t|;
    NumberAppend(w, t);
    PowAdd(10, e, |t|);
    Distribute(whole, Pow(10, |t|), Number(t), Pow(10, e));
  }

  lemma {:induction false} MatchJoined(w: string, f: string)
    requires w != "" && AllDigits(w) && AllDigits(f)
    ensures Match(Trim(Joined(w, f))) == Some(Decimal(w, f))
  {
    if f == "" { MatchWhole(w); } else { MatchDecimal(w, f); }
  }

  lemma {:induction false} FormatJoined(raw: nat, decimals: nat, whole: nat, frac: nat, f: string)
    requires whole == Quot(raw, Pow(10, decimals)) && frac == Rem(raw, Pow(10, decimals))
    requires f == if frac == 0 then "" else StripZeros(PadStart(Dec(frac), decimals))
    requires f == "" <==> frac == 0
    ensures FormatAmount(raw, decimals) == Joined(Dec(whole), f)
  {
  }

  lemma {:induction false} JoinedAmount(text: string, raw: nat, decimals: nat, factor: nat, whole: nat, frac: nat,
    w: string, f: string)
    requires factor == Pow(10, decimals) && raw == whole * factor + frac
    requires w != "" && AllDigits(w) && Number(w) == whole && text == Joined(w, f)
    requires AllDigits(f) && |f| <= decimals && Number(f) * Pow(10, decimals - |f|) == frac
    ensures Match(Trim(text)) == Some(Decimal(w, f)) && Unscaled(Decimal(w, f)) * Pow(10, decimals - |f|) == raw
  {
    MatchJoined(w, f);
    AmountValue(w, f, whole, frac, decimals, factor);
  }

  lemma {:induction false} FractionParts(raw: nat, decimals: nat, whole: nat, frac: nat, f: string)
    requires whole == Quot(raw, Pow(10, decimals)) && frac == Rem(raw, Pow(10, decimals)) && frac < Pow(10, decimals)
    requires f == if frac == 0 then "" else StripZeros(PadStart(Dec(frac), decimals))
    ensures AllDigits(f) && |f| <= decimals && Number(f) * Pow(10, decimals - |f|) == frac
    ensures FormatAmount(raw, decimals) == Joined(Dec(whole), f)
  {
    FractionText(frac, decimals, f);
    FormatJoined(raw, decimals, whole, frac, f);
  }

  lemma {:induction false} AmountPieces(raw: nat, decimals: nat, factor: nat) returns (whole: nat, frac: nat,
    w: string, f: string)
    requires factor == Pow(10, decimals)
    ensures raw == whole * factor + frac && FormatAmount(raw, decimals) == Joined(w, f)
    ensures w != "" && AllDigits(w) && Number(w) == whole
    ensures AllDigits(f) && |f| <= decimals && Number(f) * Pow(10, decimals - |f|) == frac
  {
    QuotRem(raw, factor);
    whole, frac := Quot(raw, factor), Rem(raw, factor);
    w, f := Dec(whole), if frac == 0 then "" else StripZeros(PadStart(Dec(frac), decimals));
    FractionParts(raw, decimals, whole, frac, f);
    NumberOfDec(whole);
  }

  /** The decimal text of an amount: its digits, scaled up again, are the amount. */
  lemma {:induction false} AmountText(raw: nat, decimals: nat) returns (d: Decimal)
    ensures AllDigits(d.whole) && AllDigits(d.frac) && d.whole != "" && |d.frac| <= decimals
    ensures Match(Trim(FormatAmount(raw, decimals))) == Some(d)
    ensures Unscaled(d) * Pow(10, decimals - |d.frac|) == raw
  {
    var factor := Pow(10, decimals);
    var whole, frac, w, f := AmountPieces(raw, decimals, factor);
    JoinedAmount(FormatAmount(raw, decimals), raw, decimals, factor, whole, frac, w, f);
    d := Decimal(w, f);
  }

  lemma {:induction false} ScaledExact(u: nat, pk: nat, pe: nat, over: nat)
    requires pk > 0 && pe > 0
    ensures u * (pk * pe) / pk == u * pe
    ensures u >= over * pk <==> u * pe >= over * (pk * pe)
  {
    MulAssoc(u, pe, pk);
    assert u * (pk * pe) == u * pe * pk;
    DivUnique(u * (pk * pe), pk, u * pe, 0);
    MulAssoc(over, pk, pe);
    if u >= over * pk { MulLe(over * pk, u, pe); }
    else { MulLe(u + 1, over * pk, pe); Distribute2(u, 1, pe); }
  }

  /** The display text of an amount is read back as that amount, exactly if it is not negative and fits a double. */
  lemma {:induction false} AmountPrintParse(dbl: Double, raw: int, decimals: nat)
    requires Fine(dbl, decimals)
    ensures ParseHumanAmount(dbl, FormatAmount(raw, decimals), decimals) == raw
       <==> 0 <= raw < dbl.over * Pow(10, decimals)
  {
    if raw >= 0 {
      var d := AmountText(raw, decimals);
      ParseIsExactIffFinite(dbl, FormatAmount(raw, decimals), decimals);
      AmountExact(dbl, d, raw, decimals);
    }
  }

  lemma {:induction false} StripKeepsSign(s: string, at: nat)
    requires at < |s| && s[at] == '-'
    ensures '-' in StripZeros(s)
    decreases |s|
  {
    if s[|s| - 1] == '0' {
      assert s[..|s| - 1][at] == '-';
      StripKeepsSign(s[..|s| - 1], at);
    } else {
      assert StripZeros(s)[at] == '-';
    }
  }

  lemma {:induction false} SignStays(r: nat, decimals: nat)
    ensures '-' in StripZeros(PadStart("-" + Dec(r), decimals))
  {
    var s := PadStart("-" + Dec(r), decimals);
    var at := if decimals <= |Dec(r)| + 1 then 0 else decimals - |Dec(r)| - 1;
    assert s[at] == '-';
    StripKeepsSign(s, at);
  }

  lemma {:induction false} FormatParts(raw: int, decimals: nat, whole: int, frac: int)
    requires whole == Quot(raw, Pow(10, decimals)) && frac == Rem(raw, Pow(10, decimals))
    ensures FormatAmount(raw, decimals)
         == if frac == 0 then Text(whole) else Text(whole) + "." + StripZeros(PadStart(Text(frac), decimals))
  {
  }

  lemma {:induction false} NegativeText(t: string, q: nat, r: nat, decimals: nat) returns (f: string)
    requires q > 0 || r > 0
    requires t == if 0 - r == 0 then Text(0 - q) else Text(0 - q) + "." + StripZeros(PadStart(Text(0 - r), decimals))
    ensures r == 0 ==> t == "-" + Dec(q)
    ensures r > 0 ==> '-' in f && t == (if q == 0 then "0" else "-" + Dec(q)) + "." + f
  {
    f := StripZeros(PadStart("-" + Dec(r), decimals));
    SignStays(r, decimals);
  }

  /**
   A negative amount has a sign behind the point whenever it has a fraction, and
   one in front if it is a whole unit or more.
   */
  lemma {:induction false} AmountOfNegative(raw: nat, decimals: nat, q: nat, r: nat) returns (f: string)
    requires raw > 0 && raw == q * Pow(10, decimals) + r && r < Pow(10, decimals)
    ensures var t := FormatAmount(0 - raw, decimals);
            && (r == 0 ==> t == "-" + Dec(q))
            && (r > 0 ==> '-' in f && t == (if q == 0 then "0" else "-" + Dec(q)) + "." + f)
  {
    QuotRemNegative(raw, Pow(10, decimals), q, r);
    FormatParts(0 - raw, decimals, 0 - q, 0 - r);
    f := NegativeText(FormatAmount(0 - raw, decimals), q, r, decimals);
  }

  lemma {:induction false} AmountExact(dbl: Double, d: Decimal, raw: nat, decimals: nat)
    requires AllDigits(d.whole) && AllDigits(d.frac) && |d.frac| <= decimals
    requires Unscaled(d) * Pow(10, decimals - |d.frac|) == raw
    ensures Exact(d, decimals) == raw
    ensures Overflows(dbl, d) <==> raw >= dbl.over * Pow(10, decimals)
  {
    var k := |d.frac|;
    PowAdd(10, k, decimals - k);
    ScaledExact(Unscaled(d), Pow(10, k), Pow(10, decimals - k), dbl.over);
  }

  // ---- fmtUsdScaled ----

  /** The fraction as two digits. */
  function TwoPlaces(frac: nat, decimals: int): string
  {
    PadEnd(Slice(PadStart(Dec(frac), decimals), 2), 2)
  }

  function FmtUsdScaled(n: int, decimals: int): string
  {
    var abs: nat := if n < 0 then -n else n;
    var div := Pow(10, if decimals > 0 then decimals else 0);
    var whole, frac := Quot(abs, div), Rem(abs, div);
    QuotRem(abs, div);
    (if n < 0 then "-" else "") + "$" + Dec(whole) + "." + TwoPlaces(frac, decimals)
  }

  /** A number of cents as dollars. */
  function Dollars(cents: nat): string
  {
    "$" + Dec(cents / 100) + "." + Str(Digits(10, 2, cents % 100))
  }

  lemma {:induction false} ShortDigits(n: nat)
    ensures Digits(10, 1, n) == [n % 10] && Digits(10, 2, n) == [n / 10 % 10, n % 10]
  {
    assert Digits(10, 1, n / 10) == [n / 10 % 10];
  }

  lemma {:induction false} OnePlace(frac: nat)
    requires frac < 10
    ensures PadEnd(Str(Digits(10, 1, frac)), 2) == Str(Digits(10, 2, 10 * frac))
  {
    var n := 10 * frac;
    ShortDigits(frac);
    ShortDigits(n);
    assert n / 10 % 10 == frac && n % 10 == 0;
    PadEndOne([frac]);
  }

  lemma {:induction false} PadEndOne(ds: seq<nat>)
    requires |ds| == 1 && Below(10, ds)
    ensures PadEnd(Str(ds), 2) == Str(ds + [0])
  {
  }

  lemma {:induction false} FirstTwo(frac: nat, d: nat, p: nat)
    requires d >= 2 && p == Pow(10, d - 2) && frac < Pow(10, d)
    ensures TwoPlaces(frac, d) == Str(Digits(10, 2, frac / p))
  {
    PadStartDec(frac, d);
    DigitsPrefix(10, d, d - 2, frac);
    StrPrefix(Digits(10, d, frac), 2);
  }

  lemma {:induction false} TwoPlacesAre(frac: nat, d: nat, div: nat)
    requires d >= 2 && div == Pow(10, d) && frac < div
    ensures frac * 100 / div < 100
    ensures TwoPlaces(frac, d) == Str(Digits(10, 2, frac * 100 / div))
  {
    var p := Pow(10, d - 2);
    assert div == 100 * p;
    FirstTwo(frac, d, p);
    DivCancel(frac, 100, p);
    DivBelow(frac, p, 100);
  }

  lemma {:induction false} TenthsAre(frac: nat, d: nat, div: nat)
    requires d == 1 && div == 10 && frac < div
    ensures frac * 100 / div == 10 * frac
    ensures TwoPlaces(frac, d) == Str(Digits(10, 2, 10 * frac))
  {
    PadStartDec(frac, d);
    OnePlace(frac);
  }

  lemma {:induction false} PlacesAre(frac: nat, decimals: int, d: nat, div: nat)
    requires d == (if decimals > 0 then decimals else 0) && div == Pow(10, d) && frac < div
    ensures frac * 100 / div < 100
    ensures TwoPlaces(frac, decimals) == Str(Digits(10, 2, frac * 100 / div))
  {
    if d == 0 { NoPlaces(frac, decimals, div); }
    else if d == 1 { TenthsAre(frac, d, div); }
    else { TwoPlacesAre(frac, d, div); }
  }

  /** The sign and exactly the cents of the scaled amount, rounded towards zero. */
  lemma {:induction false} UsdIsCents(n: int, decimals: int, abs: nat, d: nat)
    requires abs == (if n < 0 then -n else n) && d == if decimals > 0 then decimals else 0
    ensures FmtUsdScaled(n, decimals) == (if n < 0 then "-" else "") + Dollars(abs * 100 / Pow(10, d))
  {
    var div := Pow(10, d);
    QuotRem(abs, div);
    UsdText(n, decimals, abs, div, Quot(abs, div), Rem(abs, div), d);
  }

  lemma {:induction false} UsdText(n: int, decimals: int, abs: nat, div: nat, whole: nat, frac: nat, d: nat)
    requires abs == (if n < 0 then -n else n) && d == (if decimals > 0 then decimals else 0) && div == Pow(10, d)
    requires whole == Quot(abs, div) && frac == Rem(abs, div) && abs == whole * div + frac && frac < div
    ensures FmtUsdScaled(n, decimals) == (if n < 0 then "-" else "") + Dollars(abs * 100 / div)
  {
    PlacesAre(frac, decimals, d, div);
    CentsSplit(abs, whole, frac, div);
    var sign := if n < 0 then "-" else "";
    SignFirst(sign, Dec(whole), TwoPlaces(frac, decimals));
  }

  lemma {:induction false} SignFirst(sign: string, w: string, f: string)
    ensures sign + "$" + w + "." + f == sign + ("$" + w + "." + f)
  {
  }

  lemma {:induction false} NoPlaces(frac: nat, decimals: int, div: nat)
    requires decimals <= 0 && div == 1 && frac < div
    ensures frac * 100 / div == 0 && TwoPlaces(frac, decimals) == Str(Digits(10, 2, 0))
  {
    OnePlace(0);
    assert Str(Digits(10, 1, 0)) == "0";
  }

  lemma {:induction false} CentsSplit(abs: nat, whole: nat, frac: nat, div: nat)
    requires div > 0 && abs == whole * div + frac && frac * 100 / div < 100
    ensures abs * 100 / div / 100 == whole && abs * 100 / div % 100 == frac * 100 / div
  {
    var c := frac * 100 / div;
    DivMod(frac * 100, div);
    assert abs * 100 == (whole * 100 + c) * div + frac * 100 % div by {
      Distribute2(whole * 100, c, div);
      MulAssoc(whole, 100, div);
      assert whole * div * 100 == whole * (div * 100);
    }
    DivUnique(abs * 100, div, whole * 100 + c, frac * 100 % div);
    DivUnique(whole * 100 + c, 100, whole, c);
  }

  // ---- Inputs for which they fail ----

  lemma {:induction false} EightBelowTen(k: nat)
    ensures Pow(2, 3 * k) <= Pow(10, k)
  {
    if k > 0 {
      EightBelowTen(k - 1);
      PowAdd(2, 3, 3 * (k - 1));
      assert Pow(2, 2) == 4 && Pow(2, 3) == 8;
    }
  }

  lemma {:induction false} OneAndZeros(k: nat)
    ensures Number("1" + Repeat('0', k)) == Pow(10, k)
  {
    NumberAppend("1", Repeat('0', k));
    NumberOfZeros(k);
    assert Vals("1") == [1];
    ValSnoc(10, [], 1);
    assert [] + [1] == [1];
  }

  /** Every text of digits from the limit on is parsed to zero and denotes a positive amount. */
  lemma {:induction false} BeyondDouble(dbl: Double, text: string, decimals: nat)
    requires text != "" && AllDigits(text) && Number(text) >= dbl.over && Fine(dbl, decimals)
    ensures Match(Trim(text)) == Some(Decimal(text, ""))
    ensures ParseHumanAmount(dbl, text, decimals) == 0 < Exact(Decimal(text, ""), decimals)
  {
    var d := Decimal(text, "");
    MatchWhole(text);
    assert text + "" == text && Overflows(dbl, d);
    OverflowIsPositive(dbl, d, decimals);
  }

  /** The limit of IEEE 754 double precision, 2^1024 - 2^970, is below ten to the 342. */
  lemma {:induction false} DoublesEnd(dbl: Double, top: nat, ulp: nat, k: nat)
    requires top == 1024 && ulp == 970 && k == 342 && dbl.over == Pow(2, top) - Pow(2, ulp)
    ensures dbl.over <= Pow(10, k)
  {
    EightBelowTen(k);
    PowMonotone(2, top, 3 * k);
  }

  /** A one and `k` zeros, for instance 342 of them: no IEEE 754 double is as large. */
  lemma {:induction false} OverflowExample(dbl: Double, decimals: nat, k: nat) returns (text: string)
    requires dbl.over <= Pow(10, k) && Fine(dbl, decimals)
    ensures text == "1" + Repeat('0', k) && Match(Trim(text)) == Some(Decimal(text, ""))
    ensures ParseHumanAmount(dbl, text, decimals) == 0 < Exact(Decimal(text, ""), decimals)
  {
    text := "1" + Repeat('0', k);
    OneAndZeros(k);
    BeyondDouble(dbl, text, decimals);
  }

  /** Minus one, and the first amount that overflows: neither printed text stands for its value. */
  lemma {:induction false} PrintersExample(dbl: Double, v: int, decimals: nat)
    requires Fine(dbl, 18) && (v == -1 || v == dbl.over * Pow(10, 18))
    ensures ParseHumanAmount(dbl, FormatBnbWei(v), 18) != v - v % Pow(10, 12)
    ensures Fine(dbl, decimals) ==> ParseHumanAmount(dbl, FormatAmount(-1, decimals), decimals) != -1
  {
    BnbPrintParse(dbl, v);
    if Fine(dbl, decimals) { AmountPrintParse(dbl, -1, decimals); }
  }
}
