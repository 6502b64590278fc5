/**
 The checksum as BIP-173 defines it, apart from the table of constants: the
 register holds a polynomial of six coefficients in GF(32), and a round
 multiplies it by x, adds the next value, and reduces it by the generator
 x^6 + 29 x^5 + 22 x^4 + 20 x^3 + 21 x^2 + 29 x + 18.
 */
module Bech32Reference {
  import opened Numerals
  import opened ShiftRegister
  import opened Bech32Checksum
  import opened Bech32

  // ---- GF(32) ----

  /** The element of GF(32) that a number below 32 stands for: its five bits. */
  function Element(n: nat): (e: Bits)
    ensures |e| == 5
  {
    var a := if n >= 16 then n - 16 else n;
    var b := if a >= 8 then a - 8 else a;
    var c := if b >= 4 then b - 4 else b;
    [n >= 16, a >= 8, b >= 4, c >= 2, c == 1 || c == 3]
  }

  /** Multiplication by the root of x^5 + x^3 + 1. */
  function Twice(e: Bits): (r: Bits)
    requires |e| == 5
    ensures |r| == 5
  {
    [e[1], e[2] != e[0], e[3], e[4], e[0]]
  }

  function Power(i: nat, e: Bits): (r: Bits)
    requires |e| == 5
    ensures |r| == 5
  {
    if i == 0 then e else Twice(Power(i - 1, e))
  }

  /** The product, by shifting and adding. */
  function Product(b: Bits, e: Bits): (r: Bits)
    requires |b| == |e| == 5
    ensures |r| == 5
  {
    Xor(Pick(b[4], e), Xor(Pick(b[3], Power(1, e)), Xor(Pick(b[2], Power(2, e)),
      Xor(Pick(b[1], Power(3, e)), Pick(b[0], Power(4, e))))))
  }

  /** The coefficients of the generator below x^6, the highest first. */
  function Coefficient(j: nat): (e: Bits)
    requires j < 6
    ensures |e| == 5
  {
    Element([29, 22, 20, 21, 29, 18][j])
  }

  // ---- The constants ----

  function Bit(on: bool, n: nat): nat { if on then n else 0 }

  lemma {:induction false} FiveValue(e: Bits)
    requires |e| == 5
    ensures FromBits(e) == Bit(e[0], 16) + Bit(e[1], 8) + Bit(e[2], 4) + Bit(e[3], 2) + Bit(e[4], 1)
  {
    var n := Nats(e);
    assert n == [n[0]] + [n[1]] + [n[2]] + [n[3]] + [n[4]];
    ValSnoc(2, [n[0]] + [n[1]] + [n[2]] + [n[3]], n[4]);
    ValSnoc(2, [n[0]] + [n[1]] + [n[2]], n[3]);
    ValSnoc(2, [n[0]] + [n[1]], n[2]);
    ValSnoc(2, [n[0]], n[1]);
    ValSnoc(2, [], n[0]);
    assert [] + [n[0]] == [n[0]];
  }

  lemma {:induction false} ElementValue(n: nat)
    requires n < 32
    ensures FromBits(Element(n)) == n
  {
    FiveValue(Element(n));
  }

  /** Five-bit pieces, one after the other, are a number in base 32. */
  lemma {:induction false} FlatValue(es: seq<Bits>, s: seq<nat>)
    requires AreFives(es) && |es| == |s| && forall j :: 0 <= j < |s| ==> FromBits(es[j]) == s[j]
    ensures FromBits(Flat(es)) == Val(32, s)
  {
    if s != [] {
      var n := |s| - 1;
      FlatValue(es[..n], s[..n]);
      PowersOfTwo();
      FromBitsAppend(Flat(es[..n]), es[n]);
    }
  }

  lemma {:induction false} SixDigits(s: seq<nat>)
    requires |s| == 6
    ensures Val(32, s) == ((((s[0] * 32 + s[1]) * 32 + s[2]) * 32 + s[3]) * 32 + s[4]) * 32 + s[5]
  {
    assert s == [] + [s[0]] + [s[1]] + [s[2]] + [s[3]] + [s[4]] + [s[5]];
    ValSnoc(32, [], s[0]);
    ValSnoc(32, [] + [s[0]], s[1]);
    ValSnoc(32, [] + [s[0]] + [s[1]], s[2]);
    ValSnoc(32, [] + [s[0]] + [s[1]] + [s[2]], s[3]);
    ValSnoc(32, [] + [s[0]] + [s[1]] + [s[2]] + [s[3]], s[4]);
    ValSnoc(32, [] + [s[0]] + [s[1]] + [s[2]] + [s[3]] + [s[4]], s[5]);
  }

  /** The word holds these six symbols. */
  ghost predicate Holds(w: Word, s: seq<nat>)
    requires |s| == 6
  {
    forall j: nat :: j < 6 ==> Piece(w, j) == Element(s[j])
  }

  lemma {:induction false} WordOf(w: Word, es: seq<Bits>, n: nat)
    requires |es| == 6 && AreFives(es) && FromBits(Flat(es)) == n && w == ToBits(30, n)
    ensures forall j: nat :: j < 6 ==> Piece(w, j) == es[j]
  {
    assert |Flat(es)| == 30;
    BitsRoundTrip(Flat(es));
    forall j: nat | j < 6 ensures Piece(w, j) == es[j] { FlatAt(es, j); }
  }

  /** A number of six digits in base 32. */
  lemma {:induction false} NumberHolds(n: nat, s: seq<nat>)
    requires |s| == 6 && Below(32, s) && n == Val(32, s)
    ensures Holds(ToBits(30, n), s)
  {
    var es := seq(6, j requires 0 <= j < 6 => Element(s[j]));
    forall j | 0 <= j < 6 ensures FromBits(es[j]) == s[j] { ElementValue(s[j]); }
    FlatValue(es, s);
    WordOf(ToBits(30, n), es, n);
  }

  /** The five constants in base 32. */
  function Table(): (t: seq<seq<nat>>)
    ensures |t| == 5 && forall i :: 0 <= i < 5 ==> |t[i]| == 6 && Below(32, t[i])
  {
    [[29, 22, 20, 21, 29, 18], [19, 5, 1, 3, 19, 13], [15, 10, 2, 6, 15, 26],
     [30, 20, 4, 12, 30, 29], [21, 1, 8, 24, 21, 19]]
  }

  lemma {:induction false} GeneratorHolds(g: seq<nat>, i: nat)
    requires g == Gen() && i < 5
    ensures Holds(ToBits(30, g[i]), Table()[i])
  {
    SixDigits(Table()[i]);
    NumberHolds(g[i], Table()[i]);
  }

  lemma {:induction false} TableIsPowers(i: nat, j: nat)
    requires i < 5 && j < 6
    ensures Element(Table()[i][j]) == Power(i, Coefficient(j))
  {
    if i > 0 {
      TableIsPowers(i - 1, j);
      TableDoubles(i - 1, j);
    }
  }

  lemma {:induction false} Doubles()
    ensures Twice(Element(29)) == Element(19) && Twice(Element(22)) == Element(5) && Twice(Element(20)) == Element(1)
    ensures Twice(Element(21)) == Element(3) && Twice(Element(18)) == Element(13) && Twice(Element(19)) == Element(15)
    ensures Twice(Element(5)) == Element(10) && Twice(Element(1)) == Element(2) && Twice(Element(3)) == Element(6)
    ensures Twice(Element(13)) == Element(26) && Twice(Element(15)) == Element(30) && Twice(Element(10)) == Element(20)
    ensures Twice(Element(2)) == Element(4) && Twice(Element(6)) == Element(12) && Twice(Element(26)) == Element(29)
    ensures Twice(Element(30)) == Element(21) && Twice(Element(4)) == Element(8) && Twice(Element(12)) == Element(24)
  {
  }

  lemma {:induction false} TableDoubles(i: nat, j: nat)
    requires i < 4 && j < 6
    ensures Element(Table()[i + 1][j]) == Twice(Element(Table()[i][j]))
  {
    Doubles();
    if i == 0 {
      assert Table()[1] == [19, 5, 1, 3, 19, 13];
    } else if i == 1 {
      assert Table()[2] == [15, 10, 2, 6, 15, 26];
    } else if i == 2 {
      assert Table()[3] == [30, 20, 4, 12, 30, 29];
    } else {
      assert Table()[4] == [21, 1, 8, 24, 21, 19];
    }
  }

  /**
   The constants of the script are the generator of BIP-173: constant i holds its
   coefficients, multiplied i times by the root.
   */
  lemma {:induction false} GeneratorsAreMultiples(g: seq<nat>, t: seq<Word>, i: nat, j: nat)
    requires g == Gen() && t == Words(g) && i < 5 && j < 6
    ensures Piece(t[i], j) == Power(i, Coefficient(j))
  {
    GeneratorHolds(g, i);
    TableIsPowers(i, j);
  }

  // ---- The round ----

  lemma {:induction false} PieceOfXor(v: Word, w: Word, j: nat)
    requires j < 6
    ensures Piece(Xor(v, w), j) == Xor(Piece(v, j), Piece(w, j))
  {
  }

  lemma {:induction false} PieceOfPick(on: bool, w: Word, j: nat)
    requires j < 6
    ensures Piece(Pick(on, w), j) == Pick(on, Piece(w, j))
  {
  }

  lemma {:induction false} LowestFold(t: seq<Word>, b: Bits, e: Bits, j: nat, f4: Word, f3: Word)
    requires IsTable(t) && |b| == |e| == 5 && j < 6 && Piece(t[4], j) == Power(4, e) && Piece(t[3], j) == Power(3, e)
    requires f4 == Xor(Pick(b[0], t[4]), Off(30)) && f3 == Xor(Pick(b[1], t[3]), f4)
    ensures Piece(f3, j) == Xor(Pick(b[1], Power(3, e)), Pick(b[0], Power(4, e)))
  {
    PieceOfFold(b[0], t[4], Off(30), j, Power(4, e), Off(5));
    PieceOfFold(b[1], t[3], f4, j, Power(3, e), Xor(Pick(b[0], Power(4, e)), Off(5)));
    assert Xor(Pick(b[0], Power(4, e)), Off(5)) == Pick(b[0], Power(4, e));
  }

  /** What is folded back is the lost coefficient times the generator. */
  lemma {:induction false} FeedbackIsProduct(t: seq<Word>, b: Bits, e: Bits, j: nat)
    requires IsTable(t) && |b| == |e| == 5 && j < 6 && forall i: nat :: i < 5 ==> Piece(t[i], j) == Power(i, e)
    ensures Piece(Feedback(t, b, 0), j) == Product(b, e)
  {
    FeedbackUnfolded(t, b);
    var f4 := Xor(Pick(b[0], t[4]), Off(30));
    var f3 := Xor(Pick(b[1], t[3]), f4);
    var f2 := Xor(Pick(b[2], t[2]), f3);
    var f1 := Xor(Pick(b[3], t[1]), f2);
    LowestFold(t, b, e, j, f4, f3);
    PieceOfFold(b[2], t[2], f3, j, Power(2, e), Piece(f3, j));
    PieceOfFold(b[3], t[1], f2, j, Power(1, e), Piece(f2, j));
    PieceOfFold(b[4], t[0], f1, j, e, Piece(f1, j));
  }

  lemma {:induction false} PieceOfFold(on: bool, w: Word, f: Word, j: nat, e: Bits, p: Bits)
    requires j < 6 && Piece(w, j) == e && Piece(f, j) == p
    ensures Piece(Xor(Pick(on, w), f), j) == Xor(Pick(on, e), p)
  {
    PieceOfXor(Pick(on, w), f, j);
    PieceOfPick(on, w, j);
  }

  lemma {:induction false} PieceOfShift(c: Word, j: nat)
    requires j < 6
    ensures Piece(c[5..] + Off(5), j) == if j < 5 then Piece(c, j + 1) else Off(5)
  {
  }

  lemma {:induction false} RoundOfTable(t: seq<Word>, c: Word, v: Word, e: Bits, j: nat)
    requires IsTable(t) && |e| == 5 && j < 6 && forall i: nat :: i < 5 ==> Piece(t[i], j) == Power(i, e)
    ensures Piece(Step(t, c, v), j)
         == Xor(Xor(if j < 5 then Piece(c, j + 1) else Off(5), Piece(v, j)), Product(Piece(c, 0), e))
  {
    var f := Feedback(t, c[..5], 0);
    assert c[..5] == Piece(c, 0);
    FeedbackIsProduct(t, c[..5], e, j);
    PieceOfXor(Xor(c[5..] + Off(5), v), f, j);
    PieceOfXor(c[5..] + Off(5), v, j);
    PieceOfShift(c, j);
  }

  /** The constants are the multiples of the generator. */
  ghost predicate Multiples(g: seq<nat>)
  {
    |g| == 5 && forall i: nat, j: nat :: i < 5 && j < 6 ==> Piece(Words(g)[i], j) == Power(i, Coefficient(j))
  }

  lemma {:induction false} ScriptHasMultiples(g: seq<nat>)
    requires g == Gen()
    ensures Multiples(g)
  {
    forall i: nat, j: nat | i < 5 && j < 6 ensures Piece(Words(g)[i], j) == Power(i, Coefficient(j)) {
      GeneratorsAreMultiples(g, Words(g), i, j);
    }
  }

  /** One round is multiplication by x, addition of the value, and reduction by the generator. */
  lemma {:induction false} RoundIsReduction(g: seq<nat>, c: Word, v: Word, j: nat)
    requires Multiples(g) && j < 6
    ensures Piece(Step(Words(g), c, v), j)
         == Xor(Xor(if j < 5 then Piece(c, j + 1) else Off(5), Piece(v, j)), Product(Piece(c, 0), Coefficient(j)))
  {
    RoundOfTable(Words(g), c, v, Coefficient(j), j);
  }

  // ---- Verification is division ----

  /** Symbol `j` after one round, by the definition. */
  ghost predicate ReducesAt(s: seq<nat>, n: nat, s': seq<nat>, j: nat)
    requires |s| == |s'| == 6 && j < 6
  {
    Element(s'[j]) == Xor(Element(if j < 5 then s[j + 1] else n), Product(Element(s[0]), Coefficient(j)))
  }

  ghost predicate Reduces(s: seq<nat>, n: nat, s': seq<nat>)
    requires |s| == |s'| == 6
  {
    forall j: nat :: j < 6 ==> ReducesAt(s, n, s', j)
  }

  lemma {:induction false} ValueHolds(n: nat)
    requires n < 32
    ensures Holds(ToBits(30, n), [0, 0, 0, 0, 0, n])
  {
    SixDigits([0, 0, 0, 0, 0, n]);
    NumberHolds(n, [0, 0, 0, 0, 0, n]);
  }

  lemma {:induction false} NextSymbol(g: seq<nat>, c: Word, s: seq<nat>, n: nat, v: Word, j: nat, e: Bits)
    requires Multiples(g) && |s| == 6 && j < 6 && Holds(c, s) && |e| == 5 && Piece(v, j) == e
    ensures Piece(Step(Words(g), c, v), j)
         == Xor(Xor(if j < 5 then Element(s[j + 1]) else Off(5), e), Product(Element(s[0]), Coefficient(j)))
  {
    RoundIsReduction(g, c, v, j);
    assert Piece(c, 0) == Element(s[0]) && (j < 5 ==> Piece(c, j + 1) == Element(s[j + 1]));
  }

  lemma {:induction false} NextRound(g: seq<nat>, c: Word, s: seq<nat>, n: nat, s': seq<nat>)
    requires Multiples(g) && |s| == |s'| == 6 && n < 32 && Holds(c, s) && Reduces(s, n, s')
    ensures Holds(Step(Words(g), c, ToBits(30, n)), s')
  {
    var v := ToBits(30, n);
    ValueHolds(n);
    ZeroElement();
    forall j: nat | j < 6 ensures Piece(Step(Words(g), c, v), j) == Element(s'[j]) {
      assert ReducesAt(s, n, s', j);
      NextSymbol(g, c, s, n, v, j, if j < 5 then Off(5) else Element(n));
      if j < 5 { XorOffs(Element(s[j + 1])); } else { XorOffs(Element(n)); }
    }
  }

  lemma {:induction false} ZeroElement()
    ensures Element(0) == Off(5)
  {
  }

  lemma {:induction false} XorOffs(e: Bits)
    requires |e| == 5
    ensures Xor(e, Off(5)) == e && Xor(Off(5), e) == e
  {
  }

  /** While the lost coefficient is zero, a round only shifts. */
  lemma {:induction false} ZeroReduces(s: seq<nat>, n: nat)
    requires |s| == 6 && s[0] == 0
    ensures Reduces(s, n, s[1..] + [n])
  {
    forall j: nat | j < 6 ensures ReducesAt(s, n, s[1..] + [n], j) {
      assert Product(Element(0), Coefficient(j)) == Off(5);
      XorOffs(Element((s[1..] + [n])[j]));
    }
  }

  /** The constants that `b` selects, of one column of the table, added up. */
  function Selected(b: Bits, j: nat): (e: Bits)
    requires |b| == 5 && j < 6
    ensures |e| == 5
  {
    var t := Table();
    Xor(Pick(b[4], Element(t[0][j])), Xor(Pick(b[3], Element(t[1][j])), Xor(Pick(b[2], Element(t[2][j])),
      Xor(Pick(b[1], Element(t[3][j])), Pick(b[0], Element(t[4][j]))))))
  }

  lemma {:induction false} SelectedIsProduct(b: Bits, j: nat)
    requires |b| == 5 && j < 6
    ensures Selected(b, j) == Product(b, Coefficient(j))
  {
    TableIsPowers(0, j);
    TableIsPowers(1, j);
    TableIsPowers(2, j);
    TableIsPowers(3, j);
    TableIsPowers(4, j);
  }

  /** A sum of constants, where only some are selected. */
  function Folded(b: Bits, e0: Bits, e1: Bits, e2: Bits, e3: Bits, e4: Bits): (e: Bits)
    requires |b| == |e0| == |e1| == |e2| == |e3| == |e4| == 5
  {
    Xor(Pick(b[4], e0), Xor(Pick(b[3], e1), Xor(Pick(b[2], e2), Xor(Pick(b[1], e3), Pick(b[0], e4)))))
  }

  lemma {:induction false} FoldedIs(b: Bits, e0: Bits, e1: Bits, e2: Bits, e3: Bits, e4: Bits)
    requires |b| == |e0| == |e1| == |e2| == |e3| == |e4| == 5
    ensures b == [false, false, false, false, true] ==> Folded(b, e0, e1, e2, e3, e4) == e0
    ensures b == [true, false, false, true, false] ==> Folded(b, e0, e1, e2, e3, e4) == Xor(e1, e4)
    ensures b == [true, true, true, true, false] ==> Folded(b, e0, e1, e2, e3, e4) == Xor(e1, Xor(e2, Xor(e3, e4)))
  {
  }

  lemma {:induction false} ElementsOf()
    ensures Element(1) == [false, false, false, false, true] && Element(18) == [true, false, false, true, false]
    ensures Element(30) == [true, true, true, true, false]
  {
  }

  lemma {:induction false} ByFolding(s: seq<nat>, n: nat, s': seq<nat>, j: nat, y: nat, b: Bits, f: Bits)
    requires |s| == |s'| == 6 && j < 6 && b == Element(s[0]) && y == (if j < 5 then s[j + 1] else n) && |f| == 5
    requires f == Selected(b, j) && Element(s'[j]) == Xor(Element(y), f)
    ensures ReducesAt(s, n, s', j)
  {
    SelectedIsProduct(b, j);
  }

  lemma {:induction false} SelectedIsFolded(b: Bits, j: nat, z0: nat, z1: nat, z2: nat, z3: nat, z4: nat)
    requires |b| == 5 && j < 6 && Table()[0][j] == z0 && Table()[1][j] == z1 && Table()[2][j] == z2
    requires Table()[3][j] == z3 && Table()[4][j] == z4
    ensures Selected(b, j) == Folded(b, Element(z0), Element(z1), Element(z2), Element(z3), Element(z4))
  {
  }

  lemma {:induction false} ByOne(s: seq<nat>, n: nat, s': seq<nat>, j: nat, y: nat, z0: nat)
    requires |s| == |s'| == 6 && j < 6 && s[0] == 1 && y == (if j < 5 then s[j + 1] else n)
    requires Table()[0][j] == z0 && Element(s'[j]) == Xor(Element(y), Element(z0))
    ensures ReducesAt(s, n, s', j)
  {
    var b, t := Element(s[0]), Table();
    ElementsOf();
    SelectedIsFolded(b, j, z0, t[1][j], t[2][j], t[3][j], t[4][j]);
    FoldedIs(b, Element(z0), Element(t[1][j]), Element(t[2][j]), Element(t[3][j]), Element(t[4][j]));
    ByFolding(s, n, s', j, y, b, Element(z0));
  }

  lemma {:induction false} ByEighteen(s: seq<nat>, n: nat, s': seq<nat>, j: nat, y: nat, z1: nat, z4: nat)
    requires |s| == |s'| == 6 && j < 6 && s[0] == 18 && y == (if j < 5 then s[j + 1] else n)
    requires Table()[1][j] == z1 && Table()[4][j] == z4
    requires Element(s'[j]) == Xor(Element(y), Xor(Element(z1), Element(z4)))
    ensures ReducesAt(s, n, s', j)
  {
    var b, t := Element(s[0]), Table();
    ElementsOf();
    SelectedIsFolded(b, j, t[0][j], z1, t[2][j], t[3][j], z4);
    FoldedIs(b, Element(t[0][j]), Element(z1), Element(t[2][j]), Element(t[3][j]), Element(z4));
    ByFolding(s, n, s', j, y, b, Xor(Element(z1), Element(z4)));
  }

  lemma {:induction false} ByThirty(s: seq<nat>, n: nat, s': seq<nat>, j: nat, y: nat, z1: nat, z2: nat, z3: nat,
    z4: nat)
    requires |s| == |s'| == 6 && j < 6 && s[0] == 30 && y == (if j < 5 then s[j + 1] else n)
    requires Table()[1][j] == z1 && Table()[2][j] == z2 && Table()[3][j] == z3 && Table()[4][j] == z4
    requires Element(s'[j]) == Xor(Element(y), Xor(Element(z1), Xor(Element(z2), Xor(Element(z3), Element(z4)))))
    ensures ReducesAt(s, n, s', j)
  {
    var b, t := Element(s[0]), Table();
    ElementsOf();
    SelectedIsFolded(b, j, t[0][j], z1, z2, z3, z4);
    FoldedIs(b, Element(t[0][j]), Element(z1), Element(z2), Element(z3), Element(z4));
    ByFolding(s, n, s', j, y, b, Xor(Element(z1), Xor(Element(z2), Xor(Element(z3), Element(z4)))));
  }

  lemma {:induction false} SixthHigh(s: seq<nat>, s': seq<nat>)
    requires s == [1, 3, 0, 1, 10, 28] && s' == [30, 22, 21, 31, 1, 11]
    ensures ReducesAt(s, 25, s', 0) && ReducesAt(s, 25, s', 1) && ReducesAt(s, 25, s', 2)
  {
    ByOne(s, 25, s', 0, 3, 29);
    ByOne(s, 25, s', 1, 0, 22);
    ByOne(s, 25, s', 2, 1, 20);
  }

  lemma {:induction false} SixthLow(s: seq<nat>, s': seq<nat>)
    requires s == [1, 3, 0, 1, 10, 28] && s' == [30, 22, 21, 31, 1, 11]
    ensures ReducesAt(s, 25, s', 3) && ReducesAt(s, 25, s', 4) && ReducesAt(s, 25, s', 5)
  {
    ByOne(s, 25, s', 3, 10, 21);
    ByOne(s, 25, s', 4, 28, 29);
    ByOne(s, 25, s', 5, 25, 18);
  }

  lemma {:induction false} SeventhHigh(s: seq<nat>, s': seq<nat>)
    requires s == [30, 22, 21, 31, 1, 11] && s' == [1, 15, 16, 16, 28, 6]
    ensures ReducesAt(s, 31, s', 0) && ReducesAt(s, 31, s', 1) && ReducesAt(s, 31, s', 2)
  {
    ByThirty(s, 31, s', 0, 22, 19, 15, 30, 21);
    ByThirty(s, 31, s', 1, 21, 5, 10, 20, 1);
    ByThirty(s, 31, s', 2, 31, 1, 2, 4, 8);
  }

  lemma {:induction false} SeventhLow(s: seq<nat>, s': seq<nat>)
    requires s == [30, 22, 21, 31, 1, 11] && s' == [1, 15, 16, 16, 28, 6]
    ensures ReducesAt(s, 31, s', 3) && ReducesAt(s, 31, s', 4) && ReducesAt(s, 31, s', 5)
  {
    ByThirty(s, 31, s', 3, 1, 3, 6, 12, 24);
    ByThirty(s, 31, s', 4, 11, 19, 15, 30, 21);
    ByThirty(s, 31, s', 5, 31, 13, 26, 29, 19);
  }

  lemma {:induction false} EighthHigh(s: seq<nat>, s': seq<nat>)
    requires s == [1, 15, 16, 16, 28, 6] && s' == [18, 6, 4, 9, 27, 6]
    ensures ReducesAt(s, 20, s', 0) && ReducesAt(s, 20, s', 1) && ReducesAt(s, 20, s', 2)
  {
    ByOne(s, 20, s', 0, 15, 29);
    ByOne(s, 20, s', 1, 16, 22);
    ByOne(s, 20, s', 2, 16, 20);
  }

  lemma {:induction false} EighthLow(s: seq<nat>, s': seq<nat>)
    requires s == [1, 15, 16, 16, 28, 6] && s' == [18, 6, 4, 9, 27, 6]
    ensures ReducesAt(s, 20, s', 3) && ReducesAt(s, 20, s', 4) && ReducesAt(s, 20, s', 5)
  {
    ByOne(s, 20, s', 3, 28, 21);
    ByOne(s, 20, s', 4, 6, 29);
    ByOne(s, 20, s', 5, 20, 18);
  }

  lemma {:induction false} NinthHigh(s: seq<nat>, s': seq<nat>)
    requires s == [18, 6, 4, 9, 27, 6] && s' == [0, 0, 0, 0, 0, 1]
    ensures ReducesAt(s, 31, s', 0) && ReducesAt(s, 31, s', 1) && ReducesAt(s, 31, s', 2)
  {
    ByEighteen(s, 31, s', 0, 6, 19, 21);
    ByEighteen(s, 31, s', 1, 4, 5, 1);
    ByEighteen(s, 31, s', 2, 9, 1, 8);
  }

  lemma {:induction false} NinthLow(s: seq<nat>, s': seq<nat>)
    requires s == [18, 6, 4, 9, 27, 6] && s' == [0, 0, 0, 0, 0, 1]
    ensures ReducesAt(s, 31, s', 3) && ReducesAt(s, 31, s', 4) && ReducesAt(s, 31, s', 5)
  {
    ByEighteen(s, 31, s', 3, 27, 3, 24);
    ByEighteen(s, 31, s', 4, 6, 19, 21);
    ByEighteen(s, 31, s', 5, 31, 13, 19);
  }

  lemma {:induction false} RoundHolds(g: seq<nat>, vs: seq<nat>, k: nat, s: seq<nat>, s': seq<nat>)
    requires Multiples(g) && k < |vs| && vs[k] < 32 && |s| == |s'| == 6
    requires Holds(Register(g, vs[..k]), s) && Reduces(s, vs[k], s')
    ensures Holds(Register(g, vs[..k + 1]), s')
  {
    RegisterSnoc(g, vs, k);
    NextRound(g, Register(g, vs[..k]), s, vs[k], s');
  }

  lemma {:induction false} OneHolds(w: Word)
    ensures Holds(w, [0, 0, 0, 0, 0, 1]) <==> w == One()
  {
    ZeroElement();
    assert Element(1) == [false, false, false, false, true];
    if Holds(w, [0, 0, 0, 0, 0, 1]) {
      forall k: nat | k < 30 ensures w[k] == One()[k] {
        assert w[k] == Piece(w, k / 5)[k % 5];
      }
    }
  }

  const ONE := [0, 0, 0, 0, 0, 1]

  /** The rounds of a division by the generator that starts from 1: `rs[k]` is the remainder before value `k`. */
  ghost predicate Division(vs: seq<nat>, rs: seq<seq<nat>>)
  {
    && |rs| == |vs| + 1 && rs[0] == ONE && (forall k :: 0 <= k < |rs| ==> |rs[k]| == 6 && Below(32, rs[k]))
    && forall k :: 0 <= k < |vs| ==> Reduces(rs[k], vs[k], rs[k + 1])
  }

  lemma {:induction false} DivisionHolds(g: seq<nat>, vs: seq<nat>, rs: seq<seq<nat>>, k: nat)
    requires Multiples(g) && Below(32, vs) && Division(vs, rs) && k <= |vs|
    ensures Holds(Register(g, vs[..k]), rs[k])
  {
    if k == 0 {
      OneHolds(Register(g, vs[..0]));
    } else {
      DivisionHolds(g, vs, rs, k - 1);
      RoundHolds(g, vs, k - 1, rs[k - 1], rs[k]);
    }
  }

  lemma {:induction false} SameSymbols(w: Word, s: seq<nat>, s': seq<nat>)
    requires |s| == |s'| == 6 && Below(32, s) && Below(32, s') && Holds(w, s) && Holds(w, s')
    ensures s == s'
  {
    forall j: nat | j < 6 ensures s[j] == s'[j] {
      assert Piece(w, j) == Element(s[j]) == Element(s'[j]);
      ElementValue(s[j]);
      ElementValue(s'[j]);
    }
  }

  /** The checksum verifies exactly if dividing the values leaves the remainder 1. */
  lemma {:induction false} VerifiesIffRemainderIsOne(g: seq<nat>, hrp: string, data: seq<nat>, vs: seq<nat>,
    rs: seq<seq<nat>>)
    requires Multiples(g) && vs == HrpExpand(hrp) + data && Below(32, vs) && Division(vs, rs)
    ensures Verifies(g, hrp, data) <==> rs[|vs|] == ONE
  {
    DivisionHolds(g, vs, rs, |vs|);
    assert vs[..|vs|] == vs;
    OneHolds(Register(g, vs));
    if Verifies(g, hrp, data) { SameSymbols(Register(g, vs), rs[|vs|], ONE); }
  }

  lemma {:induction false} AllSix(s: seq<nat>, n: nat, s': seq<nat>)
    requires |s| == |s'| == 6 && ReducesAt(s, n, s', 0) && ReducesAt(s, n, s', 1) && ReducesAt(s, n, s', 2)
    requires ReducesAt(s, n, s', 3) && ReducesAt(s, n, s', 4) && ReducesAt(s, n, s', 5)
    ensures Reduces(s, n, s')
  {
    forall j: nat | j < 6 ensures ReducesAt(s, n, s', j) {
      if j == 0 { } else if j == 1 { } else if j == 2 { } else if j == 3 { } else if j == 4 { } else { assert j == 5; }
    }
  }

  lemma {:induction false} Sixth(s: seq<nat>, n: nat, s': seq<nat>)
    requires s == [1, 3, 0, 1, 10, 28] && n == 25 && s' == [30, 22, 21, 31, 1, 11]
    ensures Reduces(s, n, s')
  {
    SixthHigh(s, s');
    SixthLow(s, s');
    AllSix(s, n, s');
  }

  lemma {:induction false} Seventh(s: seq<nat>, n: nat, s': seq<nat>)
    requires s == [30, 22, 21, 31, 1, 11] && n == 31 && s' == [1, 15, 16, 16, 28, 6]
    ensures Reduces(s, n, s')
  {
    SeventhHigh(s, s');
    SeventhLow(s, s');
    AllSix(s, n, s');
  }

  lemma {:induction false} Eighth(s: seq<nat>, n: nat, s': seq<nat>)
    requires s == [1, 15, 16, 16, 28, 6] && n == 20 && s' == [18, 6, 4, 9, 27, 6]
    ensures Reduces(s, n, s')
  {
    EighthHigh(s, s');
    EighthLow(s, s');
    AllSix(s, n, s');
  }

  lemma {:induction false} Ninth(s: seq<nat>, n: nat, s': seq<nat>)
    requires s == [18, 6, 4, 9, 27, 6] && n == 31 && s' == [0, 0, 0, 0, 0, 1]
    ensures Reduces(s, n, s')
  {
    NinthHigh(s, s');
    NinthLow(s, s');
    AllSix(s, n, s');
  }

  /** Five values are only shifted in; with the four reductions after them they are a division. */
  lemma {:induction false} NineRounds(vs: seq<nat>, rs: seq<seq<nat>>)
    requires |vs| == 9 && |rs| == 10 && rs[0] == ONE && forall k :: 0 <= k < 10 ==> |rs[k]| == 6 && Below(32, rs[k])
    requires forall k :: 0 <= k < 5 ==> rs[k][0] == 0 && rs[k + 1] == rs[k][1..] + [vs[k]]
    requires forall k :: 5 <= k < 9 ==> Reduces(rs[k], vs[k], rs[k + 1])
    ensures Division(vs, rs)
  {
    forall k | 0 <= k < 9 ensures Reduces(rs[k], vs[k], rs[k + 1]) {
      if k < 5 { ZeroReduces(rs[k], vs[k]); }
    }
  }

  function Remainders(): (rs: seq<seq<nat>>)
    ensures |rs| == 10 && forall k :: 0 <= k < 10 ==> |rs[k]| == 6 && Below(32, rs[k])
  {
    [[0, 0, 0, 0, 0, 1], [0, 0, 0, 0, 1, 3], [0, 0, 0, 1, 3, 0], [0, 0, 1, 3, 0, 1], [0, 1, 3, 0, 1, 10],
     [1, 3, 0, 1, 10, 28], [30, 22, 21, 31, 1, 11], [1, 15, 16, 16, 28, 6], [18, 6, 4, 9, 27, 6], [0, 0, 0, 0, 0, 1]]
  }

  lemma {:induction false} ShiftsAre(vs: seq<nat>, k: nat)
    requires |vs| == 9 && vs[..5] == [3, 0, 1, 10, 28] && k < 5
    ensures Remainders()[k][0] == 0 && Remainders()[k + 1] == Remainders()[k][1..] + [vs[k]]
  {
    assert vs[k] == vs[..5][k];
  }

  /** The values of the valid string "a12uel5l" of the standard, divided, leave 1. */
  lemma {:induction false} VectorDivides(vs: seq<nat>, rs: seq<seq<nat>>)
    requires vs == [3, 0, 1, 10, 28, 25, 31, 20, 31] && rs == Remainders()
    ensures Division(vs, rs) && rs[9] == ONE
  {
    forall k: nat | k < 5 ensures rs[k][0] == 0 && rs[k + 1] == rs[k][1..] + [vs[k]] { ShiftsAre(vs, k); }
    forall k | 5 <= k < 9 ensures Reduces(rs[k], vs[k], rs[k + 1]) {
      if k == 5 { Sixth(rs[5], vs[5], rs[6]); }
      else if k == 6 { Seventh(rs[6], vs[6], rs[7]); }
      else if k == 7 { Eighth(rs[7], vs[7], rs[8]); }
      else { Ninth(rs[8], vs[8], rs[9]); }
    }
    NineRounds(vs, rs);
  }

  /** And these are its values. */
  lemma {:induction false} VectorValues(hrp: string, data: seq<nat>)
    requires hrp == "a" && data == [10, 28, 25, 31, 20, 31]
    ensures HrpExpand(hrp) + data == [3, 0, 1, 10, 28, 25, 31, 20, 31] && Assemble(hrp, data) == "a12uel5l"
  {
    assert Chars(data) == "2uel5l";
  }

  lemma {:induction false} StandardVector(g: seq<nat>, hrp: string, data: seq<nat>)
    requires Multiples(g) && HrpExpand(hrp) + data == [3, 0, 1, 10, 28, 25, 31, 20, 31]
    ensures Verifies(g, hrp, data)
  {
    var vs, rs := HrpExpand(hrp) + data, Remainders();
    VectorDivides(vs, rs);
    VerifiesIffRemainderIsOne(g, hrp, data, vs, rs);
  }

  /** So it verifies with the constants of the script. */
  lemma {:induction false} ScriptVector(g: seq<nat>, hrp: string, data: seq<nat>)
    requires g == Gen() && hrp == "a" && data == [10, 28, 25, 31, 20, 31]
    ensures Verifies(g, hrp, data)
  {
    ScriptHasMultiples(g);
    VectorValues(hrp, data);
    StandardVector(g, hrp, data);
  }
}
