/**
 `encode_bech32` and the decoder of BIP-173 beside it: section "Bech32" for the
 string, section "Checksum" for the verification, section "Segwit address
 format" for the witness program.
 */
module Bech32 {
  import opened Numerals
  import opened Wrappers
  import opened ShiftRegister
  import opened Bech32Checksum
  import opened Regroup

  // ---- Characters ----

  const CHARSET: string := "qpzry9x8gf2tvdw0s3jn54khce6mua7l"

  function CharOf(d: nat): char
    requires d < 32
  {
    CHARSET[d]
  }

  function SymbolOf(c: char): (r: Option<nat>)
    ensures r.Some? ==> r.value < 32
  {
    match c
    case 'q' => Some(0) case 'p' => Some(1) case 'z' => Some(2) case 'r' => Some(3)
    case 'y' => Some(4) case '9' => Some(5) case 'x' => Some(6) case '8' => Some(7)
    case 'g' => Some(8) case 'f' => Some(9) case '2' => Some(10) case 't' => Some(11)
    case 'v' => Some(12) case 'd' => Some(13) case 'w' => Some(14) case '0' => Some(15)
    case 's' => Some(16) case '3' => Some(17) case 'j' => Some(18) case 'n' => Some(19)
    case '5' => Some(20) case '4' => Some(21) case 'k' => Some(22) case 'h' => Some(23)
    case 'c' => Some(24) case 'e' => Some(25) case '6' => Some(26) case 'm' => Some(27)
    case 'u' => Some(28) case 'a' => Some(29) case '7' => Some(30) case 'l' => Some(31)
    case _ => None
  }

  predicate Plain(c: char)
  {
    '!' <= c <= '~' && !('A' <= c <= 'Z')
  }

  lemma {:induction false} CharRoundTrip(d: nat)
    requires d < 32
    ensures SymbolOf(CharOf(d)) == Some(d)
    ensures CharOf(d) != '1' && Plain(CharOf(d))
  {
  }

  lemma {:induction false} SymbolRoundTrip(c: char)
    requires SymbolOf(c).Some?
    ensures CharOf(SymbolOf(c).value) == c
  {
  }

  function Chars(ds: seq<nat>): (s: string)
    requires Below(32, ds)
    ensures |s| == |ds|
  {
    seq(|ds|, i requires 0 <= i < |ds| => CharOf(ds[i]))
  }

  predicate InCharset(s: string) { forall i :: 0 <= i < |s| ==> SymbolOf(s[i]).Some? }

  function Symbols(s: string): (ds: seq<nat>)
    requires InCharset(s)
    ensures |ds| == |s| && Below(32, ds)
  {
    seq(|s|, i requires 0 <= i < |s| => SymbolOf(s[i]).value)
  }

  lemma {:induction false} CharsRoundTrip(ds: seq<nat>)
    requires Below(32, ds)
    ensures InCharset(Chars(ds)) && Symbols(Chars(ds)) == ds
    ensures '1' !in Chars(ds) && forall i :: 0 <= i < |ds| ==> Plain(Chars(ds)[i])
  {
    forall i | 0 <= i < |ds|
      ensures SymbolOf(Chars(ds)[i]) == Some(ds[i]) && Chars(ds)[i] != '1' && Plain(Chars(ds)[i])
    {
      CharRoundTrip(ds[i]);
    }
  }

  lemma {:induction false} SymbolsRoundTrip(s: string)
    requires InCharset(s)
    ensures Chars(Symbols(s)) == s
  {
    forall i | 0 <= i < |s| ensures Chars(Symbols(s))[i] == s[i] { SymbolRoundTrip(s[i]); }
  }

  // ---- Checksum ----

  function HrpExpand(h: string): (vs: seq<nat>)
    ensures |vs| == 2 * |h| + 1 && Below(0x40000000, vs)
  {
    seq(|h|, i requires 0 <= i < |h| => h[i] as int / 32) + [0] + seq(|h|, i requires 0 <= i < |h| => h[i] as int % 32)
  }

  /**
   The expansion reads back: the high bits of every character, a zero, and the
   low five bits of every character in the same order.
   */
  lemma {:induction false} HrpReadsBack(h: string, i: nat)
    requires i < |h|
    ensures var vs := HrpExpand(h); vs[|h|] == 0 && vs[|h| + 1 + i] < 32 && 32 * vs[i] + vs[|h| + 1 + i] == h[i] as int
  {
  }

  lemma {:induction false} HrpInjective(h: string, h': string)
    requires HrpExpand(h) == HrpExpand(h')
    ensures h == h'
  {
    assert |h| == |h'|;
    forall i | 0 <= i < |h| ensures h[i] == h'[i] {
      HrpReadsBack(h, i);
      HrpReadsBack(h', i);
    }
  }

  /** Section "Checksum" of BIP-173: the register over the whole string must end at 1. */
  predicate Verifies(gen: seq<nat>, hrp: string, data: seq<nat>)
    requires |gen| == 5
  {
    Register(gen, HrpExpand(hrp) + data) == One()
  }

  function Piece(w: Word, i: nat): (e: Bits)
    requires i < 6
    ensures |e| == 5
  {
    w[5 * i..5 * i + 5]
  }

  /** The six checksum symbols. */
  function Checksum(gen: seq<nat>, hrp: string, data: seq<nat>): (chk: seq<nat>)
    requires |gen| == 5
    ensures |chk| == 6 && Below(32, chk)
  {
    var w := Xor(Register(gen, HrpExpand(hrp) + data + Zeros(6)), One());
    PiecesBelow(w);
    seq(6, i requires 0 <= i < 6 => FromBits(Piece(w, i)))
  }

  lemma {:induction false} PiecesBelow(w: Word)
    ensures forall i: nat :: i < 6 ==> FromBits(Piece(w, i)) < 32
  {
    forall i: nat | i < 6 ensures FromBits(Piece(w, i)) < 32 {
      PowersOfTwo();
      FromBitsBound(Piece(w, i));
    }
  }

  function Fives(ds: seq<nat>): (es: seq<Bits>)
    ensures |es| == |ds| && AreFives(es) && forall i :: 0 <= i < |es| ==> es[i] == ToBits(5, ds[i])
  {
    seq(|ds|, i requires 0 <= i < |ds| => ToBits(5, ds[i]))
  }

  lemma {:induction false} SmallWord(v: nat)
    requires v < 32
    ensures ToBits(30, v) == Wide(ToBits(5, v))
  {
    PowersOfTwo();
    ValOfDigits(2, 5, v);
    var ds := Zeros(25) + Digits(2, 5, v);
    ValLeadingZeros(2, 25, Digits(2, 5, v));
    DigitsOfVal(2, ds);
  }

  lemma {:induction false} SymbolsAreWide(ds: seq<nat>)
    requires Below(32, ds)
    ensures Words(ds) == Widen(Fives(ds))
  {
    forall i | 0 <= i < |ds| ensures Words(ds)[i] == Widen(Fives(ds))[i] { SmallWord(ds[i]); }
  }

  lemma {:induction false} RegisterAppend(gen: seq<nat>, xs: seq<nat>, ys: seq<nat>)
    requires |gen| == 5
    ensures Register(gen, xs + ys) == Run(RoundOf(Words(gen)), Register(gen, xs), Words(ys))
  {
    assert Words(xs + ys) == Words(xs) + Words(ys);
    RunAppend(RoundOf(Words(gen)), One(), Words(xs), Words(ys));
  }

  lemma {:induction false} FlatOfPieces(w: Word, es: seq<Bits>)
    requires |es| == 6 && AreFives(es) && forall i: nat :: i < 6 ==> es[i] == Piece(w, i)
    ensures Flat(es) == w
  {
    forall k: nat | k < 30 ensures Flat(es)[k] == w[k] {
      FlatAt(es, k / 5);
      assert Flat(es)[5 * (k / 5)..5 * (k / 5) + 5][k % 5] == w[k];
    }
  }

  lemma {:induction false} ZeroSymbols()
    ensures Words(Zeros(6)) == Widen(SixZeros())
  {
    SymbolsAreWide(Zeros(6));
    assert Digits(2, 5, 0) == [0, 0, 0, 0, 0];
    assert ToBits(5, 0) == Off(5);
    assert Fives(Zeros(6)) == SixZeros();
  }

  ghost predicate GoodRound(step: Round)
  {
    Linear(step) && Shifts(step) && Injective(step)
  }

  lemma {:induction false} Bip173Round(gen: seq<nat>)
    requires gen == Gen()
    ensures GoodRound(RoundOf(Words(gen)))
  {
    GeneratorsIndependent(gen);
    RoundProperties(Words(gen));
  }

  lemma {:induction false} ChecksumFromRegister(gen: seq<nat>, vs: seq<nat>, w: Word, chk: seq<nat>)
    requires |gen| == 5 && GoodRound(RoundOf(Words(gen)))
    requires w == Xor(Register(gen, vs + Zeros(6)), One())
    requires |chk| == 6 && Below(32, chk) && forall i: nat :: i < 6 ==> chk[i] == FromBits(Piece(w, i))
    ensures Register(gen, vs + chk) == One()
  {
    RegisterAppend(gen, vs, Zeros(6));
    ZeroSymbols();
    forall i: nat | i < 6 ensures Fives(chk)[i] == Piece(w, i) { BitsRoundTrip(Piece(w, i)); }
    FlatOfPieces(w, Fives(chk));
    ChecksumReachesTarget(RoundOf(Words(gen)), Register(gen, vs), One(), Fives(chk));
    SymbolsAreWide(chk);
    RegisterAppend(gen, vs, chk);
  }

  lemma {:induction false} ChecksumCloses(gen: seq<nat>, hrp: string, data: seq<nat>)
    requires |gen| == 5 && GoodRound(RoundOf(Words(gen)))
    ensures Verifies(gen, hrp, data + Checksum(gen, hrp, data))
  {
    var vs, chk := HrpExpand(hrp) + data, Checksum(gen, hrp, data);
    ChecksumFromRegister(gen, vs, Xor(Register(gen, vs + Zeros(6)), One()), chk);
    assert HrpExpand(hrp) + (data + chk) == vs + chk;
  }

  /** The verifier accepts every data part to which the script appends its checksum. */
  lemma {:induction false} ChecksumVerifies(gen: seq<nat>, hrp: string, data: seq<nat>)
    requires gen == Gen()
    ensures Verifies(gen, hrp, data + Checksum(gen, hrp, data))
  {
    Bip173Round(gen);
    ChecksumCloses(gen, hrp, data);
  }

  /** The two data parts agree outside six consecutive places from `i` on. */
  ghost predicate AgreeOutside(xs: seq<nat>, ys: seq<nat>, i: nat)
    requires |xs| == |ys|
  {
    forall k :: 0 <= k < |xs| && !(i <= k < i + 6) ==> xs[k] == ys[k]
  }

  lemma {:induction false} FivesInjective(xs: seq<nat>, ys: seq<nat>)
    requires Below(32, xs) && Below(32, ys) && |xs| == |ys| && Fives(xs) == Fives(ys)
    ensures xs == ys
  {
    PowersOfTwo();
    forall i | 0 <= i < |xs| ensures xs[i] == ys[i] {
      NumberRoundTrip(5, xs[i]);
      NumberRoundTrip(5, ys[i]);
      assert Fives(xs)[i] == Fives(ys)[i];
    }
  }

  lemma {:induction false} WindowWords(wx: seq<nat>, rest: seq<nat>)
    requires Below(32, wx)
    ensures Words(wx + rest) == Widen(Fives(wx)) + Words(rest)
  {
    SymbolsAreWide(wx);
  }

  lemma {:induction false} WindowRegister(gen: seq<nat>, pre: seq<nat>, wx: seq<nat>, wy: seq<nat>, rest: seq<nat>)
    requires |gen| == 5 && GoodRound(RoundOf(Words(gen)))
    requires Below(32, wx) && Below(32, wy) && |wx| == |wy| <= 6 && wx != wy
    ensures Register(gen, pre + (wx + rest)) != Register(gen, pre + (wy + rest))
  {
    RegisterAppend(gen, pre, wx + rest);
    RegisterAppend(gen, pre, wy + rest);
    WindowWords(wx, rest);
    WindowWords(wy, rest);
    assert Fives(wx) != Fives(wy) by {
      if Fives(wx) == Fives(wy) { FivesInjective(wx, wy); }
    }
    BurstChangesRegister(RoundOf(Words(gen)), Register(gen, pre), Fives(wx), Fives(wy), Words(rest));
  }

  lemma {:induction false} WindowDiffersToo(xs: seq<nat>, ys: seq<nat>, i: nat, a: nat, b: nat)
    requires |xs| == |ys| && AgreeOutside(xs, ys, i) && xs != ys
    requires a == (if i <= |xs| then i else |xs|) && b == if a + 6 <= |xs| then a + 6 else |xs|
    ensures ys[..a] == xs[..a] && ys[b..] == xs[b..] && xs[a..b] != ys[a..b]
  {
    forall k | 0 <= k < a ensures ys[..a][k] == xs[..a][k] { }
    forall k | 0 <= k < |xs| - b ensures ys[b..][k] == xs[b..][k] { assert ys[b + k] == xs[b + k]; }
    var k :| 0 <= k < |xs| && xs[k] != ys[k];
    assert a <= k < b;
    assert xs[a..b][k - a] == xs[k] && ys[a..b][k - a] == ys[k];
  }

  lemma {:induction false} ThreeParts(h: seq<nat>, xs: seq<nat>, a: nat, b: nat)
    requires a <= b <= |xs|
    ensures h + xs == h + xs[..a] + (xs[a..b] + xs[b..])
  {
    assert xs == xs[..a] + xs[a..b] + xs[b..];
  }

  /** Cuts both sequences around the places where they differ. */
  lemma {:induction false} CutWindow(h: seq<nat>, xs: seq<nat>, ys: seq<nat>, i: nat)
    returns (pre: seq<nat>, wx: seq<nat>, wy: seq<nat>, rest: seq<nat>)
    requires Below(32, xs) && Below(32, ys) && |xs| == |ys| && AgreeOutside(xs, ys, i) && xs != ys
    ensures h + xs == pre + (wx + rest) && h + ys == pre + (wy + rest)
    ensures Below(32, wx) && Below(32, wy) && |wx| == |wy| <= 6 && wx != wy
  {
    var a := if i <= |xs| then i else |xs|;
    var b := if a + 6 <= |xs| then a + 6 else |xs|;
    WindowDiffersToo(xs, ys, i, a, b);
    ThreeParts(h, xs, a, b);
    ThreeParts(h, ys, a, b);
    pre, wx, wy, rest := h + xs[..a], xs[a..b], ys[a..b], xs[b..];
  }

  /** Changing symbols within a window of six never goes unnoticed, whatever the prefix and the length. */
  lemma {:induction false} BurstDetected(gen: seq<nat>, hrp: string, xs: seq<nat>, ys: seq<nat>, i: nat)
    requires gen == Gen() && Below(32, xs) && Below(32, ys) && |xs| == |ys|
    requires AgreeOutside(xs, ys, i) && xs != ys && Verifies(gen, hrp, xs)
    ensures !Verifies(gen, hrp, ys)
  {
    var pre, wx, wy, rest := CutWindow(HrpExpand(hrp), xs, ys, i);
    Bip173Round(gen);
    WindowRegister(gen, pre, wx, wy, rest);
  }

  lemma {:induction false} SuffixesDiffer(data: seq<nat>, a: seq<nat>, b: seq<nat>)
    requires Below(32, data) && Below(32, a) && Below(32, b) && |a| == |b| == 6 && a != b
    ensures Below(32, data + a) && Below(32, data + b) && data + a != data + b
    ensures AgreeOutside(data + a, data + b, |data|)
  {
    assert (data + a)[|data|..] == a && (data + b)[|data|..] == b;
  }

  /** Given the rest of the data, the checksum symbols are the only ones that verify. */
  lemma {:induction false} ChecksumUnique(gen: seq<nat>, hrp: string, data: seq<nat>, chk: seq<nat>)
    requires gen == Gen() && Below(32, data) && Below(32, chk) && |chk| == 6
    requires Verifies(gen, hrp, data + chk)
    ensures chk == Checksum(gen, hrp, data)
  {
    var good := Checksum(gen, hrp, data);
    if chk != good {
      SuffixesDiffer(data, chk, good);
      BurstDetected(gen, hrp, data + chk, data + good, |data|);
      ChecksumVerifies(gen, hrp, data);
      assert false;
    }
  }

  // ---- The whole address ----

  function Assemble(hrp: string, data: seq<nat>): string
    requires Below(32, data)
  {
    hrp + "1" + Chars(data)
  }

  /** Version 0, the program and the checksum. */
  function DataPart(gen: seq<nat>, hrp: string, witprog: seq<nat>): (data: seq<nat>)
    requires |gen| == 5
    ensures Below(32, data)
  {
    var out := [0] + ToFives(witprog);
    var chk := Checksum(gen, hrp, out);
    BelowAppend(out, chk);
    out + chk
  }

  lemma {:induction false} BelowAppend(xs: seq<nat>, ys: seq<nat>)
    requires Below(32, xs) && Below(32, ys)
    ensures Below(32, xs + ys)
  {
  }

  /** The string that the script returns. */
  function Address(hrp: string, witprog: seq<nat>): string
  {
    Assemble(hrp, DataPart(Gen(), hrp, witprog))
  }

  datatype Segwit = Segwit(hrp: string, version: nat, program: seq<nat>)

  function LastOne(s: string): (k: int)
    ensures -1 <= k < |s|
    ensures k >= 0 ==> s[k] == '1'
    ensures forall i :: k < i < |s| ==> s[i] != '1'
  {
    if s == "" then -1 else if s[|s| - 1] == '1' then |s| - 1 else LastOne(s[..|s| - 1])
  }

  predicate AllPlain(s: string) { forall i :: 0 <= i < |s| ==> Plain(s[i]) }

  /** The data part of a witness address: version, program, and the length rules of version 0. */
  function DecodeProgram(hrp: string, data: seq<nat>): Option<Segwit>
  {
    if data == [] || data[0] > 16 then None
    else
      var prog := FromFives(data[1..]);
      if prog.None? || !(2 <= |prog.value| <= 40) || (data[0] == 0 && |prog.value| != 20 && |prog.value| != 32)
        then None
      else Some(Segwit(hrp, data[0], prog.value))
  }

  type Verifier = (string, seq<nat>) -> bool

  /**
   The decoder of BIP-173 on strings without upper-case letters: at most 90
   characters, a non-empty human-readable part up to the last "1", at least six
   data characters, and a checksum that verifies.  A string that mixes upper
   and lower case is rejected; an all-upper-case one is decoded as its
   lower-case form, which is outside this model.
   */
  function DecodeWith(verify: Verifier, s: string): Option<Segwit>
  {
    var pos := LastOne(s);
    if |s| > 90 || !AllPlain(s) || pos < 1 || pos + 7 > |s| then None
    else
      var hrp, tail := s[..pos], s[pos + 1..];
      if !InCharset(tail) || !verify(hrp, Symbols(tail)) then None
      else DecodeProgram(hrp, Symbols(tail)[..|tail| - 6])
  }

  function Bip173Verifier(): Verifier
  {
    (hrp: string, data: seq<nat>) => Verifies(Gen(), hrp, data)
  }

  function Decode(s: string): Option<Segwit>
  {
    DecodeWith(Bip173Verifier(), s)
  }

  /** What a caller of the encoder must respect for the result to be a valid witness address. */
  predicate Acceptable(hrp: string, witprog: seq<nat>)
  {
    && (|witprog| == 20 || |witprog| == 32)
    && 1 <= |hrp| && |hrp| + 8 + SymbolCount(|witprog|) <= 90
    && Printable(hrp)
  }

  /** The characters of US-ASCII from 33 to 126, without upper-case letters. */
  predicate Printable(hrp: string)
  {
    forall i :: 0 <= i < |hrp| ==> 33 <= hrp[i] as int <= 126 && !(65 <= hrp[i] as int <= 90)
  }

  lemma {:induction false} PrintableIsPlain(hrp: string)
    ensures Printable(hrp) <==> AllPlain(hrp)
  {
  }

  lemma {:induction false} LastOneAt(hrp: string, tail: string)
    requires '1' !in tail
    ensures LastOne(hrp + "1" + tail) == |hrp|
    decreases |tail|
  {
    var s := hrp + "1" + tail;
    if tail != "" {
      assert s[..|s| - 1] == hrp + "1" + tail[..|tail| - 1];
      LastOneAt(hrp, tail[..|tail| - 1]);
    }
  }

  lemma {:induction false} AllPlainAssembled(hrp: string, tail: string)
    requires AllPlain(tail)
    ensures AllPlain(hrp + "1" + tail) <==> AllPlain(hrp)
  {
    var s := hrp + "1" + tail;
    assert forall i :: 0 <= i < |hrp| ==> s[i] == hrp[i];
    assert forall i :: |hrp| < i < |s| ==> s[i] == tail[i - |hrp| - 1];
  }

  /** What the decoder does with a string assembled from its parts. */
  lemma {:induction false} DecodeAssembled(verify: Verifier, hrp: string, data: seq<nat>)
    requires Below(32, data) && |data| >= 6
    ensures DecodeWith(verify, Assemble(hrp, data))
         == if |hrp| + 1 + |data| <= 90 && |hrp| >= 1 && AllPlain(hrp) && verify(hrp, data)
            then DecodeProgram(hrp, data[..|data| - 6]) else None
  {
    var tail := Chars(data);
    var s := hrp + "1" + tail;
    CharsRoundTrip(data);
    LastOneAt(hrp, tail);
    AllPlainAssembled(hrp, tail);
    assert s[..|hrp|] == hrp && s[|hrp| + 1..] == tail;
  }

  lemma {:induction false} DecodeWitnessData(hrp: string, witprog: seq<nat>)
    requires Below(256, witprog)
    ensures DecodeProgram(hrp, [0] + ToFives(witprog))
         == if |witprog| == 20 || |witprog| == 32 then Some(Segwit(hrp, 0, witprog)) else None
  {
    RegroupRoundTrip(witprog);
    assert ([0] + ToFives(witprog))[1..] == ToFives(witprog);
  }

  lemma {:induction false} AddressParts(hrp: string, witprog: seq<nat>) returns (out: seq<nat>, data: seq<nat>)
    ensures out == [0] + ToFives(witprog) && Below(32, data) && |data| == |out| + 6 && data[..|data| - 6] == out
    ensures Address(hrp, witprog) == Assemble(hrp, data) && Bip173Verifier()(hrp, data)
  {
    out := [0] + ToFives(witprog);
    data := DataPart(Gen(), hrp, witprog);
    ChecksumVerifies(Gen(), hrp, out);
  }

  /**
   The round trip, with the exact condition: the decoder returns the
   human-readable part, version 0 and the program of every acceptable input,
   and rejects the script's output for every other one.
   */
  lemma {:induction false} AddressRoundTrip(hrp: string, witprog: seq<nat>)
    requires Below(256, witprog)
    ensures Decode(Address(hrp, witprog))
         == if Acceptable(hrp, witprog) then Some(Segwit(hrp, 0, witprog)) else None
  {
    var out, data := AddressParts(hrp, witprog);
    PrintableIsPlain(hrp);
    DecodeAssembled(Bip173Verifier(), hrp, data);
    DecodeWitnessData(hrp, witprog);
  }

  /** A program of 21 bytes is encoded without complaint into a string that no decoder accepts. */
  lemma {:induction false} UndecodableExample(hrp: string, witprog: seq<nat>)
    requires Below(256, witprog) && |witprog| == 21
    ensures Decode(Address(hrp, witprog)) == None
  {
    AddressRoundTrip(hrp, witprog);
  }

  lemma {:induction false} CutAtOne(s: string, pos: nat)
    requires pos < |s| && s[pos] == '1' && InCharset(s[pos + 1..])
    ensures s == Assemble(s[..pos], Symbols(s[pos + 1..]))
  {
    SymbolsRoundTrip(s[pos + 1..]);
  }

  lemma {:induction false} ProgramNames(hrp: string, data: seq<nat>)
    requires DecodeProgram(hrp, data).Some?
    ensures DecodeProgram(hrp, data).value.hrp == hrp
  {
  }

  /** Everything the decoder accepts is assembled from verified data. */
  lemma {:induction false} DecodedParts(verify: Verifier, s: string) returns (data: seq<nat>)
    requires DecodeWith(verify, s).Some?
    ensures var seg := DecodeWith(verify, s).value;
            && Below(32, data) && |data| >= 6 && verify(seg.hrp, data)
            && s == Assemble(seg.hrp, data) && DecodeProgram(seg.hrp, data[..|data| - 6]) == Some(seg)
  {
    var pos := LastOne(s);
    data := Symbols(s[pos + 1..]);
    CutAtOne(s, pos);
    ProgramNames(s[..pos], data[..|data| - 6]);
  }

  lemma {:induction false} ProgramUnique(hrp: string, out: seq<nat>, witprog: seq<nat>)
    requires Below(32, out) && DecodeProgram(hrp, out) == Some(Segwit(hrp, 0, witprog))
    ensures out == [0] + ToFives(witprog)
  {
    RegroupUnique(out[1..], witprog);
  }

  lemma {:induction false} DataUnique(gen: seq<nat>, hrp: string, data: seq<nat>, out: seq<nat>, chk: seq<nat>)
    requires gen == Gen() && data == out + chk && |chk| == 6 && Below(32, out) && Below(32, chk)
             && Verifies(gen, hrp, data)
    ensures data == out + Checksum(gen, hrp, out)
  {
    ChecksumUnique(gen, hrp, out, chk);
  }

  lemma {:induction false} AddressOfParts(gen: seq<nat>, hrp: string, data: seq<nat>, out: seq<nat>, chk: seq<nat>,
    witprog: seq<nat>)
    requires gen == Gen() && data == out + chk && |chk| == 6 && Below(32, out) && Below(32, chk)
    requires Verifies(gen, hrp, data) && out == [0] + ToFives(witprog)
    ensures data == DataPart(gen, hrp, witprog)
  {
    DataUnique(gen, hrp, data, out, chk);
  }

  lemma {:induction false} Halves(data: seq<nat>) returns (out: seq<nat>, chk: seq<nat>)
    requires Below(32, data) && |data| >= 6
    ensures out == data[..|data| - 6] && |chk| == 6 && Below(32, out) && Below(32, chk) && data == out + chk
  {
    out, chk := data[..|data| - 6], data[|data| - 6..];
  }

  lemma {:induction false} AddressOfData(hrp: string, data: seq<nat>, witprog: seq<nat>)
    requires Below(32, data) && |data| >= 6 && Verifies(Gen(), hrp, data)
    requires DecodeProgram(hrp, data[..|data| - 6]) == Some(Segwit(hrp, 0, witprog))
    ensures data == DataPart(Gen(), hrp, witprog)
  {
    var out, chk := Halves(data);
    ProgramUnique(hrp, out, witprog);
    AddressOfParts(Gen(), hrp, data, out, chk, witprog);
  }

  /** And it accepts nothing else as version 0: the only such string is the script's. */
  lemma {:induction false} AddressUnique(s: string, hrp: string, witprog: seq<nat>)
    requires Decode(s) == Some(Segwit(hrp, 0, witprog))
    ensures s == Address(hrp, witprog)
  {
    var data := DecodedParts(Bip173Verifier(), s);
    AddressOfData(hrp, data, witprog);
  }

  /** The checksum step of the script, on the symbols of the data part. */
  method CreateChecksum(gen: seq<nat>, hrp: string, out: seq<nat>) returns (chk: seq<nat>)
    requires |gen| == 5 && Below(32, out)
    ensures chk == Checksum(gen, hrp, out)
  {
    var p := Polymod(gen, HrpExpand(hrp) + out + Zeros(6));
    chk := ChecksumDigits(p);
    ChecksumDigitsAre(gen, hrp, out, p, chk);
  }

  /** The script's `encode_bech32`. */
  method EncodeBech32(hrp: string, witprog: seq<nat>) returns (s: string)
    requires Below(256, witprog)
    ensures s == Address(hrp, witprog)
  {
    var out := ConvertBits(witprog);
    var chk := CreateChecksum(Gen(), hrp, out);
    s := Assemble(hrp, out + chk);
  }

  /** After a final XOR with one, the thirty bits cut into six five-bit symbols, the most significant first. */
  function ChecksumDigits(p: nat): (chk: seq<nat>)
    ensures |chk| == 6 && Below(32, chk)
  {
    var polymod := IntXor(p, 1);
    seq(6, i requires 0 <= i < 6 => Shr(polymod, 5 * (5 - i)) % 32)
  }

  lemma {:induction false} ChecksumDigitsAre(gen: seq<nat>, hrp: string, out: seq<nat>, p: nat, chk: seq<nat>)
    requires |gen| == 5 && chk == ChecksumDigits(p)
    requires ToBits(30, p) == Register(gen, HrpExpand(hrp) + out + Zeros(6))
    ensures chk == Checksum(gen, hrp, out)
  {
    var w := Xor(ToBits(30, p), One());
    OneBits(1);
    forall i: nat | i < 6 ensures chk[i] == FromBits(Piece(w, i)) { PieceByShift(w, i); }
  }

  lemma {:induction false} ShrIsDiv(x: nat, k: nat)
    ensures Shr(x, k) == x / Pow(2, k)
  {
    if k > 0 {
      ShrIsDiv(x, k - 1);
      DivDiv(x, Pow(2, k - 1), 2);
    }
  }

  lemma {:induction false} PieceByShift(w: Word, i: nat)
    requires i < 6
    ensures Shr(FromBits(w), 5 * (5 - i)) % 32 == FromBits(Piece(w, i))
  {
    var k := 5 * (5 - i);
    var hi, lo := w[..5 * i + 5], w[5 * i + 5..];
    assert w == hi + lo && |lo| == k && hi == hi[..5 * i] + Piece(w, i);
    PowersOfTwo();
    ShrIsDiv(FromBits(w), k);
    FromBitsAppend(hi, lo);
    FromBitsAppend(hi[..5 * i], Piece(w, i));
  }
}
