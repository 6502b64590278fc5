/**
 A 30-bit register, most significant bit first, that takes in one word per round.
 What a run of it detects follows from three properties of the round alone:
 it is linear over GF(2), it is injective, and it shifts five-bit values into
 a register whose upper bits are clear.
 */
module ShiftRegister {

  type Bits = seq<bool>

  function Off(k: nat): (w: Bits)
    ensures |w| == k && forall i :: 0 <= i < k ==> !w[i]
  {
    seq(k, _ => false)
  }

  type Word = w: Bits | |w| == 30 witness Off(30)

  type Round = (Word, Word) -> Word

  function Xor(xs: Bits, ys: Bits): (zs: Bits)
    requires |xs| == |ys|
    ensures |zs| == |xs|
    ensures forall i :: 0 <= i < |zs| ==> zs[i] == (xs[i] != ys[i])
  {
    seq(|xs|, i requires 0 <= i < |xs| => xs[i] != ys[i])
  }

  lemma {:induction false} XorSwap(a: Bits, b: Bits, c: Bits, d: Bits)
    requires |a| == |b| == |c| == |d|
    ensures Xor(Xor(a, b), Xor(c, d)) == Xor(Xor(a, c), Xor(b, d))
  {
  }

  /** XOR with a fixed word undoes itself, and yields zero only for equal words. */
  lemma {:induction false} XorCancel(a: Bits, b: Bits)
    requires |a| == |b|
    ensures Xor(a, Xor(a, b)) == b
    ensures Xor(a, b) == Off(|a|) <==> a == b
  {
    if Xor(a, b) == Off(|a|) {
      forall i | 0 <= i < |a| ensures a[i] == b[i] { assert !Xor(a, b)[i]; }
    }
  }

  function Run(step: Round, c: Word, vs: seq<Word>): Word
    decreases |vs|
  {
    if vs == [] then c else Run(step, step(c, vs[0]), vs[1..])
  }

  lemma {:induction false} RunAppend(step: Round, c: Word, vs: seq<Word>, ws: seq<Word>)
    ensures Run(step, c, vs + ws) == Run(step, Run(step, c, vs), ws)
    decreases |vs|
  {
    if vs == [] {
      assert vs + ws == ws;
    } else {
      assert (vs + ws)[1..] == vs[1..] + ws;
      RunAppend(step, step(c, vs[0]), vs[1..], ws);
    }
  }

  // ---- The three properties ----

  ghost predicate Linear(step: Round)
  {
    forall a: Word, b: Word, v: Word, w: Word {:trigger Xor(step(a, v), step(b, w))} ::
      step(Xor(a, b), Xor(v, w)) == Xor(step(a, v), step(b, w))
  }

  ghost predicate Injective(step: Round)
  {
    forall a: Word, b: Word, v: Word :: step(a, v) == step(b, v) ==> a == b
  }

  /** A five-bit value as a word. */
  function Wide(e: Bits): (w: Word)
    requires |e| == 5
  {
    Off(25) + e
  }

  /** A register whose top five bits are clear takes a value in without loss. */
  ghost predicate Shifts(step: Round)
  {
    forall c: Word, e: Bits {:trigger step(c, Wide(e))} ::
      c[..5] == Off(5) && |e| == 5 ==> step(c, Wide(e)) == c[5..] + e
  }

  // ---- Runs inherit them ----

  function XorEach(vs: seq<Word>, ws: seq<Word>): (ds: seq<Word>)
    requires |vs| == |ws|
    ensures |ds| == |vs|
    ensures forall i :: 0 <= i < |ds| ==> ds[i] == Xor(vs[i], ws[i])
  {
    seq(|vs|, i requires 0 <= i < |vs| => Xor(vs[i], ws[i]))
  }

  /** The registers after two runs differ exactly by what the differences of their values leave. */
  lemma {:induction false} RunLinear(step: Round, a: Word, b: Word, vs: seq<Word>, ws: seq<Word>)
    requires Linear(step) && |vs| == |ws|
    ensures Run(step, Xor(a, b), XorEach(vs, ws)) == Xor(Run(step, a, vs), Run(step, b, ws))
    decreases |vs|
  {
    if vs != [] {
      assert step(Xor(a, b), Xor(vs[0], ws[0])) == Xor(step(a, vs[0]), step(b, ws[0]));
      assert XorEach(vs, ws)[1..] == XorEach(vs[1..], ws[1..]);
      RunLinear(step, step(a, vs[0]), step(b, ws[0]), vs[1..], ws[1..]);
    }
  }

  lemma {:induction false} RunInjective(step: Round, a: Word, b: Word, vs: seq<Word>)
    requires Injective(step) && Run(step, a, vs) == Run(step, b, vs)
    ensures a == b
    decreases |vs|
  {
    if vs != [] {
      RunInjective(step, step(a, vs[0]), step(b, vs[0]), vs[1..]);
    }
  }

  // ---- Up to six five-bit values fill an empty register ----

  predicate AreFives(es: seq<Bits>) { forall i :: 0 <= i < |es| ==> |es[i]| == 5 }

  function Widen(es: seq<Bits>): (vs: seq<Word>)
    requires AreFives(es)
    ensures |vs| == |es| && forall i :: 0 <= i < |vs| ==> vs[i] == Wide(es[i])
  {
    seq(|es|, i requires 0 <= i < |es| => Wide(es[i]))
  }

  function Flat(es: seq<Bits>): (w: Bits)
    requires AreFives(es)
    ensures |w| == 5 * |es|
  {
    if es == [] then [] else Flat(es[..|es| - 1]) + es[|es| - 1]
  }

  lemma {:induction false} FlatAt(es: seq<Bits>, k: nat)
    requires AreFives(es) && k < |es|
    ensures Flat(es)[5 * k..5 * k + 5] == es[k]
    decreases |es|
  {
    if k < |es| - 1 { FlatAt(es[..|es| - 1], k); }
  }

  lemma {:induction false} Shifted(n: nat, w: Bits, e: Bits)
    requires n >= 5
    ensures (Off(n) + w)[..5] == Off(5)
    ensures (Off(n) + w)[5..] + e == Off(n - 5) + (w + e)
  {
  }

  lemma {:induction false} RunFills(step: Round, es: seq<Bits>)
    requires Shifts(step) && AreFives(es) && |es| <= 6
    ensures Run(step, Off(30), Widen(es)) == Off(30 - 5 * |es|) + Flat(es)
    decreases |es|
  {
    if es == [] {
      assert Off(30) + [] == Off(30);
    } else {
      var n := |es| - 1;
      RunFills(step, es[..n]);
      assert Widen(es) == Widen(es[..n]) + [Wide(es[n])];
      RunAppend(step, Off(30), Widen(es[..n]), [Wide(es[n])]);
      Shifted(30 - 5 * n, Flat(es[..n]), es[n]);
    }
  }

  // ---- Bursts ----

  function Diffs(xs: seq<Bits>, ys: seq<Bits>): (ds: seq<Bits>)
    requires |xs| == |ys| && AreFives(xs) && AreFives(ys)
    ensures |ds| == |xs| && forall i :: 0 <= i < |ds| ==> ds[i] == Xor(xs[i], ys[i])
    ensures AreFives(ds)
  {
    seq(|xs|, i requires 0 <= i < |xs| => Xor(xs[i], ys[i]))
  }

  lemma {:induction false} XorWide(x: Bits, y: Bits)
    requires |x| == |y| == 5
    ensures Xor(Wide(x), Wide(y)) == Wide(Xor(x, y))
  {
  }

  lemma {:induction false} XorEachWiden(xs: seq<Bits>, ys: seq<Bits>)
    requires |xs| == |ys| && AreFives(xs) && AreFives(ys)
    ensures XorEach(Widen(xs), Widen(ys)) == Widen(Diffs(xs, ys))
  {
    forall i | 0 <= i < |xs| ensures XorEach(Widen(xs), Widen(ys))[i] == Widen(Diffs(xs, ys))[i] {
      XorWide(xs[i], ys[i]);
    }
  }

  lemma {:induction false} DiffsShow(xs: seq<Bits>, ys: seq<Bits>)
    requires |xs| == |ys| && AreFives(xs) && AreFives(ys) && xs != ys
    ensures Flat(Diffs(xs, ys)) != Off(5 * |xs|)
  {
    var i :| 0 <= i < |xs| && xs[i] != ys[i];
    XorCancel(xs[i], ys[i]);
    FlatAt(Diffs(xs, ys), i);
    assert Off(5 * |xs|)[5 * i..5 * i + 5] == Off(5);
  }

  lemma {:induction false} WindowDifference(step: Round, c: Word, xs: seq<Bits>, ys: seq<Bits>)
    requires Linear(step) && Shifts(step)
    requires |xs| == |ys| <= 6 && AreFives(xs) && AreFives(ys)
    ensures Xor(Run(step, c, Widen(xs)), Run(step, c, Widen(ys))) == Off(30 - 5 * |xs|) + Flat(Diffs(xs, ys))
  {
    RunLinear(step, c, c, Widen(xs), Widen(ys));
    XorEachWiden(xs, ys);
    XorCancel(c, c);
    RunFills(step, Diffs(xs, ys));
  }

  lemma {:induction false} WindowDiffers(step: Round, c: Word, xs: seq<Bits>, ys: seq<Bits>)
    requires Linear(step) && Shifts(step)
    requires |xs| == |ys| <= 6 && AreFives(xs) && AreFives(ys) && xs != ys
    ensures Run(step, c, Widen(xs)) != Run(step, c, Widen(ys))
  {
    var n, f := 30 - 5 * |xs|, Flat(Diffs(xs, ys));
    assert Off(n) + f != Off(30) by {
      DiffsShow(xs, ys);
      assert (Off(n) + f)[n..] == f && Off(30)[n..] == Off(5 * |xs|);
    }
    WindowDifference(step, c, xs, ys);
    XorCancel(Run(step, c, Widen(xs)), Run(step, c, Widen(ys)));
  }

  /** Two value sequences that differ within six consecutive places leave different registers. */
  lemma {:induction false} BurstChangesRegister(step: Round, c: Word, xs: seq<Bits>, ys: seq<Bits>, rest: seq<Word>)
    requires Linear(step) && Shifts(step) && Injective(step)
    requires |xs| == |ys| <= 6 && AreFives(xs) && AreFives(ys) && xs != ys
    ensures Run(step, c, Widen(xs) + rest) != Run(step, c, Widen(ys) + rest)
  {
    RunAppend(step, c, Widen(xs), rest);
    RunAppend(step, c, Widen(ys), rest);
    WindowDiffers(step, c, xs, ys);
    var cx, cy := Run(step, c, Widen(xs)), Run(step, c, Widen(ys));
    if Run(step, cx, rest) == Run(step, cy, rest) {
      RunInjective(step, cx, cy, rest);
      assert false;
    }
  }

  // ---- Making a checksum ----

  function SixZeros(): (zs: seq<Bits>)
    ensures |zs| == 6 && AreFives(zs) && forall i :: 0 <= i < 6 ==> zs[i] == Off(5)
  {
    seq(6, _ => Off(5))
  }

  lemma {:induction false} DiffsOfZeros(es: seq<Bits>)
    requires |es| == 6 && AreFives(es)
    ensures Diffs(SixZeros(), es) == es
  {
    forall i | 0 <= i < 6 ensures Diffs(SixZeros(), es)[i] == es[i] {
      assert Xor(Off(5), es[i]) == es[i];
    }
  }

  /** The six values that differ from zeros by the missing part of `target` lead the register there. */
  lemma {:induction false} ChecksumReachesTarget(step: Round, c: Word, target: Word, chk: seq<Bits>)
    requires Linear(step) && Shifts(step) && |chk| == 6 && AreFives(chk)
    requires Flat(chk) == Xor(Run(step, c, Widen(SixZeros())), target)
    ensures Run(step, c, Widen(chk)) == target
  {
    var r := Run(step, c, Widen(SixZeros()));
    RunLinear(step, c, Off(30), Widen(SixZeros()), Widen(chk));
    XorEachWiden(SixZeros(), chk);
    DiffsOfZeros(chk);
    assert Xor(c, Off(30)) == c;
    RunFills(step, chk);
    assert Off(0) + Flat(chk) == Flat(chk);
    XorCancel(r, target);
  }
}
