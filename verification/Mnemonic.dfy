/**
 `generate_mnemonic_12` with the entropy as an input, and the validator of
 section "Generating the mnemonic" of BIP-39 beside it.
 */
module Mnemonic {
  import opened Hashing
  import opened Numerals
  import opened Wrappers

  // ---- Numbers of a fixed width as one bit string ----

  function Expand(width: nat, xs: seq<nat>): (bits: seq<nat>)
    ensures |bits| == width * |xs| && Below(2, bits)
  {
    if xs == [] then []
    else
      WidthStep(width, |xs|);
      Expand(width, xs[..|xs| - 1]) + Digits(2, width, xs[|xs| - 1])
  }

  lemma {:induction false} WidthStep(width: nat, n: nat)
    requires n > 0
    ensures width * n == width * (n - 1) + width
  {
  }

  /** Reads the bits `width` at a time. */
  function Chunks(width: nat, n: nat, bits: seq<nat>): (xs: seq<nat>)
    requires |bits| == width * n
    ensures |xs| == n
  {
    if n == 0 then []
    else
      WidthStep(width, n);
      var cut := width * (n - 1);
      Chunks(width, n - 1, bits[..cut]) + [Val(2, bits[cut..])]
  }

  lemma {:induction false} ChunksOfExpand(width: nat, xs: seq<nat>)
    requires Below(Pow(2, width), xs)
    ensures Chunks(width, |xs|, Expand(width, xs)) == xs
  {
    if xs != [] {
      var n := |xs| - 1;
      WidthStep(width, |xs|);
      ChunksOfExpand(width, xs[..n]);
      ValOfDigits(2, width, xs[n]);
      var bits := Expand(width, xs);
      assert bits[..width * n] == Expand(width, xs[..n]) && bits[width * n..] == Digits(2, width, xs[n]);
    }
  }

  lemma {:induction false} ExpandSnoc(width: nat, xs: seq<nat>, x: nat)
    ensures Expand(width, xs + [x]) == Expand(width, xs) + Digits(2, width, x)
  {
    assert (xs + [x])[..|xs|] == xs;
  }

  lemma {:induction false} ChunksBelow(width: nat, n: nat, bits: seq<nat>)
    requires |bits| == width * n && Below(2, bits)
    ensures Below(Pow(2, width), Chunks(width, n, bits))
  {
    if n > 0 {
      WidthStep(width, n);
      var cut := width * (n - 1);
      ChunksBelow(width, n - 1, bits[..cut]);
      ValBound(2, bits[cut..]);
    }
  }

  lemma {:induction false} ChunksSnoc(width: nat, n: nat, bits: seq<nat>, cut: nat)
    requires n > 0 && cut == width * (n - 1) && |bits| == width * n == cut + width
    ensures Chunks(width, n, bits) == Chunks(width, n - 1, bits[..cut]) + [Val(2, bits[cut..])]
  {
  }

  lemma {:induction false} ExpandJoined(width: nat, xs: seq<nat>, lo: seq<nat>, hi: seq<nat>)
    requires Below(2, hi) && |hi| == width && Expand(width, xs) == lo
    ensures Expand(width, xs + [Val(2, hi)]) == lo + hi
  {
    DigitsOfVal(2, hi);
    ExpandSnoc(width, xs, Val(2, hi));
  }

  lemma {:induction false} ExpandStep(width: nat, n: nat, bits: seq<nat>, cut: nat)
    requires n > 0 && cut == width * (n - 1) && |bits| == width * n == cut + width && Below(2, bits)
    requires Expand(width, Chunks(width, n - 1, bits[..cut])) == bits[..cut]
    ensures Expand(width, Chunks(width, n, bits)) == bits
  {
    ChunksSnoc(width, n, bits, cut);
    ExpandJoined(width, Chunks(width, n - 1, bits[..cut]), bits[..cut], bits[cut..]);
    assert bits == bits[..cut] + bits[cut..];
  }

  lemma {:induction false} ExpandOfChunks(width: nat, n: nat, bits: seq<nat>)
    requires |bits| == width * n && Below(2, bits)
    ensures Expand(width, Chunks(width, n, bits)) == bits
  {
    if n > 0 {
      WidthStep(width, n);
      var cut := width * (n - 1);
      ExpandOfChunks(width, n - 1, bits[..cut]);
      ExpandStep(width, n, bits, cut);
    }
  }

  // ---- Words and phrases ----

  /** What the script demands of the word file, and what the standard's list has besides. */
  ghost predicate IsWordlist(wl: seq<string>)
  {
    && |wl| == 2048
    && (forall i, j :: 0 <= i < j < |wl| ==> wl[i] != wl[j])
    && forall i :: 0 <= i < |wl| ==> ' ' !in wl[i]
  }

  function Join(ws: seq<string>): string
  {
    if ws == [] then "" else if |ws| == 1 then ws[0] else ws[0] + " " + Join(ws[1..])
  }

  function Split(s: string): (ws: seq<string>)
    ensures ws != []
  {
    if s == "" then [""]
    else if s[0] == ' ' then [""] + Split(s[1..])
    else
      var ws := Split(s[1..]);
      [[s[0]] + ws[0]] + ws[1..]
  }

  lemma {:induction false} JoinOfSplit(s: string)
    ensures Join(Split(s)) == s
  {
    if s != "" {
      JoinOfSplit(s[1..]);
      var ws := Split(s[1..]);
      assert s == [s[0]] + s[1..];
      if s[0] == ' ' {
        assert ([""] + ws)[1..] == ws;
      } else {
        assert ([[s[0]] + ws[0]] + ws[1..])[1..] == ws[1..];
        if |ws| > 1 { assert s == [s[0]] + (ws[0] + " " + Join(ws[1..])) == ([s[0]] + ws[0]) + " " + Join(ws[1..]); }
      }
    }
  }

  lemma {:induction false} SplitOfWord(w: string, rest: seq<string>, s: string)
    requires ' ' !in w
    requires if rest == [] then s == w else s == w + " " + Join(rest) && Split(Join(rest)) == rest
    ensures Split(s) == [w] + rest
    decreases |w|
  {
    if w == "" {
      if rest != [] { assert s[1..] == Join(rest); }
    } else {
      assert s[0] == w[0] && s[1..] == if rest == [] then w[1..] else w[1..] + " " + Join(rest);
      SplitOfWord(w[1..], rest, s[1..]);
      assert w == [w[0]] + w[1..];
    }
  }

  lemma {:induction false} SplitOfJoin(ws: seq<string>)
    requires ws != [] && forall i :: 0 <= i < |ws| ==> ' ' !in ws[i]
    ensures Split(Join(ws)) == ws
  {
    if |ws| == 1 {
      SplitOfWord(ws[0], [], Join(ws));
    } else {
      SplitOfJoin(ws[1..]);
      SplitOfWord(ws[0], ws[1..], Join(ws));
    }
    assert ws == [ws[0]] + ws[1..];
  }

  // ---- Generating ----

  function ChecksumBits(sha: Hash, entropy: seq<nat>): (c: seq<nat>)
    ensures |c| == 4 && Below(2, c)
  {
    Digits(2, 8, sha(entropy)[0])[..4]
  }

  /** The 132 bits: 128 of entropy and four of its hash. */
  function PhraseBits(sha: Hash, entropy: seq<nat>): (bits: seq<nat>)
    requires |entropy| == 16
    ensures |bits| == 132 && Below(2, bits)
  {
    Expand(8, entropy) + ChecksumBits(sha, entropy)
  }

  function Pick(wl: seq<string>, idx: seq<nat>): (ws: seq<string>)
    requires Below(|wl|, idx)
    ensures |ws| == |idx| && forall i :: 0 <= i < |ws| ==> ws[i] == wl[idx[i]]
  {
    seq(|idx|, i requires 0 <= i < |idx| => wl[idx[i]])
  }

  lemma {:induction false} IndicesBelow(bits: seq<nat>)
    requires |bits| == 132 && Below(2, bits)
    ensures Below(2048, Chunks(11, 12, bits))
  {
    PowersOfTwo();
    ChunksBelow(11, 12, bits);
  }

  function Phrase(wl: seq<string>, sha: Hash, entropy: seq<nat>): string
    requires |wl| == 2048 && |entropy| == 16
  {
    var bits := PhraseBits(sha, entropy);
    IndicesBelow(bits);
    Join(Pick(wl, Chunks(11, 12, bits)))
  }

  /** The loop of the script over the slices of eleven bits. */
  method Generate(wl: seq<string>, sha: Hash, entropy: seq<nat>) returns (phrase: string)
    requires |wl| == 2048 && |entropy| == 16 && Below(256, entropy)
    ensures phrase == Phrase(wl, sha, entropy)
  {
    var bits := PhraseBits(sha, entropy);
    IndicesBelow(bits);
    ghost var all := Chunks(11, 12, bits);
    var words: seq<string> := [];
    var i := 0;
    while i < 132
      invariant i <= 132 && i == 11 * |words|
      invariant forall k :: 0 <= k < |words| ==> words[k] == wl[all[k]]
    {
      SliceIsChunk(bits, all, i, |words|);
      var idx := Val(2, bits[i..i + 11]);
      words := words + [wl[idx]];
      i := i + 11;
    }
    assert words == Pick(wl, all);
    phrase := Join(words);
  }

  lemma {:induction false} SliceIsChunk(bits: seq<nat>, all: seq<nat>, i: nat, k: nat)
    requires |bits| == 132 && all == Chunks(11, 12, bits) && i == 11 * k && i < 132
    ensures i + 11 <= 132 && k < |all| && all[k] == Val(2, bits[i..i + 11])
  {
    ChunkAt(11, 12, bits, k);
  }

  lemma {:induction false} ChunkAt(width: nat, n: nat, bits: seq<nat>, k: nat)
    requires |bits| == width * n && k < n
    ensures 0 <= width * k <= width * k + width <= |bits|
    ensures Chunks(width, n, bits)[k] == Val(2, bits[width * k..width * k + width])
  {
    WidthStep(width, n);
    var cut := width * (n - 1);
    if k == n - 1 {
      assert bits[cut..] == bits[width * k..width * k + width];
    } else {
      ChunkAt(width, n - 1, bits[..cut], k);
      assert bits[..cut][width * k..width * k + width] == bits[width * k..width * k + width];
    }
  }

  lemma {:induction false} TopHalf(n: nat)
    requires n < 256
    ensures Val(2, Digits(2, 8, n)[..4]) == n / 16
  {
    PowersOfTwo();
    assert Pow(2, 4) == 16;
    DigitsPrefix(2, 8, 4, n);
    ValOfDigits(2, 4, n / 16);
  }

  /** The lowest four bits of the twelfth word's index are the highest four of the first byte of the hash. */
  lemma {:induction false} LastWordHasChecksum(sha: Hash, entropy: seq<nat>)
    requires |entropy| == 16
    ensures Chunks(11, 12, PhraseBits(sha, entropy))[11] % 16 == sha(entropy)[0] / 16
  {
    var bits, n := PhraseBits(sha, entropy), sha(entropy)[0];
    SliceIsChunk(bits, Chunks(11, 12, bits), 121, 11);
    var hi, lo := bits[121..128], ChecksumBits(sha, entropy);
    assert bits[121..132] == hi + lo && lo == Digits(2, 8, n)[..4];
    assert Pow(2, 2) == 4 && Pow(2, 4) == 16;
    ValSplit(2, hi, lo);
    TopHalf(n);
  }

  /** The first eight bits of the phrase are the first byte, and so on: its bits are those of the entropy in order. */
  lemma {:induction false} PhraseHasEntropy(sha: Hash, entropy: seq<nat>, k: nat)
    requires |entropy| == 16 && Below(256, entropy) && k < 16
    ensures Val(2, PhraseBits(sha, entropy)[8 * k..8 * k + 8]) == entropy[k]
  {
    var bits := PhraseBits(sha, entropy);
    BitsCut(sha, entropy, bits);
    ChunkAt(8, 16, bits[..128], k);
    assert bits[..128][8 * k..8 * k + 8] == bits[8 * k..8 * k + 8];
  }

  // ---- Validating ----

  predicate InList(wl: seq<string>, ws: seq<string>) { forall i :: 0 <= i < |ws| ==> ws[i] in wl }

  function IndexOf(wl: seq<string>, w: string): (k: nat)
    requires w in wl
    ensures k < |wl| && wl[k] == w
  {
    if wl[0] == w then 0 else 1 + IndexOf(wl[1..], w)
  }

  function Indices(wl: seq<string>, ws: seq<string>): (idx: seq<nat>)
    requires InList(wl, ws)
    ensures |idx| == |ws| && Below(|wl|, idx) && forall i :: 0 <= i < |ws| ==> wl[idx[i]] == ws[i]
  {
    seq(|ws|, i requires 0 <= i < |ws| => IndexOf(wl, ws[i]))
  }

  /** A phrase of twelve listed words whose last four bits are the checksum of the others. */
  function Validate(wl: seq<string>, sha: Hash, phrase: string): Option<seq<nat>>
    requires |wl| == 2048
  {
    var ws := Split(phrase);
    if |ws| != 12 || !InList(wl, ws) then None
    else
      var bits := Expand(11, Indices(wl, ws));
      var entropy := Chunks(8, 16, bits[..128]);
      if bits[128..] == ChecksumBits(sha, entropy) then Some(entropy) else None
  }

  lemma {:induction false} IndicesOfPick(wl: seq<string>, idx: seq<nat>)
    requires IsWordlist(wl) && Below(2048, idx)
    ensures InList(wl, Pick(wl, idx)) && Indices(wl, Pick(wl, idx)) == idx
  {
  }

  lemma {:induction false} BitsCut(sha: Hash, entropy: seq<nat>, bits: seq<nat>)
    requires |entropy| == 16 && Below(256, entropy) && bits == PhraseBits(sha, entropy)
    ensures Chunks(8, 16, bits[..128]) == entropy && bits[128..] == ChecksumBits(sha, entropy)
  {
    PowersOfTwo();
    ChunksOfExpand(8, entropy);
    assert bits[..128] == Expand(8, entropy);
  }

  lemma {:induction false} PhraseIsValid(wl: seq<string>, sha: Hash, entropy: seq<nat>)
    requires IsWordlist(wl) && |entropy| == 16 && Below(256, entropy)
    ensures Validate(wl, sha, Phrase(wl, sha, entropy)) == Some(entropy)
  {
    var bits := PhraseBits(sha, entropy);
    IndicesBelow(bits);
    var idx := Chunks(11, 12, bits);
    IndicesOfPick(wl, idx);
    SplitOfJoin(Pick(wl, idx));
    ExpandOfChunks(11, 12, bits);
    BitsCut(sha, entropy, bits);
  }

  lemma {:induction false} EntropyBits(bits: seq<nat>)
    requires |bits| == 132 && Below(2, bits)
    ensures Expand(8, Chunks(8, 16, bits[..128])) + bits[128..] == bits
  {
    ExpandOfChunks(8, 16, bits[..128]);
    assert bits == bits[..128] + bits[128..];
  }

  lemma {:induction false} PhraseOfIndices(wl: seq<string>, sha: Hash, entropy: seq<nat>, idx: seq<nat>)
    requires |wl| == 2048 && |entropy| == 16 && |idx| == 12 && Below(2048, idx)
    requires Expand(11, idx) == PhraseBits(sha, entropy)
    ensures Phrase(wl, sha, entropy) == Join(Pick(wl, idx))
  {
    PowersOfTwo();
    ChunksOfExpand(11, idx);
  }

  lemma {:induction false} ValidBits(wl: seq<string>, sha: Hash, phrase: string,
    entropy: seq<nat>) returns (idx: seq<nat>)
    requires |wl| == 2048 && |entropy| == 16 && Validate(wl, sha, phrase) == Some(entropy)
    ensures |idx| == 12 && Below(2048, idx) && Pick(wl, idx) == Split(phrase)
    ensures Expand(11, idx) == PhraseBits(sha, entropy)
  {
    var ws := Split(phrase);
    idx := Indices(wl, ws);
    EntropyBits(Expand(11, idx));
    assert Pick(wl, idx) == ws;
  }

  lemma {:induction false} ValidIsPhrase(wl: seq<string>, sha: Hash, phrase: string, entropy: seq<nat>)
    requires IsWordlist(wl) && |entropy| == 16 && Validate(wl, sha, phrase) == Some(entropy)
    ensures phrase == Phrase(wl, sha, entropy)
  {
    var idx := ValidBits(wl, sha, phrase, entropy);
    PhraseOfIndices(wl, sha, entropy, idx);
    JoinOfSplit(phrase);
  }

  /** The validator accepts exactly the phrases that the script generates, and recovers their entropy. */
  lemma {:induction false} ValidIffGenerated(wl: seq<string>, sha: Hash, phrase: string, entropy: seq<nat>)
    requires IsWordlist(wl) && |entropy| == 16 && Below(256, entropy)
    ensures Validate(wl, sha, phrase) == Some(entropy) <==> phrase == Phrase(wl, sha, entropy)
  {
    PhraseIsValid(wl, sha, entropy);
    if Validate(wl, sha, phrase) == Some(entropy) { ValidIsPhrase(wl, sha, phrase, entropy); }
  }
}
