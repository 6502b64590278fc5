/**
 `base58check` and the decoder that undoes it.  A numeral is carried from one
 base to another by its value, and its leading zeros are carried one by one;
 both directions are the same function with the bases exchanged.
 */
module Base58 {
  import opened Numerals
  import opened Hashing
  import opened Wrappers

  // ---- Change of base ----

  function LeadingZeros(ds: seq<nat>): (k: nat)
    ensures k <= |ds| && (forall i :: 0 <= i < k ==> ds[i] == 0) && (k < |ds| ==> ds[k] != 0)
  {
    if ds != [] && ds[0] == 0 then 1 + LeadingZeros(ds[1..]) else 0
  }

  function Rebase(from: nat, to: nat, ds: seq<nat>): (es: seq<nat>)
    requires from > 0 && to > 1
    ensures Below(to, es)
  {
    Zeros(LeadingZeros(ds)) + Minimal(to, Val(from, ds))
  }

  /** Changing the base there and back gives the digits back, leading zeros included. */
  lemma {:induction false} RebaseRoundTrip(b: nat, c: nat, ds: seq<nat>)
    requires b > 1 && c > 1 && Below(b, ds)
    ensures Rebase(c, b, Rebase(b, c, ds)) == ds
  {
    var k := LeadingZeros(ds);
    var rest := ds[k..];
    var n := Val(b, rest);
    assert ds == Zeros(k) + rest;
    ValLeadingZeros(b, k, rest);
    var es := Zeros(k) + Minimal(c, n);
    assert LeadingZeros(es) == k by {
      LeadingZerosAre(es, k);
    }
    ValLeadingZeros(c, k, Minimal(c, n));
    ValOfMinimal(c, n);
    MinimalOfVal(b, rest);
  }

  lemma {:induction false} LeadingZerosAre(es: seq<nat>, k: nat)
    requires k <= |es| && (forall i :: 0 <= i < k ==> es[i] == 0) && (k < |es| ==> es[k] != 0)
    ensures LeadingZeros(es) == k
  {
  }

  // ---- Characters ----

  /** The alphabet: digits without 0, upper-case letters without I and O, lower-case letters without l. */
  function CharOf(d: nat): char
    requires d < 58
  {
    if d < 9 then ('1' as int + d) as char
    else if d < 17 then ('A' as int + (d - 9)) as char
    else if d < 22 then ('J' as int + (d - 17)) as char
    else if d < 33 then ('P' as int + (d - 22)) as char
    else if d < 44 then ('a' as int + (d - 33)) as char
    else ('m' as int + (d - 44)) as char
  }

  lemma {:induction false} AlphabetSpelled(d: nat)
    requires d < 58
    ensures d < 9 ==> CharOf(d) == "123456789"[d]
    ensures 9 <= d < 22 ==> CharOf(d) == "ABCDEFGHJKLMN"[d - 9]
    ensures 22 <= d < 33 ==> CharOf(d) == "PQRSTUVWXYZ"[d - 22]
    ensures 33 <= d < 44 ==> CharOf(d) == "abcdefghijk"[d - 33]
    ensures 44 <= d ==> CharOf(d) == "mnopqrstuvwxyz"[d - 44]
  {
  }

  function DigitOf(c: char): (r: Option<nat>)
    ensures r.Some? ==> r.value < 58
  {
    if '1' <= c <= '9' then Some(c as int - '1' as int)
    else if 'A' <= c <= 'H' then Some(9 + (c as int - 'A' as int))
    else if 'J' <= c <= 'N' then Some(17 + (c as int - 'J' as int))
    else if 'P' <= c <= 'Z' then Some(22 + (c as int - 'P' as int))
    else if 'a' <= c <= 'k' then Some(33 + (c as int - 'a' as int))
    else if 'm' <= c <= 'z' then Some(44 + (c as int - 'm' as int))
    else None
  }

  lemma {:induction false} CharRoundTrip(d: nat)
    requires d < 58
    ensures DigitOf(CharOf(d)) == Some(d)
  {
  }

  lemma {:induction false} DigitRoundTrip(c: char)
    requires DigitOf(c).Some?
    ensures CharOf(DigitOf(c).value) == c
  {
  }

  function Text(ds: seq<nat>): (s: string)
    requires Below(58, ds)
    ensures |s| == |ds|
  {
    seq(|ds|, i requires 0 <= i < |ds| => CharOf(ds[i]))
  }

  predicate InAlphabet(s: string) { forall i :: 0 <= i < |s| ==> DigitOf(s[i]).Some? }

  function DigitsOf(s: string): (ds: seq<nat>)
    requires InAlphabet(s)
    ensures |ds| == |s| && Below(58, ds)
  {
    seq(|s|, i requires 0 <= i < |s| => DigitOf(s[i]).value)
  }

  lemma {:induction false} TextRoundTrip(ds: seq<nat>)
    requires Below(58, ds)
    ensures InAlphabet(Text(ds)) && DigitsOf(Text(ds)) == ds
  {
    forall i | 0 <= i < |ds| ensures DigitOf(Text(ds)[i]) == Some(ds[i]) { CharRoundTrip(ds[i]); }
  }

  lemma {:induction false} DigitsRoundTrip(s: string)
    requires InAlphabet(s)
    ensures Text(DigitsOf(s)) == s
  {
    forall i | 0 <= i < |s| ensures Text(DigitsOf(s))[i] == s[i] { DigitRoundTrip(s[i]); }
  }

  // ---- Base58Check ----

  function Check(sha: Hash, full: seq<nat>): (c: seq<nat>)
    ensures |c| == 4 && Below(256, c)
  {
    sha(sha(full))[..4]
  }

  /** The text of prefix and payload together. */
  function Encoded(sha: Hash, full: seq<nat>): string
  {
    Text(Rebase(256, 58, full + Check(sha, full)))
  }

  /** The usual decoder: change the base back and compare the last four bytes with the checksum of the others. */
  function Decode(sha: Hash, s: string): Option<seq<nat>>
  {
    if !InAlphabet(s) then None
    else
      var data := Rebase(58, 256, DigitsOf(s));
      if |data| < 4 then None
      else
        var full := data[..|data| - 4];
        if data[|data| - 4..] == Check(sha, full) then Some(full) else None
  }

  lemma {:induction false} EncodedDecodes(sha: Hash, full: seq<nat>)
    requires Below(256, full)
    ensures Decode(sha, Encoded(sha, full)) == Some(full)
  {
    var data := full + Check(sha, full);
    RebaseRoundTrip(256, 58, data);
    TextRoundTrip(Rebase(256, 58, data));
    assert data[..|data| - 4] == full && data[|data| - 4..] == Check(sha, full);
  }

  /** The text is, in base 58, prefix and payload and the first four bytes of the digest of their digest. */
  lemma {:induction false} TextEndsInDigest(sha: Hash, full: seq<nat>, once: seq<nat>, twice: seq<nat>)
    requires Below(256, full) && once == sha(full) && twice == sha(once)
    ensures InAlphabet(Encoded(sha, full)) && Rebase(58, 256, DigitsOf(Encoded(sha, full))) == full + twice[..4]
  {
    var data := full + Check(sha, full);
    RebaseRoundTrip(256, 58, data);
    TextRoundTrip(Rebase(256, 58, data));
  }

  lemma {:induction false} DecodedEncodes(sha: Hash, s: string, full: seq<nat>)
    requires Decode(sha, s) == Some(full)
    ensures s == Encoded(sha, full)
  {
    var back := Rebase(58, 256, DigitsOf(s));
    assert back == back[..|back| - 4] + back[|back| - 4..];
    RebaseRoundTrip(58, 256, DigitsOf(s));
    DigitsRoundTrip(s);
  }

  /** Decoding accepts exactly the texts that the script produces, and gives back what they were made from. */
  lemma {:induction false} DecodeIffEncoded(sha: Hash, s: string, full: seq<nat>)
    requires Below(256, full)
    ensures Decode(sha, s) == Some(full) <==> s == Encoded(sha, full)
  {
    EncodedDecodes(sha, full);
    if Decode(sha, s) == Some(full) { DecodedEncodes(sha, s, full); }
  }

  /** With one prefix length, different inputs have different texts. */
  lemma {:induction false} EncodedInjective(sha: Hash, prefix: seq<nat>, payload: seq<nat>, prefix': seq<nat>,
    payload': seq<nat>)
    requires Below(256, prefix) && Below(256, payload) && Below(256, prefix') && Below(256, payload')
    requires |prefix| == |prefix'| && Encoded(sha, prefix + payload) == Encoded(sha, prefix' + payload')
    ensures prefix == prefix' && payload == payload'
  {
    var s := Encoded(sha, prefix + payload);
    DecodeIffEncoded(sha, s, prefix + payload);
    DecodeIffEncoded(sha, s, prefix' + payload');
    assert prefix + payload == prefix' + payload';
    assert prefix == (prefix + payload)[..|prefix|] && payload == (prefix + payload)[|prefix|..];
  }

  // ---- The loops of the script ----

  lemma {:induction false} TextCons(d: nat, ds: seq<nat>)
    requires d < 58 && Below(58, ds)
    ensures Text([d] + ds) == [CharOf(d)] + Text(ds)
  {
  }

  /** The first loop: divide by 58 and put the remainder's letter in front, until nothing is left. */
  method DivmodLoop(n: nat) returns (res: string)
    ensures res == Text(Minimal(58, n))
  {
    var num := n;
    res := "";
    ghost var ds: seq<nat> := [];
    while num > 0
      invariant Below(58, ds) && res == Text(ds)
      invariant Minimal(58, num) + ds == Minimal(58, n)
      decreases num
    {
      var rem := num % 58;
      TextCons(rem, ds);
      assert Minimal(58, num) + ds == Minimal(58, num / 58) + ([rem] + ds);
      num, res, ds := num / 58, [CharOf(rem)] + res, [rem] + ds;
    }
    assert [] + ds == ds;
  }

  /** The second loop: one "1" for every leading zero byte. */
  method PrependOnes(data: seq<nat>, digits: string, ghost ds: seq<nat>) returns (res: string)
    requires Below(58, ds) && digits == Text(ds)
    ensures res == Text(Zeros(LeadingZeros(data)) + ds)
  {
    res := digits;
    var i := 0;
    assert Zeros(0) + ds == ds;
    while i < |data| && data[i] == 0
      invariant i <= |data| && forall j :: 0 <= j < i ==> data[j] == 0
      invariant res == Text(Zeros(i) + ds)
    {
      TextCons(0, Zeros(i) + ds);
      assert [0] + (Zeros(i) + ds) == Zeros(i + 1) + ds;
      res, i := "1" + res, i + 1;
    }
    LeadingZerosAre(data, i);
  }

  /** The script's `base58check`. */
  method Base58Check(sha: Hash, prefix: seq<nat>, payload: seq<nat>) returns (res: string)
    requires Below(256, prefix) && Below(256, payload)
    ensures res == Encoded(sha, prefix + payload)
  {
    var full := prefix + payload;
    var data := full + Check(sha, full);
    var digits := DivmodLoop(Val(256, data));
    res := PrependOnes(data, digits, Minimal(58, Val(256, data)));
  }
}
