/**
 The activity list of `client/src/pages/DashboardPage.tsx`: a withdrawal and the
 fee entry right behind it are shown as one row with one total.
 */
module LedgerRows {
  import opened Wrappers
  import opened Sums

  datatype Entry = Entry(id: string, kind: string, coin: string, amount: int)

  datatype Row = Row(entry: Entry, fee: Option<Entry>)

  predicate Pairs(e: Entry, next: Entry)
  {
    e.kind == "WITHDRAWAL" && next.kind == "WITHDRAWAL_FEE" && next.coin == e.coin
  }

  /** The entries that a row stands for. */
  function Entries(r: Row): seq<Entry>
  {
    [r.entry] + if r.fee.Some? then [r.fee.value] else []
  }

  function Flatten(rows: seq<Row>): seq<Entry>
  {
    if rows == [] then [] else Flatten(rows[..|rows| - 1]) + Entries(rows[|rows| - 1])
  }

  /** Entry `i` is the fee of the withdrawal right before it. */
  predicate FeeAt(es: seq<Entry>, i: nat)
    requires i < |es|
  {
    i > 0 && Pairs(es[i - 1], es[i])
  }

  /** Entry `i`, which is not such a fee itself, has the id of a fee before it. */
  predicate Clash(es: seq<Entry>, i: nat)
    requires i < |es|
  {
    !FeeAt(es, i) && exists j :: 0 <= j < i && FeeAt(es, j) && es[j].id == es[i].id
  }

  predicate DistinctIds(es: seq<Entry>)
  {
    forall i, j :: 0 <= i < j < |es| ==> es[i].id != es[j].id
  }

  predicate Sound(r: Row)
  {
    r.fee.Some? ==> Pairs(r.entry, r.fee.value)
  }

  /** Fees are merged only into their withdrawal, and no fee that could be merged is left on a row of its own. */
  predicate Tight(rows: seq<Row>)
  {
    && (forall k :: 0 <= k < |rows| ==> Sound(rows[k]))
    && (forall k :: 0 < k < |rows| && rows[k - 1].fee.None? ==> !Pairs(rows[k - 1].entry, rows[k].entry))
  }

  lemma {:induction false} FlattenSnoc(rows: seq<Row>, r: Row)
    ensures Flatten(rows + [r]) == Flatten(rows) + Entries(r)
  {
    assert (rows + [r])[..|rows|] == rows;
  }

  /** Where the loop stands: the rows reach one entry further than `i` right after a merge. */
  ghost predicate Merging(es: seq<Entry>, i: nat, reach: nat, skip: set<string>)
  {
    && i <= reach <= |es| && reach <= i + 1
    && (reach == i + 1 ==> FeeAt(es, i) && es[i].id in skip)
    && (forall x :: x in skip ==> exists j: nat :: j < reach && FeeAt(es, j) && es[j].id == x)
  }

  /** As long as nothing clashed, nothing is lost. */
  ghost predicate Whole(es: seq<Entry>, i: nat, reach: nat, merged: seq<Row>, skip: set<string>)
    requires i <= reach <= |es|
  {
    && Flatten(merged) == es[..reach] && Tight(merged)
    && (forall j: nat :: j < reach && FeeAt(es, j) ==> es[j].id in skip)
    && (reach == i && merged != [] && merged[|merged| - 1].fee.None? ==>
          i > 0 && merged[|merged| - 1].entry == es[i - 1])
    && (i < |es| && FeeAt(es, i) ==> reach == i + 1)
  }

  ghost predicate Clashed(es: seq<Entry>, i: nat)
    requires i <= |es|
  {
    exists k: nat :: k < i && Clash(es, k)
  }

  ghost predicate Inv(es: seq<Entry>, i: nat, reach: nat, merged: seq<Row>, skip: set<string>)
  {
    && Merging(es, i, reach, skip)
    && (if Clashed(es, i) then |Flatten(merged)| < reach else Whole(es, i, reach, merged, skip))
  }

  lemma {:induction false} ClashedStep(es: seq<Entry>, i: nat)
    requires i < |es|
    ensures Clashed(es, i + 1) <==> Clashed(es, i) || Clash(es, i)
  {
  }

  lemma {:induction false} SkipClashes(es: seq<Entry>, i: nat, merged: seq<Row>, skip: set<string>)
    requires i < |es| && es[i].id in skip && Merging(es, i, i, skip) && Whole(es, i, i, merged, skip)
    ensures Clash(es, i)
  {
    var j: nat :| j < i && FeeAt(es, j) && es[j].id == es[i].id;
  }

  lemma {:induction false} SkipKeeps(es: seq<Entry>, i: nat, reach: nat, merged: seq<Row>, skip: set<string>)
    requires i < |es| && es[i].id in skip && Inv(es, i, reach, merged, skip)
    ensures Inv(es, i + 1, i + 1, merged, skip)
  {
    ClashedStep(es, i);
    if reach == i {
      if !Clashed(es, i) { SkipClashes(es, i, merged, skip); }
    } else if !Clashed(es, i) {
      SkipStaysWhole(es, i, merged, skip);
    }
  }

  lemma {:induction false} SkipStaysWhole(es: seq<Entry>, i: nat, merged: seq<Row>, skip: set<string>)
    requires i < |es| && FeeAt(es, i) && Whole(es, i, i + 1, merged, skip)
    ensures Whole(es, i + 1, i + 1, merged, skip)
  {
    var n := |merged| - 1;
    assert merged != [];
    assert Flatten(merged)[i] == Entries(merged[n])[|Entries(merged[n])| - 1];
  }

  lemma {:induction false} NoClashHere(es: seq<Entry>, i: nat, reach: nat, merged: seq<Row>, skip: set<string>)
    requires i < |es| && es[i].id !in skip && Inv(es, i, reach, merged, skip)
    ensures reach == i && (Clashed(es, i + 1) <==> Clashed(es, i))
  {
    ClashedStep(es, i);
  }

  lemma {:induction false} TightSnoc(rows: seq<Row>, r: Row)
    requires Tight(rows) && Sound(r)
    requires rows != [] && rows[|rows| - 1].fee.None? ==> !Pairs(rows[|rows| - 1].entry, r.entry)
    ensures Tight(rows + [r])
  {
  }

  lemma {:induction false} MergeReaches(es: seq<Entry>, i: nat, skip: set<string>)
    requires i + 1 < |es| && Pairs(es[i], es[i + 1]) && Merging(es, i, i, skip)
    ensures Merging(es, i + 1, i + 2, skip + {es[i + 1].id})
  {
    assert FeeAt(es, i + 1);
  }

  lemma {:induction false} MergeStaysWhole(es: seq<Entry>, i: nat, merged: seq<Row>, r: Row, skip: set<string>)
    requires i + 1 < |es| && r == Row(es[i], Some(es[i + 1])) && Pairs(es[i], es[i + 1])
             && Whole(es, i, i, merged, skip)
    ensures Whole(es, i + 1, i + 2, merged + [r], skip + {es[i + 1].id})
  {
    FlattenSnoc(merged, r);
    assert es[..i + 2] == es[..i] + Entries(r);
    assert !FeeAt(es, i);
    TightSnoc(merged, r);
  }

  lemma {:induction false} MergeKeeps(es: seq<Entry>, i: nat, reach: nat, merged: seq<Row>, skip: set<string>)
    requires i + 1 < |es| && es[i].id !in skip && Pairs(es[i], es[i + 1]) && Inv(es, i, reach, merged, skip)
    ensures Inv(es, i + 1, i + 2, merged + [Row(es[i], Some(es[i + 1]))], skip + {es[i + 1].id})
  {
    var r := Row(es[i], Some(es[i + 1]));
    NoClashHere(es, i, reach, merged, skip);
    FlattenSnoc(merged, r);
    MergeReaches(es, i, skip);
    if !Clashed(es, i) { MergeStaysWhole(es, i, merged, r, skip); }
  }

  lemma {:induction false} PlainStaysWhole(es: seq<Entry>, i: nat, merged: seq<Row>, r: Row, skip: set<string>)
    requires i < |es| && r == Row(es[i], None) && (i + 1 < |es| ==> !Pairs(es[i], es[i + 1]))
             && Whole(es, i, i, merged, skip)
    ensures Whole(es, i + 1, i + 1, merged + [r], skip)
  {
    FlattenSnoc(merged, r);
    assert es[..i + 1] == es[..i] + Entries(r);
    assert !FeeAt(es, i);
    TightSnoc(merged, r);
  }

  lemma {:induction false} PlainKeeps(es: seq<Entry>, i: nat, reach: nat, merged: seq<Row>, skip: set<string>)
    requires i < |es| && es[i].id !in skip && (i + 1 < |es| ==> !Pairs(es[i], es[i + 1]))
             && Inv(es, i, reach, merged, skip)
    ensures Inv(es, i + 1, i + 1, merged + [Row(es[i], None)], skip)
  {
    var r := Row(es[i], None);
    NoClashHere(es, i, reach, merged, skip);
    FlattenSnoc(merged, r);
    if !Clashed(es, i) { PlainStaysWhole(es, i, merged, r, skip); }
  }

  // ---- Which entries remain ----

  /** Entry `i` is merged into the withdrawal before it. */
  ghost predicate Consumed(es: seq<Entry>, i: nat)
    requires i < |es|
    decreases i, 0
  {
    FeeAt(es, i) && !Dropped(es, i - 1)
  }

  /** Entry `i` has the id of a fee merged before it, and is not merged itself. */
  ghost predicate Dropped(es: seq<Entry>, i: nat)
    requires i < |es|
    decreases i, 1
  {
    !Consumed(es, i) && exists j: nat :: j < i && Consumed(es, j) && es[j].id == es[i].id
  }

  /** The first `n` entries without those that are dropped. */
  ghost function Remaining(es: seq<Entry>, n: nat): seq<Entry>
    requires n <= |es|
  {
    if n == 0 then [] else Remaining(es, n - 1) + if Dropped(es, n - 1) then [] else [es[n - 1]]
  }

  /** The rows show what remains, as far as they reach, and `skip` has the ids of the merged fees. */
  ghost predicate Shows(es: seq<Entry>, i: nat, reach: nat, merged: seq<Row>, skip: set<string>)
  {
    && i <= reach <= |es| && reach == (if i < |es| && Consumed(es, i) then i + 1 else i)
    && SkipsMerged(es, reach, skip) && Flatten(merged) == Remaining(es, reach)
  }

  lemma {:induction false} SkipShows(es: seq<Entry>, i: nat, reach: nat, merged: seq<Row>, skip: set<string>)
    requires i < |es| && es[i].id in skip && Shows(es, i, reach, merged, skip)
    ensures Shows(es, i + 1, i + 1, merged, skip)
  {
    if reach == i {
      assert Dropped(es, i);
    } else {
      assert es[i].kind == "WITHDRAWAL_FEE";
    }
  }

  lemma {:induction false} PairRemains(es: seq<Entry>, i: nat)
    requires i + 1 < |es| && Pairs(es[i], es[i + 1]) && !Dropped(es, i)
    ensures Consumed(es, i + 1) && !Dropped(es, i + 1) && (i + 2 < |es| ==> !Consumed(es, i + 2))
    ensures Remaining(es, i + 2) == Remaining(es, i) + [es[i], es[i + 1]]
  {
    assert Remaining(es, i + 1) == Remaining(es, i) + [es[i]];
  }

  /** The ids of the fees merged among the first `n` entries. */
  ghost predicate SkipsMerged(es: seq<Entry>, n: nat, skip: set<string>)
    requires n <= |es|
  {
    forall x :: x in skip <==> exists j: nat :: j < n && Consumed(es, j) && es[j].id == x
  }

  lemma {:induction false} SkipsOneMore(es: seq<Entry>, i: nat, skip: set<string>)
    requires i + 1 < |es| && SkipsMerged(es, i, skip) && !Consumed(es, i) && Consumed(es, i + 1)
    ensures SkipsMerged(es, i + 2, skip + {es[i + 1].id})
  {
  }

  lemma {:induction false} MergeShows(es: seq<Entry>, i: nat, reach: nat, merged: seq<Row>, skip: set<string>)
    requires i + 1 < |es| && es[i].id !in skip && Pairs(es[i], es[i + 1]) && Shows(es, i, reach, merged, skip)
    ensures Shows(es, i + 1, i + 2, merged + [Row(es[i], Some(es[i + 1]))], skip + {es[i + 1].id})
  {
    assert reach == i && !Dropped(es, i);
    PairRemains(es, i);
    SkipsOneMore(es, i, skip);
    FlattenSnoc(merged, Row(es[i], Some(es[i + 1])));
  }

  lemma {:induction false} PlainShows(es: seq<Entry>, i: nat, reach: nat, merged: seq<Row>, skip: set<string>)
    requires i < |es| && es[i].id !in skip && (i + 1 < |es| ==> !Pairs(es[i], es[i + 1]))
    requires Shows(es, i, reach, merged, skip)
    ensures Shows(es, i + 1, i + 1, merged + [Row(es[i], None)], skip)
  {
    assert reach == i && !Dropped(es, i);
    FlattenSnoc(merged, Row(es[i], None));
  }

  /** Every fee stands with a withdrawal of its own coin. */
  ghost predicate FeesMatch(rows: seq<Row>)
  {
    forall k :: 0 <= k < |rows| && rows[k].fee.Some? ==>
      && rows[k].entry.kind == "WITHDRAWAL" && rows[k].fee.value.kind == "WITHDRAWAL_FEE"
      && rows[k].fee.value.coin == rows[k].entry.coin
  }

  lemma {:induction false} FeesMatchSnoc(rows: seq<Row>, r: Row)
    requires FeesMatch(rows) && Sound(r)
    ensures FeesMatch(rows + [r])
  {
  }

  /** All that the loop keeps. */
  ghost predicate Loop(es: seq<Entry>, i: nat, reach: nat, merged: seq<Row>, skip: set<string>)
  {
    Inv(es, i, reach, merged, skip) && Shows(es, i, reach, merged, skip) && FeesMatch(merged)
  }

  lemma {:induction false} SkipLoop(es: seq<Entry>, i: nat, reach: nat, merged: seq<Row>, skip: set<string>)
    requires i < |es| && es[i].id in skip && Loop(es, i, reach, merged, skip)
    ensures Loop(es, i + 1, i + 1, merged, skip)
  {
    SkipKeeps(es, i, reach, merged, skip);
    SkipShows(es, i, reach, merged, skip);
  }

  lemma {:induction false} MergeLoop(es: seq<Entry>, i: nat, reach: nat, merged: seq<Row>, skip: set<string>)
    requires i + 1 < |es| && es[i].id !in skip && Pairs(es[i], es[i + 1]) && Loop(es, i, reach, merged, skip)
    ensures Loop(es, i + 1, i + 2, merged + [Row(es[i], Some(es[i + 1]))], skip + {es[i + 1].id})
  {
    MergeKeeps(es, i, reach, merged, skip);
    MergeShows(es, i, reach, merged, skip);
    FeesMatchSnoc(merged, Row(es[i], Some(es[i + 1])));
  }

  lemma {:induction false} PlainLoop(es: seq<Entry>, i: nat, reach: nat, merged: seq<Row>, skip: set<string>)
    requires i < |es| && es[i].id !in skip && (i + 1 < |es| ==> !Pairs(es[i], es[i + 1]))
    requires Loop(es, i, reach, merged, skip)
    ensures Loop(es, i + 1, i + 1, merged + [Row(es[i], None)], skip)
  {
    PlainKeeps(es, i, reach, merged, skip);
    PlainShows(es, i, reach, merged, skip);
    FeesMatchSnoc(merged, Row(es[i], None));
  }

  lemma {:induction false} LoopStarts(es: seq<Entry>)
    ensures Loop(es, 0, 0, [], {})
  {
  }

  /** What the rows are worth once all entries are done. */
  lemma {:induction false} LoopEnds(es: seq<Entry>, reach: nat, merged: seq<Row>, skip: set<string>)
    requires Loop(es, |es|, reach, merged, skip)
    ensures Flatten(merged) == Remaining(es, |es|) && (Flatten(merged) == es <==> !Clashed(es, |es|))
    ensures Flatten(merged) == es ==> Tight(merged)
  {
    assert es[..|es|] == es;
  }

  /**
   The merge loop.  Flattening its rows gives the entries that remain, in order,
   and these are all of them exactly if no entry clashes with a fee.
   */
  method Merge(es: seq<Entry>) returns (merged: seq<Row>)
    ensures Flatten(merged) == Remaining(es, |es|)
    ensures FeesMatch(merged)
    ensures Flatten(merged) == es <==> !Clashed(es, |es|)
    ensures Flatten(merged) == es ==> Tight(merged)
    ensures DistinctIds(es) ==> Flatten(merged) == es
    ensures !Clashed(es, |es|) && Signed(es) ==> Sum(Total, merged) == Sum(Amount, es)
  {
    merged := [];
    var skip: set<string> := {};
    ghost var reach := 0;
    LoopStarts(es);
    for i := 0 to |es|
      invariant Loop(es, i, reach, merged, skip)
    {
      var e := es[i];
      if e.id in skip {
        SkipLoop(es, i, reach, merged, skip);
        reach := i + 1;
        continue;
      }
      if e.kind == "WITHDRAWAL" && i + 1 < |es| {
        var next := es[i + 1];
        if next.kind == "WITHDRAWAL_FEE" && next.coin == e.coin {
          MergeLoop(es, i, reach, merged, skip);
          merged := merged + [Row(e, Some(next))];
          skip := skip + {next.id};
          reach := i + 2;
          continue;
        }
      }
      PlainLoop(es, i, reach, merged, skip);
      merged := merged + [Row(e, None)];
      reach := i + 1;
    }
    LoopEnds(es, reach, merged, skip);
    if !Clashed(es, |es|) && Signed(es) { TightTotals(merged); }
  }

  /** The rows are determined: there is one tight way to group a list. */
  lemma {:induction false} TightIsUnique(a: seq<Row>, b: seq<Row>)
    requires Tight(a) && Tight(b) && Flatten(a) == Flatten(b)
    ensures a == b
  {
    if a != [] && b != [] {
      var m, n := |a| - 1, |b| - 1;
      var x, y := a[m], b[n];
      if x.fee.Some? == y.fee.Some? {
        assert x == y && Flatten(a[..m]) == Flatten(b[..n]) by { LastRow(a, b); }
        TightIsUnique(a[..m], b[..n]);
        assert a == a[..m] + [x] && b == b[..n] + [y];
      } else if x.fee.Some? {
        NoSplit(a, b);
      } else {
        NoSplit(b, a);
      }
    }
  }

  lemma {:induction false} LastRow(a: seq<Row>, b: seq<Row>)
    requires a != [] && b != [] && Flatten(a) == Flatten(b) && a[|a| - 1].fee.Some? == b[|b| - 1].fee.Some?
    ensures a[|a| - 1] == b[|b| - 1] && Flatten(a[..|a| - 1]) == Flatten(b[..|b| - 1])
  {
    var f, x, y := Flatten(a), a[|a| - 1], b[|b| - 1];
    var k := |f| - |Entries(x)|;
    assert f[..k] == Flatten(a[..|a| - 1]) && f[k..] == Entries(x);
    assert f[..k] == Flatten(b[..|b| - 1]) && f[k..] == Entries(y);
    assert Entries(x)[0] == Entries(y)[0];
    if x.fee.Some? { assert Entries(x)[1] == Entries(y)[1]; }
  }

  /** Where a tight grouping ends in a row of one entry, the last two entries do not pair. */
  lemma {:induction false} EndIsApart(b: seq<Row>)
    requires Tight(b) && b != [] && b[|b| - 1].fee.None? && |Flatten(b)| > 1
    ensures var f := Flatten(b); !Pairs(f[|f| - 2], f[|f| - 1])
  {
    var rest, y := b[..|b| - 1], b[|b| - 1];
    var z := rest[|rest| - 1];
    assert Flatten(b) == Flatten(rest[..|rest| - 1]) + Entries(z) + [y.entry];
    if z.fee.Some? { assert z.fee.value.kind == "WITHDRAWAL_FEE"; }
  }

  /** One grouping cannot merge a pair at the end that the other leaves apart. */
  lemma {:induction false} NoSplit(a: seq<Row>, b: seq<Row>)
    requires a != [] && b != [] && Tight(a) && Tight(b) && a[|a| - 1].fee.Some? && b[|b| - 1].fee.None?
    ensures Flatten(a) != Flatten(b)
  {
    var f, x := Flatten(a), a[|a| - 1];
    assert f == Flatten(a[..|a| - 1]) + [x.entry, x.fee.value];
    assert Pairs(f[|f| - 2], f[|f| - 1]);
    if f == Flatten(b) { EndIsApart(b); }
  }

  // ---- Totals ----

  /** The signed total that a row shows. */
  function Total(r: Row): int
  {
    var amount, fee := r.entry.amount, if r.fee.Some? then r.fee.value.amount else 0;
    if amount < 0 then -((-amount) + (if fee < 0 then -fee else 0)) else amount
  }

  function Amount(e: Entry): int { e.amount }

  /** What a row moved and its total does not show: a positive fee, or any fee of an amount that is not negative. */
  function Hidden(r: Row): int
  {
    if r.fee.None? then 0
    else if r.entry.amount >= 0 then r.fee.value.amount
    else if r.fee.value.amount > 0 then r.fee.value.amount else 0
  }

  lemma {:induction false} RowAccounts(r: Row)
    ensures Sum(Amount, Entries(r)) == Total(r) + Hidden(r)
  {
    SumSnoc(Amount, [], r.entry);
    assert [] + [r.entry] == [r.entry];
    if r.fee.Some? { SumSnoc(Amount, [r.entry], r.fee.value); } else { assert Entries(r) == [r.entry]; }
  }

  /** Over every list of rows the totals are the amounts of the entries, less what the rows hide. */
  lemma {:induction false} TotalsAccount(rows: seq<Row>)
    ensures Sum(Total, rows) == Sum(Amount, Flatten(rows)) - Sum(Hidden, rows)
  {
    if rows != [] {
      var n := |rows| - 1;
      TotalsAccount(rows[..n]);
      SumAppend(Amount, Flatten(rows[..n]), Entries(rows[n]));
      RowAccounts(rows[n]);
    }
  }

  /** With withdrawals negative and fees not positive the totals shown add up to the entries. */
  lemma {:induction false} TotalsConserve(rows: seq<Row>)
    requires forall k :: 0 <= k < |rows| && rows[k].fee.Some? ==>
               rows[k].entry.amount < 0 && rows[k].fee.value.amount <= 0
    ensures Sum(Total, rows) == Sum(Amount, Flatten(rows))
  {
    TotalsAccount(rows);
    NothingHidden(rows);
  }

  lemma {:induction false} NothingHidden(rows: seq<Row>)
    requires forall k :: 0 <= k < |rows| ==> Hidden(rows[k]) == 0
    ensures Sum(Hidden, rows) == 0
  {
    if rows != [] { NothingHidden(rows[..|rows| - 1]); }
  }

  /** Withdrawals are negative and fees are not positive. */
  ghost predicate Signed(es: seq<Entry>)
  {
    forall e :: e in es ==> (e.kind == "WITHDRAWAL" ==> e.amount < 0) && (e.kind == "WITHDRAWAL_FEE" ==> e.amount <= 0)
  }

  lemma {:induction false} RowIsThere(rows: seq<Row>, k: nat)
    requires k < |rows|
    ensures rows[k].entry in Flatten(rows) && (rows[k].fee.Some? ==> rows[k].fee.value in Flatten(rows))
  {
    var n := |rows| - 1;
    if k < n {
      RowIsThere(rows[..n], k);
    } else {
      var es := Entries(rows[n]);
      assert es[0] in es && (rows[n].fee.Some? ==> es[1] in es);
    }
  }

  /** So of the rows that the merge makes of a list with such signs the totals add up to the list. */
  lemma {:induction false} TightTotals(rows: seq<Row>)
    requires Tight(rows) && Signed(Flatten(rows))
    ensures Sum(Total, rows) == Sum(Amount, Flatten(rows))
  {
    forall k | 0 <= k < |rows| && rows[k].fee.Some? ensures rows[k].entry.amount < 0 && rows[k].fee.value.amount <= 0 {
      RowIsThere(rows, k);
      assert Sound(rows[k]);
    }
    TotalsConserve(rows);
  }

  // ---- Lists for which it fails ----

  /** A third entry with the id of the merged fee is not shown. */
  lemma {:induction false} ClashExample(a: Entry, fee: Entry, b: Entry)
    requires Pairs(a, fee) && b.id == fee.id && b.kind != "WITHDRAWAL_FEE"
    ensures Clashed([a, fee, b], 3) && Remaining([a, fee, b], 3) == [a] + [fee]
  {
    var es := [a, fee, b];
    assert FeeAt(es, 1) && Clash(es, 2);
    assert !FeeAt(es, 0) && !Dropped(es, 0) && Consumed(es, 1) && !Consumed(es, 2) && Dropped(es, 2);
    assert Remaining(es, 1) == Remaining(es, 0) + [a] == [a];
    assert Remaining(es, 2) == [a] + [fee];
  }

  /** A positive fee is hidden by its row. */
  lemma {:induction false} PositiveFeeExample(a: Entry, fee: Entry)
    requires Pairs(a, fee) && fee.amount > 0
    ensures Sum(Total, [Row(a, Some(fee))]) != Sum(Amount, [a, fee])
  {
    var r := Row(a, Some(fee));
    SumSnoc(Total, [], r);
    assert [] + [r] == [r] && [a] + [fee] == [a, fee] == Entries(r);
    RowAccounts(r);
  }
}
