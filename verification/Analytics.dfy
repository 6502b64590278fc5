/**
 The analytics of `client/src/lib/analyticsLedger.ts` and the series of
 `client/src/pages/AnalyticsPage.tsx`.  Dollar values are exact multiples of
 one common unit.
 */
module Analytics {
  import opened Wrappers
  import opened Sums
  import opened Grouping

  const INFLOW := {"DEPOSIT", "FAUCET", "TRANSFER_IN", "MERCHANT_DEPOSIT", "WITHDRAWAL_REVERSAL", "DEX_SWAP_REFUND",
                   "STAKE_UNLOCK", "STAKE_REWARD", "SWAP_IN"}

  const OUTFLOW := {"WITHDRAWAL", "WITHDRAWAL_FEE", "TRANSFER_OUT", "MERCHANT_CHECKOUT", "DEX_SWAP_OUT", "SWAP_OUT",
    "STAKE_LOCK"}

  const SKIP := {"ADJUSTMENT"}

  // ---- Buckets ----

  datatype Bucket = Bucket(name: string, sign: int)

  function AnalyticsBucket(kind: string): Option<Bucket>
  {
    if kind in SKIP then None
    else if kind == "MERCHANT_DEPOSIT" then Some(Bucket("DEPOSIT", 1))
    else if kind == "WITHDRAWAL_REVERSAL" then Some(Bucket("WITHDRAWAL", -1))
    else if kind == "DEX_SWAP_OUT" || kind == "SWAP_OUT" then Some(Bucket("SWAP", 1))
    else if kind == "DEX_SWAP_REFUND" || kind == "SWAP_IN" then Some(Bucket("SWAP", -1))
    else Some(Bucket(kind, 1))
  }

  /** The types that share a bucket with another. */
  function Family(kind: string): nat
  {
    if kind == "DEPOSIT" || kind == "MERCHANT_DEPOSIT" then 1
    else if kind == "WITHDRAWAL" || kind == "WITHDRAWAL_REVERSAL" then 2
    else if kind in {"SWAP", "SWAP_OUT", "SWAP_IN", "DEX_SWAP_OUT", "DEX_SWAP_REFUND"} then 3
    else 0
  }

  /** Two types that are not skipped go to one bucket exactly if they are the same or of one family. */
  lemma {:induction false} SameBucketIff(k: string, k': string)
    requires k !in SKIP && k' !in SKIP
    ensures AnalyticsBucket(k).value.name == AnalyticsBucket(k').value.name
            <==> k == k' || (Family(k) == Family(k') != 0)
  {
    BucketIsOwn(k);
    BucketIsOwn(k');
  }

  /** A type outside the families is its own bucket; a family's bucket has the name of one of its members. */
  lemma {:induction false} BucketIsOwn(k: string)
    requires k !in SKIP
    ensures var b := AnalyticsBucket(k);
            && b.Some? && Family(b.value.name) == Family(k)
            && (Family(k) == 0 ==> b.value == Bucket(k, 1))
            && (Family(k) == 1 ==> b.value.name == "DEPOSIT")
            && (Family(k) == 2 ==> b.value.name == "WITHDRAWAL")
            && (Family(k) == 3 ==> b.value.name == "SWAP")
  {
  }

  /**
   Of the types that always flow one way, one adds to its bucket exactly if it flows
   the way of the bucket, and nets against it otherwise.
   */
  lemma {:induction false} SignIsDirection(k: string)
    requires k in INFLOW || k in OUTFLOW
    ensures AnalyticsBucket(k).Some? && var b := AnalyticsBucket(k).value;
            && (b.sign == 1 || b.sign == -1)
            && (b.sign == 1 <==> (k in INFLOW <==> b.name in INFLOW))
  {
  }

  datatype Row = Row(kind: string, absUsd: int)

  datatype ByType = ByType(kind: string, count: int, usd: int, inflow: bool)

  function NameOf(r: Row): Option<string>
  {
    var b := AnalyticsBucket(r.kind);
    if b.None? then None else Some(b.value.name)
  }

  /** What a row adds to its bucket. */
  function Signed(r: Row): int
  {
    var b := AnalyticsBucket(r.kind);
    if b.None? then 0 else b.value.sign * r.absUsd
  }

  function One(r: Row): int { 1 }

  /** One for a row that is shown at all. */
  function Shown(r: Row): int { if r.kind in SKIP then 0 else 1 }

  function Named(k: Option<string>): bool { k.Some? }

  /** The buckets of the rows in the order of their first row. */
  function Buckets(rows: seq<Row>): seq<Option<string>>
  {
    Filter(Named, FirstSeen(NameOf, rows))
  }

  /** The line of one bucket, as the rows have it. */
  function LineOf(rows: seq<Row>, k: Option<string>): ByType
  {
    var usd := SumAt(NameOf, Signed, rows)(k);
    var name := if k.Some? then k.value else "";
    ByType(name, SumAt(NameOf, One, rows)(k), if usd > 0 then usd else 0, name in INFLOW)
  }

  function Lines(rows: seq<Row>): seq<ByType>
  {
    var ks := Buckets(rows);
    seq(|ks|, i requires 0 <= i < |ks| => LineOf(rows, ks[i]))
  }

  // ---- The sort ----

  /** Behind everything that is at least as large. */
  function Insert(ys: seq<ByType>, x: ByType): seq<ByType>
  {
    var n := |ys| - 1;
    if ys == [] || ys[n].usd >= x.usd then ys + [x] else Insert(ys[..n], x) + [ys[n]]
  }

  function SortDescending(xs: seq<ByType>): seq<ByType>
  {
    if xs == [] then [] else Insert(SortDescending(xs[..|xs| - 1]), xs[|xs| - 1])
  }

  predicate Descending(xs: seq<ByType>)
  {
    forall i, j :: 0 <= i < j < |xs| ==> xs[i].usd >= xs[j].usd
  }

  function Worth(v: int): ByType -> bool { (l: ByType) => l.usd == v }

  lemma {:induction false} InsertPermutes(ys: seq<ByType>, x: ByType)
    ensures multiset(Insert(ys, x)) == multiset(ys + [x])
  {
    var n := |ys| - 1;
    if ys != [] && ys[n].usd < x.usd {
      InsertPermutes(ys[..n], x);
      assert ys == ys[..n] + [ys[n]];
      assert multiset(Insert(ys[..n], x) + [ys[n]]) == multiset(ys[..n] + [x] + [ys[n]]);
    }
  }

  lemma {:induction false} InsertAtLeast(ys: seq<ByType>, x: ByType, v: int)
    requires x.usd >= v && forall i :: 0 <= i < |ys| ==> ys[i].usd >= v
    ensures forall i :: 0 <= i < |Insert(ys, x)| ==> Insert(ys, x)[i].usd >= v
  {
    var n := |ys| - 1;
    if ys != [] && ys[n].usd < x.usd { InsertAtLeast(ys[..n], x, v); }
  }

  lemma {:induction false} InsertSorts(ys: seq<ByType>, x: ByType)
    requires Descending(ys)
    ensures Descending(Insert(ys, x))
  {
    var n := |ys| - 1;
    if ys != [] && ys[n].usd < x.usd {
      InsertSorts(ys[..n], x);
      InsertAtLeast(ys[..n], x, ys[n].usd);
    }
  }

  /** Of two elements that are not both kept, the order does not matter. */
  lemma {:induction false} FilterSwap<T>(p: T -> bool, xs: seq<T>, zs: seq<T>, x: T, y: T)
    requires Filter(p, zs) == Filter(p, xs + [x]) && !(p(x) && p(y))
    ensures Filter(p, zs + [y]) == Filter(p, xs + [y] + [x])
  {
    FilterSnoc(p, zs, y);
    FilterSnoc(p, xs, x);
    FilterSnoc(p, xs, y);
    FilterSnoc(p, xs + [y], x);
  }

  lemma {:induction false} InsertIsStable(ys: seq<ByType>, x: ByType, v: int)
    ensures Filter(Worth(v), Insert(ys, x)) == Filter(Worth(v), ys + [x])
  {
    var n := |ys| - 1;
    if ys != [] && ys[n].usd < x.usd {
      var p, init, y := Worth(v), ys[..n], ys[n];
      InsertIsStable(init, x, v);
      assert !(p(x) && p(y));
      FilterSwap(p, init, Insert(init, x), x, y);
      assert ys == init + [y];
    }
  }

  lemma {:induction false} SortOrders(xs: seq<ByType>)
    ensures Descending(SortDescending(xs))
  {
    if xs != [] {
      var n := |xs| - 1;
      SortOrders(xs[..n]);
      InsertSorts(SortDescending(xs[..n]), xs[n]);
    }
  }

  lemma {:induction false} SameWithOneMore(xs: seq<ByType>, ys: seq<ByType>, zs: seq<ByType>, x: ByType)
    requires multiset(ys) == multiset(xs) && multiset(zs) == multiset(ys + [x])
    ensures multiset(zs) == multiset(xs + [x])
  {
    assert multiset(ys + [x]) == multiset(ys) + multiset{x};
  }

  lemma {:induction false} SortPermutes(xs: seq<ByType>)
    ensures multiset(SortDescending(xs)) == multiset(xs)
  {
    if xs != [] {
      var n := |xs| - 1;
      var init, ys := xs[..n], SortDescending(xs[..n]);
      SortPermutes(init);
      assert xs == init + [xs[n]];
      InsertPermutes(ys, xs[n]);
      SameWithOneMore(init, ys, Insert(ys, xs[n]), xs[n]);
    }
  }

  lemma {:induction false} SortKeepsTies(xs: seq<ByType>, v: int)
    ensures Filter(Worth(v), SortDescending(xs)) == Filter(Worth(v), xs)
  {
    if xs != [] {
      var n := |xs| - 1;
      var ys := SortDescending(xs[..n]);
      SortKeepsTies(xs[..n], v);
      InsertIsStable(ys, xs[n], v);
      FilterSnoc(Worth(v), ys, xs[n]);
      FilterSnoc(Worth(v), xs[..n], xs[n]);
      assert xs == xs[..n] + [xs[n]];
    }
  }

  /** The sort orders, loses nothing and keeps ties in place. */
  lemma {:induction false} SortIsStable(xs: seq<ByType>, v: int)
    ensures Descending(SortDescending(xs)) && multiset(SortDescending(xs)) == multiset(xs)
    ensures Filter(Worth(v), SortDescending(xs)) == Filter(Worth(v), xs)
  {
    SortOrders(xs);
    SortPermutes(xs);
    SortKeepsTies(xs, v);
  }

  // ---- aggregateByType ----

  datatype Acc = Acc(count: int, usd: int)

  function Get(m: map<Key, Acc>, k: Key): Acc
  {
    if k in m then m[k] else Acc(0, 0)
  }

  type Key = Option<string>

  ghost predicate AddsUp(name: Row -> Key, value: Row -> int, rows: seq<Row>, k: Key, a: Acc)
  {
    a.count == SumAt(name, One, rows)(k) && a.usd == SumAt(name, value, rows)(k)
  }

  /** The map after some rows, for any way to name their buckets and to value them. */
  ghost predicate Tracks(name: Row -> Key, value: Row -> int, m: map<Key, Acc>, keys: seq<Key>, rows: seq<Row>)
  {
    && keys == Filter(Named, FirstSeen(name, rows))
    && (forall k :: k in m <==> k in keys)
    && (forall k :: k in m ==> AddsUp(name, value, rows, k, m[k]))
  }

  lemma {:induction false} NotSeen(name: Row -> Key, value: Row -> int, rows: seq<Row>, k: Key)
    requires k !in FirstSeen(name, rows)
    ensures AddsUp(name, value, rows, k, Acc(0, 0))
  {
    if rows != [] {
      var n := |rows| - 1;
      assert rows == rows[..n] + [rows[n]];
      FirstSeenStep(name, rows[..n], rows[n]);
      NotSeen(name, value, rows[..n], k);
      AddsUpStep(name, value, rows[..n], rows[n], k, Acc(0, 0));
    }
  }

  lemma {:induction false} BucketsStep(name: Row -> Key, rows: seq<Row>, row: Row)
    ensures var ks, k := Filter(Named, FirstSeen(name, rows)), name(row);
            Filter(Named, FirstSeen(name, rows + [row])) == if k.None? || k in ks then ks else ks + [k]
  {
    FirstSeenStep(name, rows, row);
    var seen, k := FirstSeen(name, rows), name(row);
    FilterMember(Named, seen, k);
    if k in seen { assert seen + [] == seen; } else { FilterSnoc(Named, seen, k); }
  }

  lemma {:induction false} AddsUpStep(name: Row -> Key, value: Row -> int, rows: seq<Row>, row: Row, k: Key, a: Acc)
    requires AddsUp(name, value, rows, k, a)
    ensures AddsUp(name, value, rows + [row], k, if name(row) == k then Acc(a.count + 1, a.usd + value(row)) else a)
  {
    SumAtStep(name, One, k, rows, row);
    SumAtStep(name, value, k, rows, row);
  }

  lemma {:induction false} GetAddsUp(name: Row -> Key, value: Row -> int, m: map<Key, Acc>, keys: seq<Key>,
    rows: seq<Row>, k: Key)
    requires Tracks(name, value, m, keys, rows) && k.Some?
    ensures AddsUp(name, value, rows, k, Get(m, k))
  {
    FilterMember(Named, FirstSeen(name, rows), k);
    if k !in m { NotSeen(name, value, rows, k); }
  }

  lemma {:induction false} SkipTracks(name: Row -> Key, value: Row -> int, m: map<Key, Acc>, keys: seq<Key>,
    rows: seq<Row>, row: Row)
    requires Tracks(name, value, m, keys, rows) && name(row).None?
    ensures Tracks(name, value, m, keys, rows + [row])
  {
    BucketsStep(name, rows, row);
    forall k | k in m ensures AddsUp(name, value, rows + [row], k, m[k]) {
      KeysAreNamed(name, value, m, keys, rows, k);
      AddsUpStep(name, value, rows, row, k, m[k]);
    }
  }

  lemma {:induction false} AddAddsUp(name: Row -> Key, value: Row -> int, m: map<Key, Acc>, keys: seq<Key>,
    rows: seq<Row>, row: Row, k: Key)
    requires Tracks(name, value, m, keys, rows) && k.Some?
    ensures AddsUp(name, value, rows + [row], k,
      if name(row) == k then Acc(Get(m, k).count + 1, Get(m, k).usd + value(row)) else Get(m, k))
  {
    GetAddsUp(name, value, m, keys, rows, k);
    AddsUpStep(name, value, rows, row, k, Get(m, k));
  }

  lemma {:induction false} KeysAreNamed(name: Row -> Key, value: Row -> int, m: map<Key, Acc>, keys: seq<Key>,
    rows: seq<Row>, k: Key)
    requires Tracks(name, value, m, keys, rows) && k in m
    ensures k.Some?
  {
    FilterMember(Named, FirstSeen(name, rows), k);
  }

  lemma {:induction false} AddTracks(name: Row -> Key, value: Row -> int, m: map<Key, Acc>, keys: seq<Key>,
    rows: seq<Row>, row: Row,
    k0: Key, m': map<Key, Acc>, keys': seq<Key>)
    requires Tracks(name, value, m, keys, rows) && k0 == name(row) && k0.Some?
    requires m' == m[k0 := Acc(Get(m, k0).count + 1, Get(m, k0).usd + value(row))]
    requires keys' == if k0 in keys then keys else keys + [k0]
    ensures Tracks(name, value, m', keys', rows + [row])
  {
    assert keys' == Filter(Named, FirstSeen(name, rows + [row])) by { BucketsStep(name, rows, row); }
    forall k | k in m' ensures AddsUp(name, value, rows + [row], k, m'[k]) {
      AddOne(name, value, m, keys, rows, row, k0, m', k);
    }
  }

  lemma {:induction false} AddOne(name: Row -> Key, value: Row -> int, m: map<Key, Acc>, keys: seq<Key>,
    rows: seq<Row>, row: Row, k0: Key, m': map<Key, Acc>, k: Key)
    requires Tracks(name, value, m, keys, rows) && k0 == name(row) && k0.Some? && k in m'
    requires m' == m[k0 := Acc(Get(m, k0).count + 1, Get(m, k0).usd + value(row))]
    ensures AddsUp(name, value, rows + [row], k, m'[k])
  {
    if k in m { KeysAreNamed(name, value, m, keys, rows, k); }
    AddAddsUp(name, value, m, keys, rows, row, k);
  }

  lemma {:induction false} TracksNothing(name: Row -> Key, value: Row -> int)
    ensures Tracks(name, value, map[], [], [])
  {
  }

  /** The loop; `keys` is the order in which the map lists its keys. */
  method Accumulate(rows: seq<Row>) returns (m: map<Key, Acc>, keys: seq<Key>)
    ensures Tracks(NameOf, Signed, m, keys, rows)
  {
    m, keys := map[], [];
    TracksNothing(NameOf, Signed);
    for i := 0 to |rows|
      invariant Tracks(NameOf, Signed, m, keys, rows[..i])
    {
      var e := rows[i];
      assert rows[..i + 1] == rows[..i] + [e];
      var mapped := AnalyticsBucket(e.kind);
      if mapped.None? {
        SkipTracks(NameOf, Signed, m, keys, rows[..i], e);
        continue;
      }
      var k := Some(mapped.value.name);
      var cur := Get(m, k);
      ghost var m0, keys0 := m, keys;
      if k !in keys { keys := keys + [k]; }
      m := m[k := Acc(cur.count + 1, cur.usd + mapped.value.sign * e.absUsd)];
      AddTracks(NameOf, Signed, m0, keys0, rows[..i], e, k, m, keys);
    }
    assert rows[..|rows|] == rows;
  }

  function Kept(r: ByType): bool { r.count > 0 && r.usd >= 0 }

  method AggregateByType(rows: seq<Row>) returns (out: seq<ByType>)
    ensures Descending(out) && multiset(out) == multiset(Lines(rows))
    ensures forall v :: Filter(Worth(v), out) == Filter(Worth(v), Lines(rows))
  {
    var m, keys := Accumulate(rows);
    var lines := seq(|keys|, i requires 0 <= i < |keys| =>
      var v, name := Get(m, keys[i]), (if keys[i].Some? then keys[i].value else "");
      ByType(name, v.count, if v.usd > 0 then v.usd else 0, name in INFLOW));
    forall i | 0 <= i < |keys| ensures lines[i] == LineOf(rows, keys[i]) {
      KeysAreNamed(NameOf, Signed, m, keys, rows, keys[i]);
      GetAddsUp(NameOf, Signed, m, keys, rows, keys[i]);
    }
    assert lines == Lines(rows);
    FilterKeepsAll(rows);
    out := SortDescending(Filter(Kept, lines));
    forall v ensures Filter(Worth(v), out) == Filter(Worth(v), lines) { SortIsStable(lines, v); }
    SortIsStable(lines, 0);
  }

  /** Every bucket has a row, so the final filter drops nothing. */
  lemma {:induction false} FilterKeepsAll(rows: seq<Row>)
    ensures Filter(Kept, Lines(rows)) == Lines(rows)
  {
    var ks := Buckets(rows);
    forall i | 0 <= i < |ks| ensures Kept(Lines(rows)[i]) {
      FilterMember(Named, FirstSeen(NameOf, rows), ks[i]);
      var x := SeenHasElement(NameOf, rows, ks[i]);
      CountPositive(rows, x);
    }
    FilterAll(Kept, Lines(rows));
  }

  lemma {:induction false} CountPositive(rows: seq<Row>, x: Row)
    ensures SumAt(NameOf, One, rows)(NameOf(x)) >= if x in rows then 1 else 0
  {
    if rows != [] {
      var n := |rows| - 1;
      CountPositive(rows[..n], x);
      assert rows == rows[..n] + [rows[n]];
      SumAtStep(NameOf, One, NameOf(x), rows[..n], rows[n]);
    }
  }

  function Count(l: ByType): int { l.count }

  lemma {:induction false} ShownIsAmong(rows: seq<Row>, ks: seq<Option<string>>, x: Row)
    requires ks == Buckets(rows) && x in rows
    ensures Among(NameOf, One, ks)(x) == Shown(x)
  {
    KeyIsSeen(NameOf, rows, x);
    FilterMember(Named, FirstSeen(NameOf, rows), NameOf(x));
  }

  /** The counts add up to the rows that are not adjustments. */
  lemma {:induction false} CountsAddUp(rows: seq<Row>, out: seq<ByType>)
    requires multiset(out) == multiset(Lines(rows))
    ensures Sum(Count, out) == Sum(Shown, rows)
  {
    var ks := Buckets(rows);
    FilterDistinct(Named, FirstSeen(NameOf, rows));
    SumPermuted(Count, out, Lines(rows));
    Column(Count, SumAt(NameOf, One, rows), Lines(rows), ks);
    GroupsAddUp(NameOf, One, ks, rows);
    forall x | x in rows ensures Among(NameOf, One, ks)(x) == Shown(x) { ShownIsAmong(rows, ks, x); }
    SumSame(Among(NameOf, One, ks), Shown, rows);
  }

  lemma {:induction false} BucketKept(rows: seq<Row>, rows': seq<Row>, k: Key)
    requires multiset(rows) == multiset(rows') && k in Buckets(rows)
    ensures k in Buckets(rows')
  {
    FilterMember(Named, FirstSeen(NameOf, rows), k);
    var x := SeenHasElement(NameOf, rows, k);
    assert x in multiset(rows');
    KeyIsSeen(NameOf, rows', x);
    FilterMember(Named, FirstSeen(NameOf, rows'), k);
  }

  lemma {:induction false} LineKept(rows: seq<Row>, rows': seq<Row>, k: Key)
    requires multiset(rows) == multiset(rows')
    ensures LineOf(rows, k) == LineOf(rows', k)
  {
    SumPermuted(Only(NameOf, One, k), rows, rows');
    SumPermuted(Only(NameOf, Signed, k), rows, rows');
  }

  /** No line depends on the order of the rows. */
  lemma {:induction false} OrderIsIrrelevant(rows: seq<Row>, rows': seq<Row>, l: ByType)
    requires multiset(rows) == multiset(rows') && l in Lines(rows)
    ensures l in Lines(rows')
  {
    var ks, ks' := Buckets(rows), Buckets(rows');
    var i :| 0 <= i < |ks| && l == LineOf(rows, ks[i]);
    BucketKept(rows, rows', ks[i]);
    LineKept(rows, rows', ks[i]);
    var j :| 0 <= j < |ks'| && ks'[j] == ks[i];
    assert Lines(rows')[j] == l;
  }

  // ---- The daily series ----

  function IsAnalyticsInflow(kind: string, positive: bool): bool
  {
    if kind in SKIP then false else if kind in INFLOW then true else if kind in OUTFLOW then false else positive
  }

  function IsAnalyticsOutflow(kind: string, positive: bool): bool
  {
    if kind in SKIP then false else if kind in OUTFLOW then true else if kind in INFLOW then false else !positive
  }

  /** The sign of the amount matters exactly for the types that flow either way. */
  lemma {:induction false} SignMattersIff(kind: string)
    ensures IsAnalyticsInflow(kind, true) == IsAnalyticsInflow(kind, false) <==>
              kind == "ADJUSTMENT" || AlwaysIn(kind) || AlwaysOut(kind)
    ensures AlwaysIn(kind) ==> IsAnalyticsInflow(kind, false)
    ensures AlwaysOut(kind) ==> IsAnalyticsOutflow(kind, true)
    ensures kind != "ADJUSTMENT" && !AlwaysIn(kind) && !AlwaysOut(kind) ==>
              IsAnalyticsInflow(kind, true) && IsAnalyticsOutflow(kind, false)
  {
  }

  predicate AlwaysIn(kind: string)
  {
    || kind == "DEPOSIT" || kind == "FAUCET" || kind == "TRANSFER_IN" || kind == "MERCHANT_DEPOSIT"
    || kind == "WITHDRAWAL_REVERSAL" || kind == "DEX_SWAP_REFUND" || kind == "STAKE_UNLOCK" || kind == "STAKE_REWARD"
    || kind == "SWAP_IN"
  }

  predicate AlwaysOut(kind: string)
  {
    || kind == "WITHDRAWAL" || kind == "WITHDRAWAL_FEE" || kind == "TRANSFER_OUT" || kind == "MERCHANT_CHECKOUT"
    || kind == "DEX_SWAP_OUT" || kind == "SWAP_OUT" || kind == "STAKE_LOCK"
  }

  /** `day` is the calendar day of the entry, `usd` the value of its absolute amount. */
  datatype Entry = Entry(kind: string, day: string, positive: bool, usd: int)

  datatype Flow = Flow(credit: int, debit: int)

  datatype Point = Point(day: string, flow: Flow)

  function DayOf(e: Entry): string { e.day }
  function Credit(e: Entry): int { if IsAnalyticsInflow(e.kind, e.positive) then e.usd else 0 }
  function Debit(e: Entry): int { if IsAnalyticsOutflow(e.kind, e.positive) then e.usd else 0 }
  function Net(e: Entry): int { Credit(e) - Debit(e) }
  function Same(d: string): string { d }
  function CreditOf(p: Point): int { p.flow.credit }
  function DebitOf(p: Point): int { p.flow.debit }
  function NetOf(p: Point): int { p.flow.credit - p.flow.debit }

  /** An entry that is not skipped flows in exactly one direction. */
  lemma {:induction false} OneDirection(kind: string, positive: bool)
    ensures kind !in SKIP ==> (IsAnalyticsInflow(kind, positive) <==> !IsAnalyticsOutflow(kind, positive))
    ensures kind in SKIP ==> !IsAnalyticsInflow(kind, positive) && !IsAnalyticsOutflow(kind, positive)
  {
    assert INFLOW !! OUTFLOW;
  }

  /** The series: one point for each day of the window, with the flows of the entries of that day. */
  ghost predicate Series(days: seq<string>, entries: seq<Entry>, out: seq<Point>)
  {
    var keys := FirstSeen(Same, days);
    |out| == |keys| && forall i :: 0 <= i < |out| ==>
      && out[i].day == keys[i]
      && out[i].flow.credit == SumAt(DayOf, Credit, entries)(keys[i])
      && out[i].flow.debit == SumAt(DayOf, Debit, entries)(keys[i])
  }

  function Zero(days: seq<string>): seq<Point>
  {
    var keys := FirstSeen(Same, days);
    seq(|keys|, i requires 0 <= i < |keys| => Point(keys[i], Flow(0, 0)))
  }

  /** The point of a day is where the day is among the distinct days. */
  function IndexOf(points: seq<Point>, day: string): (i: nat)
    ensures i <= |points| && (i < |points| ==> points[i].day == day)
    ensures forall j :: 0 <= j < i ==> points[j].day != day
  {
    if points == [] || points[0].day == day then 0 else 1 + IndexOf(points[1..], day)
  }

  lemma {:induction false} SeriesStep(days: seq<string>, entries: seq<Entry>, points: seq<Point>, e: Entry, i: nat,
    f: Flow)
    requires Series(days, entries, points) && i < |points| && points[i].day == e.day
    requires f == Flow(points[i].flow.credit + Credit(e), points[i].flow.debit + Debit(e))
    ensures Series(days, entries + [e], points[i := points[i].(flow := f)])
  {
    var keys := FirstSeen(Same, days);
    var points' := points[i := points[i].(flow := f)];
    forall j | 0 <= j < |keys|
      ensures points'[j].day == keys[j]
      ensures points'[j].flow.credit == SumAt(DayOf, Credit, entries + [e])(keys[j])
      ensures points'[j].flow.debit == SumAt(DayOf, Debit, entries + [e])(keys[j])
    {
      SumAtStep(DayOf, Credit, keys[j], entries, e);
      SumAtStep(DayOf, Debit, keys[j], entries, e);
    }
  }

  lemma {:induction false} OutsideWindow(days: seq<string>, entries: seq<Entry>, points: seq<Point>, e: Entry)
    requires Series(days, entries, points) && forall i :: 0 <= i < |points| ==> points[i].day != e.day
    ensures Series(days, entries + [e], points)
  {
    var keys := FirstSeen(Same, days);
    forall j | 0 <= j < |keys|
      ensures points[j].flow.credit == SumAt(DayOf, Credit, entries + [e])(keys[j])
      ensures points[j].flow.debit == SumAt(DayOf, Debit, entries + [e])(keys[j])
    {
      SumAtStep(DayOf, Credit, keys[j], entries, e);
      SumAtStep(DayOf, Debit, keys[j], entries, e);
    }
  }

  method AddFlow(f: Flow, e: Entry) returns (f': Flow)
    ensures f' == Flow(f.credit + Credit(e), f.debit + Debit(e))
  {
    OneDirection(e.kind, e.positive);
    if IsAnalyticsInflow(e.kind, e.positive) { f' := f.(credit := f.credit + e.usd); }
    else if IsAnalyticsOutflow(e.kind, e.positive) { f' := f.(debit := f.debit + e.usd); }
    else { f' := f; }
  }

  method DailySeries(days: seq<string>, entries: seq<Entry>) returns (out: seq<Point>)
    ensures Series(days, entries, out)
  {
    out := Zero(days);
    for n := 0 to |entries|
      invariant Series(days, entries[..n], out)
    {
      var e := entries[n];
      assert entries[..n + 1] == entries[..n] + [e];
      var i := IndexOf(out, e.day);
      if i == |out| {
        OutsideWindow(days, entries[..n], out, e);
        continue;
      }
      var f := AddFlow(out[i].flow, e);
      SeriesStep(days, entries[..n], out, e, i, f);
      out := out[i := out[i].(flow := f)];
    }
    assert entries[..|entries|] == entries;
  }

  /** The running balance of the window; its last point is what came in less what went out. */
  method Cumulative(series: seq<Point>) returns (ys: seq<int>)
    ensures |ys| == |series| && forall k :: 0 <= k < |ys| ==> ys[k] == Sum(NetOf, series[..k + 1])
    ensures series != [] ==> ys[|ys| - 1] == Sum(CreditOf, series) - Sum(DebitOf, series)
  {
    var acc := 0;
    ys := [];
    for k := 0 to |series|
      invariant |ys| == k && acc == Sum(NetOf, series[..k])
      invariant forall j :: 0 <= j < k ==> ys[j] == Sum(NetOf, series[..j + 1])
    {
      assert series[..k + 1] == series[..k] + [series[k]];
      SumSnoc(NetOf, series[..k], series[k]);
      acc := acc + (series[k].flow.credit - series[k].flow.debit);
      ys := ys + [acc];
    }
    assert series[..|series|] == series;
    SumPlus(NetOf, DebitOf, CreditOf, series);
  }

  lemma {:induction false} NetColumn(days: seq<string>, entries: seq<Entry>, out: seq<Point>, k: nat)
    requires Series(days, entries, out) && k <= |out|
    ensures forall i :: 0 <= i < k ==> NetOf(out[i]) == SumAt(DayOf, Net, entries)(FirstSeen(Same, days)[i])
  {
    var keys := FirstSeen(Same, days);
    forall i | 0 <= i < k ensures NetOf(out[i]) == SumAt(DayOf, Net, entries)(keys[i]) {
      NetAt(entries, keys[i]);
    }
  }

  lemma {:induction false} NetAt(entries: seq<Entry>, day: string)
    ensures SumAt(DayOf, Net, entries)(day) == SumAt(DayOf, Credit, entries)(day) - SumAt(DayOf, Debit, entries)(day)
  {
    var net, credit, debit := Only(DayOf, Net, day), Only(DayOf, Credit, day), Only(DayOf, Debit, day);
    forall i | 0 <= i < |entries| ensures credit(entries[i]) == net(entries[i]) + debit(entries[i]) {
      assert Net(entries[i]) == Credit(entries[i]) - Debit(entries[i]);
    }
    SumPlus(net, debit, credit, entries);
  }

  /** After k days the curve stands at the net value of exactly the entries of those days. */
  lemma {:induction false} CurveIsNet(days: seq<string>, entries: seq<Entry>, out: seq<Point>, k: nat)
    requires Series(days, entries, out) && k <= |out|
    ensures Sum(NetOf, out[..k]) == Sum(Among(DayOf, Net, FirstSeen(Same, days)[..k]), entries)
  {
    var keys := FirstSeen(Same, days)[..k];
    NetColumn(days, entries, out, k);
    Column(NetOf, SumAt(DayOf, Net, entries), out[..k], keys);
    GroupsAddUp(DayOf, Net, keys, entries);
  }

  /** The net flow shown is the net value of exactly the entries in the window, and with it the curve ends. */
  lemma {:induction false} NetFlow(days: seq<string>, entries: seq<Entry>, out: seq<Point>)
    requires Series(days, entries, out)
    ensures Sum(CreditOf, out) - Sum(DebitOf, out) == Sum(Among(DayOf, Net, FirstSeen(Same, days)), entries)
  {
    var n := |out|;
    CurveIsNet(days, entries, out, n);
    assert out[..n] == out && FirstSeen(Same, days)[..n] == FirstSeen(Same, days);
    SumPlus(NetOf, DebitOf, CreditOf, out);
  }
}
