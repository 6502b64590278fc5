/**
 Treasury balances of `client/src/lib/admin.ts`: rows per address are summed per
 coin, listed in the order of the known coins, then by first appearance.
 */
module Treasury {
  import opened Wrappers
  import opened Sums
  import opened Grouping

  datatype Balance = Balance(coin: string, onchain: int, ledger: int, error: Option<string>)

  datatype CoinBalance = CoinBalance(coin: string, onchain: int, ledger: int, addressCount: nat, error: Option<string>)

  function CoinOf(r: Balance): string { r.coin }
  function OnchainOf(r: Balance): int { r.onchain }
  function LedgerOf(r: Balance): int { r.ledger }
  function OneOf(r: Balance): int { 1 }

  function Onchain(c: CoinBalance): int { c.onchain }
  function Ledger(c: CoinBalance): int { c.ledger }
  function Addresses(c: CoinBalance): int { c.addressCount }

  /** A message that counts: the empty one is as good as none. */
  predicate IsError(e: Option<string>)
  {
    e.Some? && e.value != ""
  }

  /** The first message among the rows of a coin. */
  function FirstError(rows: seq<Balance>, coin: string): Option<string>
  {
    if rows == [] then None
    else
      var n := |rows| - 1;
      var before := FirstError(rows[..n], coin);
      if before.Some? then before
      else if rows[n].coin == coin && IsError(rows[n].error) then rows[n].error else None
  }

  /** What the rows say of one coin. */
  ghost predicate Totals(rows: seq<Balance>, c: CoinBalance)
  {
    && c.onchain == SumAt(CoinOf, OnchainOf, rows)(c.coin)
    && c.ledger == SumAt(CoinOf, LedgerOf, rows)(c.coin)
    && c.addressCount == SumAt(CoinOf, OneOf, rows)(c.coin)
    && c.error == FirstError(rows, c.coin)
  }

  /** The coins in the order of the table. */
  function CoinOrder(coins: seq<string>, seen: seq<string>): seq<string>
  {
    Filter(c => c in seen, coins) + Filter(c => c !in coins, seen)
  }

  lemma {:induction false} CoinOrderOnce(coins: seq<string>, seen: seq<string>)
    requires Distinct(coins) && Distinct(seen)
    ensures Distinct(CoinOrder(coins, seen)) && forall c :: c in CoinOrder(coins, seen) <==> c in seen
  {
    var a, b := Filter(c => c in seen, coins), Filter(c => c !in coins, seen);
    FilterDistinct(c => c in seen, coins);
    FilterDistinct(c => c !in coins, seen);
    forall i, j | 0 <= i < |a| && 0 <= j < |b| ensures a[i] != b[j] {
      FilterMember(c => c in seen, coins, a[i]);
      FilterMember(c => c !in coins, seen, b[j]);
    }
    forall c ensures c in CoinOrder(coins, seen) <==> c in seen {
      FilterMember(c => c in seen, coins, c);
      FilterMember(c => c !in coins, seen, c);
    }
  }

  /** Known coins come first, in their own order; the others follow in the order in which they were seen. */
  lemma {:induction false} KnownCoinsFirst(coins: seq<string>, seen: seq<string>, i: nat, j: nat) returns (a: nat,
    b: nat)
    requires i < j < |CoinOrder(coins, seen)|
    ensures var order := CoinOrder(coins, seen);
            && (order[j] in coins ==> order[i] in coins)
            && (order[j] in coins ==> a < b < |coins| && coins[a] == order[i] && coins[b] == order[j])
            && (order[i] !in coins ==> a < b < |seen| && seen[a] == order[i] && seen[b] == order[j])
  {
    var known, extra := Filter(c => c in seen, coins), Filter(c => c !in coins, seen);
    var order := CoinOrder(coins, seen);
    FilterMember(c => c in seen, coins, order[i]);
    FilterMember(c => c in seen, coins, order[j]);
    FilterMember(c => c !in coins, seen, order[i]);
    FilterMember(c => c !in coins, seen, order[j]);
    a, b := 0, 0;
    if j < |known| {
      assert order[i] == known[i] && order[j] == known[j] && known[i] in known && known[j] in known;
      a, b := FilterOrdered(c => c in seen, coins, i, j);
    } else {
      assert order[j] == extra[j - |known|] && order[j] in extra;
      if i < |known| {
        assert order[i] == known[i] && known[i] in known;
      } else {
        assert order[i] == extra[i - |known|];
        a, b := FilterOrdered(c => c !in coins, seen, i - |known|, j - |known|);
      }
    }
  }

  /** The message shown for a coin is the first among its rows that is not empty. */
  lemma {:induction false} ErrorIsFirst(rows: seq<Balance>, coin: string) returns (i: nat)
    ensures FirstError(rows, coin).None? ==>
              i == |rows| && forall j :: 0 <= j < |rows| && rows[j].coin == coin ==> rows[j].error in {None, Some("")}
    ensures FirstError(rows, coin).Some? ==>
              && i < |rows| && rows[i].coin == coin && rows[i].error == FirstError(rows, coin) != Some("")
              && forall j :: 0 <= j < i && rows[j].coin == coin ==> rows[j].error in {None, Some("")}
  {
    if rows == [] {
      i := 0;
    } else {
      var n := |rows| - 1;
      i := ErrorIsFirst(rows[..n], coin);
      if i == n && FirstError(rows, coin).None? { i := |rows|; }
    }
  }

  function Add(c: CoinBalance, row: Balance): CoinBalance
  {
    CoinBalance(c.coin, c.onchain + row.onchain, c.ledger + row.ledger, c.addressCount + 1,
      if !IsError(c.error) && IsError(row.error) then row.error else c.error)
  }

  lemma {:induction false} TotalsStep(rows: seq<Balance>, row: Balance, c: CoinBalance)
    requires Totals(rows, c)
    ensures Totals(rows + [row], if c.coin == row.coin then Add(c, row) else c)
  {
    SumAtStep(CoinOf, OnchainOf, c.coin, rows, row);
    SumAtStep(CoinOf, LedgerOf, c.coin, rows, row);
    SumAtStep(CoinOf, OneOf, c.coin, rows, row);
    ErrorStep(rows, c.coin, row);
  }

  lemma {:induction false} ErrorStep(rows: seq<Balance>, coin: string, row: Balance)
    ensures var e := FirstError(rows, coin);
            FirstError(rows + [row], coin) == if coin == row.coin && !IsError(e) && IsError(row.error) then row.error
              else e
  {
    var all := rows + [row];
    assert all[..|rows|] == rows && all[|rows|] == row && |all| - 1 == |rows|;
    ErrorsCount(rows, coin);
  }

  lemma {:induction false} ErrorsCount(rows: seq<Balance>, coin: string)
    ensures FirstError(rows, coin).Some? ==> IsError(FirstError(rows, coin))
  {
    if rows != [] { ErrorsCount(rows[..|rows| - 1], coin); }
  }

  function Nothing(coin: string): CoinBalance { CoinBalance(coin, 0, 0, 0, None) }

  lemma {:induction false} NotSeen(rows: seq<Balance>, coin: string)
    requires coin !in FirstSeen(CoinOf, rows)
    ensures Totals(rows, Nothing(coin))
  {
    if rows != [] {
      var n := |rows| - 1;
      assert rows == rows[..n] + [rows[n]];
      FirstSeenStep(CoinOf, rows[..n], rows[n]);
      NotSeen(rows[..n], coin);
      TotalsStep(rows[..n], rows[n], Nothing(coin));
    }
  }

  function Get(m: map<string, CoinBalance>, coin: string): CoinBalance
  {
    if coin in m then m[coin] else Nothing(coin)
  }

  /** The map, and the order in which it lists its keys, after some rows. */
  ghost predicate Tracks(m: map<string, CoinBalance>, keys: seq<string>, rows: seq<Balance>)
  {
    && keys == FirstSeen(CoinOf, rows)
    && (forall k :: k in m <==> k in keys)
    && (forall k :: k in m ==> m[k].coin == k && Totals(rows, m[k]))
  }

  lemma {:induction false} GetTotals(m: map<string, CoinBalance>, keys: seq<string>, rows: seq<Balance>, coin: string)
    requires Tracks(m, keys, rows)
    ensures Get(m, coin).coin == coin && Totals(rows, Get(m, coin))
  {
    if coin !in m { NotSeen(rows, coin); }
  }

  lemma {:induction false} AddTracks(m: map<string, CoinBalance>, keys: seq<string>, rows: seq<Balance>, row: Balance)
    requires Tracks(m, keys, rows)
    ensures Tracks(m[row.coin := Add(Get(m, row.coin), row)], keys + (if row.coin in keys then [] else [row.coin]),
            rows + [row])
  {
    var m' := m[row.coin := Add(Get(m, row.coin), row)];
    FirstSeenStep(CoinOf, rows, row);
    forall k | k in m' ensures m'[k].coin == k && Totals(rows + [row], m'[k]) {
      GetTotals(m, keys, rows, k);
      TotalsStep(rows, row, Get(m, k));
    }
  }

  lemma {:induction false} ListedAggregates(m: map<string, CoinBalance>, keys: seq<string>, rows: seq<Balance>,
    coins: seq<string>, out: seq<CoinBalance>)
    requires Tracks(m, keys, rows)
    requires |out| == |CoinOrder(coins, keys)|
    requires forall i :: 0 <= i < |out| ==> out[i] == Get(m, CoinOrder(coins, keys)[i])
    ensures Aggregates(rows, coins, out)
  {
    var order := CoinOrder(coins, keys);
    forall i | 0 <= i < |out| ensures out[i].coin == order[i] && Totals(rows, out[i]) {
      GetTotals(m, keys, rows, order[i]);
    }
  }

  /** The loop; `keys` is the order in which the map lists its keys. */
  method Accumulate(rows: seq<Balance>) returns (totals: map<string, CoinBalance>, keys: seq<string>)
    ensures Tracks(totals, keys, rows)
  {
    totals, keys := map[], [];
    for i := 0 to |rows|
      invariant Tracks(totals, keys, rows[..i])
    {
      var row := rows[i];
      AddTracks(totals, keys, rows[..i], row);
      assert rows[..i + 1] == rows[..i] + [row];
      keys := keys + (if row.coin in keys then [] else [row.coin]);
      totals := totals[row.coin := Add(Get(totals, row.coin), row)];
    }
    assert rows[..|rows|] == rows;
  }

  /** `coins` are the known coins. */
  method AggregateTreasuryByCoin(rows: seq<Balance>, coins: seq<string>) returns (out: seq<CoinBalance>)
    ensures Aggregates(rows, coins, out)
  {
    var totals, keys := Accumulate(rows);
    var order := CoinOrder(coins, keys);
    out := seq(|order|, i requires 0 <= i < |order| => Get(totals, order[i]));
    ListedAggregates(totals, keys, rows, coins, out);
  }

  /** A table that lists every coin of the rows once, with what the rows say of it. */
  ghost predicate Aggregates(rows: seq<Balance>, coins: seq<string>, out: seq<CoinBalance>)
  {
    var order := CoinOrder(coins, FirstSeen(CoinOf, rows));
    |out| == |order| && forall i :: 0 <= i < |out| ==> out[i].coin == order[i] && Totals(rows, out[i])
  }

  /** Nothing is gained or lost: the columns add up to the rows. */
  lemma {:induction false} AggregationConserves(rows: seq<Balance>, coins: seq<string>, out: seq<CoinBalance>)
    requires Distinct(coins) && Aggregates(rows, coins, out)
    ensures Sum(Onchain, out) == Sum(OnchainOf, rows)
    ensures Sum(Ledger, out) == Sum(LedgerOf, rows)
    ensures Sum(Addresses, out) == |rows|
  {
    var seen := FirstSeen(CoinOf, rows);
    var order := CoinOrder(coins, seen);
    CoinOrderOnce(coins, seen);
    Column(Onchain, SumAt(CoinOf, OnchainOf, rows), out, order);
    Column(Ledger, SumAt(CoinOf, LedgerOf, rows), out, order);
    Column(Addresses, SumAt(CoinOf, OneOf, rows), out, order);
    forall x | x in rows ensures CoinOf(x) in order { KeyIsSeen(CoinOf, rows, x); }
    AllGroups(CoinOf, OnchainOf, order, rows);
    AllGroups(CoinOf, LedgerOf, order, rows);
    AllGroups(CoinOf, OneOf, order, rows);
    CountRows(rows);
  }

  lemma {:induction false} CountRows(rows: seq<Balance>)
    ensures Sum(OneOf, rows) == |rows|
  {
    if rows != [] { CountRows(rows[..|rows| - 1]); }
  }

  /** The order of the rows matters for no amount and no count. */
  lemma {:induction false} OrderIsIrrelevant(rows: seq<Balance>, rows': seq<Balance>, coins: seq<string>,
    out: seq<CoinBalance>, out': seq<CoinBalance>, c: CoinBalance)
    requires Distinct(coins) && Aggregates(rows, coins, out) && Aggregates(rows', coins, out')
             && multiset(rows) == multiset(rows')
    requires c in out
    ensures exists c' :: c' in out' && c'.coin == c.coin && c'.onchain == c.onchain
                         && c'.ledger == c.ledger && c'.addressCount == c.addressCount
  {
    var seen, seen' := FirstSeen(CoinOf, rows), FirstSeen(CoinOf, rows');
    CoinOrderOnce(coins, seen);
    CoinOrderOnce(coins, seen');
    var order' := CoinOrder(coins, seen');
    assert c.coin in CoinOrder(coins, seen);
    assert c.coin in order' by {
      var x := SeenHasElement(CoinOf, rows, c.coin);
      assert x in multiset(rows');
      KeyIsSeen(CoinOf, rows', x);
    }
    var j :| 0 <= j < |order'| && order'[j] == c.coin;
    SumPermuted(Only(CoinOf, OnchainOf, c.coin), rows, rows');
    SumPermuted(Only(CoinOf, LedgerOf, c.coin), rows, rows');
    SumPermuted(Only(CoinOf, OneOf, c.coin), rows, rows');
    assert out'[j] in out';
  }

  // ---- treasuryRowsWithBalance ----

  predicate HasBalance(c: CoinBalance)
  {
    c.onchain > 0 || c.ledger > 0
  }

  function TreasuryRowsWithBalance(rows: seq<CoinBalance>): seq<CoinBalance>
  {
    Filter(HasBalance, rows)
  }

  /** What a column has in the rows that are hidden. */
  function Hidden(col: CoinBalance -> int): CoinBalance -> int
  {
    (c: CoinBalance) => if HasBalance(c) then 0 else col(c)
  }

  lemma {:induction false} HidingAccount(col: CoinBalance -> int, rows: seq<CoinBalance>)
    ensures Sum(col, TreasuryRowsWithBalance(rows)) == Sum(col, rows) - Sum(Hidden(col), rows)
  {
    if rows != [] {
      var n := |rows| - 1;
      HidingAccount(col, rows[..n]);
      SumSnoc(col, TreasuryRowsWithBalance(rows[..n]), rows[n]);
    }
  }

  /** A sum of numbers that are not positive is zero only if they all are. */
  lemma {:induction false} NoneBelowZero(h: CoinBalance -> int, rows: seq<CoinBalance>)
    requires forall i :: 0 <= i < |rows| ==> h(rows[i]) <= 0
    ensures Sum(h, rows) <= 0
    ensures Sum(h, rows) == 0 <==> forall i :: 0 <= i < |rows| ==> h(rows[i]) >= 0
  {
    if rows != [] {
      var n := |rows| - 1;
      var init := rows[..n];
      NoneBelowZero(h, init);
      if forall i :: 0 <= i < |init| ==> h(init[i]) >= 0 {
        forall i | 0 <= i < n ensures h(rows[i]) >= 0 { assert init[i] == rows[i]; }
      } else {
        var i :| 0 <= i < |init| && h(init[i]) < 0;
        assert init[i] == rows[i];
      }
    }
  }

  lemma {:induction false} HidingKeeps(col: CoinBalance -> int, rows: seq<CoinBalance>)
    requires forall i :: 0 <= i < |rows| ==> Hidden(col)(rows[i]) <= 0
    ensures Sum(col, TreasuryRowsWithBalance(rows)) == Sum(col, rows)
       <==> forall i :: 0 <= i < |rows| ==> Hidden(col)(rows[i]) >= 0
  {
    HidingAccount(col, rows);
    NoneBelowZero(Hidden(col), rows);
  }

  /** Hiding rows keeps a total exactly if no hidden row is negative in it: all hidden rows are then zero. */
  lemma {:induction false} HidingKeepsTotals(rows: seq<CoinBalance>)
    ensures Sum(Onchain, TreasuryRowsWithBalance(rows)) == Sum(Onchain, rows)
       <==> forall i :: 0 <= i < |rows| && rows[i].ledger <= 0 ==> rows[i].onchain >= 0
    ensures Sum(Ledger, TreasuryRowsWithBalance(rows)) == Sum(Ledger, rows)
       <==> forall i :: 0 <= i < |rows| && rows[i].onchain <= 0 ==> rows[i].ledger >= 0
  {
    forall i | 0 <= i < |rows|
      ensures Hidden(Onchain)(rows[i]) == if HasBalance(rows[i]) then 0 else Onchain(rows[i])
      ensures Hidden(Ledger)(rows[i]) == if HasBalance(rows[i]) then 0 else Ledger(rows[i])
    {
    }
    HidingKeeps(Onchain, rows);
    HidingKeeps(Ledger, rows);
  }

  /** A coin with a negative balance on chain and none in the ledger is hidden, and its debt with it. */
  lemma {:induction false} NegativeRowExample(coin: string)
    ensures var rows := [CoinBalance(coin, -1, 0, 1, None)];
            Sum(Onchain, TreasuryRowsWithBalance(rows)) > Sum(Onchain, rows)
  {
    var row := CoinBalance(coin, -1, 0, 1, None);
    SumSnoc(Onchain, [], row);
    assert [] + [row] == [row];
    assert Filter(HasBalance, [row]) == [];
  }
}
