/**
 Deposits over whole runs: what a lost output costs, and what remains of it in
 the service as it is wired, where nothing calls `reconcile_deposit`.
 */
module CustodyDeposits {
  import opened Sums
  import opened Wrappers
  import opened Custody
  import opened CustodyInvariant
  import opened CustodyRuns

  // ---- One reconciliation ----

  /** The output is gone, or fell below the threshold. */
  predicate Gone(env: Env, n: Option<int>)
  {
    n.None? || n.value < env.minConfirmations
  }

  /** A deposit that reconciliation takes back, in one way or the other. */
  ghost predicate TakesBack(env: Env, s: State, o: Outpoint, n: Option<int>)
  {
    Gone(env, n) && FindDeposit(s.deposits, o).Some? && s.deposits[RowId(s, o)].status == Credited
  }

  lemma {:induction false} RowPays(s: State, id: nat, w: Wallet)
    requires id < |s.deposits|
    ensures var row := s.deposits[id];
            var covered, back := Balance(s.ledger, row.wallet) >= row.amount, row.status == Credited;
            Balance(ReconciledRow(s, id).ledger, w)
            == Balance(s.ledger, w) - (if back && covered && w == row.wallet then row.amount else 0)
  {
    var row := s.deposits[id];
    SumSnoc(AmountFor(w), s.ledger, Entry(row.wallet, 0 - row.amount, DepositReversal, id));
  }

  lemma {:induction false} RowSettles(s: State, id: nat, w: Wallet)
    requires Books(s) && id < |s.deposits|
    ensures var s', row := ReconciledRow(s, id), s.deposits[id];
            var covered, back := Balance(s.ledger, row.wallet) >= row.amount, row.status == Credited;
            && Balance(s'.ledger, w) == Balance(s.ledger, w)
               - (if back && covered && w == row.wallet then row.amount else 0)
            && (w in s'.held <==> w in s.held || (back && !covered && w == row.wallet))
            && (back ==> s'.deposits[id].status == Orphaned && s'.deposits[id].reversed == covered)
  {
    RowPays(s, id, w);
    assert DepositBacked(s.ledger, s.deposits[id], id);
  }

  /**
   What `reconcile_deposit` does to the money.  A credited output that is gone
   costs its owner exactly its amount if the balance covers it, and puts the
   wallet on hold if not; nobody else pays.  In every other case no money moves
   and no wallet is held.
   */
  lemma {:induction false} ReconcileSettles(env: Env, s: State, o: Outpoint, n: Option<int>, w: Wallet)
    requires Books(s) && Keys(env, s)
    ensures var s' := ReconcileDeposit(env, s, o, n);
            var covered, back := Balance(s.ledger, env.owner(o)) >= env.value(o), TakesBack(env, s, o, n);
            var paid := if back && covered && w == env.owner(o) then env.value(o) else 0;
            && Balance(s'.ledger, w) == Balance(s.ledger, w) - paid
            && (w in s'.held <==> w in s.held || (back && !covered && w == env.owner(o)))
            && (back ==> var row := s'.deposits[RowId(s, o)]; row.status == Orphaned && row.reversed == covered)
  {
    ReconcileEffect(env, s, o, n);
    if FindDeposit(s.deposits, o).Some? && Gone(env, n) { RowSettles(s, RowId(s, o), w); }
  }

  lemma {:induction false} FindUpdated(ds: seq<DepositRow>, id: nat, row: DepositRow, o: Outpoint)
    requires id < |ds| && row.outpoint == ds[id].outpoint
    ensures FindDeposit(ds[id := row], o) == FindDeposit(ds, o)
    decreases |ds|
  {
    var n := |ds| - 1;
    if id < n {
      assert ds[id := row][..n] == ds[..n][id := row];
      FindUpdated(ds[..n], id, row, o);
    } else {
      assert ds[id := row][..n] == ds[..n];
    }
  }

  /** Reconciling again changes nothing: the loss is settled once. */
  lemma {:induction false} ReconcileOnce(env: Env, s: State, o: Outpoint, n: Option<int>, m: Option<int>)
    requires Books(s) && Keys(env, s) && Gone(env, n)
    ensures ReconcileDeposit(env, ReconcileDeposit(env, s, o, n), o, m) == ReconcileDeposit(env, s, o, n)
  {
    ReconcileEffect(env, s, o, n);
    if FindDeposit(s.deposits, o).Some? {
      var id := RowId(s, o);
      var row := s.deposits[id];
      FindUpdated(s.deposits, id, row.(status := Orphaned), o);
      FindUpdated(s.deposits, id, row.(status := Orphaned, reversed := true), o);
    }
  }

  // ---- Deposits persist ----

  /** Credited at some time, and no longer. */
  predicate Lost(d: DepositRow)
  {
    d.credited && d.status != Credited
  }

  /** The row is about the same output, and what was once written for it stays written. */
  predicate SameOutput(a: DepositRow, b: DepositRow)
  {
    b.outpoint == a.outpoint && b.wallet == a.wallet && b.amount == a.amount && (a.credited ==> b.credited)
  }

  ghost predicate Carried(s: State, s': State, id: nat)
  {
    id < |s.deposits| ==>
      && id < |s'.deposits| && SameOutput(s.deposits[id], s'.deposits[id])
      && (Lost(s.deposits[id]) ==> Lost(s'.deposits[id]))
  }

  lemma {:induction false} CreditPersists(env: Env, s: State, o: Outpoint, n: int, id: nat)
    requires Books(s) && Keys(env, s) && id < |s.deposits|
    ensures Carried(s, CreditDeposit(env, s, o, n), id)
  {
    CreditEffect(env, s, o, n);
  }

  lemma {:induction false} ReconcilePersists(env: Env, s: State, o: Outpoint, n: Option<int>, id: nat)
    requires Books(s) && Keys(env, s) && id < |s.deposits|
    ensures Carried(s, ReconcileDeposit(env, s, o, n), id)
  {
    ReconcileEffect(env, s, o, n);
  }

  lemma {:induction false} WithdrawalsLeaveDeposits(env: Env, s: State, e: Event)
    requires Enabled(s, e) && !e.DoCredit? && !e.DoReconcile?
    ensures Apply(env, s, e).deposits == s.deposits && Apply(env, s, e).held == s.held
  {
    match e
    case DoRequest(w, amount, addressOk, k) => RequestAddsRow(env, s, w, amount, addressOk, k);
    case _ => QuietStep(env, s, e);
  }

  lemma {:induction false} DepositPersists(env: Env, s: State, e: Event, id: nat)
    requires Inv(env, s) && Enabled(s, e) && id < |s.deposits|
    ensures Carried(s, Apply(env, s, e), id)
  {
    match e
    case DoCredit(o, n) => CreditPersists(env, s, o, n, id);
    case DoReconcile(o, n) => ReconcilePersists(env, s, o, n, id);
    case _ => WithdrawalsLeaveDeposits(env, s, e);
  }

  /** What is carried from each state to the next is carried altogether. */
  lemma {:induction false} CarriedOn(ss: seq<State>, m: nat, n: nat, id: nat)
    requires m <= n < |ss| && forall k :: m <= k < n ==> Carried(ss[k], ss[k + 1], id)
    ensures Carried(ss[m], ss[n], id)
  {
    if m < n { CarriedOn(ss, m, n - 1, id); }
  }

  lemma {:induction false} CarriedAt(env: Env, ss: seq<State>, es: seq<Event>, n: nat, id: nat)
    requires Run(env, ss, es) && n < |es|
    ensures Carried(ss[n], ss[n + 1], id)
  {
    RunKeeps(env, ss, es, n);
    if id < |ss[n].deposits| { DepositPersists(env, ss[n], es[n], id); }
  }

  lemma {:induction false} CarriedInRun(env: Env, ss: seq<State>, es: seq<Event>, m: nat, n: nat, id: nat)
    requires Run(env, ss, es) && m <= n < |ss|
    ensures Carried(ss[m], ss[n], id)
  {
    forall k: nat | m <= k < n ensures Carried(ss[k], ss[k + 1], id) { CarriedAt(env, ss, es, k, id); }
    CarriedOn(ss, m, n, id);
  }

  /** There is one entry of this kind for the row, and it is `e`. */
  ghost predicate OnlyEntry(l: seq<Entry>, at: nat, e: Entry)
  {
    at < |l| && l[at] == e
    && forall i :: 0 <= i < |l| && i != at ==> !(l[i].kind == e.kind && l[i].reference == e.reference)
  }

  /**
   An output that was credited and then lost stays lost, however well confirmed
   it returns: at every later time its first credit is still the only one.
   */
  lemma {:induction false} ReturnedDepositStaysUncredited(env: Env, ss: seq<State>, es: seq<Event>, m: nat, n: nat,
    id: nat)
    returns (at: nat)
    requires Run(env, ss, es) && m <= n < |ss| && id < |ss[m].deposits| && Lost(ss[m].deposits[id])
    ensures id < |ss[n].deposits| && Lost(ss[n].deposits[id]) && SameOutput(ss[m].deposits[id], ss[n].deposits[id])
    ensures var row := ss[m].deposits[id]; OnlyEntry(ss[n].ledger, at, Entry(row.wallet, row.amount, Deposit, id))
  {
    CarriedInRun(env, ss, es, m, n, id);
    RunKeeps(env, ss, es, n);
    var s := ss[n];
    var row := s.deposits[id];
    assert DepositBacked(s.ledger, row, id);
    at :| 0 <= at < |s.ledger|
          && s.ledger[at].wallet == row.wallet && s.ledger[at].kind == Deposit && s.ledger[at].reference == id;
    assert EntryOk(s, s.ledger[at]);
    forall i | 0 <= i < |s.ledger| && i != at ensures !(s.ledger[i].kind == Deposit && s.ledger[i].reference == id) {
      assert EntryOk(s, s.ledger[i]);
    }
  }

  // ---- What covers the payouts ----

  /** A loss that could not be taken back left its wallet on hold. */
  ghost predicate LossesAreHeld(s: State)
  {
    forall i :: 0 <= i < |s.deposits| && Lost(s.deposits[i]) && !s.deposits[i].reversed
      ==> s.deposits[i].wallet in s.held
  }

  lemma {:induction false} LossesCredit(env: Env, s: State, o: Outpoint, n: int)
    requires Books(s) && Keys(env, s) && LossesAreHeld(s)
    ensures LossesAreHeld(CreditDeposit(env, s, o, n))
  {
    CreditEffect(env, s, o, n);
  }

  lemma {:induction false} LossesReconcile(env: Env, s: State, o: Outpoint, n: Option<int>)
    requires Books(s) && Keys(env, s) && LossesAreHeld(s)
    ensures LossesAreHeld(ReconcileDeposit(env, s, o, n))
  {
    ReconcileEffect(env, s, o, n);
  }

  lemma {:induction false} LossesStep(env: Env, s: State, e: Event)
    requires Inv(env, s) && Enabled(s, e) && LossesAreHeld(s)
    ensures LossesAreHeld(Apply(env, s, e))
  {
    match e
    case DoCredit(o, n) => LossesCredit(env, s, o, n);
    case DoReconcile(o, n) => LossesReconcile(env, s, o, n);
    case _ => WithdrawalsLeaveDeposits(env, s, e);
  }

  lemma {:induction false} LossesInRun(env: Env, ss: seq<State>, es: seq<Event>, n: nat)
    requires Run(env, ss, es) && n < |ss|
    ensures LossesAreHeld(ss[n])
  {
    if n > 0 {
      LossesInRun(env, ss, es, n - 1);
      RunKeeps(env, ss, es, n - 1);
      LossesStep(env, ss[n - 1], es[n - 1]);
    }
  }

  /** The deposits of a wallet that stand. */
  function StandingFor(w: Wallet): DepositRow -> int
  {
    (d: DepositRow) => if d.wallet == w && d.status == Credited then d.amount else 0
  }

  /** The deposits of a wallet that are lost and were not taken back. */
  function OwedFor(w: Wallet): DepositRow -> int
  {
    (d: DepositRow) => if d.wallet == w && Lost(d) && !d.reversed then d.amount else 0
  }

  lemma {:induction false} NetIsStandingOrOwed(s: State, w: Wallet)
    requires Books(s)
    ensures Sum(NetFor(w), s.deposits) == Sum(StandingFor(w), s.deposits) + Sum(OwedFor(w), s.deposits)
  {
    forall i | 0 <= i < |s.deposits|
      ensures NetFor(w)(s.deposits[i]) == StandingFor(w)(s.deposits[i]) + OwedFor(w)(s.deposits[i])
    {
      assert DepositBacked(s.ledger, s.deposits[i], i);
    }
    SumPlus(StandingFor(w), OwedFor(w), NetFor(w), s.deposits);
  }

  lemma {:induction false} NothingOwed(s: State, w: Wallet, n: nat)
    requires LossesAreHeld(s) && w !in s.held && n <= |s.deposits|
    ensures Sum(OwedFor(w), s.deposits[..n]) == 0
  {
    if n > 0 {
      NothingOwed(s, w, n - 1);
      assert s.deposits[..n][..n - 1] == s.deposits[..n - 1];
    }
  }

  /**
   What left the hot wallet for a user, and what the user can still spend, is
   covered by deposits that stand.  Only a wallet on hold can be short, by its
   lost deposits that were not taken back and no more.
   */
  lemma {:induction false} PayoutsAreStanding(env: Env, ss: seq<State>, es: seq<Event>, n: nat, w: Wallet)
    requires Run(env, ss, es) && n < |ss|
    ensures Sum(PaidFor(w), ss[n].withdrawals) + Balance(ss[n].ledger, w)
         <= Sum(StandingFor(w), ss[n].deposits) + Sum(OwedFor(w), ss[n].deposits)
    ensures w !in ss[n].held ==> Sum(OwedFor(w), ss[n].deposits) == 0
  {
    var s := ss[n];
    RunKeeps(env, ss, es, n);
    LossesInRun(env, ss, es, n);
    PayoutsAreCovered(env, ss, es, n, w);
    NetIsStandingOrOwed(s, w);
    if w !in s.held {
      NothingOwed(s, w, |s.deposits|);
      assert s.deposits[..|s.deposits|] == s.deposits;
    }
  }

  // ---- The service as it is wired ----

  /** No event is a reconciliation: the deposit watcher only credits. */
  ghost predicate Watched(es: seq<Event>)
  {
    forall i :: 0 <= i < |es| ==> !es[i].DoReconcile?
  }

  /** Nothing is lost, taken back or held. */
  ghost predicate Calm(s: State)
  {
    s.held == {}
    && forall i :: 0 <= i < |s.deposits| ==>
         var d := s.deposits[i]; d.status != Orphaned && !d.reversed && (d.credited <==> d.status == Credited)
  }

  lemma {:induction false} CalmCredit(env: Env, s: State, o: Outpoint, n: int)
    requires Books(s) && Keys(env, s) && Calm(s)
    ensures Calm(CreditDeposit(env, s, o, n))
  {
    CreditEffect(env, s, o, n);
  }

  lemma {:induction false} CalmStep(env: Env, s: State, e: Event)
    requires Inv(env, s) && Enabled(s, e) && !e.DoReconcile? && Calm(s)
    ensures Calm(Apply(env, s, e))
  {
    match e
    case DoCredit(o, n) => CalmCredit(env, s, o, n);
    case _ => WithdrawalsLeaveDeposits(env, s, e);
  }

  /** The watched service never puts a wallet on hold and never marks a deposit as lost. */
  lemma {:induction false} WatchedIsCalm(env: Env, ss: seq<State>, es: seq<Event>, n: nat)
    requires Run(env, ss, es) && Watched(es) && n < |ss|
    ensures Calm(ss[n])
  {
    if n > 0 {
      WatchedIsCalm(env, ss, es, n - 1);
      RunKeeps(env, ss, es, n - 1);
      CalmStep(env, ss[n - 1], es[n - 1]);
    }
  }

  /** So every refund of a live withdrawal takes effect. */
  lemma {:induction false} WatchedRefunds(env: Env, ss: seq<State>, es: seq<Event>, n: nat, x: nat, status: Status)
    requires Run(env, ss, es) && Watched(es) && n < |ss| && x < |ss[n].withdrawals| && Live(ss[n].withdrawals[x].status)
    ensures var s, row := ss[n], ss[n].withdrawals[x];
            Refund(s, x, status)
            == SetStatus(s, x, status)
                 .(ledger := s.ledger + [Entry(row.wallet, row.amount + row.fee, WithdrawalReversal, x)])
  {
    WatchedIsCalm(env, ss, es, n);
    RunKeeps(env, ss, es, n);
    RefundEffect(ss[n], x, status);
  }

  lemma {:induction false} StandingStep(env: Env, s: State, e: Event, id: nat)
    requires Inv(env, s) && Enabled(s, e) && !e.DoReconcile? && id < |s.deposits| && s.deposits[id].status == Credited
    ensures id < |Apply(env, s, e).deposits| && Apply(env, s, e).deposits[id] == s.deposits[id]
  {
    match e
    case DoCredit(o, n) => CreditEffect(env, s, o, n);
    case _ => WithdrawalsLeaveDeposits(env, s, e);
  }

  lemma {:induction false} StandingStays(env: Env, ss: seq<State>, es: seq<Event>, m: nat, n: nat, id: nat)
    requires Run(env, ss, es) && Watched(es) && m <= n < |ss| && id < |ss[m].deposits|
             && ss[m].deposits[id].status == Credited
    ensures id < |ss[n].deposits| && ss[n].deposits[id] == ss[m].deposits[id]
  {
    if m < n {
      StandingStays(env, ss, es, m, n - 1, id);
      RunKeeps(env, ss, es, n - 1);
      StandingStep(env, ss[n - 1], es[n - 1], id);
    }
  }

  /** And a credit is for good: whatever becomes of the output on the chain, its entry stays and is never reversed. */
  lemma {:induction false} WatchedCreditIsForGood(env: Env, ss: seq<State>, es: seq<Event>, m: nat, n: nat, id: nat)
    requires Run(env, ss, es) && Watched(es) && m <= n < |ss| && id < |ss[m].deposits|
             && ss[m].deposits[id].status == Credited
    ensures id < |ss[n].deposits| && ss[n].deposits[id] == ss[m].deposits[id]
    ensures HasEntry(ss[n].ledger, ss[m].deposits[id].wallet, Deposit, id)
    ensures !HasEntry(ss[n].ledger, ss[m].deposits[id].wallet, DepositReversal, id)
  {
    StandingStays(env, ss, es, m, n, id);
    RunKeeps(env, ss, es, n);
    WatchedIsCalm(env, ss, es, n);
    DepositEntries(ss[n], id);
  }

  // ---- A deposit that returns ----

  lemma {:induction false} FirstCredit(env: Env, o: Outpoint, s0: State, row: DepositRow, e1: Entry)
    requires s0.ledger == [] && s0.held == {} && s0.deposits == []
    requires row == DepositRow(o, env.owner(o), env.value(o), Credited, true, false)
    requires e1 == Entry(row.wallet, row.amount, Deposit, 0)
    ensures CreditDeposit(env, s0, o, env.minConfirmations) == s0.(ledger := [e1], deposits := [row])
  {
    assert [] + [e1] == [e1];
  }

  lemma {:induction false} FirstReversal(env: Env, o: Outpoint, s1: State, row: DepositRow, e1: Entry, e2: Entry)
    requires row == DepositRow(o, env.owner(o), env.value(o), Credited, true, false)
    requires e1 == Entry(row.wallet, row.amount, Deposit, 0)
             && e2 == Entry(row.wallet, 0 - row.amount, DepositReversal, 0)
    requires s1 == State([e1], {}, [row], [], [], multiset{}, multiset{}) && Balance([e1], row.wallet) == row.amount
    ensures ReconcileDeposit(env, s1, o, None)
            == s1.(ledger := [e1, e2], deposits := [row.(status := Orphaned, reversed := true)])
  {
    assert [e1] + [e2] == [e1, e2];
    assert FindDeposit([row], o) == Some(0);
    assert !HasEntry([e1], row.wallet, DepositReversal, 0);
  }

  lemma {:induction false} SecondCredit(env: Env, o: Outpoint, s2: State, row: DepositRow, e1: Entry, e2: Entry)
    requires row == DepositRow(o, env.owner(o), env.value(o), Orphaned, true, true)
             && e1 == Entry(row.wallet, row.amount, Deposit, 0)
    requires s2 == State([e1, e2], {}, [row], [], [], multiset{}, multiset{})
    ensures CreditDeposit(env, s2, o, env.minConfirmations) == s2
  {
    assert FindDeposit([row], o) == Some(0);
    assert s2.ledger[0] == e1;
    assert HasEntry(s2.ledger, row.wallet, Deposit, 0);
  }

  lemma {:induction false} CreditedThenReversed(w: Wallet, e1: Entry, e2: Entry)
    requires e1.wallet == w && e2.wallet == w && e2.amount == 0 - e1.amount
    ensures Balance([e1], w) == e1.amount && Balance([e1, e2], w) == 0
  {
    assert [] + [e1] == [e1] && [e1] + [e2] == [e1, e2];
    SumSnoc(AmountFor(w), [], e1);
    SumSnoc(AmountFor(w), [e1], e2);
  }

  /** Such a run exists: credited, reorganised away and reversed, confirmed again, and still without the money. */
  lemma {:induction false} ReturnedDepositExample(env: Env, o: Outpoint) returns (ss: seq<State>, es: seq<Event>)
    requires env.value(o) > 0
    ensures Run(env, ss, es) && |es| == 3 && es[2] == DoCredit(o, env.minConfirmations)
    ensures Balance(ss[1].ledger, env.owner(o)) == env.value(o)
    ensures Balance(ss[3].ledger, env.owner(o)) == 0
  {
    var s0 := State([], {}, [], [], [], multiset{}, multiset{});
    var row := DepositRow(o, env.owner(o), env.value(o), Credited, true, false);
    var w, gone := row.wallet, row.(status := Orphaned, reversed := true);
    var e1, e2 := Entry(w, row.amount, Deposit, 0), Entry(w, 0 - row.amount, DepositReversal, 0);
    var s1, s2 := s0.(ledger := [e1], deposits := [row]), s0.(ledger := [e1, e2], deposits := [gone]);
    CreditedThenReversed(w, e1, e2);
    FirstCredit(env, o, s0, row, e1);
    FirstReversal(env, o, s1, row, e1, e2);
    SecondCredit(env, o, s2, gone, e1, e2);
    var credit, lost := DoCredit(o, env.minConfirmations), DoReconcile(o, None);
    PathSnoc(env, [s0], [], credit);
    PathSnoc(env, [s0, s1], [credit], lost);
    PathSnoc(env, [s0, s1, s2], [credit, lost], credit);
    es := [credit, lost, credit];
    ss := [s0, s1, s2, s2];
  }
}
