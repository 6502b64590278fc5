/**
 What every event of the custodial ledger keeps: keys are unique, a claimed
 withdrawal has one worker, every ledger entry is backed by its row and every
 row by its entries, and every balance is accounted for.
 */
module CustodyInvariant {
  import opened Sums
  import opened Wrappers
  import opened Custody

  // ---- The invariant ----

  predicate Live(status: Status) { status != Failed && status != Canceled }

  /** Every entry is backed by its row. */
  ghost predicate EntryOk(s: State, e: Entry)
  {
    match e.kind
    case Deposit =>
      e.reference < |s.deposits| &&
      var d := s.deposits[e.reference]; e.wallet == d.wallet && e.amount == d.amount && d.credited
    case DepositReversal =>
      e.reference < |s.deposits| &&
      var d := s.deposits[e.reference]; e.wallet == d.wallet && e.amount == -(d.amount as int) && d.reversed
    case Withdrawal =>
      e.reference < |s.withdrawals| &&
      var x := s.withdrawals[e.reference]; e.wallet == x.wallet && e.amount == -(x.amount as int)
    case WithdrawalFee =>
      e.reference < |s.withdrawals| &&
      var x := s.withdrawals[e.reference]; e.wallet == x.wallet && e.amount == -(x.fee as int)
    case WithdrawalReversal =>
      e.reference < |s.withdrawals| && var x := s.withdrawals[e.reference];
      e.wallet == x.wallet && e.amount == x.amount + x.fee && !Live(x.status)
  }

  ghost predicate Unique(l: seq<Entry>)
  {
    forall i, j | 0 <= i < j < |l| ::
      !(l[i].wallet == l[j].wallet && l[i].kind == l[j].kind && l[i].reference == l[j].reference)
  }

  /** And every row has its entries. */
  ghost predicate DepositBacked(l: seq<Entry>, d: DepositRow, id: nat)
  {
    && (d.credited ==> HasEntry(l, d.wallet, Deposit, id))
    && (d.reversed ==> HasEntry(l, d.wallet, DepositReversal, id))
    && (d.reversed ==> d.credited)
    && (d.status == Credited ==> d.credited && !d.reversed)
  }

  ghost predicate WithdrawalBacked(l: seq<Entry>, x: WithdrawalRow, id: nat)
  {
    && HasEntry(l, x.wallet, Withdrawal, id)
    && (x.fee > 0 ==> HasEntry(l, x.wallet, WithdrawalFee, id))
    && (!Live(x.status) ==> HasEntry(l, x.wallet, WithdrawalReversal, id))
  }

  ghost predicate Books(s: State)
  {
    && Unique(s.ledger)
    && (forall i :: 0 <= i < |s.ledger| ==> EntryOk(s, s.ledger[i]))
    && (forall i :: 0 <= i < |s.deposits| ==> DepositBacked(s.ledger, s.deposits[i], i))
    && (forall i :: 0 <= i < |s.withdrawals| ==> WithdrawalBacked(s.ledger, s.withdrawals[i], i))
  }

  /**
   A withdrawal was sent at most once, and then it is on its way or done: never
   refunded, never up for another claim.
   */
  ghost predicate SendsOk(x: WithdrawalRow)
  {
    && x.sends <= 1
    && (x.sends == 1 ==> x.status == Broadcasting || x.status == Broadcasted || x.status == Confirmed)
    && (x.status == Broadcasted || x.status == Confirmed ==> x.sends == 1)
  }

  ghost predicate WorkerOk(xs: seq<WithdrawalRow>, w: Worker)
  {
    match w
    case Idle => true
    case Taken(_, _) => true
    case Claimed(x, _) => x < |xs| && xs[x].status == Broadcasting && xs[x].sends == 0
    case Refused(x, _) => x < |xs| && xs[x].status == Broadcasting && xs[x].sends == 0
    case Delivered(x, _) => x < |xs| && xs[x].status == Broadcasting && xs[x].sends == 1
    case Persisted(x, _) => x < |xs| && (xs[x].status == Broadcasted || xs[x].status == Confirmed)
  }

  /** The claim makes a worker the only one that acts on its withdrawal until the outcome is stored. */
  ghost predicate Exclusive(ws: seq<Worker>)
  {
    forall j, k | 0 <= j < k < |ws| ::
      Acting(ws[j]) && !ws[j].Persisted? && Acting(ws[k]) && !ws[k].Persisted? ==> ws[j].id != ws[k].id
  }

  ghost predicate Broadcasts(s: State)
  {
    && (forall i :: 0 <= i < |s.withdrawals| ==> SendsOk(s.withdrawals[i]))
    && (forall k :: 0 <= k < |s.workers| ==> WorkerOk(s.withdrawals, s.workers[k]))
    && Exclusive(s.workers)
  }

  ghost predicate Keys(env: Env, s: State)
  {
    && (forall i, j | 0 <= i < j < |s.withdrawals| ::
          s.withdrawals[i].key.Some? ==> s.withdrawals[i].key != s.withdrawals[j].key)
    && (forall i, j | 0 <= i < j < |s.deposits| :: s.deposits[i].outpoint != s.deposits[j].outpoint)
    && (forall i :: 0 <= i < |s.deposits| ==>
          && s.deposits[i].wallet == env.owner(s.deposits[i].outpoint)
          && s.deposits[i].amount == env.value(s.deposits[i].outpoint))
  }

  // ---- What steps leave alone ----

  /** The row is about the same withdrawal. */
  predicate SameWithdrawal(a: WithdrawalRow, b: WithdrawalRow)
  {
    b.wallet == a.wallet && b.amount == a.amount && b.fee == a.fee && b.key == a.key && b.sends >= a.sends
  }

  /** No row comes or goes, and deposits and holds are as they were. */
  ghost predicate Quiet(s: State, s': State)
  {
    && s'.deposits == s.deposits && s'.held == s.held && |s'.withdrawals| == |s.withdrawals|
    && forall i :: 0 <= i < |s.withdrawals| ==> SameWithdrawal(s.withdrawals[i], s'.withdrawals[i])
  }

  /** Steps of the queue and of a worker that stops. */
  predicate IsQueueStep(e: Event)
  {
    e.DoList? || e.DoEnqueue? || e.DoForget? || e.DoTake? || e.DoError? || e.DoCrash?
  }

  /** Nothing changes but the queue and the workers. */
  ghost predicate QueueOnly(s: State, s': State)
  {
    s'.ledger == s.ledger && s'.held == s.held && s'.deposits == s.deposits && s'.withdrawals == s.withdrawals
  }

  lemma {:induction false} QueueStep(env: Env, s: State, e: Event)
    requires Enabled(s, e) && IsQueueStep(e)
    ensures QueueOnly(s, Apply(env, s, e))
  {
    match e
    case DoList(_) =>
    case DoEnqueue(_) =>
    case DoForget(_) =>
    case DoTake(_, _) =>
    case DoError(_) =>
    case DoCrash(_) =>
  }

  lemma {:induction false} RefundIsQuiet(s: State, x: nat, status: Status)
    requires x < |s.withdrawals|
    ensures Quiet(s, Refund(s, x, status))
  {
  }

  lemma {:induction false} DecisionIsQuiet(s: State, x: nat)
    ensures Quiet(s, ApproveAndPromise(s, x)) && Quiet(s, Reject(s, x))
  {
    if x < |s.withdrawals| { RefundIsQuiet(s, x, Canceled); }
  }

  lemma {:induction false} AdvanceIsQuiet(env: Env, s: State, k: nat)
    requires Enabled(s, DoAdvance(k))
    ensures Quiet(s, Advance(env, s, k))
  {
    RefundIsQuiet(s, s.workers[k].id, Failed);
  }

  lemma {:induction false} BroadcastIsQuiet(s: State, k: nat, sent: bool, reply: Reply)
    requires Enabled(s, DoBroadcast(k, sent, reply))
    ensures Quiet(s, Broadcast(s, k, sent, reply))
  {
  }

  lemma {:induction false} ClaimIsQuiet(s: State, k: nat)
    requires Enabled(s, DoClaim(k))
    ensures Quiet(s, Claim(s, k))
  {
  }

  lemma {:induction false} QuietStep(env: Env, s: State, e: Event)
    requires Enabled(s, e) && !e.DoRequest? && !e.DoCredit? && !e.DoReconcile?
    ensures Quiet(s, Apply(env, s, e))
  {
    match e
    case DoApprove(x) => DecisionIsQuiet(s, x);
    case DoReject(x) => DecisionIsQuiet(s, x);
    case DoAdvance(k) => AdvanceIsQuiet(env, s, k);
    case DoBroadcast(k, sent, reply) => BroadcastIsQuiet(s, k, sent, reply);
    case DoClaim(k) => ClaimIsQuiet(s, k);
    case _ => QueueStep(env, s, e);
  }

  /** A request adds at most one row, and touches nothing else of these. */
  lemma {:induction false} RequestAddsRow(env: Env, s: State, w: Wallet, amount: int, addressOk: bool, k: Option<Key>)
    ensures var s' := RequestAndPromise(env, s, w, amount, addressOk, k);
            s'.deposits == s.deposits && s'.held == s.held && s.withdrawals <= s'.withdrawals
  {
  }

  lemma {:induction false} CreditLeavesWithdrawals(env: Env, s: State, o: Outpoint, n: int)
    ensures CreditDeposit(env, s, o, n).withdrawals == s.withdrawals && CreditDeposit(env, s, o, n).held == s.held
  {
  }

  lemma {:induction false} ReconcileLeavesWithdrawals(env: Env, s: State, o: Outpoint, n: Option<int>)
    ensures ReconcileDeposit(env, s, o, n).withdrawals == s.withdrawals && s.held <= ReconcileDeposit(env, s, o, n).held
  {
  }

  // ---- Keys ----

  lemma {:induction false} RequestKeys(env: Env, s: State, w: Wallet, amount: int, addressOk: bool, k: Option<Key>)
    requires Keys(env, s)
    ensures Keys(env, Request(env, s, w, amount, addressOk, k).0)
  {
  }

  lemma {:induction false} CreditKeys(env: Env, s: State, o: Outpoint, n: int)
    requires Keys(env, s)
    ensures Keys(env, CreditDeposit(env, s, o, n))
  {
  }

  lemma {:induction false} ReconcileKeys(env: Env, s: State, o: Outpoint, n: Option<int>)
    requires Keys(env, s)
    ensures Keys(env, ReconcileDeposit(env, s, o, n))
  {
  }

  lemma {:induction false} QuietKeys(env: Env, s: State, s': State)
    requires Keys(env, s) && Quiet(s, s')
    ensures Keys(env, s')
  {
  }

  lemma {:induction false} KeysKept(env: Env, s: State, e: Event)
    requires Keys(env, s) && Enabled(s, e)
    ensures Keys(env, Apply(env, s, e))
  {
    match e
    case DoRequest(w, amount, addressOk, k) =>
      RequestKeys(env, s, w, amount, addressOk, k);
      QuietKeys(env, Request(env, s, w, amount, addressOk, k).0, Apply(env, s, e));
    case DoCredit(o, n) => CreditKeys(env, s, o, n);
    case DoReconcile(o, n) => ReconcileKeys(env, s, o, n);
    case _ =>
      QuietStep(env, s, e);
      QuietKeys(env, s, Apply(env, s, e));
  }

  // ---- Broadcasts ----

  lemma {:induction false} RequestBroadcasts(env: Env, s: State, w: Wallet, amount: int, addressOk: bool,
    k: Option<Key>)
    requires Broadcasts(s)
    ensures Broadcasts(Request(env, s, w, amount, addressOk, k).0)
  {
  }

  /** No worker is past the claim of the withdrawal. */
  ghost predicate Free(s: State, x: nat)
  {
    forall k :: 0 <= k < |s.workers| && Acting(s.workers[k]) ==> s.workers[k].id != x
  }

  function SetRow(s: State, x: nat, row: WithdrawalRow): State
    requires x < |s.withdrawals|
  {
    s.(withdrawals := s.withdrawals[x := row])
  }

  lemma {:induction false} RowBroadcasts(s: State, x: nat, row: WithdrawalRow)
    requires Broadcasts(s) && x < |s.withdrawals| && Free(s, x) && SendsOk(row)
    ensures Broadcasts(SetRow(s, x, row)) && Free(SetRow(s, x, row), x)
  {
  }

  lemma {:induction false} RefundBroadcasts(s: State, x: nat, status: Status)
    requires Broadcasts(s) && x < |s.withdrawals| && Free(s, x) && s.withdrawals[x].sends == 0
    requires status == Failed || status == Canceled
    ensures Broadcasts(Refund(s, x, status))
  {
    RowBroadcasts(s, x, s.withdrawals[x].(status := status));
  }

  lemma {:induction false} UnclaimedIsFree(s: State, x: nat)
    requires Broadcasts(s) && x < |s.withdrawals|
    requires s.withdrawals[x].status in {AwaitingApproval, Queued, Approved}
    ensures Free(s, x) && s.withdrawals[x].sends == 0
  {
  }

  lemma {:induction false} WorkerBroadcasts(s: State, k: nat)
    requires Broadcasts(s) && k < |s.workers|
    ensures Broadcasts(SetWorker(s, k, Idle))
    ensures Acting(s.workers[k]) && !s.workers[k].Persisted? ==> Free(SetWorker(s, k, Idle), s.workers[k].id)
  {
    assert WorkerOk(s.withdrawals, s.workers[k]);
  }

  lemma {:induction false} SetWorkerBroadcasts(s: State, k: nat, w: Worker)
    requires Broadcasts(s) && k < |s.workers| && !Acting(s.workers[k])
    requires WorkerOk(s.withdrawals, w) && (Acting(w) && !w.Persisted? ==> Free(s, w.id))
    ensures Broadcasts(SetWorker(s, k, w))
  {
  }

  lemma {:induction false} FinalizeBroadcasts(s: State, x: nat)
    requires Broadcasts(s)
    ensures Broadcasts(Finalize(s, x))
  {
  }

  lemma {:induction false} QueueBroadcasts(s: State, s': State)
    requires Broadcasts(s) && s'.withdrawals == s.withdrawals && s'.workers == s.workers
    ensures Broadcasts(s')
  {
  }

  lemma {:induction false} ClaimBroadcasts(s: State, k: nat)
    requires Broadcasts(s) && k < |s.workers| && s.workers[k].Taken?
    ensures Broadcasts(Claim(s, k))
  {
    var x := s.workers[k].id;
    if x < |s.withdrawals| && Eligible(s.withdrawals[x].status) {
      UnclaimedIsFree(s, x);
      var row := s.withdrawals[x].(status := Broadcasting);
      RowBroadcasts(s, x, row);
      SetWorkerBroadcasts(SetRow(s, x, row), k, Claimed(x, s.workers[k].tries));
    } else {
      FinalizeBroadcasts(s, x);
      SetWorkerBroadcasts(Finalize(s, x), k, Idle);
    }
  }

  lemma {:induction false} BroadcastBroadcasts(s: State, k: nat, sent: bool, reply: Reply)
    requires Broadcasts(s) && Enabled(s, DoBroadcast(k, sent, reply))
    ensures Broadcasts(Broadcast(s, k, sent, reply))
  {
    var x, tries := s.workers[k].id, s.workers[k].tries;
    assert WorkerOk(s.withdrawals, s.workers[k]);
    WorkerBroadcasts(s, k);
    var s0 := SetWorker(s, k, Idle);
    var row := s.withdrawals[x].(sends := if sent then 1 else 0);
    RowBroadcasts(s0, x, row);
    var w := match reply case Hash => Delivered(x, tries) case SafeFailure => Refused(x, tries) case _ => Idle;
    SetWorkerBroadcasts(SetRow(s0, x, row), k, w);
    assert s.workers[k := Idle][k := w] == s.workers[k := w];
    assert Broadcast(s, k, sent, reply) == SetWorker(SetRow(s0, x, row), k, w);
  }

  lemma {:induction false} FailBroadcasts(env: Env, s: State, k: nat)
    requires Broadcasts(s) && k < |s.workers| && !s.workers[k].Idle?
    ensures Broadcasts(Fail(env, s, k))
  {
    WorkerBroadcasts(s, k);
    QueueBroadcasts(SetWorker(s, k, Idle), Fail(env, s, k));
  }

  lemma {:induction false} DeliveredBroadcasts(env: Env, s: State, k: nat)
    requires Broadcasts(s) && Enabled(s, DoAdvance(k)) && s.workers[k].Delivered?
    ensures Broadcasts(Advance(env, s, k))
  {
    var x, tries := s.workers[k].id, s.workers[k].tries;
    assert WorkerOk(s.withdrawals, s.workers[k]);
    WorkerBroadcasts(s, k);
    var s0 := SetWorker(s, k, Idle);
    var row := s.withdrawals[x].(status := Broadcasted);
    RowBroadcasts(s0, x, row);
    SetWorkerBroadcasts(SetRow(s0, x, row), k, Persisted(x, tries));
    assert s.workers[k := Idle][k := Persisted(x, tries)] == s.workers[k := Persisted(x, tries)];
    assert Advance(env, s, k) == SetWorker(SetRow(s0, x, row), k, Persisted(x, tries));
  }

  lemma {:induction false} AdvanceBroadcasts(env: Env, s: State, k: nat)
    requires Broadcasts(s) && Enabled(s, DoAdvance(k))
    ensures Broadcasts(Advance(env, s, k))
  {
    var x := s.workers[k].id;
    assert WorkerOk(s.withdrawals, s.workers[k]);
    WorkerBroadcasts(s, k);
    var s0 := SetWorker(s, k, Idle);
    match s.workers[k]
    case Delivered(_, _) => DeliveredBroadcasts(env, s, k);
    case Persisted(_, _) =>
      FinalizeBroadcasts(s0, x);
      assert Advance(env, s, k) == Finalize(s0, x);
    case Refused(_, _) =>
      if TryRefund(s, x, Failed).None? {
        FailBroadcasts(env, s, k);
      } else {
        RefundBroadcasts(s0, x, Failed);
        assert Advance(env, s, k) == Refund(s0, x, Failed);
      }
    case Claimed(_, _) =>
  }

  lemma {:induction false} DecisionBroadcasts(s: State, x: nat)
    requires Broadcasts(s)
    ensures Broadcasts(ApproveAndPromise(s, x)) && Broadcasts(Reject(s, x))
  {
    if x < |s.withdrawals| && s.withdrawals[x].status == AwaitingApproval {
      UnclaimedIsFree(s, x);
      RowBroadcasts(s, x, s.withdrawals[x].(status := Approved));
      RefundBroadcasts(s, x, Canceled);
    }
  }

  lemma {:induction false} BroadcastsKept(env: Env, s: State, e: Event)
    requires Broadcasts(s) && Enabled(s, e)
    ensures Broadcasts(Apply(env, s, e))
  {
    match e
    case DoRequest(w, amount, addressOk, k) =>
      RequestBroadcasts(env, s, w, amount, addressOk, k);
      QueueBroadcasts(Request(env, s, w, amount, addressOk, k).0, Apply(env, s, e));
    case DoApprove(x) => DecisionBroadcasts(s, x);
    case DoReject(x) => DecisionBroadcasts(s, x);
    case DoTake(k, job) =>
      SetWorkerBroadcasts(s.(jobs := s.jobs - multiset{job}), k, Taken(job.id, job.tries + 1));
    case DoClaim(k) => ClaimBroadcasts(s, k);
    case DoBroadcast(k, sent, reply) => BroadcastBroadcasts(s, k, sent, reply);
    case DoAdvance(k) => AdvanceBroadcasts(env, s, k);
    case DoError(k) => FailBroadcasts(env, s, k);
    case DoCrash(k) => WorkerBroadcasts(s, k);
    case _ =>
  }

  // ---- Books ----

  predicate SameReference(e: Entry, w: Wallet, k: Kind, r: nat)
  {
    e.wallet == w && e.kind == k && e.reference == r
  }

  lemma {:induction false} HasEntryAppend(l: seq<Entry>, e: Entry, w: Wallet, k: Kind, r: nat)
    ensures HasEntry(l + [e], w, k, r) <==> HasEntry(l, w, k, r) || SameReference(e, w, k, r)
  {
    if HasEntry(l, w, k, r) {
      var i :| 0 <= i < |l| && l[i].wallet == w && l[i].kind == k && l[i].reference == r;
      assert (l + [e])[i] == l[i];
    }
    if SameReference(e, w, k, r) { assert (l + [e])[|l|] == e; }
  }

  lemma {:induction false} UniqueAppend(l: seq<Entry>, e: Entry)
    requires Unique(l) && !HasEntry(l, e.wallet, e.kind, e.reference)
    ensures Unique(l + [e])
  {
  }

  lemma {:induction false} NoReversalYet(s: State, x: nat)
    requires Books(s) && x < |s.withdrawals| && Live(s.withdrawals[x].status)
    ensures forall w :: !HasEntry(s.ledger, w, WithdrawalReversal, x)
  {
  }

  /** A refund of a live withdrawal takes effect exactly if its wallet is not on hold. */
  lemma {:induction false} RefundEffect(s: State, x: nat, status: Status)
    requires Books(s) && x < |s.withdrawals| && Live(s.withdrawals[x].status)
    ensures var row := s.withdrawals[x];
            Refund(s, x, status) ==
              if row.wallet in s.held then s
              else SetStatus(s, x, status)
                     .(ledger := s.ledger + [Entry(row.wallet, row.amount + row.fee, WithdrawalReversal, x)])
  {
    NoReversalYet(s, x);
  }

  ghost predicate Backed(l: seq<Entry>, ds: seq<DepositRow>, xs: seq<WithdrawalRow>)
  {
    && (forall i :: 0 <= i < |ds| ==> DepositBacked(l, ds[i], i))
    && (forall i :: 0 <= i < |xs| ==> WithdrawalBacked(l, xs[i], i))
  }

  /** Rows keep their backing when the ledger grows. */
  lemma {:induction false} StillBacked(l: seq<Entry>, ds: seq<DepositRow>, xs: seq<WithdrawalRow>, e: Entry)
    requires Backed(l, ds, xs)
    ensures Backed(l + [e], ds, xs)
  {
    forall i | 0 <= i < |ds| ensures DepositBacked(l + [e], ds[i], i) {
      HasEntryAppend(l, e, ds[i].wallet, Deposit, i);
      HasEntryAppend(l, e, ds[i].wallet, DepositReversal, i);
    }
    forall i | 0 <= i < |xs| ensures WithdrawalBacked(l + [e], xs[i], i) {
      HasEntryAppend(l, e, xs[i].wallet, Withdrawal, i);
      HasEntryAppend(l, e, xs[i].wallet, WithdrawalFee, i);
      HasEntryAppend(l, e, xs[i].wallet, WithdrawalReversal, i);
    }
  }

  lemma {:induction false} ReversalBooks(s: State, x: nat, status: Status, e: Entry)
    requires Books(s) && x < |s.withdrawals| && Live(s.withdrawals[x].status) && !Live(status)
    requires var row := s.withdrawals[x]; e == Entry(row.wallet, row.amount + row.fee, WithdrawalReversal, x)
    ensures Books(SetStatus(s, x, status).(ledger := s.ledger + [e]))
  {
    var s' := SetStatus(s, x, status).(ledger := s.ledger + [e]);
    NoReversalYet(s, x);
    UniqueAppend(s.ledger, e);
    StillBacked(s.ledger, s.deposits, s.withdrawals, e);
    HasEntryAppend(s.ledger, e, e.wallet, WithdrawalReversal, x);
    forall i | 0 <= i < |s'.ledger| ensures EntryOk(s', s'.ledger[i]) {
      if i < |s.ledger| { assert EntryOk(s, s.ledger[i]); }
    }
  }

  lemma {:induction false} RefundBooks(s: State, x: nat, status: Status)
    requires Books(s) && x < |s.withdrawals| && Live(s.withdrawals[x].status) && !Live(status)
    ensures Books(Refund(s, x, status))
  {
    var row := s.withdrawals[x];
    RefundEffect(s, x, status);
    ReversalBooks(s, x, status, Entry(row.wallet, row.amount + row.fee, WithdrawalReversal, x));
  }

  lemma {:induction false} NoEntryBeyond(s: State, w: Wallet, k: Kind)
    requires Books(s)
    ensures k == Deposit || k == DepositReversal ==> !HasEntry(s.ledger, w, k, |s.deposits|)
    ensures k != Deposit && k != DepositReversal ==> !HasEntry(s.ledger, w, k, |s.withdrawals|)
  {
    forall i | 0 <= i < |s.ledger| ensures EntryOk(s, s.ledger[i]) {}
  }

  function Debits(w: Wallet, amount: int, fee: nat, id: nat): seq<Entry>
  {
    if fee == 0 then [Entry(w, -amount, Withdrawal, id)]
    else [Entry(w, -amount, Withdrawal, id)] + [Entry(w, 0 - fee, WithdrawalFee, id)]
  }

  /** A request that succeeds adds one row and its debits; one that fails changes nothing. */
  lemma {:induction false} RequestEffect(env: Env, s: State, w: Wallet, amount: int, addressOk: bool, k: Option<Key>)
    requires Balance(s.ledger, w) >= 0
    ensures var (s', r) := Request(env, s, w, amount, addressOk, k);
            var id := |s.withdrawals|;
            if r.Created? then
              && amount >= env.minWithdrawal && r.id == id && w !in s.held && Balance(s.ledger, w) >= amount + env.fee
              && s' == s.(withdrawals := s.withdrawals + [WithdrawalRow(w, amount, env.fee,
                            if amount >= env.threshold then AwaitingApproval else Queued, k, 0)],
                          ledger := s.ledger + Debits(w, amount, env.fee, id))
            else s' == s
  {
    var (s', r) := Request(env, s, w, amount, addressOk, k);
    if r.Created? {
      var e1, e2 := Entry(w, -amount, Withdrawal, r.id), Entry(w, 0 - env.fee, WithdrawalFee, r.id);
      SumSnoc(AmountFor(w), s.ledger, e1);
      assert s.ledger + ([e1] + [e2]) == s.ledger + [e1] + [e2];
    }
  }

  /**
   A request for an amount in order succeeds exactly if its key is new, the wallet
   is the user's and not on hold, and the balance covers amount and fee.
   */
  lemma {:induction false} RequestSucceedsIff(env: Env, s: State, w: Wallet, amount: int, addressOk: bool,
    k: Option<Key>)
    requires Books(s) && Balance(s.ledger, w) >= 0
    ensures Request(env, s, w, amount, addressOk, k).1.Created?
       <==> addressOk && amount >= env.minWithdrawal && FindKey(s.withdrawals, k).None?
            && env.known(w) && w !in s.held && Balance(s.ledger, w) >= amount + env.fee
  {
    if amount >= env.minWithdrawal {
      var id := |s.withdrawals|;
      var e1 := Entry(w, -amount, Withdrawal, id);
      DebitsAreNew(s, w, e1);
      SumSnoc(AmountFor(w), s.ledger, e1);
    }
  }

  lemma {:induction false} DebitsAreNew(s: State, w: Wallet, e1: Entry)
    requires Books(s) && e1.wallet == w && e1.kind == Withdrawal && e1.reference == |s.withdrawals|
    ensures !HasEntry(s.ledger, w, Withdrawal, |s.withdrawals|)
    ensures !HasEntry(s.ledger + [e1], w, WithdrawalFee, |s.withdrawals|)
  {
    NoEntryBeyond(s, w, Withdrawal);
    NoEntryBeyond(s, w, WithdrawalFee);
    HasEntryAppend(s.ledger, e1, w, WithdrawalFee, |s.withdrawals|);
  }

  lemma {:induction false} NewRowEntries(s: State, s': State, more: seq<Entry>)
    requires Books(s) && s'.ledger == s.ledger + more && s.withdrawals <= s'.withdrawals && s.deposits == s'.deposits
    requires forall i :: 0 <= i < |more| ==> EntryOk(s', more[i])
    ensures forall i :: 0 <= i < |s'.ledger| ==> EntryOk(s', s'.ledger[i])
  {
    forall i | 0 <= i < |s'.ledger| ensures EntryOk(s', s'.ledger[i]) {
      if i < |s.ledger| { assert EntryOk(s, s.ledger[i]); }
    }
  }

  lemma {:induction false} RequestedLedger(s: State, row: WithdrawalRow, e1: Entry, e2: Entry, l: seq<Entry>)
    requires Books(s) && Live(row.status)
    requires e1 == Entry(row.wallet, 0 - row.amount, Withdrawal, |s.withdrawals|)
    requires e2 == Entry(row.wallet, 0 - row.fee, WithdrawalFee, |s.withdrawals|)
    requires l == if row.fee == 0 then s.ledger + [e1] else s.ledger + [e1] + [e2]
    ensures Unique(l) && WithdrawalBacked(l, row, |s.withdrawals|)
    ensures forall i :: 0 <= i < |s.deposits| ==> DepositBacked(l, s.deposits[i], i)
    ensures forall i :: 0 <= i < |s.withdrawals| ==> WithdrawalBacked(l, s.withdrawals[i], i)
  {
    var id, w := |s.withdrawals|, row.wallet;
    NoEntryBeyond(s, w, Withdrawal);
    NoEntryBeyond(s, w, WithdrawalFee);
    UniqueAppend(s.ledger, e1);
    StillBacked(s.ledger, s.deposits, s.withdrawals, e1);
    HasEntryAppend(s.ledger, e1, w, Withdrawal, id);
    HasEntryAppend(s.ledger, e1, w, WithdrawalFee, id);
    if row.fee != 0 {
      UniqueAppend(s.ledger + [e1], e2);
      StillBacked(s.ledger + [e1], s.deposits, s.withdrawals, e2);
      HasEntryAppend(s.ledger + [e1], e2, w, Withdrawal, id);
      HasEntryAppend(s.ledger + [e1], e2, w, WithdrawalFee, id);
    }
  }

  lemma {:induction false} RequestedBooks(s: State, row: WithdrawalRow, e1: Entry, e2: Entry, s': State)
    requires Books(s) && Live(row.status)
    requires e1 == Entry(row.wallet, 0 - row.amount, Withdrawal, |s.withdrawals|)
    requires e2 == Entry(row.wallet, 0 - row.fee, WithdrawalFee, |s.withdrawals|)
    requires s' == s.(withdrawals := s.withdrawals + [row],
                      ledger := if row.fee == 0 then s.ledger + [e1] else s.ledger + [e1] + [e2])
    ensures Books(s')
  {
    RequestedLedger(s, row, e1, e2, s'.ledger);
    var more := if row.fee == 0 then [e1] else [e1, e2];
    assert s'.ledger == s.ledger + more;
    assert EntryOk(s', e1) && EntryOk(s', e2);
    NewRowEntries(s, s', more);
  }

  lemma {:induction false} RequestBooks(env: Env, s: State, w: Wallet, amount: int, addressOk: bool, k: Option<Key>)
    requires Books(s) && Balance(s.ledger, w) >= 0
    ensures Books(Request(env, s, w, amount, addressOk, k).0)
  {
    RequestEffect(env, s, w, amount, addressOk, k);
    var (s', r) := Request(env, s, w, amount, addressOk, k);
    if r.Created? {
      var e1, e2 := Entry(w, -amount, Withdrawal, r.id), Entry(w, 0 - env.fee, WithdrawalFee, r.id);
      assert s'.ledger == if env.fee == 0 then s.ledger + [e1] else s.ledger + [e1] + [e2];
      RequestedBooks(s, s'.withdrawals[r.id], e1, e2, s');
    }
  }

  // ---- Deposit books ----

  function SetDeposit(s: State, id: nat, row: DepositRow): State
    requires id < |s.deposits|
  {
    s.(deposits := s.deposits[id := row])
  }

  /** The state in which the output has a row. */
  function WithRow(env: Env, s: State, o: Outpoint): (s': State)
    ensures FindDeposit(s.deposits, o).None? ==> |s'.deposits| == |s.deposits| + 1
  {
    if FindDeposit(s.deposits, o).Some? then s
    else s.(deposits := s.deposits + [DepositRow(o, env.owner(o), env.value(o), Pending, false, false)])
  }

  function RowId(s: State, o: Outpoint): nat
  {
    var found := FindDeposit(s.deposits, o);
    if found.Some? then found.value else |s.deposits|
  }

  lemma {:induction false} WithRowBooks(env: Env, s: State, o: Outpoint)
    requires Books(s) && Keys(env, s)
    ensures var s1 := WithRow(env, s, o);
            && Books(s1) && Keys(env, s1) && RowId(s, o) < |s1.deposits| && s1.ledger == s.ledger && s1.held == s.held
            && var row := s1.deposits[RowId(s, o)];
               row.outpoint == o && row.wallet == env.owner(o) && row.amount == env.value(o)
  {
    var s1 := WithRow(env, s, o);
    forall i | 0 <= i < |s.ledger| ensures EntryOk(s1, s.ledger[i]) { assert EntryOk(s, s.ledger[i]); }
  }

  /** The unique index refuses an entry exactly if the row has had one. */
  lemma {:induction false} DepositEntries(s: State, id: nat)
    requires Books(s) && id < |s.deposits|
    ensures HasEntry(s.ledger, s.deposits[id].wallet, Deposit, id) <==> s.deposits[id].credited
    ensures HasEntry(s.ledger, s.deposits[id].wallet, DepositReversal, id) <==> s.deposits[id].reversed
  {
    assert DepositBacked(s.ledger, s.deposits[id], id);
  }

  lemma {:induction false} NoEntryForNew(env: Env, s: State, o: Outpoint)
    requires Books(s) && Keys(env, s)
    ensures HasEntry(s.ledger, env.owner(o), Deposit, RowId(s, o))
       <==> FindDeposit(s.deposits, o).Some? && s.deposits[RowId(s, o)].credited
  {
    NoEntryBeyond(s, env.owner(o), Deposit);
    if FindDeposit(s.deposits, o).Some? { DepositEntries(s, RowId(s, o)); }
  }

  /**
   What `credit_deposit` does.  A confirmed output is credited exactly if its
   wallet is not on hold and it was never credited before: one that was credited,
   reorganised away and reversed stays uncredited when it comes back.
   */
  lemma {:induction false} CreditEffect(env: Env, s: State, o: Outpoint, n: int)
    requires Books(s) && Keys(env, s)
    ensures var s1, id := WithRow(env, s, o), RowId(s, o);
            id < |s1.deposits| && var row := s1.deposits[id];
            CreditDeposit(env, s, o, n) ==
              if row.status == Credited then s
              else if n < env.minConfirmations then SetDeposit(s1, id, row.(status := Pending))
              else if row.wallet in s.held || row.credited then s
              else SetDeposit(s1, id, row.(status := Credited, credited := true))
                     .(ledger := s.ledger + [Entry(row.wallet, row.amount, Deposit, id)])
  {
    WithRowBooks(env, s, o);
    NoEntryForNew(env, s, o);
  }

  lemma {:induction false} StatusBooks(s: State, id: nat, status: DepositStatus)
    requires Books(s) && id < |s.deposits| && status != Credited
    ensures Books(SetDeposit(s, id, s.deposits[id].(status := status)))
  {
    var s' := SetDeposit(s, id, s.deposits[id].(status := status));
    assert DepositBacked(s.ledger, s.deposits[id], id);
    forall i | 0 <= i < |s.ledger| ensures EntryOk(s', s.ledger[i]) { assert EntryOk(s, s.ledger[i]); }
  }

  lemma {:induction false} EntryBooks(s: State, id: nat, row: DepositRow, e: Entry)
    requires Books(s) && id < |s.deposits| && !HasEntry(s.ledger, e.wallet, e.kind, id) && e.reference == id
    requires var was := s.deposits[id];
             e.wallet == was.wallet == row.wallet && row.amount == was.amount
             && ((e.kind == Deposit && e.amount == row.amount && !was.credited
                  && row == was.(status := Credited, credited := true))
                 || (e.kind == DepositReversal && e.amount == 0 - row.amount && was.credited
                     && row == was.(status := Orphaned, reversed := true)))
    ensures Books(SetDeposit(s, id, row).(ledger := s.ledger + [e]))
  {
    var s' := SetDeposit(s, id, row).(ledger := s.ledger + [e]);
    UniqueAppend(s.ledger, e);
    StillBacked(s.ledger, s.deposits, s.withdrawals, e);
    HasEntryAppend(s.ledger, e, e.wallet, Deposit, id);
    HasEntryAppend(s.ledger, e, e.wallet, DepositReversal, id);
    assert DepositBacked(s.ledger, s.deposits[id], id);
    forall i | 0 <= i < |s'.ledger| ensures EntryOk(s', s'.ledger[i]) {
      if i < |s.ledger| { assert EntryOk(s, s.ledger[i]); }
    }
  }

  lemma {:induction false} CreditBooks(env: Env, s: State, o: Outpoint, n: int)
    requires Books(s) && Keys(env, s)
    ensures Books(CreditDeposit(env, s, o, n))
  {
    var s1, id := WithRow(env, s, o), RowId(s, o);
    CreditEffect(env, s, o, n);
    WithRowBooks(env, s, o);
    var row := s1.deposits[id];
    if row.status == Credited {
    } else if n < env.minConfirmations {
      StatusBooks(s1, id, Pending);
    } else if row.wallet !in s.held && !row.credited {
      DepositEntries(s1, id);
      EntryBooks(s1, id, row.(status := Credited, credited := true), Entry(row.wallet, row.amount, Deposit, id));
    }
  }

  /** It takes a credit back once, or puts the wallet on hold if the money is gone. */
  function Reconciled(env: Env, s: State, o: Outpoint, n: Option<int>): State
  {
    if (n.Some? && n.value >= env.minConfirmations) || FindDeposit(s.deposits, o).None? then s
    else ReconciledRow(s, RowId(s, o))
  }

  function ReconciledRow(s: State, id: nat): State
    requires id < |s.deposits|
  {
    var row := s.deposits[id];
    if row.status == Orphaned then s
    else if row.status != Credited then SetDeposit(s, id, row.(status := Orphaned))
    else if Balance(s.ledger, row.wallet) >= row.amount then
      SetDeposit(s, id, row.(status := Orphaned, reversed := true))
        .(ledger := s.ledger + [Entry(row.wallet, 0 - row.amount, DepositReversal, id)])
    else SetDeposit(s, id, row.(status := Orphaned)).(held := s.held + {row.wallet})
  }

  lemma {:induction false} ReconcileEffect(env: Env, s: State, o: Outpoint, n: Option<int>)
    requires Books(s) && Keys(env, s)
    ensures ReconcileDeposit(env, s, o, n) == Reconciled(env, s, o, n)
  {
    if FindDeposit(s.deposits, o).Some? {
      var id := RowId(s, o);
      DepositEntries(s, id);
      assert DepositBacked(s.ledger, s.deposits[id], id);
    }
  }

  lemma {:induction false} HeldBooks(s: State, held: set<Wallet>)
    requires Books(s)
    ensures Books(s.(held := held))
  {
    forall i | 0 <= i < |s.ledger| ensures EntryOk(s.(held := held), s.ledger[i]) { assert EntryOk(s, s.ledger[i]); }
  }

  lemma {:induction false} TakenBackBooks(s: State, id: nat, e: Entry, row: DepositRow, s': State)
    requires Books(s) && id < |s.deposits| && s.deposits[id].status == Credited
    requires row == s.deposits[id].(status := Orphaned, reversed := true)
    requires e == Entry(row.wallet, 0 - row.amount, DepositReversal, id)
    requires s' == SetDeposit(s, id, row).(ledger := s.ledger + [e])
    ensures Books(s')
  {
    DepositEntries(s, id);
    assert DepositBacked(s.ledger, s.deposits[id], id);
    EntryBooks(s, id, row, e);
  }

  lemma {:induction false} LostBooks(s: State, id: nat, row: DepositRow, held: set<Wallet>)
    requires Books(s) && id < |s.deposits| && row == s.deposits[id].(status := Orphaned)
    ensures Books(SetDeposit(s, id, row).(held := held))
  {
    StatusBooks(s, id, Orphaned);
    HeldBooks(SetDeposit(s, id, row), held);
  }

  lemma {:induction false} ReversedRowBooks(s: State, id: nat)
    requires Books(s) && id < |s.deposits|
    requires var row := s.deposits[id]; row.status == Credited && Balance(s.ledger, row.wallet) >= row.amount
    ensures Books(ReconciledRow(s, id))
  {
    var row := s.deposits[id];
    var e := Entry(row.wallet, 0 - row.amount, DepositReversal, id);
    TakenBackBooks(s, id, e, row.(status := Orphaned, reversed := true), ReconciledRow(s, id));
  }

  lemma {:induction false} HeldRowBooks(s: State, id: nat)
    requires Books(s) && id < |s.deposits|
    requires var row := s.deposits[id]; row.status == Credited && Balance(s.ledger, row.wallet) < row.amount
    ensures Books(ReconciledRow(s, id))
  {
    var row := s.deposits[id];
    LostBooks(s, id, row.(status := Orphaned), s.held + {row.wallet});
  }

  lemma {:induction false} PendingRowBooks(s: State, id: nat)
    requires Books(s) && id < |s.deposits| && s.deposits[id].status != Credited
    ensures Books(ReconciledRow(s, id))
  {
    StatusBooks(s, id, Orphaned);
  }

  lemma {:induction false} ReconciledBooks(s: State, id: nat)
    requires Books(s) && id < |s.deposits|
    ensures Books(ReconciledRow(s, id))
  {
    var row := s.deposits[id];
    if row.status != Credited { PendingRowBooks(s, id); }
    else if Balance(s.ledger, row.wallet) >= row.amount { ReversedRowBooks(s, id); }
    else { HeldRowBooks(s, id); }
  }

  lemma {:induction false} ReconcileBooks(env: Env, s: State, o: Outpoint, n: Option<int>, s': State)
    requires Books(s) && Keys(env, s) && s' == Reconciled(env, s, o, n)
    ensures Books(s')
  {
    if FindDeposit(s.deposits, o).Some? { ReconciledBooks(s, RowId(s, o)); }
  }

  // ---- Accounts ----

  function HeldFor(w: Wallet): WithdrawalRow -> int
  {
    (x: WithdrawalRow) => if x.wallet == w && Live(x.status) then x.amount + x.fee else 0
  }

  function NetFor(w: Wallet): DepositRow -> int
  {
    (d: DepositRow) => if d.wallet == w then (if d.credited then d.amount else 0) - (if d.reversed then d.amount else 0)
      else 0
  }

  /** The derived balance is what was credited and not reversed, less what live withdrawals hold or have sent. */
  ghost predicate Balanced(s: State, w: Wallet)
  {
    && Balance(s.ledger, w) == Sum(NetFor(w), s.deposits) - Sum(HeldFor(w), s.withdrawals)
    && Balance(s.ledger, w) >= 0
  }

  ghost predicate Inv(env: Env, s: State)
  {
    Keys(env, s) && Broadcasts(s) && Books(s) && forall w :: Balanced(s, w)
  }

  /** The steps that move no money: rows change only their progress, and stay live or refunded. */
  ghost predicate MoneySame(s: State, s': State)
  {
    && s'.ledger == s.ledger && s'.deposits == s.deposits && |s'.withdrawals| == |s.withdrawals|
    && forall i :: 0 <= i < |s.withdrawals| ==>
         var x, x' := s.withdrawals[i], s'.withdrawals[i];
         x'.wallet == x.wallet && x'.amount == x.amount && x'.fee == x.fee && Live(x'.status) == Live(x.status)
  }

  lemma {:induction false} MoneySameBooks(s: State, s': State)
    requires Books(s) && MoneySame(s, s')
    ensures Books(s')
  {
    forall i | 0 <= i < |s.ledger| ensures EntryOk(s', s.ledger[i]) { assert EntryOk(s, s.ledger[i]); }
    forall i | 0 <= i < |s.withdrawals| ensures WithdrawalBacked(s'.ledger, s'.withdrawals[i], i) {
      assert WithdrawalBacked(s.ledger, s.withdrawals[i], i);
    }
  }

  lemma {:induction false} MoneySameBalanced(s: State, s': State, w: Wallet)
    requires Balanced(s, w) && MoneySame(s, s')
    ensures Balanced(s', w)
  {
    SumAgree(HeldFor(w), s.withdrawals, s'.withdrawals);
  }

  /** The steps of approval, of the queue and of broadcasting, without the refund of a refused broadcast. */
  predicate IsProgress(s: State, e: Event)
    requires Enabled(s, e)
  {
    match e
    case DoAdvance(k) => !s.workers[k].Refused?
    case _ => !e.DoRequest? && !e.DoReject? && !e.DoCredit? && !e.DoReconcile?
  }

  lemma {:induction false} BroadcastMovesNoMoney(s: State, k: nat, sent: bool, reply: Reply)
    requires Enabled(s, DoBroadcast(k, sent, reply))
    ensures MoneySame(s, Broadcast(s, k, sent, reply))
  {
  }

  lemma {:induction false} AdvanceMovesNoMoney(env: Env, s: State, k: nat)
    requires Broadcasts(s) && Enabled(s, DoAdvance(k)) && !s.workers[k].Refused?
    ensures MoneySame(s, Advance(env, s, k))
  {
    assert WorkerOk(s.withdrawals, s.workers[k]);
  }

  lemma {:induction false} ClaimMovesNoMoney(s: State, k: nat)
    requires Enabled(s, DoClaim(k))
    ensures MoneySame(s, Claim(s, k))
  {
  }

  lemma {:induction false} ApproveMovesNoMoney(s: State, x: nat)
    ensures MoneySame(s, ApproveAndPromise(s, x))
  {
  }

  lemma {:induction false} ProgressMovesNoMoney(env: Env, s: State, e: Event)
    requires Broadcasts(s) && Enabled(s, e) && IsProgress(s, e)
    ensures MoneySame(s, Apply(env, s, e))
  {
    match e
    case DoBroadcast(k, sent, reply) => BroadcastMovesNoMoney(s, k, sent, reply);
    case DoAdvance(k) => AdvanceMovesNoMoney(env, s, k);
    case DoClaim(k) => ClaimMovesNoMoney(s, k);
    case DoApprove(x) => ApproveMovesNoMoney(s, x);
    case _ => QueueStep(env, s, e);
  }

  lemma {:induction false} RefundBalanced(s: State, x: nat, status: Status, w: Wallet)
    requires Books(s) && x < |s.withdrawals| && Live(s.withdrawals[x].status) && !Live(status) && Balanced(s, w)
    ensures Balanced(Refund(s, x, status), w)
  {
    var row := s.withdrawals[x];
    RefundEffect(s, x, status);
    SumUpdate(HeldFor(w), s.withdrawals, x, row.(status := status));
    SumSnoc(AmountFor(w), s.ledger, Entry(row.wallet, row.amount + row.fee, WithdrawalReversal, x));
  }

  lemma {:induction false} RequestedBalanced(s: State, row: WithdrawalRow, e1: Entry, e2: Entry, w: Wallet)
    requires Balanced(s, w) && Live(row.status) && Balance(s.ledger, row.wallet) >= row.amount + row.fee
    requires e1 == Entry(row.wallet, 0 - row.amount, Withdrawal, |s.withdrawals|)
    requires e2 == Entry(row.wallet, 0 - row.fee, WithdrawalFee, |s.withdrawals|)
    ensures Balanced(s.(withdrawals := s.withdrawals + [row],
                        ledger := if row.fee == 0 then s.ledger + [e1] else s.ledger + [e1] + [e2]), w)
  {
    SumSnoc(HeldFor(w), s.withdrawals, row);
    SumSnoc(AmountFor(w), s.ledger, e1);
    SumSnoc(AmountFor(w), s.ledger + [e1], e2);
  }

  lemma {:induction false} RequestBalanced(env: Env, s: State, v: Wallet, amount: int, addressOk: bool, k: Option<Key>,
    w: Wallet)
    requires Balanced(s, v) && Balanced(s, w)
    ensures Balanced(Request(env, s, v, amount, addressOk, k).0, w)
  {
    RequestEffect(env, s, v, amount, addressOk, k);
    var (s', r) := Request(env, s, v, amount, addressOk, k);
    if r.Created? { CreatedBalanced(env, s, s', v, amount, r.id, w); }
  }

  lemma {:induction false} CreatedBalanced(env: Env, s: State, s': State, v: Wallet, amount: nat, id: nat, w: Wallet)
    requires Balanced(s, w) && id == |s.withdrawals| && |s'.withdrawals| == id + 1
    requires var row := s'.withdrawals[id];
             row.wallet == v && row.amount == amount && row.fee == env.fee && Live(row.status)
             && Balance(s.ledger, v) >= amount + env.fee && s'.withdrawals == s.withdrawals + [row]
    requires s'.deposits == s.deposits
    requires s'.ledger == s.ledger + [Entry(v, 0 - amount, Withdrawal, id)]
                          + if env.fee == 0 then [] else [Entry(v, 0 - env.fee, WithdrawalFee, id)]
    ensures Balanced(s', w)
  {
    var row, e1, e2 := s'.withdrawals[id], Entry(v, 0 - amount, Withdrawal, id),
      Entry(v, 0 - env.fee, WithdrawalFee, id);
    RequestedBalanced(s, row, e1, e2, w);
    assert s.ledger + [e1] + [] == s.ledger + [e1];
  }

  lemma {:induction false} WithRowBalanced(env: Env, s: State, o: Outpoint, w: Wallet)
    requires Balanced(s, w)
    ensures Balanced(WithRow(env, s, o), w)
  {
    SumSnoc(NetFor(w), s.deposits, DepositRow(o, env.owner(o), env.value(o), Pending, false, false));
  }

  /** The outcomes of a credit for the row of the output. */
  lemma {:induction false} CreditedBalanced(s: State, id: nat, row: DepositRow, w: Wallet)
    requires Books(s) && Balanced(s, w) && id < |s.deposits| && row == s.deposits[id]
    ensures Balanced(SetDeposit(s, id, row.(status := Pending)), w)
    ensures !row.credited ==>
      Balanced(SetDeposit(s, id, row.(status := Credited, credited := true))
                 .(ledger := s.ledger + [Entry(row.wallet, row.amount, Deposit, id)]), w)
  {
    SumUpdate(NetFor(w), s.deposits, id, row.(status := Pending));
    SumUpdate(NetFor(w), s.deposits, id, row.(status := Credited, credited := true));
    SumSnoc(AmountFor(w), s.ledger, Entry(row.wallet, row.amount, Deposit, id));
    assert DepositBacked(s.ledger, row, id);
  }

  lemma {:induction false} CreditBalanced(env: Env, s: State, o: Outpoint, n: int, w: Wallet)
    requires Books(s) && Keys(env, s) && Balanced(s, w)
    ensures Balanced(CreditDeposit(env, s, o, n), w)
  {
    var s1, id := WithRow(env, s, o), RowId(s, o);
    CreditEffect(env, s, o, n);
    WithRowBooks(env, s, o);
    WithRowBalanced(env, s, o, w);
    CreditedBalanced(s1, id, s1.deposits[id], w);
  }

  lemma {:induction false} ReconciledBalanced(s: State, id: nat, w: Wallet)
    requires Books(s) && id < |s.deposits| && Balanced(s, w)
    ensures Balanced(ReconciledRow(s, id), w)
  {
    var row := s.deposits[id];
    SumUpdate(NetFor(w), s.deposits, id, row.(status := Orphaned));
    SumUpdate(NetFor(w), s.deposits, id, row.(status := Orphaned, reversed := true));
    SumSnoc(AmountFor(w), s.ledger, Entry(row.wallet, 0 - row.amount, DepositReversal, id));
    assert DepositBacked(s.ledger, row, id);
  }

  lemma {:induction false} ReconcileBalanced(env: Env, s: State, o: Outpoint, n: Option<int>, w: Wallet, s': State)
    requires Books(s) && Balanced(s, w) && s' == Reconciled(env, s, o, n)
    ensures Balanced(s', w)
  {
    if FindDeposit(s.deposits, o).Some? { ReconciledBalanced(s, RowId(s, o), w); }
  }

  // ---- Every step ----

  lemma {:induction false} RefundKeeps(s: State, x: nat, status: Status)
    requires Books(s) && (forall w :: Balanced(s, w)) && x < |s.withdrawals| && Live(s.withdrawals[x].status)
             && !Live(status)
    ensures Books(Refund(s, x, status)) && forall w :: Balanced(Refund(s, x, status), w)
  {
    RefundBooks(s, x, status);
    forall w ensures Balanced(Refund(s, x, status), w) { RefundBalanced(s, x, status, w); }
  }

  lemma {:induction false} AdvanceRefused(env: Env, s: State, k: nat)
    requires Inv(env, s) && Enabled(s, DoAdvance(k)) && s.workers[k].Refused?
    ensures Books(Advance(env, s, k)) && forall w :: Balanced(Advance(env, s, k), w)
  {
    var x := s.workers[k].id;
    assert WorkerOk(s.withdrawals, s.workers[k]);
    RefundKeeps(s, x, Failed);
    var s1, s' := Refund(s, x, Failed), Advance(env, s, k);
    MoneySameBooks(s1, s');
    forall w ensures Balanced(s', w) { MoneySameBalanced(s1, s', w); }
  }

  lemma {:induction false} RequestKeeps(env: Env, s: State, v: Wallet, amount: int, addressOk: bool, k: Option<Key>)
    requires Inv(env, s)
    ensures var s' := RequestAndPromise(env, s, v, amount, addressOk, k); Books(s') && forall w :: Balanced(s', w)
  {
    var s1, s' := Request(env, s, v, amount, addressOk, k).0, RequestAndPromise(env, s, v, amount, addressOk, k);
    assert Balanced(s, v);
    RequestBooks(env, s, v, amount, addressOk, k);
    MoneySameBooks(s1, s');
    forall w ensures Balanced(s', w) {
      RequestBalanced(env, s, v, amount, addressOk, k, w);
      MoneySameBalanced(s1, s', w);
    }
  }

  lemma {:induction false} ProgressKeeps(env: Env, s: State, e: Event)
    requires Inv(env, s) && Enabled(s, e) && IsProgress(s, e)
    ensures Books(Apply(env, s, e)) && forall w :: Balanced(Apply(env, s, e), w)
  {
    var s' := Apply(env, s, e);
    ProgressMovesNoMoney(env, s, e);
    MoneySameBooks(s, s');
    forall w ensures Balanced(s', w) { MoneySameBalanced(s, s', w); }
  }

  lemma {:induction false} MoneyKept(env: Env, s: State, e: Event)
    requires Inv(env, s) && Enabled(s, e)
    ensures Books(Apply(env, s, e)) && forall w :: Balanced(Apply(env, s, e), w)
  {
    var s' := Apply(env, s, e);
    match e
    case DoRequest(v, amount, addressOk, k) => RequestKeeps(env, s, v, amount, addressOk, k);
    case DoReject(x) =>
      if x < |s.withdrawals| && s.withdrawals[x].status == AwaitingApproval { RefundKeeps(s, x, Canceled); }
    case DoCredit(o, n) =>
      CreditBooks(env, s, o, n);
      forall w ensures Balanced(s', w) { CreditBalanced(env, s, o, n, w); }
    case DoReconcile(o, n) =>
      ReconcileEffect(env, s, o, n);
      ReconcileBooks(env, s, o, n, s');
      forall w ensures Balanced(s', w) { ReconcileBalanced(env, s, o, n, w, s'); }
    case DoAdvance(k) =>
      if s.workers[k].Refused? { AdvanceRefused(env, s, k); } else { ProgressKeeps(env, s, e); }
    case _ => ProgressKeeps(env, s, e);
  }

  lemma {:induction false} StepKeeps(env: Env, s: State, e: Event)
    requires Inv(env, s) && Enabled(s, e)
    ensures Inv(env, Apply(env, s, e))
  {
    KeysKept(env, s, e);
    BroadcastsKept(env, s, e);
    MoneyKept(env, s, e);
  }
}
