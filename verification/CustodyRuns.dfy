/** What the invariant means for whole runs of the custodial ledger, with any number of workers and crashes. */
module CustodyRuns {
  import opened Sums
  import opened Wrappers
  import opened Custody
  import opened CustodyInvariant

  // ---- Runs ----

  ghost predicate Initial(s: State)
  {
    s.ledger == [] && s.held == {} && s.deposits == [] && s.withdrawals == []
    && (forall k :: 0 <= k < |s.workers| ==> s.workers[k].Idle?) && s.promised == multiset{} && s.jobs == multiset{}
  }

  /** `ss[i]` is the state before event `es[i]`; the events come in any order from any number of workers. */
  ghost predicate Path(env: Env, ss: seq<State>, es: seq<Event>)
  {
    && |ss| == |es| + 1
    && forall i :: 0 <= i < |es| ==> Enabled(ss[i], es[i]) && ss[i + 1] == Apply(env, ss[i], es[i])
  }

  ghost predicate Run(env: Env, ss: seq<State>, es: seq<Event>)
  {
    Path(env, ss, es) && Initial(ss[0])
  }

  /** A run of one more event. */
  lemma {:induction false} PathSnoc(env: Env, ss: seq<State>, es: seq<Event>, e: Event)
    requires Path(env, ss, es) && Enabled(ss[|es|], e)
    ensures Path(env, ss + [Apply(env, ss[|es|], e)], es + [e])
  {
    var ss', es' := ss + [Apply(env, ss[|es|], e)], es + [e];
    forall i | 0 <= i < |es'| ensures Enabled(ss'[i], es'[i]) && ss'[i + 1] == Apply(env, ss'[i], es'[i]) {
      if i < |es| { assert ss'[i] == ss[i] && ss'[i + 1] == ss[i + 1] && es'[i] == es[i]; }
    }
  }

  lemma {:induction false} RunKeeps(env: Env, ss: seq<State>, es: seq<Event>, n: nat)
    requires Run(env, ss, es) && n < |ss|
    ensures Inv(env, ss[n])
  {
    if n > 0 {
      RunKeeps(env, ss, es, n - 1);
      StepKeeps(env, ss[n - 1], es[n - 1]);
    }
  }

  // ---- What holds over every run ----

  /** No wallet is ever overdrawn, and its balance is what was credited, less reversals and live withdrawals. */
  lemma {:induction false} BalanceIsAccountedFor(env: Env, ss: seq<State>, es: seq<Event>, n: nat, w: Wallet)
    requires Run(env, ss, es) && n < |ss|
    ensures Balance(ss[n].ledger, w) >= 0
    ensures Balance(ss[n].ledger, w) == Sum(NetFor(w), ss[n].deposits) - Sum(HeldFor(w), ss[n].withdrawals)
  {
    RunKeeps(env, ss, es, n);
    assert Balanced(ss[n], w);
  }

  /** The amount handed to the chain client: an amount that does not fit in 128 bits is read as zero. */
  function SentAmount(amount: nat): nat
  {
    if amount < 0x1_0000_0000_0000_0000_0000_0000_0000_0000 then amount else 0
  }

  function PaidFor(w: Wallet): WithdrawalRow -> int
  {
    (x: WithdrawalRow) => if x.wallet == w then x.sends * SentAmount(x.amount) else 0
  }

  /**
   Crashes and races create no money: what left the hot wallet for a user, and what the
   user can still spend, was credited.
   */
  lemma {:induction false} PayoutsAreCovered(env: Env, ss: seq<State>, es: seq<Event>, n: nat, w: Wallet)
    requires Run(env, ss, es) && n < |ss|
    ensures Sum(PaidFor(w), ss[n].withdrawals) + Balance(ss[n].ledger, w) <= Sum(NetFor(w), ss[n].deposits)
  {
    RunKeeps(env, ss, es, n);
    assert Balanced(ss[n], w);
    PaidIsHeld(ss[n], w);
  }

  lemma {:induction false} SentIsPaid(x: WithdrawalRow, w: Wallet)
    requires SendsOk(x)
    ensures PaidFor(w)(x) <= HeldFor(w)(x)
  {
    if x.sends == 0 { assert x.sends * SentAmount(x.amount) == 0; }
  }

  lemma {:induction false} PaidIsHeld(s: State, w: Wallet)
    requires Broadcasts(s)
    ensures Sum(PaidFor(w), s.withdrawals) <= Sum(HeldFor(w), s.withdrawals)
  {
    forall i | 0 <= i < |s.withdrawals| ensures PaidFor(w)(s.withdrawals[i]) <= HeldFor(w)(s.withdrawals[i]) {
      SentIsPaid(s.withdrawals[i], w);
    }
    SumLe(PaidFor(w), HeldFor(w), s.withdrawals);
  }

  lemma {:induction false} RowsPersist(env: Env, s: State, e: Event, x: nat)
    requires Enabled(s, e) && x < |s.withdrawals|
    ensures x < |Apply(env, s, e).withdrawals| && SameWithdrawal(s.withdrawals[x], Apply(env, s, e).withdrawals[x])
  {
    match e
    case DoRequest(w, amount, addressOk, k) => RequestAddsRow(env, s, w, amount, addressOk, k);
    case DoCredit(o, n) => CreditLeavesWithdrawals(env, s, o, n);
    case DoReconcile(o, n) => ReconcileLeavesWithdrawals(env, s, o, n);
    case _ => QuietStep(env, s, e);
  }

  ghost predicate Persists(s: State, s': State, x: nat)
  {
    x < |s.withdrawals| ==> x < |s'.withdrawals| && SameWithdrawal(s.withdrawals[x], s'.withdrawals[x])
  }

  /** What persists from each state to the next persists altogether. */
  lemma {:induction false} PersistsOn(ss: seq<State>, m: nat, n: nat, x: nat)
    requires m <= n < |ss| && forall k :: m <= k < n ==> Persists(ss[k], ss[k + 1], x)
    ensures Persists(ss[m], ss[n], x)
  {
    if m < n { PersistsOn(ss, m, n - 1, x); }
  }

  lemma {:induction false} RowsPersistInRun(env: Env, ss: seq<State>, es: seq<Event>, m: nat, n: nat, x: nat)
    requires Run(env, ss, es) && m <= n < |ss| && x < |ss[m].withdrawals|
    ensures x < |ss[n].withdrawals| && SameWithdrawal(ss[m].withdrawals[x], ss[n].withdrawals[x])
  {
    forall k: nat | m <= k < n ensures Persists(ss[k], ss[k + 1], x) { RowPersistsAt(env, ss, es, k, x); }
    PersistsOn(ss, m, n, x);
  }

  lemma {:induction false} RowPersistsAt(env: Env, ss: seq<State>, es: seq<Event>, n: nat, x: nat)
    requires Run(env, ss, es) && n < |es|
    ensures Persists(ss[n], ss[n + 1], x)
  {
    if x < |ss[n].withdrawals| { RowsPersist(env, ss[n], es[n], x); }
  }

  /** A withdrawal is sent at most once, and once sent it is never refunded, then or later. */
  lemma {:induction false} SentIsNeverRefunded(env: Env, ss: seq<State>, es: seq<Event>, m: nat, n: nat, x: nat)
    requires Run(env, ss, es) && m <= n < |ss| && x < |ss[m].withdrawals| && ss[m].withdrawals[x].sends > 0
    ensures x < |ss[n].withdrawals| && ss[n].withdrawals[x].sends == 1
    ensures forall w :: !HasEntry(ss[n].ledger, w, WithdrawalReversal, x)
  {
    RowsPersistInRun(env, ss, es, m, n, x);
    RunKeeps(env, ss, es, n);
    assert SendsOk(ss[n].withdrawals[x]);
    NoReversalYet(ss[n], x);
  }

  /** A failed or cancelled withdrawal was never sent and has exactly one refund, of its amount and fee together. */
  lemma {:induction false} RefundedExactlyOnce(env: Env, ss: seq<State>, es: seq<Event>, n: nat,
    x: nat) returns (at: nat)
    requires Run(env, ss, es) && n < |ss| && x < |ss[n].withdrawals| && !Live(ss[n].withdrawals[x].status)
    ensures ss[n].withdrawals[x].sends == 0
    ensures var row := ss[n].withdrawals[x];
            at < |ss[n].ledger| && ss[n].ledger[at] == Entry(row.wallet, row.amount + row.fee, WithdrawalReversal, x)
    ensures forall i :: 0 <= i < |ss[n].ledger| && i != at ==>
              !(ss[n].ledger[i].kind == WithdrawalReversal && ss[n].ledger[i].reference == x)
  {
    RunKeeps(env, ss, es, n);
    var s := ss[n];
    var row := s.withdrawals[x];
    assert SendsOk(row) && WithdrawalBacked(s.ledger, row, x);
    at :| 0 <= at < |s.ledger|
          && s.ledger[at].wallet == row.wallet && s.ledger[at].kind == WithdrawalReversal
             && s.ledger[at].reference == x;
    assert EntryOk(s, s.ledger[at]);
    forall i | 0 <= i < |s.ledger| && i != at
      ensures !(s.ledger[i].kind == WithdrawalReversal && s.ledger[i].reference == x)
    {
      assert EntryOk(s, s.ledger[i]);
    }
  }

  /** The transitions that the module documents. */
  predicate Documented(a: Status, b: Status)
  {
    match a
    case AwaitingApproval => b == Approved || b == Canceled
    case Queued => b == Broadcasting
    case Approved => b == Broadcasting
    case Broadcasting => b == Broadcasted || b == Failed
    case Broadcasted => b == Confirmed
    case _ => false
  }

  ghost predicate Moves(s: State, s': State, x: nat)
    requires x < |s.withdrawals|
  {
    && x < |s'.withdrawals|
    && var a, b := s.withdrawals[x].status, s'.withdrawals[x].status; a == b || Documented(a, b)
  }

  lemma {:induction false} AdvanceMoves(env: Env, s: State, k: nat, x: nat)
    requires Broadcasts(s) && Enabled(s, DoAdvance(k)) && x < |s.withdrawals|
    ensures Moves(s, Advance(env, s, k), x)
  {
    assert WorkerOk(s.withdrawals, s.workers[k]);
  }

  lemma {:induction false} BroadcastMoves(s: State, k: nat, sent: bool, reply: Reply, x: nat)
    requires Enabled(s, DoBroadcast(k, sent, reply)) && x < |s.withdrawals|
    ensures Moves(s, Broadcast(s, k, sent, reply), x)
  {
  }

  lemma {:induction false} DecisionMoves(s: State, y: nat, x: nat)
    requires x < |s.withdrawals|
    ensures Moves(s, ApproveAndPromise(s, y), x) && Moves(s, Reject(s, y), x)
  {
  }

  lemma {:induction false} ClaimMoves(s: State, k: nat, x: nat)
    requires Enabled(s, DoClaim(k)) && x < |s.withdrawals|
    ensures Moves(s, Claim(s, k), x)
  {
  }

  lemma {:induction false} StepMoves(env: Env, s: State, e: Event, x: nat)
    requires Broadcasts(s) && Enabled(s, e) && x < |s.withdrawals|
    ensures Moves(s, Apply(env, s, e), x)
  {
    match e
    case DoRequest(w, amount, addressOk, k) => RequestAddsRow(env, s, w, amount, addressOk, k);
    case DoCredit(o, n) => CreditLeavesWithdrawals(env, s, o, n);
    case DoReconcile(o, n) => ReconcileLeavesWithdrawals(env, s, o, n);
    case DoApprove(y) => DecisionMoves(s, y, x);
    case DoReject(y) => DecisionMoves(s, y, x);
    case DoClaim(k) => ClaimMoves(s, k, x);
    case DoBroadcast(k, sent, reply) => BroadcastMoves(s, k, sent, reply, x);
    case DoAdvance(k) => AdvanceMoves(env, s, k, x);
    case _ => QueueStep(env, s, e);
  }

  /** Although the worker's later updates do not check the status, no run leaves the documented state machine. */
  lemma {:induction false} OnlyDocumentedTransitions(env: Env, ss: seq<State>, es: seq<Event>, i: nat, x: nat)
    requires Run(env, ss, es) && i < |es| && x < |ss[i].withdrawals|
    ensures x < |ss[i + 1].withdrawals|
    ensures var a, b := ss[i].withdrawals[x].status, ss[i + 1].withdrawals[x].status; a == b || Documented(a, b)
  {
    RunKeeps(env, ss, es, i);
    StepMoves(env, ss[i], es[i], x);
  }

  lemma {:induction false} FindKeyIs(xs: seq<WithdrawalRow>, k: Key, x: nat)
    requires x < |xs| && xs[x].key == Some(k)
    requires forall i, j | 0 <= i < j < |xs| :: xs[i].key.Some? ==> xs[i].key != xs[j].key
    ensures FindKey(xs, Some(k)) == Some(x)
  {
  }

  /**
   A repeated key returns the withdrawal it first created and changes nothing, however
   late and whatever it asks for.
   */
  lemma {:induction false} RequestIsIdempotent(env: Env, ss: seq<State>, es: seq<Event>, m: nat, n: nat, x: nat,
    w: Wallet, amount: int)
    requires Run(env, ss, es) && m <= n < |ss| && x < |ss[m].withdrawals| && ss[m].withdrawals[x].key.Some?
    requires amount >= env.minWithdrawal
    ensures Request(env, ss[n], w, amount, true, ss[m].withdrawals[x].key) == (ss[n], Existing(x))
  {
    RowsPersistInRun(env, ss, es, m, n, x);
    RunKeeps(env, ss, es, n);
    FindKeyIs(ss[n].withdrawals, ss[m].withdrawals[x].key.value, x);
  }
}
