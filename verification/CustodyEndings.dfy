/**
 Which withdrawals can still come to an end.  Nobody resolves a withdrawal at
 BROADCASTING but the worker that claimed it, and a refund is refused while the
 wallet is on hold.  A withdrawal at BROADCASTED is finalised by that worker or
 by another job that names it, but no new job is made for it.
 */
module CustodyEndings {
  import opened Sums
  import opened Wrappers
  import opened Custody
  import opened CustodyInvariant
  import opened CustodyRuns
  import opened CustodyDeposits

  predicate Ended(status: Status)
  {
    status == Confirmed || status == Failed || status == Canceled
  }

  /** Some continuation brings the withdrawal to an end. */
  ghost predicate CanEnd(env: Env, s: State, x: nat)
  {
    exists ss, es :: EndsIn(env, ss, es, x) && ss[0] == s
  }

  ghost predicate EndsIn(env: Env, ss: seq<State>, es: seq<Event>, x: nat)
  {
    && Path(env, ss, es)
    && x < |ss[|es|].withdrawals| && Ended(ss[|es|].withdrawals[x].status)
  }

  /** A job names the withdrawal and has yet to look at it, or some process is about to add one. */
  ghost predicate Named(s: State, x: nat)
  {
    || x in s.promised
    || (exists job :: job in s.jobs && job.id == x)
    || (exists k :: 0 <= k < |s.workers| && s.workers[k].Taken? && s.workers[k].id == x)
  }

  /** Whoever still works on the withdrawal wants to refund it, to a wallet on hold. */
  ghost predicate StuckSending(s: State, x: nat)
  {
    && x < |s.withdrawals| && s.withdrawals[x].status == Broadcasting
    && forall k :: 0 <= k < |s.workers| && Acting(s.workers[k]) && s.workers[k].id == x ==>
         s.workers[k].Refused? && s.withdrawals[x].wallet in s.held
  }

  /** The money was sent, and nobody is left to note it. */
  ghost predicate StuckSent(s: State, x: nat)
  {
    x < |s.withdrawals| && s.withdrawals[x].status == Broadcasted && Free(s, x) && !Named(s, x)
  }

  ghost predicate Stuck(s: State, x: nat)
  {
    StuckSending(s, x) || StuckSent(s, x)
  }

  // ---- Stuck is for ever ----

  lemma {:induction false} RequestStuck(env: Env, s: State, w: Wallet, amount: int, addressOk: bool, k: Option<Key>,
    x: nat)
    requires Balance(s.ledger, w) >= 0 && Stuck(s, x)
    ensures Stuck(RequestAndPromise(env, s, w, amount, addressOk, k), x)
  {
    RequestEffect(env, s, w, amount, addressOk, k);
  }

  lemma {:induction false} DecisionStuck(s: State, y: nat, x: nat)
    requires Stuck(s, x)
    ensures Stuck(ApproveAndPromise(s, y), x) && Stuck(Reject(s, y), x)
  {
  }

  lemma {:induction false} ListStuck(s: State, y: nat, x: nat)
    requires Stuck(s, x)
    ensures Stuck(List(s, y), x)
  {
  }

  lemma {:induction false} PromiseStuck(s: State, y: nat, x: nat)
    requires Stuck(s, x) && y in s.promised
    ensures Stuck(Enqueue(s, y), x) && Stuck(Forget(s, y), x)
  {
  }

  lemma {:induction false} TakeStuck(s: State, k: nat, job: Job, x: nat)
    requires Stuck(s, x) && Enabled(s, DoTake(k, job))
    ensures Stuck(Take(s, k, job), x)
  {
  }

  lemma {:induction false} ClaimStuck(s: State, k: nat, x: nat)
    requires Stuck(s, x) && Enabled(s, DoClaim(k))
    ensures Stuck(Claim(s, k), x)
  {
  }

  lemma {:induction false} BroadcastStuck(s: State, k: nat, sent: bool, reply: Reply, x: nat)
    requires Stuck(s, x) && Enabled(s, DoBroadcast(k, sent, reply))
    ensures Stuck(Broadcast(s, k, sent, reply), x)
  {
  }

  lemma {:induction false} FailStuck(env: Env, s: State, k: nat, x: nat)
    requires Stuck(s, x) && Enabled(s, DoError(k))
    ensures Stuck(Fail(env, s, k), x)
  {
  }

  lemma {:induction false} CrashStuck(s: State, k: nat, x: nat)
    requires Stuck(s, x) && k < |s.workers|
    ensures Stuck(SetWorker(s, k, Idle), x)
  {
  }

  lemma {:induction false} AdvanceStuck(env: Env, s: State, k: nat, x: nat)
    requires Inv(env, s) && Enabled(s, DoAdvance(k)) && Stuck(s, x)
    ensures Stuck(Advance(env, s, k), x)
  {
    var y := s.workers[k].id;
    assert WorkerOk(s.withdrawals, s.workers[k]);
    RefundEffect(s, y, Failed);
    if s.workers[k].Refused? && TryRefund(s, y, Failed).None? { FailStuck(env, s, k, x); }
  }

  lemma {:induction false} DepositStuck(env: Env, s: State, o: Outpoint, n: int, m: Option<int>, x: nat)
    requires Stuck(s, x)
    ensures Stuck(CreditDeposit(env, s, o, n), x) && Stuck(ReconcileDeposit(env, s, o, m), x)
  {
    CreditLeavesWithdrawals(env, s, o, n);
    ReconcileLeavesWithdrawals(env, s, o, m);
  }

  lemma {:induction false} StuckStep(env: Env, s: State, e: Event, x: nat)
    requires Inv(env, s) && Enabled(s, e) && Stuck(s, x)
    ensures Stuck(Apply(env, s, e), x)
  {
    match e
    case DoRequest(w, amount, addressOk, key) =>
      assert Balanced(s, w);
      RequestStuck(env, s, w, amount, addressOk, key, x);
    case DoApprove(y) => DecisionStuck(s, y, x);
    case DoReject(y) => DecisionStuck(s, y, x);
    case DoList(y) => ListStuck(s, y, x);
    case DoEnqueue(y) => PromiseStuck(s, y, x);
    case DoForget(y) => PromiseStuck(s, y, x);
    case DoTake(k, job) => TakeStuck(s, k, job, x);
    case DoClaim(k) => ClaimStuck(s, k, x);
    case DoBroadcast(k, sent, reply) => BroadcastStuck(s, k, sent, reply, x);
    case DoAdvance(k) => AdvanceStuck(env, s, k, x);
    case DoError(k) => FailStuck(env, s, k, x);
    case DoCrash(k) => CrashStuck(s, k, x);
    case DoCredit(o, n) => DepositStuck(env, s, o, n, None, x);
    case DoReconcile(o, n) => DepositStuck(env, s, o, 0, n, x);
  }

  /** A withdrawal that is stuck stays so in every continuation. */
  lemma {:induction false} StuckStays(env: Env, ss: seq<State>, es: seq<Event>, n: nat, x: nat)
    requires Path(env, ss, es) && Inv(env, ss[0]) && Stuck(ss[0], x) && n < |ss|
    ensures Inv(env, ss[n]) && Stuck(ss[n], x)
  {
    if n > 0 {
      StuckStays(env, ss, es, n - 1, x);
      StepKeeps(env, ss[n - 1], es[n - 1]);
      StuckStep(env, ss[n - 1], es[n - 1], x);
    }
  }

  lemma {:induction false} StuckAt(env: Env, ss: seq<State>, es: seq<Event>, n: nat, x: nat)
    requires Run(env, ss, es) && n < |es|
    ensures Stuck(ss[n], x) ==> Stuck(ss[n + 1], x)
  {
    RunKeeps(env, ss, es, n);
    if Stuck(ss[n], x) { StuckStep(env, ss[n], es[n], x); }
  }

  lemma {:induction false} StuckOn(ss: seq<State>, m: nat, n: nat, x: nat)
    requires m <= n < |ss| && Stuck(ss[m], x) && forall k :: m <= k < n ==> Stuck(ss[k], x) ==> Stuck(ss[k + 1], x)
    ensures Stuck(ss[n], x)
  {
    if m < n { StuckOn(ss, m, n - 1, x); }
  }

  lemma {:induction false} StuckInRun(env: Env, ss: seq<State>, es: seq<Event>, m: nat, n: nat, x: nat)
    requires Run(env, ss, es) && m <= n < |ss| && Stuck(ss[m], x)
    ensures Stuck(ss[n], x)
  {
    forall k: nat | m <= k < n ensures Stuck(ss[k], x) ==> Stuck(ss[k + 1], x) { StuckAt(env, ss, es, k, x); }
    StuckOn(ss, m, n, x);
  }

  /** The worker died or got an unclear answer, and nobody else is past the claim. */
  ghost predicate Abandoned(s: State, x: nat)
  {
    x < |s.withdrawals| && s.withdrawals[x].status == Broadcasting && Free(s, x)
  }

  lemma {:induction false} AbandonedAdvance(env: Env, s: State, k: nat, x: nat)
    requires Enabled(s, DoAdvance(k)) && Abandoned(s, x)
    ensures Abandoned(Advance(env, s, k), x)
  {
  }

  lemma {:induction false} AbandonedClaim(s: State, k: nat, x: nat)
    requires Enabled(s, DoClaim(k)) && Abandoned(s, x)
    ensures Abandoned(Claim(s, k), x)
  {
  }

  lemma {:induction false} AbandonedBroadcast(s: State, k: nat, sent: bool, reply: Reply, x: nat)
    requires Enabled(s, DoBroadcast(k, sent, reply)) && Abandoned(s, x)
    ensures Abandoned(Broadcast(s, k, sent, reply), x)
  {
  }

  lemma {:induction false} AbandonedDecision(s: State, y: nat, x: nat)
    requires Abandoned(s, x)
    ensures Abandoned(ApproveAndPromise(s, y), x) && Abandoned(Reject(s, y), x)
  {
  }

  lemma {:induction false} AbandonedRequest(env: Env, s: State, w: Wallet, amount: int, addressOk: bool,
    k: Option<Key>, x: nat)
    requires Balance(s.ledger, w) >= 0 && Abandoned(s, x)
    ensures Abandoned(RequestAndPromise(env, s, w, amount, addressOk, k), x)
  {
    RequestEffect(env, s, w, amount, addressOk, k);
  }

  lemma {:induction false} AbandonedDeposit(env: Env, s: State, o: Outpoint, n: int, m: Option<int>, x: nat)
    requires Abandoned(s, x)
    ensures Abandoned(CreditDeposit(env, s, o, n), x) && Abandoned(ReconcileDeposit(env, s, o, m), x)
  {
    CreditLeavesWithdrawals(env, s, o, n);
    ReconcileLeavesWithdrawals(env, s, o, m);
  }

  lemma {:induction false} AbandonedQueue(env: Env, s: State, e: Event, x: nat)
    requires Enabled(s, e) && IsQueueStep(e) && Abandoned(s, x)
    ensures Abandoned(Apply(env, s, e), x)
  {
    QueueStep(env, s, e);
  }

  lemma {:induction false} AbandonedStep(env: Env, s: State, e: Event, x: nat)
    requires Inv(env, s) && Enabled(s, e) && Abandoned(s, x)
    ensures Abandoned(Apply(env, s, e), x)
  {
    match e
    case DoRequest(w, amount, addressOk, key) =>
      assert Balanced(s, w);
      AbandonedRequest(env, s, w, amount, addressOk, key, x);
    case DoApprove(y) => AbandonedDecision(s, y, x);
    case DoReject(y) => AbandonedDecision(s, y, x);
    case DoClaim(k) => AbandonedClaim(s, k, x);
    case DoBroadcast(k, sent, reply) => AbandonedBroadcast(s, k, sent, reply, x);
    case DoAdvance(k) => AbandonedAdvance(env, s, k, x);
    case DoCredit(o, n) => AbandonedDeposit(env, s, o, n, None, x);
    case DoReconcile(o, n) => AbandonedDeposit(env, s, o, 0, n, x);
    case _ => AbandonedQueue(env, s, e, x);
  }

  lemma {:induction false} AbandonedAt(env: Env, ss: seq<State>, es: seq<Event>, n: nat, x: nat)
    requires Run(env, ss, es) && n < |es|
    ensures Abandoned(ss[n], x) ==> Abandoned(ss[n + 1], x)
  {
    RunKeeps(env, ss, es, n);
    if Abandoned(ss[n], x) { AbandonedStep(env, ss[n], es[n], x); }
  }

  lemma {:induction false} AbandonedOn(ss: seq<State>, m: nat, n: nat, x: nat)
    requires m <= n < |ss| && Abandoned(ss[m], x)
    requires forall k :: m <= k < n ==> Abandoned(ss[k], x) ==> Abandoned(ss[k + 1], x)
    ensures Abandoned(ss[n], x)
  {
    if m < n { AbandonedOn(ss, m, n - 1, x); }
  }

  /** A withdrawal whose worker died or got an unclear answer keeps its hold for ever: only a person can resolve it. */
  lemma {:induction false} AbandonedStays(env: Env, ss: seq<State>, es: seq<Event>, m: nat, n: nat, x: nat)
    requires Run(env, ss, es) && m <= n < |ss| && Abandoned(ss[m], x)
    ensures Abandoned(ss[n], x)
  {
    forall k: nat | m <= k < n ensures Abandoned(ss[k], x) ==> Abandoned(ss[k + 1], x) {
      AbandonedAt(env, ss, es, k, x);
    }
    AbandonedOn(ss, m, n, x);
  }

  // ---- And nothing else is ----

  lemma {:induction false} EndedCanEnd(env: Env, s: State, x: nat)
    requires x < |s.withdrawals| && Ended(s.withdrawals[x].status)
    ensures CanEnd(env, s, x)
  {
    assert EndsIn(env, [s], [], x) && [s][0] == s;
  }

  lemma {:induction false} OneStepCloser(env: Env, s: State, e: Event, x: nat)
    requires Enabled(s, e) && CanEnd(env, Apply(env, s, e), x)
    ensures CanEnd(env, s, x)
  {
    var ss, es :| EndsIn(env, ss, es, x) && ss[0] == Apply(env, s, e);
    var ss', es' := [s] + ss, [e] + es;
    forall i | 0 <= i < |es'| ensures Enabled(ss'[i], es'[i]) && ss'[i + 1] == Apply(env, ss'[i], es'[i]) {
      if i > 0 { assert ss'[i] == ss[i - 1] && ss'[i + 1] == ss[i] && es'[i] == es[i - 1]; }
    }
    assert ss'[|es'|] == ss[|es|];
    assert EndsIn(env, ss', es', x) && ss'[0] == s;
  }

  lemma {:induction false} TakenCanEnd(env: Env, s: State, k: nat, x: nat)
    requires x < |s.withdrawals| && s.withdrawals[x].status == Broadcasted
    requires k < |s.workers| && s.workers[k].Taken? && s.workers[k].id == x
    ensures CanEnd(env, s, x)
  {
    EndedCanEnd(env, Apply(env, s, DoClaim(k)), x);
    OneStepCloser(env, s, DoClaim(k), x);
  }

  /** The first worker, made idle by a crash if need be, takes a job that names the withdrawal. */
  lemma {:induction false} JobIsTaken(env: Env, s: State, job: Job) returns (s1: State, s2: State)
    requires |s.workers| > 0 && job in s.jobs
    ensures s1 == Apply(env, s, DoCrash(0)) && Enabled(s1, DoTake(0, job)) && s2 == Apply(env, s1, DoTake(0, job))
    ensures s2.withdrawals == s.withdrawals && |s2.workers| > 0 && s2.workers[0] == Taken(job.id, job.tries + 1)
  {
    s1 := Apply(env, s, DoCrash(0));
    s2 := Apply(env, s1, DoTake(0, job));
  }

  lemma {:induction false} JobCanEnd(env: Env, s: State, job: Job, x: nat)
    requires |s.workers| > 0 && x < |s.withdrawals| && s.withdrawals[x].status == Broadcasted
    requires job in s.jobs && job.id == x
    ensures CanEnd(env, s, x)
  {
    var s1, s2 := JobIsTaken(env, s, job);
    TakenCanEnd(env, s2, 0, x);
    OneStepCloser(env, s1, DoTake(0, job), x);
    OneStepCloser(env, s, DoCrash(0), x);
  }

  lemma {:induction false} PromisedCanEnd(env: Env, s: State, x: nat)
    requires |s.workers| > 0 && x < |s.withdrawals| && s.withdrawals[x].status == Broadcasted && x in s.promised
    ensures CanEnd(env, s, x)
  {
    JobCanEnd(env, Apply(env, s, DoEnqueue(x)), Job(x, 0), x);
    OneStepCloser(env, s, DoEnqueue(x), x);
  }

  lemma {:induction false} PersistedCanEnd(env: Env, s: State, k: nat, x: nat)
    requires x < |s.withdrawals| && s.withdrawals[x].status == Broadcasted
    requires k < |s.workers| && s.workers[k].Persisted? && s.workers[k].id == x
    ensures CanEnd(env, s, x)
  {
    EndedCanEnd(env, Apply(env, s, DoAdvance(k)), x);
    OneStepCloser(env, s, DoAdvance(k), x);
  }

  lemma {:induction false} BroadcastedCanEnd(env: Env, s: State, x: nat)
    requires Inv(env, s) && |s.workers| > 0 && x < |s.withdrawals| && s.withdrawals[x].status == Broadcasted
    requires !StuckSent(s, x)
    ensures CanEnd(env, s, x)
  {
    if !Free(s, x) {
      var k :| 0 <= k < |s.workers| && Acting(s.workers[k]) && s.workers[k].id == x;
      assert WorkerOk(s.withdrawals, s.workers[k]);
      PersistedCanEnd(env, s, k, x);
    } else if x in s.promised {
      PromisedCanEnd(env, s, x);
    } else if exists job :: job in s.jobs && job.id == x {
      var job :| job in s.jobs && job.id == x;
      JobCanEnd(env, s, job, x);
    } else {
      var k :| 0 <= k < |s.workers| && s.workers[k].Taken? && s.workers[k].id == x;
      TakenCanEnd(env, s, k, x);
    }
  }

  lemma {:induction false} DeliveredCanEnd(env: Env, s: State, k: nat, x: nat)
    requires x < |s.withdrawals| && k < |s.workers| && s.workers[k].Delivered? && s.workers[k].id == x
    ensures CanEnd(env, s, x)
  {
    PersistedCanEnd(env, Apply(env, s, DoAdvance(k)), k, x);
    OneStepCloser(env, s, DoAdvance(k), x);
  }

  lemma {:induction false} ClaimedCanEnd(env: Env, s: State, k: nat, x: nat)
    requires x < |s.withdrawals| && k < |s.workers| && s.workers[k].Claimed? && s.workers[k].id == x
    ensures CanEnd(env, s, x)
  {
    var e := DoBroadcast(k, true, Hash);
    DeliveredCanEnd(env, Apply(env, s, e), k, x);
    OneStepCloser(env, s, e, x);
  }

  lemma {:induction false} RefusedCanEnd(env: Env, s: State, k: nat, x: nat)
    requires Inv(env, s) && x < |s.withdrawals| && k < |s.workers| && s.workers[k].Refused?
    requires s.workers[k].id == x
    requires s.withdrawals[x].wallet !in s.held
    ensures CanEnd(env, s, x)
  {
    assert WorkerOk(s.withdrawals, s.workers[k]);
    RefundEffect(s, x, Failed);
    EndedCanEnd(env, Apply(env, s, DoAdvance(k)), x);
    OneStepCloser(env, s, DoAdvance(k), x);
  }

  lemma {:induction false} QueuedJobCanEnd(env: Env, s: State, job: Job, x: nat)
    requires |s.workers| > 0 && x < |s.withdrawals| && Eligible(s.withdrawals[x].status) && job in s.jobs && job.id == x
    ensures CanEnd(env, s, x)
  {
    var s1, s2 := JobIsTaken(env, s, job);
    ClaimedCanEnd(env, Apply(env, s2, DoClaim(0)), 0, x);
    OneStepCloser(env, s2, DoClaim(0), x);
    OneStepCloser(env, s1, DoTake(0, job), x);
    OneStepCloser(env, s, DoCrash(0), x);
  }

  /** The requeue finds it, whatever became of its first job. */
  lemma {:induction false} UnclaimedCanEnd(env: Env, s: State, x: nat)
    requires |s.workers| > 0 && x < |s.withdrawals| && Eligible(s.withdrawals[x].status)
    ensures CanEnd(env, s, x)
  {
    var s1 := Apply(env, s, DoList(x));
    QueuedJobCanEnd(env, Apply(env, s1, DoEnqueue(x)), Job(x, 0), x);
    OneStepCloser(env, s1, DoEnqueue(x), x);
    OneStepCloser(env, s, DoList(x), x);
  }

  lemma {:induction false} AwaitingCanEnd(env: Env, s: State, x: nat)
    requires |s.workers| > 0 && x < |s.withdrawals| && s.withdrawals[x].status == AwaitingApproval
    ensures CanEnd(env, s, x)
  {
    UnclaimedCanEnd(env, Apply(env, s, DoApprove(x)), x);
    OneStepCloser(env, s, DoApprove(x), x);
  }

  lemma {:induction false} BroadcastingCanEnd(env: Env, s: State, x: nat)
    requires Inv(env, s) && x < |s.withdrawals| && s.withdrawals[x].status == Broadcasting && !StuckSending(s, x)
    ensures CanEnd(env, s, x)
  {
    var k :| 0 <= k < |s.workers| && Acting(s.workers[k]) && s.workers[k].id == x
             && !(s.workers[k].Refused? && s.withdrawals[x].wallet in s.held);
    assert WorkerOk(s.withdrawals, s.workers[k]);
    match s.workers[k]
    case Claimed(_, _) => ClaimedCanEnd(env, s, k, x);
    case Delivered(_, _) => DeliveredCanEnd(env, s, k, x);
    case Refused(_, _) => RefusedCanEnd(env, s, k, x);
  }

  lemma {:induction false} NotStuckCanEnd(env: Env, s: State, x: nat)
    requires Inv(env, s) && |s.workers| > 0 && x < |s.withdrawals| && !Stuck(s, x)
    ensures CanEnd(env, s, x)
  {
    match s.withdrawals[x].status
    case AwaitingApproval => AwaitingCanEnd(env, s, x);
    case Queued => UnclaimedCanEnd(env, s, x);
    case Approved => UnclaimedCanEnd(env, s, x);
    case Broadcasting => BroadcastingCanEnd(env, s, x);
    case Broadcasted => BroadcastedCanEnd(env, s, x);
    case _ => EndedCanEnd(env, s, x);
  }

  /**
   In every run a withdrawal can still be confirmed, failed or cancelled exactly
   if it is not stuck: at BROADCASTING, where every worker still on it holds a
   refund that its wallet's hold refuses; or at BROADCASTED, where no worker is on
   it and no job names it.
   */
  lemma {:induction false} CanEndIffNotStuck(env: Env, ss: seq<State>, es: seq<Event>, n: nat, x: nat)
    requires Run(env, ss, es) && n < |ss| && |ss[n].workers| > 0 && x < |ss[n].withdrawals|
    ensures CanEnd(env, ss[n], x) <==> !Stuck(ss[n], x)
  {
    RunKeeps(env, ss, es, n);
    if Stuck(ss[n], x) {
      forall ts, ds | EndsIn(env, ts, ds, x) && ts[0] == ss[n] ensures false {
        StuckStays(env, ts, ds, |ds|, x);
      }
    } else {
      NotStuckCanEnd(env, ss[n], x);
    }
  }

  // ---- Three runs that end stuck ----

  lemma {:induction false} DebitsCleared(w: Wallet, e: Entry, e1: Entry, e2: Entry)
    requires e.wallet == e1.wallet == e2.wallet == w && e.amount + e1.amount + e2.amount == 0
    ensures Balance([e], w) == e.amount && Balance([e] + [e1], w) == e.amount + e1.amount
    ensures Balance([e] + [e1] + [e2], w) == 0
  {
    assert [] + [e] == [e];
    SumSnoc(AmountFor(w), [], e);
    SumSnoc(AmountFor(w), [e], e1);
    SumSnoc(AmountFor(w), [e] + [e1], e2);
  }

  lemma {:induction false} FirstRequest(env: Env, s: State, w: Wallet, e: Entry)
    requires s.ledger == [e] && s.held == {} && s.withdrawals == [] && env.known(w) && env.minWithdrawal < env.threshold
    requires e.wallet == w && e.kind == Deposit && e.amount == env.minWithdrawal + env.fee
    ensures Request(env, s, w, env.minWithdrawal, true, None).0
         == s.(withdrawals := [WithdrawalRow(w, env.minWithdrawal, env.fee, Queued, None, 0)],
               ledger := [e] + Debits(w, env.minWithdrawal, env.fee, 0))
    ensures Balance([e] + Debits(w, env.minWithdrawal, env.fee, 0), w) == 0
  {
    var e1, e2 := Entry(w, 0 - env.minWithdrawal, Withdrawal, 0), Entry(w, 0 - env.fee, WithdrawalFee, 0);
    DebitsCleared(w, e, e1, e2);
    assert [e] + ([e1] + [e2]) == [e] + [e1] + [e2];
    assert !HasEntry([e], w, Withdrawal, 0) && !HasEntry([e] + [e1], w, WithdrawalFee, 0);
  }

  /** The withdrawal that these runs claim: all of a first deposit, one worker, nothing else. */
  ghost predicate ClaimedAll(env: Env, s: State, o: Outpoint)
  {
    var w := env.owner(o);
    && s.ledger == [Entry(w, env.value(o), Deposit, 0)] + Debits(w, env.minWithdrawal, env.fee, 0)
    && Balance(s.ledger, w) == 0 && s.held == {}
    && s.deposits == [DepositRow(o, w, env.value(o), Credited, true, false)]
    && s.withdrawals == [WithdrawalRow(w, env.minWithdrawal, env.fee, Broadcasting, None, 0)]
    && s.workers == [Claimed(0, 1)] && s.promised == multiset{} && s.jobs == multiset{}
  }

  /** What a configuration must allow for a user to withdraw the whole deposit without approval. */
  ghost predicate Withdrawable(env: Env, o: Outpoint)
  {
    env.known(env.owner(o)) && env.minWithdrawal < env.threshold && env.value(o) == env.minWithdrawal + env.fee
  }

  lemma {:induction false} CreditedAndAsked(env: Env, o: Outpoint, s0: State) returns (s1: State, s2: State)
    requires Withdrawable(env, o) && s0 == State([], {}, [], [], [Idle], multiset{}, multiset{})
    ensures s1 == Apply(env, s0, DoCredit(o, env.minConfirmations)) && Balance(s1.ledger, env.owner(o)) == env.value(o)
    ensures s2 == Apply(env, s1, DoRequest(env.owner(o), env.minWithdrawal, true, None))
    ensures var w := env.owner(o);
            && s2 == State([Entry(w, env.value(o), Deposit, 0)] + Debits(w, env.minWithdrawal, env.fee, 0), {},
                           [DepositRow(o, w, env.value(o), Credited, true, false)],
                           [WithdrawalRow(w, env.minWithdrawal, env.fee, Queued, None, 0)],
                           [Idle], multiset{0}, multiset{})
            && Balance(s2.ledger, w) == 0
  {
    var w := env.owner(o);
    var row, e := DepositRow(o, w, env.value(o), Credited, true, false), Entry(w, env.value(o), Deposit, 0);
    FirstCredit(env, o, s0, row, e);
    s1 := Apply(env, s0, DoCredit(o, env.minConfirmations));
    assert [] + [e] == [e];
    SumSnoc(AmountFor(w), [], e);
    FirstRequest(env, s1, w, e);
    s2 := Apply(env, s1, DoRequest(w, env.minWithdrawal, true, None));
    assert s2.promised == multiset{0};
  }

  /** The first three steps: the request is queued, and the API adds its job. */
  lemma {:induction false} RequestingRun(env: Env, o: Outpoint) returns (ss: seq<State>, es: seq<Event>)
    requires Withdrawable(env, o)
    ensures Run(env, ss, es) && |es| == 3 && Watched(es) && Balance(ss[1].ledger, env.owner(o)) == env.value(o)
    ensures var w := env.owner(o);
            && ss[3] == State([Entry(w, env.value(o), Deposit, 0)] + Debits(w, env.minWithdrawal, env.fee, 0), {},
                              [DepositRow(o, w, env.value(o), Credited, true, false)],
                              [WithdrawalRow(w, env.minWithdrawal, env.fee, Queued, None, 0)],
                              [Idle], multiset{}, multiset{Job(0, 0)})
            && Balance(ss[3].ledger, w) == 0
  {
    var s0 := State([], {}, [], [], [Idle], multiset{}, multiset{});
    var credit, add := DoCredit(o, env.minConfirmations), DoEnqueue(0);
    var ask := DoRequest(env.owner(o), env.minWithdrawal, true, None);
    var s1, s2 := CreditedAndAsked(env, o, s0);
    var s3 := Apply(env, s2, add);
    assert s3.promised == multiset{};
    PathSnoc(env, [s0], [], credit);
    PathSnoc(env, [s0, s1], [credit], ask);
    PathSnoc(env, [s0, s1, s2], [credit, ask], add);
    ss, es := [s0, s1, s2, s3], [credit, ask, add];
  }

  /** Two more steps, given with the states they lead to. */
  lemma {:induction false} TwoMore(env: Env, ss: seq<State>, es: seq<Event>, e: Event, s: State, e': Event, s': State)
    requires Run(env, ss, es) && Enabled(ss[|es|], e) && s == Apply(env, ss[|es|], e)
    requires Enabled(s, e') && s' == Apply(env, s, e')
    ensures Run(env, ss + [s, s'], es + [e, e'])
  {
    PathSnoc(env, ss, es, e);
    PathSnoc(env, ss + [s], es + [e], e');
    assert ss + [s] + [s'] == ss + [s, s'] && es + [e] + [e'] == es + [e, e'];
  }

  lemma {:induction false} TakenAndClaimed(env: Env, o: Outpoint, s: State) returns (s1: State, s2: State)
    requires var w := env.owner(o);
             && s == State([Entry(w, env.value(o), Deposit, 0)] + Debits(w, env.minWithdrawal, env.fee, 0), {},
                           [DepositRow(o, w, env.value(o), Credited, true, false)],
                           [WithdrawalRow(w, env.minWithdrawal, env.fee, Queued, None, 0)],
                           [Idle], multiset{}, multiset{Job(0, 0)})
             && Balance(s.ledger, w) == 0
    ensures Enabled(s, DoTake(0, Job(0, 0))) && s1 == Apply(env, s, DoTake(0, Job(0, 0)))
    ensures Enabled(s1, DoClaim(0)) && s2 == Apply(env, s1, DoClaim(0)) && ClaimedAll(env, s2, o)
  {
    s1 := Apply(env, s, DoTake(0, Job(0, 0)));
    assert s1.jobs == multiset{};
    s2 := Apply(env, s1, DoClaim(0));
  }

  lemma {:induction false} ClaimingRun(env: Env, o: Outpoint) returns (ss: seq<State>, es: seq<Event>)
    requires Withdrawable(env, o)
    ensures Run(env, ss, es) && |es| == 5 && ClaimedAll(env, ss[5], o)
    ensures Watched(es) && Balance(ss[1].ledger, env.owner(o)) == env.value(o)
  {
    ss, es := RequestingRun(env, o);
    var take, claim := DoTake(0, Job(0, 0)), DoClaim(0);
    var s4, s5 := TakenAndClaimed(env, o, ss[3]);
    TwoMore(env, ss, es, take, s4, claim, s5);
    ss, es := ss + [s4, s5], es + [take, claim];
  }

  /** The worker dies after its claim: the user's money is held, was not sent, and the withdrawal cannot end. */
  lemma {:induction false} CrashedWorkerExample(env: Env, o: Outpoint) returns (ss: seq<State>, es: seq<Event>)
    requires Withdrawable(env, o)
    ensures Run(env, ss, es) && |es| == 6 && es[5] == DoCrash(0) && Watched(es)
    ensures |ss[6].withdrawals| == 1 && ss[6].withdrawals[0].sends == 0 && !CanEnd(env, ss[6], 0)
    ensures Balance(ss[1].ledger, env.owner(o)) == env.value(o) && Balance(ss[6].ledger, env.owner(o)) == 0
  {
    ss, es := ClaimingRun(env, o);
    var e := DoCrash(0);
    PathSnoc(env, ss, es, e);
    ss, es := ss + [Apply(env, ss[5], e)], es + [e];
    CanEndIffNotStuck(env, ss, es, 6, 0);
  }

  lemma {:induction false} SentAndCrashed(env: Env, s: State, o: Outpoint)
    requires ClaimedAll(env, s, o)
    ensures Enabled(s, DoBroadcast(0, true, Hash))
    ensures var s1 := Apply(env, s, DoBroadcast(0, true, Hash));
            Enabled(s1, DoAdvance(0)) && var s2 := Apply(env, s1, DoAdvance(0));
            var s3 := Apply(env, s2, DoCrash(0));
            && s3 == s.(withdrawals := [s.withdrawals[0].(status := Broadcasted, sends := 1)], workers := [Idle])
            && StuckSent(s3, 0)
  {
  }

  /** The worker dies after it stored the hash: the money has left, and the withdrawal is never confirmed. */
  lemma {:induction false} UnconfirmedExample(env: Env, o: Outpoint) returns (ss: seq<State>, es: seq<Event>)
    requires Withdrawable(env, o)
    ensures Run(env, ss, es) && |es| == 8 && Watched(es)
    ensures es[5] == DoBroadcast(0, true, Hash) && es[6] == DoAdvance(0) && es[7] == DoCrash(0)
    ensures |ss[8].withdrawals| == 1 && !CanEnd(env, ss[8], 0)
    ensures ss[8].withdrawals[0].status == Broadcasted && ss[8].withdrawals[0].sends == 1
  {
    ss, es := ClaimingRun(env, o);
    var send, note, crash := DoBroadcast(0, true, Hash), DoAdvance(0), DoCrash(0);
    SentAndCrashed(env, ss[5], o);
    var s6 := Apply(env, ss[5], send);
    var s7 := Apply(env, s6, note);
    PathSnoc(env, ss, es, send);
    PathSnoc(env, ss + [s6], es + [send], note);
    PathSnoc(env, ss + [s6] + [s7], es + [send] + [note], crash);
    ss, es := ss + [s6] + [s7] + [Apply(env, s7, crash)], es + [send] + [note] + [crash];
    CanEndIffNotStuck(env, ss, es, 8, 0);
  }

  lemma {:induction false} RefusedOnHold(env: Env, s: State, o: Outpoint)
    requires ClaimedAll(env, s, o) && Withdrawable(env, o) && env.value(o) > 0 && Inv(env, s)
    ensures var s4 := ReconcileDeposit(env, s, o, None);
            && s4.withdrawals == s.withdrawals && s4.workers == s.workers && s4.ledger == s.ledger
            && env.owner(o) in s4.held
  {
    ReconcileEffect(env, s, o, None);
    assert FindDeposit(s.deposits, o) == Some(0);
  }

  lemma {:induction false} RefusedRun(env: Env, o: Outpoint) returns (ss: seq<State>, es: seq<Event>)
    requires Withdrawable(env, o) && env.value(o) > 0
    ensures Run(env, ss, es) && |es| == 7 && es[6] == DoBroadcast(0, false, SafeFailure)
    ensures ss[7].workers == [Refused(0, 1)] && env.owner(o) in ss[7].held && ss[7].ledger == ss[5].ledger
    ensures ss[7].withdrawals == [WithdrawalRow(env.owner(o), env.minWithdrawal, env.fee, Broadcasting, None, 0)]
  {
    ss, es := ClaimingRun(env, o);
    var lost, refuse := DoReconcile(o, None), DoBroadcast(0, false, SafeFailure);
    RunKeeps(env, ss, es, 5);
    RefusedOnHold(env, ss[5], o);
    var s6 := Apply(env, ss[5], lost);
    var s7 := Apply(env, s6, refuse);
    TwoMore(env, ss, es, lost, s6, refuse, s7);
    ss, es := ss + [s6, s7], es + [lost, refuse];
  }

  /**
   The deposit behind a claimed withdrawal is lost, the wallet goes on hold, and
   the chain client refuses to send: the refund is refused too, no money was ever
   sent, and the withdrawal cannot end, not even by another attempt at the job.
   */
  lemma {:induction false} RefundOnHoldExample(env: Env, o: Outpoint) returns (ss: seq<State>, es: seq<Event>)
    requires Withdrawable(env, o) && env.value(o) > 0
    ensures Run(env, ss, es) && |es| == 8 && es[6] == DoBroadcast(0, false, SafeFailure) && es[7] == DoAdvance(0)
    ensures |ss[8].withdrawals| == 1 && ss[8].withdrawals[0].sends == 0 && !CanEnd(env, ss[8], 0)
    ensures ss[8].workers == [Idle] && ss[8].ledger == ss[5].ledger
  {
    ss, es := RefusedRun(env, o);
    var refund, s7 := DoAdvance(0), ss[7];
    RunKeeps(env, ss, es, 7);
    RefundEffect(s7, 0, Failed);
    assert TryRefund(s7, 0, Failed).None?;
    var s8 := Apply(env, s7, refund);
    assert s8 == Fail(env, s7, 0);
    PathSnoc(env, ss, es, refund);
    ss, es := ss + [s8], es + [refund];
    CanEndIffNotStuck(env, ss, es, 8, 0);
  }

  /** In the service as it is wired no wallet is on hold: stuck is what no worker is on and, once sent, no job names. */
  lemma {:induction false} WatchedCanEnd(env: Env, ss: seq<State>, es: seq<Event>, n: nat, x: nat)
    requires Run(env, ss, es) && Watched(es) && n < |ss| && |ss[n].workers| > 0 && x < |ss[n].withdrawals|
    ensures var status := ss[n].withdrawals[x].status;
            CanEnd(env, ss[n], x)
            <==> !(Free(ss[n], x) && (status == Broadcasting || (status == Broadcasted && !Named(ss[n], x))))
  {
    CanEndIffNotStuck(env, ss, es, n, x);
    WatchedIsCalm(env, ss, es, n);
  }
}
