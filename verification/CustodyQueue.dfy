/**
 Decisions about withdrawals and the jobs that follow from them: what an approval
 and a rejection do, where jobs come from, and how often one is tried.
 */
module CustodyQueue {
  import opened Sums
  import opened Wrappers
  import opened Custody
  import opened CustodyInvariant
  import opened CustodyRuns

  // ---- Decisions ----

  /**
   A rejection cancels a withdrawal that awaits approval and gives amount and fee
   back, unless its wallet is on hold; nothing else happens, to nobody else.
   */
  lemma {:induction false} RejectionSettles(env: Env, s: State, x: nat, w: Wallet)
    requires Books(s) && x < |s.withdrawals|
    ensures var s', row := Apply(env, s, DoReject(x)), s.withdrawals[x];
            if row.status == AwaitingApproval && row.wallet !in s.held then
              && s'.withdrawals == s.withdrawals[x := row.(status := Canceled)]
              && Balance(s'.ledger, w)
                 == Balance(s.ledger, w) + (if w == row.wallet then row.amount + row.fee else 0)
              && s'.promised == s.promised && s'.jobs == s.jobs && s'.workers == s.workers
            else s' == s
  {
    var row := s.withdrawals[x];
    if row.status == AwaitingApproval {
      RefundEffect(s, x, Canceled);
      SumSnoc(AmountFor(w), s.ledger, Entry(row.wallet, row.amount + row.fee, WithdrawalReversal, x));
    }
  }

  /** An approval moves no money; it makes the withdrawal eligible and announces its job. */
  lemma {:induction false} ApprovalSettles(env: Env, s: State, x: nat)
    requires x < |s.withdrawals|
    ensures var s', row := Apply(env, s, DoApprove(x)), s.withdrawals[x];
            if row.status == AwaitingApproval then
              && s'.withdrawals == s.withdrawals[x := row.(status := Approved)] && s'.ledger == s.ledger
              && s'.promised[x] == s.promised[x] + 1 && s'.jobs == s.jobs
            else s' == s
  {
  }

  /** A new withdrawal waits for approval from the threshold on; below it, it is queued and its job announced. */
  lemma {:induction false} RequestAnnounces(env: Env, s: State, w: Wallet, amount: int, addressOk: bool, k: Option<Key>)
    requires Balance(s.ledger, w) >= 0 && Request(env, s, w, amount, addressOk, k).1.Created?
    ensures var s', x := Apply(env, s, DoRequest(w, amount, addressOk, k)), |s.withdrawals|;
            && |s'.withdrawals| == x + 1 && s'.jobs == s.jobs
            && (amount >= env.threshold ==> s'.withdrawals[x].status == AwaitingApproval && s'.promised == s.promised)
            && (amount < env.threshold ==> s'.withdrawals[x].status == Queued && s'.promised[x] == s.promised[x] + 1)
  {
    RequestEffect(env, s, w, amount, addressOk, k);
  }

  /** What was announced becomes one pending job, never tried before, or is lost. */
  lemma {:induction false} AnnouncedIsEnqueued(env: Env, s: State, x: nat)
    requires x in s.promised
    ensures var s' := Apply(env, s, DoEnqueue(x));
            s'.promised[x] == s.promised[x] - 1 && s'.jobs[Job(x, 0)] == s.jobs[Job(x, 0)] + 1
              && |s'.jobs| == |s.jobs| + 1
    ensures var s' := Apply(env, s, DoForget(x));
            s'.promised[x] == s.promised[x] - 1 && s'.jobs == s.jobs
  {
  }

  // ---- Attempts ----

  /** A job that is taken and fails comes back as tried once more, while attempts remain, and otherwise is gone. */
  lemma {:induction false} RetriedOrParked(env: Env, s: State, k: nat, job: Job)
    requires Enabled(s, DoTake(k, job))
    ensures var s1 := Apply(env, s, DoTake(k, job));
            && Enabled(s1, DoError(k))
            && var s2 := Apply(env, s1, DoError(k));
               var left := s.jobs - multiset{job};
               && s2.workers == s.workers && s2.withdrawals == s.withdrawals && s2.ledger == s.ledger
               && s2.jobs == if job.tries + 1 < env.maxAttempts then left + multiset{Job(job.id, job.tries + 1)}
                  else left
  {
    var s1 := Apply(env, s, DoTake(k, job));
    assert s.workers[k := Taken(job.id, job.tries + 1)][k := Idle] == s.workers;
  }

  /** One for a worker that holds a job of the withdrawal at this attempt. */
  function HoldsAt(x: nat, tries: nat): Worker -> int
  {
    (w: Worker) => if !w.Idle? && w.id == x && w.tries == tries then 1 else 0
  }

  /** How often a job of the withdrawal was taken that had been tried so many times before. */
  function TakenAt(es: seq<Event>, x: nat, tries: nat): nat
  {
    if es == [] then 0
    else TakenAt(es[..|es| - 1], x, tries) + if es[|es| - 1].DoTake? && es[|es| - 1].job == Job(x, tries) then 1 else 0
  }

  function EnqueuedFor(es: seq<Event>, x: nat): nat
  {
    if es == [] then 0 else EnqueuedFor(es[..|es| - 1], x) + if es[|es| - 1] == DoEnqueue(x) then 1 else 0
  }

  /**
   Where jobs tried so many times come from: the first time from the queue's producers,
   later from a failed attempt.
   */
  function Supplied(es: seq<Event>, x: nat, tries: nat): nat
  {
    if tries == 0 then EnqueuedFor(es, x) else TakenAt(es, x, tries - 1)
  }

  /**
   Jobs at an attempt, taken, waiting, or in the hands of a worker that may put them
   back, never exceed their supply.
   */
  ghost predicate Accounted(s: State, x: nat, tries: nat, taken: nat, supplied: nat)
  {
    taken + s.jobs[Job(x, tries)] + Sum(HoldsAt(x, tries), s.workers) <= supplied
  }

  function Takes(e: Event, x: nat, tries: nat): nat { if e.DoTake? && e.job == Job(x, tries) then 1 else 0 }

  function Supplies(e: Event, x: nat, tries: nat): nat
  {
    if tries == 0 then (if e == DoEnqueue(x) then 1 else 0) else Takes(e, x, tries - 1)
  }

  lemma {:induction false} TakeAccounted(s: State, k: nat, job: Job, x: nat, tries: nat, taken: nat, supplied: nat)
    requires Accounted(s, x, tries, taken, supplied) && Enabled(s, DoTake(k, job))
    ensures var e := DoTake(k, job);
            Accounted(Take(s, k, job), x, tries, taken + Takes(e, x, tries), supplied + Supplies(e, x, tries))
  {
    SumUpdate(HoldsAt(x, tries), s.workers, k, Taken(job.id, job.tries + 1));
  }

  lemma {:induction false} FailAccounted(env: Env, s: State, k: nat, x: nat, tries: nat, taken: nat, supplied: nat)
    requires Accounted(s, x, tries, taken, supplied) && k < |s.workers| && !s.workers[k].Idle?
    ensures Accounted(Fail(env, s, k), x, tries, taken, supplied)
  {
    SumUpdate(HoldsAt(x, tries), s.workers, k, Idle);
  }

  /** A worker that goes on with its job, or drops it, changes no account. */
  lemma {:induction false} WorkerAccounted(s: State, s': State, k: nat, w: Worker, x: nat, tries: nat, taken: nat,
    supplied: nat)
    requires Accounted(s, x, tries, taken, supplied) && k < |s.workers|
    requires s'.jobs == s.jobs && s'.workers == s.workers[k := w]
    requires w.Idle? || (!s.workers[k].Idle? && w.id == s.workers[k].id && w.tries == s.workers[k].tries)
    ensures Accounted(s', x, tries, taken, supplied)
  {
    SumUpdate(HoldsAt(x, tries), s.workers, k, w);
  }

  lemma {:induction false} AdvanceAccounted(env: Env, s: State, k: nat, x: nat, tries: nat, taken: nat, supplied: nat)
    requires Accounted(s, x, tries, taken, supplied) && Enabled(s, DoAdvance(k))
    ensures Accounted(Advance(env, s, k), x, tries, taken, supplied)
  {
    var s' := Advance(env, s, k);
    if s.workers[k].Refused? && TryRefund(s, s.workers[k].id, Failed).None? {
      FailAccounted(env, s, k, x, tries, taken, supplied);
    } else if s.workers[k].Claimed? {
    } else {
      WorkerAccounted(s, s', k, s'.workers[k], x, tries, taken, supplied);
    }
  }

  /** Neither jobs nor workers change. */
  lemma {:induction false} ElsewhereAccounted(env: Env, s: State, e: Event)
    requires Enabled(s, e)
    requires e.DoRequest? || e.DoApprove? || e.DoReject? || e.DoList? || e.DoForget? || e.DoCredit? || e.DoReconcile?
    ensures Apply(env, s, e).jobs == s.jobs && Apply(env, s, e).workers == s.workers
  {
    match e
    case DoRequest(_, _, _, _) =>
    case DoApprove(_) =>
    case DoReject(_) =>
    case DoList(_) =>
    case DoForget(_) =>
    case DoCredit(_, _) =>
    case DoReconcile(_, _) =>
  }

  lemma {:induction false} StepAccounted(env: Env, s: State, e: Event, x: nat, tries: nat, taken: nat, supplied: nat)
    requires Accounted(s, x, tries, taken, supplied) && Enabled(s, e)
    ensures Accounted(Apply(env, s, e), x, tries, taken + Takes(e, x, tries), supplied + Supplies(e, x, tries))
  {
    match e
    case DoTake(k, job) => TakeAccounted(s, k, job, x, tries, taken, supplied);
    case DoError(k) => FailAccounted(env, s, k, x, tries, taken, supplied);
    case DoAdvance(k) => AdvanceAccounted(env, s, k, x, tries, taken, supplied);
    case DoClaim(k) => WorkerAccounted(s, Claim(s, k), k, Claim(s, k).workers[k], x, tries, taken, supplied);
    case DoBroadcast(k, sent, reply) =>
      var s' := Broadcast(s, k, sent, reply);
      WorkerAccounted(s, s', k, s'.workers[k], x, tries, taken, supplied);
    case DoCrash(k) => WorkerAccounted(s, SetWorker(s, k, Idle), k, Idle, x, tries, taken, supplied);
    case DoEnqueue(_) =>
    case _ => ElsewhereAccounted(env, s, e);
  }

  lemma {:induction false} NobodyHolds(ws: seq<Worker>, x: nat, tries: nat)
    requires forall k :: 0 <= k < |ws| ==> ws[k].Idle?
    ensures Sum(HoldsAt(x, tries), ws) == 0
  {
    if ws != [] { NobodyHolds(ws[..|ws| - 1], x, tries); }
  }

  lemma {:induction false} HoldersCount(ws: seq<Worker>, x: nat, tries: nat)
    ensures Sum(HoldsAt(x, tries), ws) >= 0
  {
    if ws != [] { HoldersCount(ws[..|ws| - 1], x, tries); }
  }

  lemma {:induction false} CountsStep(es: seq<Event>, n: nat, x: nat, tries: nat)
    requires n < |es|
    ensures TakenAt(es[..n + 1], x, tries) == TakenAt(es[..n], x, tries) + Takes(es[n], x, tries)
    ensures Supplied(es[..n + 1], x, tries) == Supplied(es[..n], x, tries) + Supplies(es[n], x, tries)
  {
    assert es[..n + 1][..n] == es[..n];
  }

  lemma {:induction false} StartAccounted(s: State, x: nat, tries: nat)
    requires Initial(s)
    ensures Accounted(s, x, tries, 0, 0)
  {
    NobodyHolds(s.workers, x, tries);
  }

  lemma {:induction false} TakenIsSupplied(s: State, x: nat, tries: nat, taken: nat, supplied: nat)
    requires Accounted(s, x, tries, taken, supplied)
    ensures taken <= supplied
  {
    HoldersCount(s.workers, x, tries);
  }

  lemma {:induction false} NextAccounted(env: Env, ss: seq<State>, es: seq<Event>, n: nat, x: nat, tries: nat,
    taken: nat,
    supplied: nat)
    requires Run(env, ss, es) && n < |es| && Accounted(ss[n], x, tries, taken, supplied)
    ensures Accounted(ss[n + 1], x, tries, taken + Takes(es[n], x, tries), supplied + Supplies(es[n], x, tries))
  {
    StepAccounted(env, ss[n], es[n], x, tries, taken, supplied);
  }

  lemma {:induction false} RunAccounted(env: Env, ss: seq<State>, es: seq<Event>, n: nat, x: nat, tries: nat)
    requires Run(env, ss, es) && n < |ss|
    ensures Accounted(ss[n], x, tries, TakenAt(es[..n], x, tries), Supplied(es[..n], x, tries))
  {
    if n == 0 {
      StartAccounted(ss[0], x, tries);
    } else {
      RunAccounted(env, ss, es, n - 1, x, tries);
      CountsStep(es, n - 1, x, tries);
      NextAccounted(env, ss, es, n - 1, x, tries, TakenAt(es[..n - 1], x, tries), Supplied(es[..n - 1], x, tries));
    }
  }

  // ---- A bound on attempts ----

  /** A job waits only while attempts remain; a new one waits in any case. */
  ghost predicate WithinAttempts(env: Env, s: State)
  {
    forall job :: job in s.jobs ==> job.tries == 0 || job.tries < env.maxAttempts
  }

  lemma {:induction false} FailWithin(env: Env, s: State, k: nat)
    requires WithinAttempts(env, s) && k < |s.workers| && !s.workers[k].Idle?
    ensures WithinAttempts(env, Fail(env, s, k))
  {
  }

  lemma {:induction false} AdvanceWithin(env: Env, s: State, k: nat)
    requires WithinAttempts(env, s) && Enabled(s, DoAdvance(k))
    ensures WithinAttempts(env, Advance(env, s, k))
  {
    FailWithin(env, s, k);
  }

  lemma {:induction false} StepWithin(env: Env, s: State, e: Event)
    requires WithinAttempts(env, s) && Enabled(s, e)
    ensures WithinAttempts(env, Apply(env, s, e))
  {
    match e
    case DoTake(_, _) =>
    case DoError(k) => FailWithin(env, s, k);
    case DoAdvance(k) => AdvanceWithin(env, s, k);
    case DoClaim(_) =>
    case DoBroadcast(_, _, _) =>
    case DoCrash(_) =>
    case DoEnqueue(_) =>
    case _ => ElsewhereAccounted(env, s, e);
  }

  lemma {:induction false} RunWithin(env: Env, ss: seq<State>, es: seq<Event>, n: nat)
    requires Run(env, ss, es) && n < |ss|
    ensures WithinAttempts(env, ss[n])
  {
    if n > 0 {
      RunWithin(env, ss, es, n - 1);
      StepWithin(env, ss[n - 1], es[n - 1]);
    }
  }

  lemma {:induction false} NoTakeAt(env: Env, s: State, e: Event, x: nat, tries: nat)
    requires WithinAttempts(env, s) && Enabled(s, e) && tries > 0 && tries >= env.maxAttempts
    ensures Takes(e, x, tries) == 0
  {
  }

  lemma {:induction false} NoLateTake(env: Env, ss: seq<State>, es: seq<Event>, n: nat, x: nat, tries: nat)
    requires Run(env, ss, es) && n < |ss| && tries > 0 && tries >= env.maxAttempts
    ensures TakenAt(es[..n], x, tries) == 0
  {
    if n > 0 {
      NoLateTake(env, ss, es, n - 1, x, tries);
      RunWithin(env, ss, es, n - 1);
      NoTakeAt(env, ss[n - 1], es[n - 1], x, tries);
      CountsStep(es, n - 1, x, tries);
    }
  }

  lemma {:induction false} TakenInRun(env: Env, ss: seq<State>, es: seq<Event>, n: nat, x: nat, tries: nat)
    requires Run(env, ss, es) && n < |ss|
    ensures TakenAt(es[..n], x, tries) <= Supplied(es[..n], x, tries)
  {
    RunAccounted(env, ss, es, n, x, tries);
    TakenIsSupplied(ss[n], x, tries, TakenAt(es[..n], x, tries), Supplied(es[..n], x, tries));
  }

  /** If at every attempt no more are taken than supplied, no more are taken than were added. */
  lemma {:induction false} SuppliedIsEnqueued(done: seq<Event>, x: nat, tries: nat)
    requires forall t: nat :: t <= tries ==> TakenAt(done, x, t) <= Supplied(done, x, t)
    ensures TakenAt(done, x, tries) <= EnqueuedFor(done, x)
  {
    assert TakenAt(done, x, tries) <= Supplied(done, x, tries);
    if tries > 0 { SuppliedIsEnqueued(done, x, tries - 1); }
  }

  /**
   However many workers fail and crash: for every job that was added for a
   withdrawal, one is taken at most once per attempt, and none beyond the limit.
   */
  lemma {:induction false} AttemptsAreBounded(env: Env, ss: seq<State>, es: seq<Event>, n: nat, x: nat, tries: nat)
    requires Run(env, ss, es) && n < |ss|
    ensures TakenAt(es[..n], x, tries) <= EnqueuedFor(es[..n], x)
    ensures tries > 0 && tries >= env.maxAttempts ==> TakenAt(es[..n], x, tries) == 0
  {
    var done := es[..n];
    forall t: nat | t <= tries ensures TakenAt(done, x, t) <= Supplied(done, x, t) { TakenInRun(env, ss, es, n, x, t); }
    SuppliedIsEnqueued(done, x, tries);
    if tries > 0 && tries >= env.maxAttempts { NoLateTake(env, ss, es, n, x, tries); }
  }
}
