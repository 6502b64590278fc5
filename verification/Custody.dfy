/**
 The custodial ledger of `crates/db`: deposits that may be reorganised away,
 withdrawals that several workers broadcast, and the one append-only table of
 entries from which every balance is derived, and the queue of broadcast jobs.
 A database transaction is one event; a worker's job is several, between which
 it may fail or crash.
 */
module Custody {
  import opened Sums
  import opened Wrappers

  type Wallet = nat
  type Key = nat
  type Outpoint = nat

  // ---- Rows ----

  datatype Kind = Deposit | DepositReversal | Withdrawal | WithdrawalFee | WithdrawalReversal

  /** `reference` is a deposit for the first two kinds and a withdrawal for the others. */
  datatype Entry = Entry(wallet: Wallet, amount: int, kind: Kind, reference: nat)

  datatype DepositStatus = Pending | Credited | Orphaned

  /** `credited` and `reversed` record which entries were ever written for the deposit. */
  datatype DepositRow = DepositRow(
    outpoint: Outpoint, wallet: Wallet, amount: nat, status: DepositStatus, credited: bool, reversed: bool)

  datatype Status = AwaitingApproval | Queued | Approved | Broadcasting | Broadcasted | Confirmed | Failed | Canceled

  /** `sends` records how often the chain client really sent the withdrawal. */
  datatype WithdrawalRow = WithdrawalRow(
    wallet: Wallet, amount: nat, fee: nat, status: Status, key: Option<Key>, sends: nat)

  /** A pending job of the broadcast queue: the withdrawal that it names, and how often it was taken. */
  datatype Job = Job(id: nat, tries: nat)

  /** Where a worker stands with the job that it took. */
  datatype Worker =
    | Idle
    | Taken(id: nat, tries: nat)
    | Claimed(id: nat, tries: nat)
    | Delivered(id: nat, tries: nat)
    | Refused(id: nat, tries: nat)
    | Persisted(id: nat, tries: nat)

  /**
   `jobs` are the pending jobs only: one that is done, parked, or was running
   when its worker died is never taken again.  `promised` names the withdrawals
   for which some process, having decided so earlier, is about to add a job.
   */
  datatype State = State(
    ledger: seq<Entry>, held: set<Wallet>, deposits: seq<DepositRow>, withdrawals: seq<WithdrawalRow>,
    workers: seq<Worker>, promised: multiset<nat>, jobs: multiset<Job>)

  /** Configuration, and what the chain says of each transaction output. */
  datatype Env = Env(
    minWithdrawal: nat, fee: nat, threshold: nat, minConfirmations: int, maxAttempts: nat,
    known: Wallet -> bool, owner: Outpoint -> Wallet, value: Outpoint -> nat)

  // ---- The ledger ----

  function AmountFor(w: Wallet): Entry -> int
  {
    (e: Entry) => if e.wallet == w then e.amount else 0
  }

  /** `get_wallet_balance`: there is no balance column. */
  function Balance(l: seq<Entry>, w: Wallet): int
  {
    Sum(AmountFor(w), l)
  }

  /** What the unique index on (wallet, reference, reference type, type) looks for. */
  predicate HasEntry(l: seq<Entry>, w: Wallet, k: Kind, r: nat)
  {
    exists i :: 0 <= i < |l| && l[i].wallet == w && l[i].kind == k && l[i].reference == r
  }

  /** `apply_ledger_entry`: `None` is an error, upon which the caller's transaction rolls back. */
  function ApplyEntry(s: State, e: Entry): Option<State>
  {
    if e.wallet in s.held && e.kind != DepositReversal then None
    else if e.amount < 0 && Balance(s.ledger, e.wallet) + e.amount < 0 then None
    else if HasEntry(s.ledger, e.wallet, e.kind, e.reference) then None
    else Some(s.(ledger := s.ledger + [e]))
  }

  // ---- Withdrawals ----

  function FindKey(xs: seq<WithdrawalRow>, k: Option<Key>): (r: Option<nat>)
    ensures r.Some? ==> r.value < |xs| && k.Some? && xs[r.value].key == k
    ensures r.None? && k.Some? ==> forall i :: 0 <= i < |xs| ==> xs[i].key != k
  {
    if k.None? || xs == [] then None
    else if xs[|xs| - 1].key == k then Some(|xs| - 1)
    else FindKey(xs[..|xs| - 1], k)
  }

  datatype Requested = Created(id: nat) | Existing(id: nat) | Refusal

  /** `request_withdrawal`: the funds are held at once, and a repeated key returns the first withdrawal. */
  function Request(env: Env, s: State, w: Wallet, amount: int, addressOk: bool, k: Option<Key>): (State, Requested)
  {
    if !addressOk || amount < env.minWithdrawal then (s, Refusal)
    else
      var found := FindKey(s.withdrawals, k);
      if found.Some? then (s, Existing(found.value))
      else if !env.known(w) then (s, Refusal)
      else
        var id := |s.withdrawals|;
        var status := if amount >= env.threshold then AwaitingApproval else Queued;
        var s1 := s.(withdrawals := s.withdrawals + [WithdrawalRow(w, amount, env.fee, status, k, 0)]);
        match ApplyEntry(s1, Entry(w, -amount, Withdrawal, id))
        case None => (s, Refusal)
        case Some(s2) =>
          if env.fee == 0 then (s2, Created(id))
          else
            match ApplyEntry(s2, Entry(w, 0 - env.fee, WithdrawalFee, id))
            case None => (s, Refusal)
            case Some(s3) => (s3, Created(id))
  }

  function SetStatus(s: State, x: nat, status: Status): State
    requires x < |s.withdrawals|
  {
    s.(withdrawals := s.withdrawals[x := s.withdrawals[x].(status := status)])
  }

  /** The status change and the refund of `amount + fee` commit together or not at all. */
  function TryRefund(s: State, x: nat, status: Status): Option<State>
    requires x < |s.withdrawals|
  {
    var row := s.withdrawals[x];
    ApplyEntry(SetStatus(s, x, status), Entry(row.wallet, row.amount + row.fee, WithdrawalReversal, x))
  }

  function Refund(s: State, x: nat, status: Status): State
    requires x < |s.withdrawals|
  {
    match TryRefund(s, x, status)
    case None => s
    case Some(s') => s'
  }

  function Approve(s: State, x: nat): State
  {
    if x < |s.withdrawals| && s.withdrawals[x].status == AwaitingApproval then SetStatus(s, x, Approved) else s
  }

  function Reject(s: State, x: nat): State
  {
    if x < |s.withdrawals| && s.withdrawals[x].status == AwaitingApproval then Refund(s, x, Canceled) else s
  }

  // ---- The job queue ----

  function Promise(s: State, x: nat): State
  {
    s.(promised := s.promised + multiset{x})
  }

  /** The API adds a job for a request that was queued, once the request has committed. */
  function RequestAndPromise(env: Env, s: State, w: Wallet, amount: int, addressOk: bool, k: Option<Key>): State
  {
    var (s', r) := Request(env, s, w, amount, addressOk, k);
    if r.Created? && amount < env.threshold then Promise(s', r.id) else s'
  }

  function ApproveAndPromise(s: State, x: nat): State
  {
    if x < |s.withdrawals| && s.withdrawals[x].status == AwaitingApproval then Promise(Approve(s, x), x) else s
  }

  predicate Eligible(status: Status)
  {
    status == Queued || status == Approved
  }

  /** `requeue_eligible` finds the withdrawal in its list, and will add a job. */
  function List(s: State, x: nat): State
  {
    if x < |s.withdrawals| && Eligible(s.withdrawals[x].status) then Promise(s, x) else s
  }

  function Enqueue(s: State, x: nat): State
  {
    s.(promised := s.promised - multiset{x}, jobs := s.jobs + multiset{Job(x, 0)})
  }

  /** The job could not be added, or the process that would have added it died. */
  function Forget(s: State, x: nat): State
  {
    s.(promised := s.promised - multiset{x})
  }

  function SetWorker(s: State, k: nat, w: Worker): State
    requires k < |s.workers|
  {
    s.(workers := s.workers[k := w])
  }

  /** `claim_next`: the job runs, and this counts as an attempt. */
  function Take(s: State, k: nat, job: Job): State
    requires k < |s.workers|
  {
    SetWorker(s.(jobs := s.jobs - multiset{job}), k, Taken(job.id, job.tries + 1))
  }

  /** An error ends the job: it is pending again while attempts remain, and parked otherwise. */
  function Fail(env: Env, s: State, k: nat): State
    requires k < |s.workers| && !s.workers[k].Idle?
  {
    var w := s.workers[k];
    var s' := SetWorker(s, k, Idle);
    if w.tries >= env.maxAttempts then s' else s'.(jobs := s.jobs + multiset{Job(w.id, w.tries)})
  }

  // ---- Broadcasting ----

  function Finalize(s: State, x: nat): State
  {
    if x < |s.withdrawals| && s.withdrawals[x].status == Broadcasted then SetStatus(s, x, Confirmed) else s
  }

  /** The compare-and-swap claim; a withdrawal left at BROADCASTED is finalised instead, and the job is done. */
  function Claim(s: State, k: nat): State
    requires k < |s.workers| && s.workers[k].Taken?
  {
    var x := s.workers[k].id;
    if x < |s.withdrawals| && Eligible(s.withdrawals[x].status)
    then SetWorker(SetStatus(s, x, Broadcasting), k, Claimed(x, s.workers[k].tries))
    else SetWorker(Finalize(s, x), k, Idle)
  }

  /**
   What the chain client reports: a hash, a failure that is safe to reverse, an unclear
   failure, or nothing at all.
   */
  datatype Reply = Hash | SafeFailure | UnclearFailure | WorkerDies

  /** The client keeps its word: a hash means it sent, a safe failure means it did not. */
  predicate Honest(reply: Reply, sent: bool)
  {
    (reply.Hash? ==> sent) && (reply.SafeFailure? ==> !sent)
  }

  function Broadcast(s: State, k: nat, sent: bool, reply: Reply): State
    requires k < |s.workers| && s.workers[k].Claimed? && s.workers[k].id < |s.withdrawals|
  {
    var x, tries := s.workers[k].id, s.workers[k].tries;
    var row := s.withdrawals[x];
    var s1 := s.(withdrawals := s.withdrawals[x := row.(sends := row.sends + if sent then 1 else 0)]);
    SetWorker(s1, k, match reply case Hash => Delivered(x, tries) case SafeFailure => Refused(x, tries) case _ => Idle)
  }

  /**
   The updates after the reply name the row only; they do not check its status
   again.  A refund that the ledger refuses is an error of the job.
   */
  function Advance(env: Env, s: State, k: nat): State
    requires k < |s.workers| && Acting(s.workers[k]) && s.workers[k].id < |s.withdrawals|
  {
    match s.workers[k]
    case Delivered(x, tries) => SetWorker(SetStatus(s, x, Broadcasted), k, Persisted(x, tries))
    case Persisted(x, _) => SetWorker(Finalize(s, x), k, Idle)
    case Refused(x, _) =>
      if TryRefund(s, x, Failed).None? then Fail(env, s, k) else SetWorker(Refund(s, x, Failed), k, Idle)
    case _ => s
  }

  /** The worker is past the claim. */
  predicate Acting(w: Worker)
  {
    !w.Idle? && !w.Taken?
  }

  // ---- Deposits ----

  function FindDeposit(ds: seq<DepositRow>, o: Outpoint): (r: Option<nat>)
    ensures r.Some? ==> r.value < |ds| && ds[r.value].outpoint == o
    ensures r.None? ==> forall i :: 0 <= i < |ds| ==> ds[i].outpoint != o
  {
    if ds == [] then None
    else if ds[|ds| - 1].outpoint == o then Some(|ds| - 1)
    else FindDeposit(ds[..|ds| - 1], o)
  }

  /** `credit_deposit` for an output that the watcher sees with `confirmations`. */
  function CreditDeposit(env: Env, s: State, o: Outpoint, confirmations: int): State
  {
    var w, amount := env.owner(o), env.value(o);
    var found := FindDeposit(s.deposits, o);
    if found.Some? && s.deposits[found.value].status == Credited then s
    else
      var id := if found.Some? then found.value else |s.deposits|;
      var rows := if found.Some? then s.deposits else s.deposits + [DepositRow(o, w, amount, Pending, false, false)];
      if confirmations < env.minConfirmations then s.(deposits := rows[id := rows[id].(status := Pending)])
      else
        match ApplyEntry(s, Entry(w, amount, Deposit, id))
        case None => s
        case Some(s') => s'.(deposits := rows[id := rows[id].(status := Credited, credited := true)])
  }

  /** `reconcile_deposit`: the output is gone, or fell below the threshold. */
  function ReconcileDeposit(env: Env, s: State, o: Outpoint, confirmations: Option<int>): State
  {
    var found := FindDeposit(s.deposits, o);
    if confirmations.Some? && confirmations.value >= env.minConfirmations then s
    else if found.None? then s
    else
      var id := found.value;
      var row := s.deposits[id];
      if row.wallet != env.owner(o) || row.status == Orphaned then s
      else
        var s1 := s.(deposits := s.deposits[id := row.(status := Orphaned)]);
        if row.status != Credited then s1
        else if Balance(s.ledger, row.wallet) >= row.amount then
          match ApplyEntry(s1, Entry(row.wallet, 0 - row.amount, DepositReversal, id))
          case None => s
          case Some(s') => s'.(deposits := s.deposits[id := row.(status := Orphaned, reversed := true)])
        else s1.(held := s.held + {row.wallet})
  }

  // ---- Events ----

  datatype Event =
    | DoRequest(wallet: Wallet, amount: int, addressOk: bool, key: Option<Key>)
    | DoApprove(id: nat)
    | DoReject(id: nat)
    | DoList(id: nat)
    | DoEnqueue(id: nat)
    | DoForget(id: nat)
    | DoTake(worker: nat, job: Job)
    | DoClaim(worker: nat)
    | DoBroadcast(worker: nat, sent: bool, reply: Reply)
    | DoAdvance(worker: nat)
    | DoError(worker: nat)
    | DoCrash(worker: nat)
    | DoCredit(outpoint: Outpoint, seen: int)
    | DoReconcile(outpoint: Outpoint, found: Option<int>)

  predicate Enabled(s: State, e: Event)
  {
    match e
    case DoEnqueue(x) => x in s.promised
    case DoForget(x) => x in s.promised
    case DoTake(k, job) => k < |s.workers| && s.workers[k].Idle? && job in s.jobs
    case DoClaim(k) => k < |s.workers| && s.workers[k].Taken?
    case DoBroadcast(k, sent, reply) =>
      k < |s.workers| && s.workers[k].Claimed? && s.workers[k].id < |s.withdrawals| && Honest(reply, sent)
    case DoAdvance(k) => k < |s.workers| && Acting(s.workers[k]) && s.workers[k].id < |s.withdrawals|
    case DoError(k) => k < |s.workers| && !s.workers[k].Idle?
    case DoCrash(k) => k < |s.workers|
    case _ => true
  }

  function Apply(env: Env, s: State, e: Event): State
    requires Enabled(s, e)
  {
    match e
    case DoRequest(w, amount, addressOk, k) => RequestAndPromise(env, s, w, amount, addressOk, k)
    case DoApprove(x) => ApproveAndPromise(s, x)
    case DoReject(x) => Reject(s, x)
    case DoList(x) => List(s, x)
    case DoEnqueue(x) => Enqueue(s, x)
    case DoForget(x) => Forget(s, x)
    case DoTake(k, job) => Take(s, k, job)
    case DoClaim(k) => Claim(s, k)
    case DoBroadcast(k, sent, reply) => Broadcast(s, k, sent, reply)
    case DoAdvance(k) => Advance(env, s, k)
    case DoError(k) => Fail(env, s, k)
    case DoCrash(k) => SetWorker(s, k, Idle)
    case DoCredit(o, n) => CreditDeposit(env, s, o, n)
    case DoReconcile(o, n) => ReconcileDeposit(env, s, o, n)
  }
}
