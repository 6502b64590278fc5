/**
 The session protocol of `client/src/lib/api.ts` as a transition system.  Code
 between two `await`s is one event.  Events that the network or the user causes
 happen only when no caller is ready to resume from a settled refresh: the
 event loop drains promise callbacks first.
 */
module Session {
  import opened Wrappers

  type Token = nat

  /** What a request comes back with. */
  datatype Answer = NetworkError | Status(code: int)

  predicate Denies(a: Answer) { a == Status(401) || a == Status(403) }

  predicate IsOk(a: Answer) { a.Status? && 200 <= a.code <= 299 }

  datatype Store = Store(identity: bool, token: Option<Token>)

  const LOGGED_OUT := Store(false, None)

  /** One execution of the body of `refreshAccessToken`. */
  datatype Refresh =
    | Asked
    | Reading
    | Settled(answer: Answer, value: Option<Token>)

  datatype Outcome = Succeeded | Unreachable | HttpError(code: int) | Unauthorized(expired: bool)

  datatype CallPc = Fetching | Parsing(code: int) | Joined(refresh: nat) | Finished(outcome: Outcome)

  /**
   One `api()` call.  `sent` counts its requests, `via` is the refresh it awaited
   and `awaits` how often it awaited one.  `probe` says that its caller is one of
   the two identity probes of the layout, and has yet to handle a rejection.
   */
  datatype Call =
    Call(skipAuth: bool, retried: bool, pc: CallPc, sent: nat, awaits: nat, via: Option<nat>, probe: bool)

  /** One `bootstrapSession()` call. */
  datatype Boot = Waiting(refresh: nat) | Returned(usable: bool)

  /** `refreshes` lists every refresh ever started; `last` is the one that settled most recently. */
  datatype State = State(
    auth: Store, admin: Store, denied: bool, inFlight: Option<nat>,
    refreshes: seq<Refresh>, last: Option<nat>, calls: seq<Call>, boots: seq<Boot>)

  datatype Event =
    | StartCall(skipAuth: bool, probe: bool)
    | CallAnswered(call: nat, answer: Answer)
    | CallParsed(call: nat)
    | ResumeCall(call: nat)
    | ProbeRejected(call: nat)
    | StartBoot
    | ResumeBoot(boot: nat)
    | RefreshAnswered(refresh: nat, answer: Answer)
    | RefreshParsed(refresh: nat, token: Option<Token>)
    | SetSession(named: bool, stored: Option<Token>)
    | SetAdmin(issued: Token)
    | UserLogsOut
    | AdminLogsOut

  predicate HasIdentity(s: State) { s.auth.identity || s.admin.identity }

  predicate HasToken(s: State) { s.auth.token.Some? || s.admin.token.Some? }

  ghost predicate Initial(s: State)
  {
    s.inFlight.None? && s.last.None? && s.refreshes == [] && s.calls == [] && s.boots == [] && !s.denied
  }

  // ---- Steps ----

  predicate CallReady(rs: seq<Refresh>, call: Call)
  {
    call.pc.Joined? && call.pc.refresh < |rs| && rs[call.pc.refresh].Settled?
  }

  predicate BootReady(rs: seq<Refresh>, boot: Boot)
  {
    boot.Waiting? && boot.refresh < |rs| && rs[boot.refresh].Settled?
  }

  predicate Rejected(o: Outcome)
  {
    o.Unauthorized? || o == HttpError(401) || o == HttpError(403)
  }

  /** A probe was rejected, and its caller has yet to act on it. */
  predicate ProbeReady(call: Call)
  {
    call.probe && call.pc.Finished? && Rejected(call.pc.outcome)
  }

  /** Nobody is ready to resume from a refresh. */
  predicate Resumed(s: State)
  {
    && (forall c :: 0 <= c < |s.calls| ==> !CallReady(s.refreshes, s.calls[c]))
    && forall b :: 0 <= b < |s.boots| ==> !BootReady(s.refreshes, s.boots[b])
  }

  /** Nor to act on a rejection. */
  predicate Drained(s: State)
  {
    Resumed(s) && forall c :: 0 <= c < |s.calls| ==> !ProbeReady(s.calls[c])
  }

  /** `forceReauth`: both stores log out. */
  function ForceReauth(s: State): State
  {
    s.(auth := LOGGED_OUT, admin := LOGGED_OUT)
  }

  /** `refreshAccessToken`: join the refresh in flight or start one. */
  function JoinRefresh(s: State): (r: (State, nat))
  {
    match s.inFlight
    case Some(id) => (s, id)
    case None => (s.(refreshes := s.refreshes + [Asked], inFlight := Some(|s.refreshes|)), |s.refreshes|)
  }

  /** The refresh returns and its `finally` clears `refreshInFlight`. */
  function Settle(s: State, r: nat, answer: Answer, value: Option<Token>): State
    requires r < |s.refreshes|
  {
    s.(refreshes := s.refreshes[r := Settled(answer, value)], inFlight := None, last := Some(r))
  }

  function SetCall(s: State, c: nat, call: Call): State
    requires c < |s.calls|
  {
    s.(calls := s.calls[c := call])
  }

  function CallParsedStep(s: State, c: nat): State
    requires c < |s.calls| && s.calls[c].pc.Parsing?
  {
    var call := s.calls[c];
    if call.pc.code == 401 && !call.skipAuth then
      if !call.retried then
        var (s', r) := JoinRefresh(s);
        SetCall(s', c, call.(pc := Joined(r), awaits := call.awaits + 1, via := Some(r)))
      else
        SetCall(ForceReauth(s), c, call.(pc := Finished(Unauthorized(true))))
    else
      SetCall(s, c, call.(pc := Finished(if 200 <= call.pc.code <= 299 then Succeeded else HttpError(call.pc.code))))
  }

  function ResumeCallStep(s: State, c: nat): State
    requires c < |s.calls| && CallReady(s.refreshes, s.calls[c])
  {
    var call := s.calls[c];
    if s.refreshes[call.pc.refresh].value.Some? then
      SetCall(s, c, call.(retried := true, pc := Fetching, sent := call.sent + 1))
    else
      SetCall(s, c, call.(pc := Finished(Unauthorized(s.denied))))
  }

  function StartBootStep(s: State): State
  {
    if HasToken(s) then s.(boots := s.boots + [Returned(true)])
    else if !HasIdentity(s) then s.(boots := s.boots + [Returned(false)])
    else
      var (s', r) := JoinRefresh(s);
      s'.(boots := s.boots + [Waiting(r)])
  }

  function ResumeBootStep(s: State, b: nat): State
    requires b < |s.boots| && BootReady(s.refreshes, s.boots[b])
  {
    if s.refreshes[s.boots[b].refresh].value.Some? then s.(boots := s.boots[b := Returned(true)])
    else if s.denied then s.(boots := s.boots[b := Returned(false)])
    else ForceReauth(s).(boots := s.boots[b := Returned(false)])
  }

  function RefreshAnsweredStep(s: State, r: nat, answer: Answer): State
    requires r < |s.refreshes|
  {
    if Denies(answer) then Settle(ForceReauth(s).(denied := true), r, answer, None)
    else if IsOk(answer) then s.(denied := false, refreshes := s.refreshes[r := Reading])
    else Settle(s.(denied := false), r, answer, None)
  }

  function RefreshParsedStep(s: State, r: nat, token: Option<Token>): State
    requires r < |s.refreshes|
  {
    match token
    case None => Settle(s, r, Status(200), None)
    case Some(_) =>
      Settle(s.(auth := s.auth.(token := token), admin := s.admin.(token := token)), r, Status(200), token)
  }

  predicate Enabled(s: State, e: Event)
  {
    match e
    case StartCall(_, _) => true
    case StartBoot => true
    case ResumeCall(c) => c < |s.calls| && CallReady(s.refreshes, s.calls[c])
    case ProbeRejected(c) => Resumed(s) && c < |s.calls| && ProbeReady(s.calls[c])
    case ResumeBoot(b) => b < |s.boots| && BootReady(s.refreshes, s.boots[b])
    case CallAnswered(c, _) => Drained(s) && c < |s.calls| && s.calls[c].pc == Fetching
    case CallParsed(c) => Drained(s) && c < |s.calls| && s.calls[c].pc.Parsing?
    case RefreshAnswered(r, _) => Drained(s) && r < |s.refreshes| && s.refreshes[r] == Asked
    case RefreshParsed(r, _) => Drained(s) && r < |s.refreshes| && s.refreshes[r] == Reading
    case _ => Drained(s)
  }

  function Apply(s: State, e: Event): State
    requires Enabled(s, e)
  {
    match e
    case StartCall(skip, probe) => s.(calls := s.calls + [Call(skip, false, Fetching, 1, 0, None, probe)])
    case CallAnswered(c, a) =>
      SetCall(s, c, s.calls[c].(pc := match a
        case NetworkError => Finished(Unreachable)
        case Status(code) => if code == 204 then Finished(Succeeded) else Parsing(code)))
    case CallParsed(c) => CallParsedStep(s, c)
    case ResumeCall(c) => ResumeCallStep(s, c)
    case ProbeRejected(c) => SetCall(ForceReauth(s), c, s.calls[c].(probe := false))
    case StartBoot => StartBootStep(s)
    case ResumeBoot(b) => ResumeBootStep(s, b)
    case RefreshAnswered(r, a) => RefreshAnsweredStep(s, r, a)
    case RefreshParsed(r, token) => RefreshParsedStep(s, r, token)
    case SetSession(named, t) =>
      s.(auth := Store(s.auth.identity || named, if t.Some? then t else s.auth.token))
    case SetAdmin(t) => s.(admin := Store(true, Some(t)))
    case UserLogsOut => s.(auth := LOGGED_OUT)
    case AdminLogsOut => s.(admin := LOGGED_OUT)
  }

  // ---- The invariant ----

  /** A refresh is in flight exactly when `refreshInFlight` names it; hence at most one is. */
  ghost predicate SingleFlight(s: State)
  {
    && (s.inFlight.Some? ==> s.inFlight.value < |s.refreshes|)
    && forall r: nat :: 0 <= r < |s.refreshes| ==> (!s.refreshes[r].Settled? <==> s.inFlight == Some(r))
  }

  ghost predicate WasDenied(r: Refresh) { r.Settled? && Denies(r.answer) }

  /** What those who resume next from refresh `r` find. */
  ghost predicate Fresh(s: State, r: nat)
    requires r < |s.refreshes|
  {
    && s.last == Some(r)
    && (s.denied <==> WasDenied(s.refreshes[r]))
    && (s.denied ==> !HasIdentity(s) && !HasToken(s))
    && (s.refreshes[r].Settled? && s.refreshes[r].value.Some? ==>
          s.auth.token == s.admin.token == s.refreshes[r].value)
  }

  /**
   A call keeps its books: two requests after a successful refresh, one otherwise, and
   one refresh awaited at most.
   */
  ghost predicate CallOk(rs: seq<Refresh>, call: Call)
  {
    && call.sent == (if call.retried then 2 else 1)
    && call.awaits == (if call.via.Some? then 1 else 0)
    && (call.via.Some? ==> call.via.value < |rs| && !call.skipAuth)
    && (call.retried ==>
          call.via.Some? && rs[call.via.value].Settled? && rs[call.via.value].value.Some?)
    && (call.pc.Joined? ==> !call.retried && call.via == Some(call.pc.refresh))
    && ((call.pc.Fetching? || call.pc.Parsing?) && !call.retried ==> call.via.None?)
    && (call.pc.Finished? && call.pc.outcome.Unauthorized? && !call.retried ==>
          && call.via.Some? && rs[call.via.value].Settled? && rs[call.via.value].value.None?
          && (call.pc.outcome.expired <==> WasDenied(rs[call.via.value])))
    && (call.pc.Finished? && !call.retried && call.via.Some? ==> call.pc.outcome.Unauthorized?)
  }

  ghost predicate Inv(s: State)
  {
    && SingleFlight(s)
    && (forall r :: 0 <= r < |s.refreshes| && WasDenied(s.refreshes[r]) ==> s.refreshes[r].value.None?)
    && (s.inFlight.Some? && s.refreshes[s.inFlight.value] == Reading ==> !s.denied)
    && (forall c :: 0 <= c < |s.calls| ==> CallOk(s.refreshes, s.calls[c]))
    && (forall c :: 0 <= c < |s.calls| && CallReady(s.refreshes, s.calls[c]) ==> Fresh(s, s.calls[c].pc.refresh))
    && (forall b :: 0 <= b < |s.boots| && s.boots[b].Waiting? ==> s.boots[b].refresh < |s.refreshes|)
    && (forall b :: 0 <= b < |s.boots| && BootReady(s.refreshes, s.boots[b]) ==> Fresh(s, s.boots[b].refresh))
  }

  /** Starting a refresh changes nothing for those who wait on another. */
  lemma {:induction false} JoinKeeps(s: State)
    requires Inv(s)
    ensures var (s', r) := JoinRefresh(s);
            && Inv(s') && r < |s'.refreshes| && !s'.refreshes[r].Settled?
            && s'.calls == s.calls && s'.boots == s.boots && (Drained(s) ==> Drained(s'))
  {
    var (s', r) := JoinRefresh(s);
    if s.inFlight.None? {
      assert forall q :: 0 <= q < |s.refreshes| ==> s'.refreshes[q] == s.refreshes[q];
    }
  }

  lemma {:induction false} StartCallKeeps(s: State, skip: bool, probe: bool)
    requires Inv(s)
    ensures Inv(Apply(s, StartCall(skip, probe)))
  {
  }

  lemma {:induction false} CallAnsweredKeeps(s: State, c: nat, a: Answer)
    requires Inv(s) && Enabled(s, CallAnswered(c, a))
    ensures Inv(Apply(s, CallAnswered(c, a)))
  {
  }

  lemma {:induction false} SetCallKeeps(s: State, c: nat, call: Call)
    requires Inv(s) && c < |s.calls| && CallOk(s.refreshes, call) && !CallReady(s.refreshes, call)
    ensures Inv(SetCall(s, c, call))
  {
  }

  lemma {:induction false} AddBootKeeps(s: State, boot: Boot)
    requires Inv(s) && !BootReady(s.refreshes, boot) && (boot.Waiting? ==> boot.refresh < |s.refreshes|)
    ensures Inv(s.(boots := s.boots + [boot]))
  {
  }

  lemma {:induction false} CallParsedKeeps(s: State, c: nat)
    requires Inv(s) && Enabled(s, CallParsed(c))
    ensures Inv(Apply(s, CallParsed(c)))
  {
    var call := s.calls[c];
    if call.pc.code == 401 && !call.skipAuth && !call.retried {
      JoinKeeps(s);
      var (s', r) := JoinRefresh(s);
      assert CallOk(s.refreshes, call);
      SetCallKeeps(s', c, call.(pc := Joined(r), awaits := call.awaits + 1, via := Some(r)));
    } else if call.pc.code == 401 && !call.skipAuth {
      assert Inv(ForceReauth(s));
      SetCallKeeps(ForceReauth(s), c, call.(pc := Finished(Unauthorized(true))));
    } else {
      var o := if 200 <= call.pc.code <= 299 then Succeeded else HttpError(call.pc.code);
      SetCallKeeps(s, c, call.(pc := Finished(o)));
    }
  }

  lemma {:induction false} ResumeCallKeeps(s: State, c: nat)
    requires Inv(s) && Enabled(s, ResumeCall(c))
    ensures Inv(Apply(s, ResumeCall(c)))
  {
  }

  lemma {:induction false} ProbeRejectedKeeps(s: State, c: nat)
    requires Inv(s) && Enabled(s, ProbeRejected(c))
    ensures Inv(Apply(s, ProbeRejected(c)))
  {
    var call := s.calls[c];
    assert CallOk(s.refreshes, call);
    SetCallKeeps(ForceReauth(s), c, call.(probe := false));
  }

  lemma {:induction false} StartBootKeeps(s: State)
    requires Inv(s)
    ensures Inv(Apply(s, StartBoot))
  {
    if HasToken(s) {
      AddBootKeeps(s, Returned(true));
    } else if !HasIdentity(s) {
      AddBootKeeps(s, Returned(false));
    } else {
      JoinKeeps(s);
      var (s', r) := JoinRefresh(s);
      AddBootKeeps(s', Waiting(r));
    }
  }

  lemma {:induction false} ResumeBootKeeps(s: State, b: nat)
    requires Inv(s) && Enabled(s, ResumeBoot(b))
    ensures Inv(Apply(s, ResumeBoot(b)))
  {
  }

  lemma {:induction false} RefreshDeniedKeeps(s: State, r: nat, a: Answer)
    requires Inv(s) && Enabled(s, RefreshAnswered(r, a)) && Denies(a)
    ensures Inv(Apply(s, RefreshAnswered(r, a)))
  {
  }

  lemma {:induction false} RefreshFailedKeeps(s: State, r: nat, a: Answer)
    requires Inv(s) && Enabled(s, RefreshAnswered(r, a)) && !Denies(a) && !IsOk(a)
    ensures Inv(Apply(s, RefreshAnswered(r, a)))
  {
  }

  lemma {:induction false} RefreshAnsweredKeeps(s: State, r: nat, a: Answer)
    requires Inv(s) && Enabled(s, RefreshAnswered(r, a))
    ensures Inv(Apply(s, RefreshAnswered(r, a)))
  {
    if Denies(a) { RefreshDeniedKeeps(s, r, a); } else if !IsOk(a) { RefreshFailedKeeps(s, r, a); }
  }

  lemma {:induction false} RefreshParsedKeeps(s: State, r: nat, t: Option<Token>)
    requires Inv(s) && Enabled(s, RefreshParsed(r, t))
    ensures Inv(Apply(s, RefreshParsed(r, t)))
  {
  }

  // ---- Runs ----

  lemma {:induction false} StepKeeps(s: State, e: Event)
    requires Inv(s) && Enabled(s, e)
    ensures Inv(Apply(s, e))
  {
    match e
    case StartCall(skip, probe) => StartCallKeeps(s, skip, probe);
    case CallAnswered(c, a) => CallAnsweredKeeps(s, c, a);
    case CallParsed(c) => CallParsedKeeps(s, c);
    case ResumeCall(c) => ResumeCallKeeps(s, c);
    case ProbeRejected(c) => ProbeRejectedKeeps(s, c);
    case StartBoot => StartBootKeeps(s);
    case ResumeBoot(b) => ResumeBootKeeps(s, b);
    case RefreshAnswered(r, a) => RefreshAnsweredKeeps(s, r, a);
    case RefreshParsed(r, t) => RefreshParsedKeeps(s, r, t);
    case _ =>
  }

  /** `ss[i]` is the state before event `es[i]`. */
  ghost predicate Run(ss: seq<State>, es: seq<Event>)
  {
    && |ss| == |es| + 1 && Initial(ss[0])
    && forall i :: 0 <= i < |es| ==> Enabled(ss[i], es[i]) && ss[i + 1] == Apply(ss[i], es[i])
  }

  lemma {:induction false} RunKeeps(ss: seq<State>, es: seq<Event>, n: nat)
    requires Run(ss, es) && n < |ss|
    ensures Inv(ss[n])
  {
    if n > 0 {
      RunKeeps(ss, es, n - 1);
      StepKeeps(ss[n - 1], es[n - 1]);
    }
  }

  // ---- What holds over every run ----

  /** At most one refresh is outstanding, and `refreshInFlight` is set exactly while one is. */
  lemma {:induction false} OneRefreshAtATime(ss: seq<State>, es: seq<Event>, n: nat)
    requires Run(ss, es) && n < |ss|
    ensures var s := ss[n];
            && (forall q, r | 0 <= q < |s.refreshes| && 0 <= r < |s.refreshes| ::
                  !s.refreshes[q].Settled? && !s.refreshes[r].Settled? ==> q == r)
            && (s.inFlight.Some? <==> exists r :: 0 <= r < |s.refreshes| && !s.refreshes[r].Settled?)
  {
    RunKeeps(ss, es, n);
    var s := ss[n];
    if s.inFlight.Some? { assert !s.refreshes[s.inFlight.value].Settled?; }
  }

  /** How a call that awaited refresh `r` went on. */
  ghost predicate FollowedRefresh(call: Call, r: Refresh)
  {
    && r.Settled?
    && (call.retried <==> r.value.Some?)
    && (!call.retried ==> call.pc == Finished(Unauthorized(WasDenied(r))))
  }

  /**
   All callers that joined a refresh act on its one result: they all retry if it
   gave a token, and otherwise all report the session expired exactly if this
   refresh, and not some other, was answered 401 or 403.
   */
  lemma {:induction false} JoinedCallersAgree(ss: seq<State>, es: seq<Event>, n: nat, c: nat)
    requires Run(ss, es) && n < |ss| && c < |ss[n].calls|
    requires ss[n].calls[c].via.Some? && !ss[n].calls[c].pc.Joined?
    ensures ss[n].calls[c].via.value < |ss[n].refreshes|
    ensures FollowedRefresh(ss[n].calls[c], ss[n].refreshes[ss[n].calls[c].via.value])
  {
    RunKeeps(ss, es, n);
    assert CallOk(ss[n].refreshes, ss[n].calls[c]);
  }

  /** The retried request is sent with the token that the awaited refresh returned. */
  lemma {:induction false} RetryUsesFreshToken(ss: seq<State>, es: seq<Event>, i: nat, c: nat)
    requires Run(ss, es) && i < |es| && es[i] == ResumeCall(c) && ss[i + 1].calls[c].retried
    ensures ss[i].calls[c].pc.Joined? && ss[i].calls[c].pc.refresh < |ss[i].refreshes|
    ensures var r := ss[i].refreshes[ss[i].calls[c].pc.refresh];
            r.Settled? && r.value.Some? && ss[i].auth.token == ss[i].admin.token == r.value
  {
    RunKeeps(ss, es, i);
    assert CallOk(ss[i].refreshes, ss[i].calls[c]);
  }

  /**
   Each call sends at most two requests, the second only after a refresh gave a token,
   and awaits at most one refresh.
   */
  lemma {:induction false} CallsAreBounded(ss: seq<State>, es: seq<Event>, n: nat, c: nat)
    requires Run(ss, es) && n < |ss| && c < |ss[n].calls|
    ensures var call := ss[n].calls[c];
            call.sent <= 2 && call.awaits <= 1 && (call.sent == 2 ==> call.awaits == 1)
  {
    RunKeeps(ss, es, n);
    assert CallOk(ss[n].refreshes, ss[n].calls[c]);
  }

  /** How many events of its own a call may still take. */
  function Budget(call: Call): nat
  {
    match call.pc
    case Fetching => if call.retried then 2 else 5
    case Parsing(_) => if call.retried then 1 else 4
    case Joined(_) => 3
    case Finished(_) => 0
  }

  predicate Concerns(e: Event, c: nat)
  {
    match e
    case CallAnswered(d, _) => d == c
    case CallParsed(d) => d == c
    case ResumeCall(d) => d == c
    case _ => false
  }

  function CountConcerning(es: seq<Event>, c: nat): nat
  {
    if es == [] then 0 else CountConcerning(es[..|es| - 1], c) + (if Concerns(es[|es| - 1], c) then 1 else 0)
  }

  /** What a step may do to a call: its own steps use the budget up, all others leave it alone. */
  ghost predicate Spends(s: State, s': State, e: Event, c: nat)
    requires c < |s.calls|
  {
    && c < |s'.calls|
    && var call, call' := s.calls[c], s'.calls[c];
       if Concerns(e, c) then Budget(call') < Budget(call) else call'.(probe := call.probe) == call
  }

  lemma {:induction false} ParsedSpends(s: State, d: nat, c: nat)
    requires Inv(s) && Enabled(s, CallParsed(d)) && c < |s.calls|
    ensures Spends(s, Apply(s, CallParsed(d)), CallParsed(d), c)
  {
    assert CallOk(s.refreshes, s.calls[d]);
  }

  lemma {:induction false} ResumedSpends(s: State, d: nat, c: nat)
    requires Inv(s) && Enabled(s, ResumeCall(d)) && c < |s.calls|
    ensures Spends(s, Apply(s, ResumeCall(d)), ResumeCall(d), c)
  {
    assert CallOk(s.refreshes, s.calls[d]);
  }

  lemma {:induction false} BudgetShrinks(s: State, e: Event, c: nat)
    requires Inv(s) && Enabled(s, e) && c < |s.calls|
    ensures Spends(s, Apply(s, e), e, c)
  {
    match e
    case CallParsed(d) => ParsedSpends(s, d, c);
    case ResumeCall(d) => ResumedSpends(s, d, c);
    case _ =>
  }

  lemma {:induction false} CallsGrow(s: State, e: Event)
    requires Enabled(s, e)
    ensures var s' := Apply(s, e); |s.calls| <= |s'.calls| <= |s.calls| + 1
    ensures var s' := Apply(s, e); |s'.calls| > |s.calls| ==>
              s'.calls[|s.calls|].pc == Fetching && !s'.calls[|s.calls|].retried
  {
  }

  lemma {:induction false} CountStep(es: seq<Event>, n: nat, c: nat)
    requires n < |es|
    ensures CountConcerning(es[..n + 1], c) == CountConcerning(es[..n], c) + if Concerns(es[n], c) then 1 else 0
  {
    assert es[..n + 1][..n] == es[..n];
  }

  lemma {:induction false} NotYetConcerned(s: State, e: Event, c: nat)
    requires Enabled(s, e) && c >= |s.calls|
    ensures !Concerns(e, c)
    ensures c < |Apply(s, e).calls| ==> Budget(Apply(s, e).calls[c]) == 5
  {
    CallsGrow(s, e);
  }

  /** The steps of the call so far, and those it may still take, are at most five. */
  ghost predicate InBudget(s: State, c: nat, steps: nat)
  {
    if c < |s.calls| then steps + Budget(s.calls[c]) <= 5 else steps == 0
  }

  lemma {:induction false} StaysInBudget(s: State, e: Event, c: nat, steps: nat)
    requires Inv(s) && Enabled(s, e) && InBudget(s, c, steps)
    ensures InBudget(Apply(s, e), c, steps + if Concerns(e, c) then 1 else 0)
  {
    if c < |s.calls| { BudgetShrinks(s, e, c); } else { NotYetConcerned(s, e, c); }
  }

  /** No run contains more than five steps of any one call: it always comes to an end. */
  lemma {:induction false} CallsTerminate(ss: seq<State>, es: seq<Event>, n: nat, c: nat)
    requires Run(ss, es) && n < |ss|
    ensures InBudget(ss[n], c, CountConcerning(es[..n], c))
  {
    if n > 0 {
      CallsTerminate(ss, es, n - 1, c);
      RunKeeps(ss, es, n - 1);
      CountStep(es, n - 1, c);
      StaysInBudget(ss[n - 1], es[n - 1], c, CountConcerning(es[..n - 1], c));
    }
  }

  lemma {:induction false} BootStays(s: State, e: Event)
    requires Enabled(s, e) && !e.StartBoot? && !e.ResumeBoot?
    ensures Apply(s, e).boots == s.boots
  {
  }

  lemma {:induction false} BootResumes(s: State, b: nat)
    requires Inv(s) && Enabled(s, ResumeBoot(b))
    ensures var s' := Apply(s, ResumeBoot(b));
            s'.boots[b].Returned? && if s'.boots[b].usable then HasToken(s') else !HasIdentity(s')
    ensures forall c :: 0 <= c < |s.boots| && c != b ==> Apply(s, ResumeBoot(b)).boots[c] == s.boots[c]
  {
    assert Fresh(s, s.boots[b].refresh);
  }

  lemma {:induction false} BootStarts(s: State)
    ensures var s', n := Apply(s, StartBoot), |s.boots|;
            |s'.boots| == n + 1 && (forall c :: 0 <= c < n ==> s'.boots[c] == s.boots[c])
            && (s'.boots[n].Returned? ==> if s'.boots[n].usable then HasToken(s') else !HasIdentity(s'))
  {
  }

  lemma {:induction false} BootOutcomeStep(s: State, e: Event, b: nat)
    requires Inv(s) && Enabled(s, e) && b < |Apply(s, e).boots| && Apply(s, e).boots[b].Returned?
    requires b < |s.boots| ==> s.boots[b].Waiting?
    ensures if Apply(s, e).boots[b].usable then HasToken(Apply(s, e)) else !HasIdentity(Apply(s, e))
  {
    if e.StartBoot? { BootStarts(s); }
    else if e.ResumeBoot? { BootResumes(s, e.boot); }
    else { BootStays(s, e); }
  }

  /** `bootstrapSession` answers true only with a token in memory, and false only when no identity is left. */
  lemma {:induction false} BootstrapOutcome(ss: seq<State>, es: seq<Event>, i: nat, b: nat)
    requires Run(ss, es) && i < |es| && b < |ss[i + 1].boots| && ss[i + 1].boots[b].Returned?
    requires b < |ss[i].boots| ==> ss[i].boots[b].Waiting?
    ensures if ss[i + 1].boots[b].usable then HasToken(ss[i + 1]) else !HasIdentity(ss[i + 1])
  {
    RunKeeps(ss, es, i);
    BootOutcomeStep(ss[i], es[i], b);
  }

  /** A bootstrap answers at once if there is a token, or no identity to restore; else it waits for the one refresh. */
  lemma {:induction false} BootBegins(s: State)
    ensures var s', n := Apply(s, StartBoot), |s.boots|;
            && |s'.boots| == n + 1 && s'.auth == s.auth && s'.admin == s.admin
            && (s'.boots[n] == Returned(true) <==> HasToken(s))
            && (s'.boots[n] == Returned(false) <==> !HasToken(s) && !HasIdentity(s))
            && (if s'.boots[n].Waiting? then s'.inFlight == Some(s'.boots[n].refresh) else s'.refreshes == s.refreshes)
            && |s'.refreshes| == |s.refreshes| + if s'.boots[n].Waiting? && s.inFlight.None? then 1 else 0
  {
  }

  /** A bootstrap that waited answers true exactly if its refresh gave a token. */
  lemma {:induction false} BootEndsAs(s: State, b: nat)
    requires Inv(s) && Enabled(s, ResumeBoot(b))
    ensures Apply(s, ResumeBoot(b)).boots[b] == Returned(s.refreshes[s.boots[b].refresh].value.Some?)
  {
  }

  // ---- What a call reports, from the events alone ----

  /** A 204 ends the call at once, without a body to read. */
  lemma {:induction false} NoContentEndsCall(s: State, c: nat)
    requires Enabled(s, CallAnswered(c, Status(204)))
    ensures Apply(s, CallAnswered(c, Status(204))).calls[c].pc == Finished(Succeeded)
  {
  }

  /** The last answer to a request of the call. */
  function LastAnswer(es: seq<Event>, c: nat): Option<Answer>
  {
    if es == [] then None
    else
      match es[|es| - 1]
      case CallAnswered(d, a) => if d == c then Some(a) else LastAnswer(es[..|es| - 1], c)
      case _ => LastAnswer(es[..|es| - 1], c)
  }

  predicate Reports(o: Outcome, a: Answer, skipAuth: bool)
  {
    && (o.Succeeded? <==> IsOk(a))
    && (o.Unreachable? <==> a == NetworkError)
    && (o.Unauthorized? <==> a == Status(401) && !skipAuth)
    && (o.HttpError? ==> a == Status(o.code))
  }

  ghost predicate Follows(call: Call, a: Option<Answer>)
  {
    match call.pc
    case Fetching => true
    case Parsing(code) => a == Some(Status(code))
    case Joined(_) => a == Some(Status(401)) && !call.skipAuth
    case Finished(o) => a.Some? && Reports(o, a.value, call.skipAuth)
  }

  ghost predicate CallFollows(s: State, c: nat, a: Option<Answer>)
  {
    c < |s.calls| ==> Follows(s.calls[c], a)
  }

  lemma {:induction false} ParsedFollows(s: State, d: nat, c: nat, a: Option<Answer>)
    requires Enabled(s, CallParsed(d)) && CallFollows(s, c, a)
    ensures CallFollows(Apply(s, CallParsed(d)), c, a)
  {
  }

  lemma {:induction false} ResumedFollows(s: State, d: nat, c: nat, a: Option<Answer>)
    requires Enabled(s, ResumeCall(d)) && CallFollows(s, c, a)
    ensures CallFollows(Apply(s, ResumeCall(d)), c, a)
  {
  }

  lemma {:induction false} AnsweredFollows(s: State, d: nat, x: Answer, c: nat, a: Option<Answer>)
    requires Enabled(s, CallAnswered(d, x)) && CallFollows(s, c, a)
    ensures CallFollows(Apply(s, CallAnswered(d, x)), c, if d == c then Some(x) else a)
  {
  }

  lemma {:induction false} StepFollows(s: State, e: Event, c: nat, a: Option<Answer>)
    requires Inv(s) && Enabled(s, e) && CallFollows(s, c, a)
    ensures CallFollows(Apply(s, e), c, if e.CallAnswered? && e.call == c then Some(e.answer) else a)
  {
    match e
    case CallAnswered(d, x) => AnsweredFollows(s, d, x, c, a);
    case CallParsed(d) => ParsedFollows(s, d, c, a);
    case ResumeCall(d) => ResumedFollows(s, d, c, a);
    case StartBoot => BootBegins(s);
    case _ =>
  }

  lemma {:induction false} LastAnswerStep(es: seq<Event>, n: nat, c: nat)
    requires n < |es|
    ensures LastAnswer(es[..n + 1], c)
         == if es[n].CallAnswered? && es[n].call == c then Some(es[n].answer) else LastAnswer(es[..n], c)
  {
    assert es[..n + 1][..n] == es[..n];
  }

  lemma {:induction false} RunFollows(ss: seq<State>, es: seq<Event>, n: nat, c: nat)
    requires Run(ss, es) && n < |ss|
    ensures CallFollows(ss[n], c, LastAnswer(es[..n], c))
  {
    if n > 0 {
      RunFollows(ss, es, n - 1, c);
      RunKeeps(ss, es, n - 1);
      LastAnswerStep(es, n - 1, c);
      StepFollows(ss[n - 1], es[n - 1], c, LastAnswer(es[..n - 1], c));
    }
  }

  /**
   A finished call reports its last answer: success for 2xx, no connection for a
   network error, a refused session for a 401 unless it skips authentication, and
   the status itself for all others.
   */
  lemma {:induction false} CallReportsAnswer(ss: seq<State>, es: seq<Event>, n: nat, c: nat)
    requires Run(ss, es) && n < |ss| && c < |ss[n].calls| && ss[n].calls[c].pc.Finished?
    ensures LastAnswer(es[..n], c).Some?
    ensures var call, a := ss[n].calls[c], LastAnswer(es[..n], c).value;
            match call.pc.outcome
            case Succeeded => IsOk(a)
            case Unreachable => a == NetworkError
            case Unauthorized(_) => a == Status(401) && !call.skipAuth
            case HttpError(code) => a == Status(code) && !IsOk(a) && (code != 401 || call.skipAuth)
  {
    RunFollows(ss, es, n, c);
  }

  /** A probe forces a new login exactly if its last answer was a 401 or a 403. */
  lemma {:induction false} ProbeActsIff(ss: seq<State>, es: seq<Event>, n: nat, c: nat)
    requires Run(ss, es) && n < |ss| && c < |ss[n].calls| && ss[n].calls[c].pc.Finished? && ss[n].calls[c].probe
    ensures ProbeReady(ss[n].calls[c])
            <==> LastAnswer(es[..n], c) == Some(Status(401)) || LastAnswer(es[..n], c) == Some(Status(403))
  {
    CallReportsAnswer(ss, es, n, c);
  }

  // ---- What a refresh gives, from the events alone ----

  function RefreshAnswer(es: seq<Event>, r: nat): Option<Answer>
  {
    if es == [] then None
    else
      match es[|es| - 1]
      case RefreshAnswered(q, a) => if q == r then Some(a) else RefreshAnswer(es[..|es| - 1], r)
      case _ => RefreshAnswer(es[..|es| - 1], r)
  }

  /** The token that was read from the answer to the refresh. */
  function RefreshToken(es: seq<Event>, r: nat): Option<Token>
  {
    if es == [] then None
    else
      match es[|es| - 1]
      case RefreshParsed(q, t) => if q == r then t else RefreshToken(es[..|es| - 1], r)
      case _ => RefreshToken(es[..|es| - 1], r)
  }

  ghost predicate RefreshFollows(s: State, r: nat, a: Option<Answer>, t: Option<Token>)
  {
    if r >= |s.refreshes| then a.None? && t.None?
    else
      match s.refreshes[r]
      case Asked => a.None? && t.None?
      case Reading => a.Some? && IsOk(a.value) && t.None?
      case Settled(answer, value) => a.Some? && value == t && (Denies(answer) <==> Denies(a.value))
  }

  lemma {:induction false} RefreshStepFollows(s: State, e: Event, r: nat, a: Option<Answer>, t: Option<Token>)
    requires Inv(s) && Enabled(s, e) && RefreshFollows(s, r, a, t)
    ensures RefreshFollows(Apply(s, e), r,
      if e.RefreshAnswered? && e.refresh == r then Some(e.answer) else a,
      if e.RefreshParsed? && e.refresh == r then e.token else t)
  {
    match e
    case StartBoot => BootBegins(s);
    case CallParsed(c) => ParsedRefreshFollows(s, c, r, a, t);
    case RefreshAnswered(q, x) => AnsweredRefreshFollows(s, q, x, r, a, t);
    case RefreshParsed(q, u) => ReadRefreshFollows(s, q, u, r, a, t);
    case _ => assert Apply(s, e).refreshes == s.refreshes;
  }

  lemma {:induction false} AnsweredRefreshFollows(s: State, q: nat, x: Answer, r: nat, a: Option<Answer>,
    t: Option<Token>)
    requires Enabled(s, RefreshAnswered(q, x)) && RefreshFollows(s, r, a, t)
    ensures RefreshFollows(Apply(s, RefreshAnswered(q, x)), r, if q == r then Some(x) else a, t)
  {
  }

  lemma {:induction false} ReadRefreshFollows(s: State, q: nat, u: Option<Token>, r: nat, a: Option<Answer>,
    t: Option<Token>)
    requires Enabled(s, RefreshParsed(q, u)) && RefreshFollows(s, r, a, t)
    ensures RefreshFollows(Apply(s, RefreshParsed(q, u)), r, a, if q == r then u else t)
  {
  }

  lemma {:induction false} ParsedRefreshFollows(s: State, c: nat, r: nat, a: Option<Answer>, t: Option<Token>)
    requires Inv(s) && Enabled(s, CallParsed(c)) && RefreshFollows(s, r, a, t)
    ensures RefreshFollows(Apply(s, CallParsed(c)), r, a, t)
  {
  }

  lemma {:induction false} RefreshEventsStep(es: seq<Event>, n: nat, r: nat)
    requires n < |es|
    ensures RefreshAnswer(es[..n + 1], r)
         == if es[n].RefreshAnswered? && es[n].refresh == r then Some(es[n].answer) else RefreshAnswer(es[..n], r)
    ensures RefreshToken(es[..n + 1], r)
         == if es[n].RefreshParsed? && es[n].refresh == r then es[n].token else RefreshToken(es[..n], r)
  {
    assert es[..n + 1][..n] == es[..n];
  }

  /**
   A settled refresh gives its callers the token that was read from its answer, and
   counts as refused exactly on 401 and 403.
   */
  lemma {:induction false} RefreshGivesToken(ss: seq<State>, es: seq<Event>, n: nat, r: nat)
    requires Run(ss, es) && n < |ss|
    ensures RefreshFollows(ss[n], r, RefreshAnswer(es[..n], r), RefreshToken(es[..n], r))
  {
    if n > 0 {
      RefreshGivesToken(ss, es, n - 1, r);
      RunKeeps(ss, es, n - 1);
      RefreshEventsStep(es, n - 1, r);
      RefreshStepFollows(ss[n - 1], es[n - 1], r, RefreshAnswer(es[..n - 1], r), RefreshToken(es[..n - 1], r));
    }
  }

  /** A refresh that is refused, by 401 or 403, logs both stores out; any other answer leaves them alone. */
  lemma {:induction false} RefusalLogsOut(s: State, r: nat, a: Answer)
    requires Enabled(s, RefreshAnswered(r, a))
    ensures var s', refused := Apply(s, RefreshAnswered(r, a)), a == Status(401) || a == Status(403);
            && s'.denied == refused
            && (refused ==> !HasIdentity(s') && !HasToken(s'))
            && (!refused ==> s'.auth == s.auth && s'.admin == s.admin)
  {
  }

  // ---- When a session is lost ----

  /** Some store had an identity before and has none after. */
  ghost predicate Loses(s: State, s': State)
  {
    (s.auth.identity && !s'.auth.identity) || (s.admin.identity && !s'.admin.identity)
  }

  /** The server said so: a refresh was refused, or a request sent again after a successful refresh was. */
  ghost predicate Definitive(s: State, e: Event)
  {
    || (e.RefreshAnswered? && Denies(e.answer))
    || (e.CallParsed? && e.call < |s.calls|
        && var call := s.calls[e.call];
           call.pc == Parsing(401) && !call.skipAuth && call.retried
           && call.via.Some? && call.via.value < |s.refreshes|
           && var r := s.refreshes[call.via.value]; r.Settled? && r.value.Some?)
  }

  /** `bootstrapSession` gives up after a refresh that failed without being refused. */
  ghost predicate BootGivesUp(s: State, e: Event)
  {
    e.ResumeBoot? && e.boot < |s.boots| && BootReady(s.refreshes, s.boots[e.boot])
    && var r := s.refreshes[s.boots[e.boot].refresh]; r.value.None? && !WasDenied(r)
  }

  /** What clears the identity of both stores, if there is one. */
  ghost predicate EndsSession(s: State, e: Event)
  {
    Definitive(s, e) || BootGivesUp(s, e) || e.ProbeRejected?
  }

  lemma {:induction false} ParsedEnds(s: State, c: nat)
    requires Inv(s) && Enabled(s, CallParsed(c))
    ensures Loses(s, Apply(s, CallParsed(c))) <==> EndsSession(s, CallParsed(c)) && HasIdentity(s)
  {
    assert CallOk(s.refreshes, s.calls[c]);
  }

  lemma {:induction false} BootEnds(s: State, b: nat)
    requires Inv(s) && Enabled(s, ResumeBoot(b))
    ensures Loses(s, Apply(s, ResumeBoot(b))) <==> EndsSession(s, ResumeBoot(b)) && HasIdentity(s)
  {
    assert Fresh(s, s.boots[b].refresh);
  }

  /**
   The exact causes of a lost session.  A step takes an identity away exactly if
   there was one and the step is a definitive answer, a bootstrap that gives up,
   a rejected probe, or the logout of that very store by its user.
   */
  lemma {:induction false} LossCauses(s: State, e: Event)
    requires Inv(s) && Enabled(s, e)
    ensures Loses(s, Apply(s, e)) <==>
              || (EndsSession(s, e) && HasIdentity(s))
              || (e.UserLogsOut? && s.auth.identity)
              || (e.AdminLogsOut? && s.admin.identity)
  {
    match e
    case CallParsed(c) => ParsedEnds(s, c);
    case ResumeBoot(b) => BootEnds(s, b);
    case _ =>
  }

  /** So it is over whole runs; and the first three leave no identity in either store. */
  lemma {:induction false} SessionLossCauses(ss: seq<State>, es: seq<Event>, i: nat)
    requires Run(ss, es) && i < |es|
    ensures Loses(ss[i], ss[i + 1]) <==>
              || (EndsSession(ss[i], es[i]) && HasIdentity(ss[i]))
              || (es[i].UserLogsOut? && ss[i].auth.identity)
              || (es[i].AdminLogsOut? && ss[i].admin.identity)
    ensures EndsSession(ss[i], es[i]) ==> !HasIdentity(ss[i + 1])
  {
    RunKeeps(ss, es, i);
    LossCauses(ss[i], es[i]);
    if es[i].CallParsed? { assert CallOk(ss[i].refreshes, ss[i].calls[es[i].call]); }
  }

  // ---- Which token a store holds ----

  function TokenOf(s: State, admin: bool): Option<Token>
  {
    if admin then s.admin.token else s.auth.token
  }

  /** The token that an event puts into the store, if any; a refresh puts its own into both. */
  function Issued(e: Event, admin: bool): Option<Token>
  {
    match e
    case RefreshParsed(_, t) => t
    case SetSession(_, t) => if admin then None else t
    case SetAdmin(t) => if admin then Some(t) else None
    case _ => None
  }

  /** What empties the store. */
  ghost predicate Empties(s: State, e: Event, admin: bool)
  {
    EndsSession(s, e) || (if admin then e.AdminLogsOut? else e.UserLogsOut?)
  }

  lemma {:induction false} ParsedTokens(s: State, c: nat, admin: bool)
    requires Inv(s) && Enabled(s, CallParsed(c))
    ensures TokenOf(Apply(s, CallParsed(c)), admin)
         == if EndsSession(s, CallParsed(c)) then None else TokenOf(s, admin)
  {
    assert CallOk(s.refreshes, s.calls[c]);
  }

  lemma {:induction false} BootTokens(s: State, b: nat, admin: bool)
    requires Inv(s) && Enabled(s, ResumeBoot(b))
    ensures TokenOf(Apply(s, ResumeBoot(b)), admin) == if EndsSession(s, ResumeBoot(b)) then None else TokenOf(s, admin)
  {
    assert Fresh(s, s.boots[b].refresh);
  }

  lemma {:induction false} StepTokens(s: State, e: Event, admin: bool)
    requires Inv(s) && Enabled(s, e)
    ensures TokenOf(Apply(s, e), admin) == if Empties(s, e, admin) then None
                                           else if Issued(e, admin).Some? then Issued(e, admin) else TokenOf(s, admin)
  {
    match e
    case CallParsed(c) => ParsedTokens(s, c, admin);
    case ResumeBoot(b) => BootTokens(s, b, admin);
    case StartBoot => BootBegins(s);
    case _ =>
  }

  lemma {:induction false} TokenAt(ss: seq<State>, es: seq<Event>, k: nat, admin: bool)
    requires Run(ss, es) && k < |es|
    ensures TokenOf(ss[k + 1], admin)
         == if Empties(ss[k], es[k], admin) then None
            else if Issued(es[k], admin).Some? then Issued(es[k], admin) else TokenOf(ss[k], admin)
  {
    RunKeeps(ss, es, k);
    StepTokens(ss[k], es[k], admin);
  }

  lemma {:induction false} TokenKept(ss: seq<State>, m: nat, n: nat, admin: bool)
    requires m <= n < |ss| && forall k :: m <= k < n ==> TokenOf(ss[k + 1], admin) == TokenOf(ss[k], admin)
    ensures TokenOf(ss[n], admin) == TokenOf(ss[m], admin)
  {
    if m < n { TokenKept(ss, m, n - 1, admin); }
  }

  /**
   In every run a store holds the token that was issued to it last, unless a logout
   or the end of the session has emptied it since; whatever else happens leaves it.
   */
  lemma {:induction false} TokenIsLatest(ss: seq<State>, es: seq<Event>, i: nat, n: nat, admin: bool)
    requires Run(ss, es) && i < n < |ss|
    requires forall k :: i < k < n ==> Issued(es[k], admin).None? && !Empties(ss[k], es[k], admin)
    ensures Empties(ss[i], es[i], admin) ==> TokenOf(ss[n], admin).None?
    ensures !Empties(ss[i], es[i], admin) && Issued(es[i], admin).Some?
            ==> TokenOf(ss[n], admin) == Issued(es[i], admin)
  {
    TokenAt(ss, es, i, admin);
    forall k: nat | i < k < n ensures TokenOf(ss[k + 1], admin) == TokenOf(ss[k], admin) { TokenAt(ss, es, k, admin); }
    TokenKept(ss, i + 1, n, admin);
  }

  /**
   Runs made of `api()` calls other than rejected probes, whatever the network does and
   however often users sign in.
   */
  predicate ApiOnly(es: seq<Event>)
  {
    forall i :: 0 <= i < |es| ==>
      !es[i].StartBoot? && !es[i].ProbeRejected? && !es[i].UserLogsOut? && !es[i].AdminLogsOut?
  }

  lemma {:induction false} NoBoots(ss: seq<State>, es: seq<Event>, n: nat)
    requires Run(ss, es) && ApiOnly(es) && n < |ss|
    ensures ss[n].boots == []
  {
    if n > 0 { NoBoots(ss, es, n - 1); }
  }

  /** Over such a run a session that was there and is gone was ended by a definitive answer on the way. */
  lemma {:induction false} LostOnlyOnEvidence(ss: seq<State>, es: seq<Event>, m: nat, n: nat)
    requires Run(ss, es) && ApiOnly(es) && m <= n < |ss|
    requires (ss[m].auth.identity && !ss[n].auth.identity) || (ss[m].admin.identity && !ss[n].admin.identity)
    ensures exists i :: m <= i < n && Definitive(ss[i], es[i])
    decreases n - m
  {
    SessionLossCauses(ss, es, m);
    NoBoots(ss, es, m);
    if !Loses(ss[m], ss[m + 1]) || !Definitive(ss[m], es[m]) {
      LostOnlyOnEvidence(ss, es, m + 1, n);
    }
  }

  /** Not so with `bootstrapSession`: one gateway error while it refreshes clears the stored identity. */
  lemma {:induction false} BootstrapClearsOnGatewayError() returns (ss: seq<State>, es: seq<Event>)
    ensures Run(ss, es) && es == [StartBoot] + [RefreshAnswered(0, Status(502))] + [ResumeBoot(0)]
    ensures HasIdentity(ss[0]) && !HasIdentity(ss[3])
    ensures forall i :: 0 <= i < |es| ==> !Definitive(ss[i], es[i]) && !es[i].UserLogsOut? && !es[i].AdminLogsOut?
  {
    var gateway, resume := RefreshAnswered(0, Status(502)), ResumeBoot(0);
    var s0 := State(Store(true, None), LOGGED_OUT, false, None, [], None, [], []);
    var s1 := s0.(refreshes := [Asked], inFlight := Some(0), boots := [Waiting(0)]);
    BootMeetsGateway(s0, s1);
    var s2 := Apply(s1, gateway);
    RunSnoc([s0], [], StartBoot);
    RunSnoc([s0] + [s1], [StartBoot], gateway);
    RunSnoc([s0] + [s1] + [s2], [StartBoot] + [gateway], resume);
    ss, es := [s0] + [s1] + [s2] + [Apply(s2, resume)], [StartBoot] + [gateway] + [resume];
  }

  lemma {:induction false} BootMeetsGateway(s0: State, s1: State)
    requires s0 == State(Store(true, None), LOGGED_OUT, false, None, [], None, [], [])
    requires s1 == s0.(refreshes := [Asked], inFlight := Some(0), boots := [Waiting(0)])
    ensures Apply(s0, StartBoot) == s1 && Enabled(s1, RefreshAnswered(0, Status(502)))
    ensures var s2 := Apply(s1, RefreshAnswered(0, Status(502)));
            && Enabled(s2, ResumeBoot(0)) && !HasIdentity(Apply(s2, ResumeBoot(0)))
            && s2.auth == s1.auth && !WasDenied(s2.refreshes[0])
  {
    assert [] + [Asked] == [Asked] && [] + [Waiting(0)] == [Waiting(0)];
  }

  // ---- A token without an identity ----

  /** Some store holds a token, and none an identity: `bootstrapSession` would call the session usable. */
  predicate Nameless(s: State)
  {
    HasToken(s) && !HasIdentity(s)
  }

  /** A refresh hands out its token although everybody has logged out meanwhile. */
  predicate RefreshUndoesLogout(s: State, e: Event)
  {
    e.RefreshParsed? && e.token.Some? && !HasIdentity(s)
  }

  /** One store logs out, the last with an identity, and the other keeps the token that a refresh gave to both. */
  predicate HalfLogout(s: State, e: Event)
  {
    || (e.UserLogsOut? && !s.admin.identity && s.admin.token.Some?)
    || (e.AdminLogsOut? && !s.auth.identity && s.auth.token.Some?)
  }

  /** A token is stored on its own, as when other sessions are revoked, although everybody has logged out meanwhile. */
  predicate TokenAlone(s: State, e: Event)
  {
    e.SetSession? && !e.named && e.stored.Some? && !HasIdentity(s)
  }

  predicate MakesNameless(s: State, e: Event)
  {
    RefreshUndoesLogout(s, e) || HalfLogout(s, e) || TokenAlone(s, e)
  }

  /** Exactly these three steps, from any state that is not nameless, lead to one. */
  lemma {:induction false} NamelessCauses(s: State, e: Event)
    requires Enabled(s, e) && !Nameless(s)
    ensures Nameless(Apply(s, e)) <==> MakesNameless(s, e)
  {
  }

  /** In a run that starts with no such token, a nameless session goes back to one of them. */
  lemma {:induction false} NamelessHasCause(ss: seq<State>, es: seq<Event>, n: nat)
    requires Run(ss, es) && n < |ss| && !Nameless(ss[0]) && Nameless(ss[n])
    ensures exists i :: 0 <= i < n && MakesNameless(ss[i], es[i])
  {
    if Nameless(ss[n - 1]) { NamelessHasCause(ss, es, n - 1); } else { NamelessCauses(ss[n - 1], es[n - 1]); }
  }

  lemma {:induction false} RunSnoc(ss: seq<State>, es: seq<Event>, e: Event)
    requires Run(ss, es) && Enabled(ss[|es|], e)
    ensures Run(ss + [Apply(ss[|es|], e)], es + [e])
  {
    var ss', es' := ss + [Apply(ss[|es|], e)], es + [e];
    forall i | 0 <= i < |es'| ensures Enabled(ss'[i], es'[i]) && ss'[i + 1] == Apply(ss'[i], es'[i]) {
      if i < |es| { assert ss'[i] == ss[i] && ss'[i + 1] == ss[i + 1] && es'[i] == es[i]; }
    }
  }

  /** A user logs out while the refresh of a bootstrap is on its way. */
  lemma {:induction false} LogoutInFlight() returns (ss: seq<State>, es: seq<Event>)
    ensures Run(ss, es) && es == [StartBoot, UserLogsOut] && !Nameless(ss[0])
    ensures ss[2] == State(LOGGED_OUT, LOGGED_OUT, false, Some(0), [Asked], None, [], [Waiting(0)])
  {
    var s0 := State(Store(true, None), LOGGED_OUT, false, None, [], None, [], []);
    RunSnoc([s0], [], StartBoot);
    var s1 := Apply(s0, StartBoot);
    RunSnoc([s0, s1], [StartBoot], UserLogsOut);
    ss, es := [s0, s1, Apply(s1, UserLogsOut)], [StartBoot, UserLogsOut];
  }

  lemma {:induction false} RefreshLands(s: State, t: Token)
    requires s == State(LOGGED_OUT, LOGGED_OUT, false, Some(0), [Asked], None, [], [Waiting(0)])
    ensures Enabled(s, RefreshAnswered(0, Status(200)))
    ensures var s' := Apply(s, RefreshAnswered(0, Status(200)));
            && Enabled(s', RefreshParsed(0, Some(t)))
            && Nameless(Apply(s', RefreshParsed(0, Some(t)))) && Apply(s', RefreshParsed(0, Some(t))).boots == s.boots
  {
  }

  /** The logout is undone, and the next bootstrap finds a usable session without a user. */
  lemma {:induction false} LogoutUndoneExample(t: Token) returns (ss: seq<State>, es: seq<Event>)
    ensures Run(ss, es)
    ensures es
         == [StartBoot, UserLogsOut] + [RefreshAnswered(0, Status(200))] + [RefreshParsed(0, Some(t))] + [StartBoot]
    ensures !Nameless(ss[0]) && Nameless(ss[5]) && |ss[5].boots| == 2 && ss[5].boots[1] == Returned(true)
  {
    var answered, parsed := RefreshAnswered(0, Status(200)), RefreshParsed(0, Some(t));
    ss, es := LogoutInFlight();
    RefreshLands(ss[2], t);
    RunSnoc(ss, es, answered);
    var s3 := Apply(ss[2], answered);
    RunSnoc(ss + [s3], es + [answered], parsed);
    var s4 := Apply(s3, parsed);
    RunSnoc(ss + [s3] + [s4], es + [answered] + [parsed], StartBoot);
    ss, es := ss + [s3] + [s4] + [Apply(s4, StartBoot)], es + [answered] + [parsed] + [StartBoot];
  }

  /** A user logs out before the new token of a revocation is stored: it is stored without a user. */
  lemma {:induction false} TokenAloneExample(t: Token) returns (ss: seq<State>, es: seq<Event>)
    ensures Run(ss, es) && es == [UserLogsOut] + [SetSession(false, Some(t))] + [StartBoot]
    ensures !Nameless(ss[0]) && Nameless(ss[3]) && ss[3].boots == [Returned(true)]
  {
    var s0 := State(Store(true, Some(t)), LOGGED_OUT, false, None, [], None, [], []);
    var store := SetSession(false, Some(t));
    var s1 := Apply(s0, UserLogsOut);
    var s2 := Apply(s1, store);
    RunSnoc([s0], [], UserLogsOut);
    RunSnoc([s0] + [s1], [UserLogsOut], store);
    RunSnoc([s0] + [s1] + [s2], [UserLogsOut] + [store], StartBoot);
    ss, es := [s0] + [s1] + [s2] + [Apply(s2, StartBoot)], [UserLogsOut] + [store] + [StartBoot];
  }

  // ---- A probe that meets a gateway error ----

  /** The call that the gateway error turns away: its session is not refused, only unavailable. */
  const TURNED_AWAY := Call(false, false, Finished(Unauthorized(false)), 1, 1, Some(0), true)

  lemma {:induction false} ProbeAsks() returns (ss: seq<State>, es: seq<Event>)
    ensures Run(ss, es) && es == [StartCall(false, true)] + [CallAnswered(0, Status(401))] + [CallParsed(0)]
    ensures ss[0] == State(Store(true, None), LOGGED_OUT, false, None, [], None, [], [])
    ensures ss[3] == ss[0].(inFlight := Some(0), refreshes := [Asked],
                            calls := [TURNED_AWAY.(pc := Joined(0))])
    ensures HasIdentity(ss[1]) && HasIdentity(ss[2])
  {
    var e0, e1, e2 := StartCall(false, true), CallAnswered(0, Status(401)), CallParsed(0);
    var s0 := State(Store(true, None), LOGGED_OUT, false, None, [], None, [], []);
    var s1 := Apply(s0, e0);
    var s2 := Apply(s1, e1);
    RunSnoc([s0], [], e0);
    RunSnoc([s0] + [s1], [e0], e1);
    RunSnoc([s0] + [s1] + [s2], [e0] + [e1], e2);
    ss, es := [s0] + [s1] + [s2] + [Apply(s2, e2)], [e0] + [e1] + [e2];
  }

  lemma {:induction false} ProbeTurnedAway(s: State)
    requires s.calls == [TURNED_AWAY.(pc := Joined(0))] && s.refreshes == [Asked] && s.boots == [] && !s.denied
    ensures Enabled(s, RefreshAnswered(0, Status(502)))
    ensures var s' := Apply(s, RefreshAnswered(0, Status(502)));
            && Enabled(s', ResumeCall(0)) && s'.auth == s.auth && s'.admin == s.admin
            && var s'' := Apply(s', ResumeCall(0));
               s''.calls == [TURNED_AWAY] && s''.auth == s.auth && s''.admin == s.admin
                 && Enabled(s'', ProbeRejected(0))
  {
  }

  lemma {:induction false} ProbeMeetsGateway() returns (ss: seq<State>, es: seq<Event>)
    ensures Run(ss, es) && |es| == 5 && es[3] == RefreshAnswered(0, Status(502)) && es[4] == ResumeCall(0)
    ensures HasIdentity(ss[5]) && ss[5].calls == [TURNED_AWAY] && Enabled(ss[5], ProbeRejected(0))
    ensures forall i :: 0 <= i < |es| ==> !es[i].StartBoot? && !es[i].UserLogsOut? && !es[i].AdminLogsOut?
    ensures forall i :: 0 <= i < |es| ==> !Definitive(ss[i], es[i])
  {
    var gateway, resume := RefreshAnswered(0, Status(502)), ResumeCall(0);
    ss, es := ProbeAsks();
    ProbeTurnedAway(ss[3]);
    var s4 := Apply(ss[3], gateway);
    RunSnoc(ss, es, gateway);
    RunSnoc(ss + [s4], es + [gateway], resume);
    ss, es := ss + [s4] + [Apply(s4, resume)], es + [gateway] + [resume];
  }

  /** One gateway error while a probe refreshes clears the identity, though nobody refused the session. */
  lemma {:induction false} ProbeClearsOnGatewayError() returns (ss: seq<State>, es: seq<Event>)
    ensures Run(ss, es) && |es| == 6 && es[3] == RefreshAnswered(0, Status(502)) && es[5] == ProbeRejected(0)
    ensures HasIdentity(ss[5]) && !HasIdentity(ss[6]) && ss[5].calls == [TURNED_AWAY]
    ensures forall i :: 0 <= i < |es| ==> !es[i].StartBoot? && !es[i].UserLogsOut? && !es[i].AdminLogsOut?
    ensures forall i :: 0 <= i < |es| ==> !Definitive(ss[i], es[i])
  {
    ss, es := ProbeMeetsGateway();
    RunSnoc(ss, es, ProbeRejected(0));
    ss, es := ss + [Apply(ss[5], ProbeRejected(0))], es + [ProbeRejected(0)];
  }
}
