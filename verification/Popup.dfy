/**
 The popup branch of `signIn` in `client/public/sdk/satspay-auth.js`: a message
 listener and a polling timer race for the one callback of a sign-in.
 */
module Popup {

  /** What reading `popup.closed` gives. */
  datatype Seen = Open | Closed | Throws

  datatype Kind = AuthSuccess | AuthError | Other

  /** What the browser may deliver: a window message (`trusted`: from the SatsPay origin) or a tick of the timer. */
  datatype Event =
    | Message(trusted: bool, kind: Kind, body: string)
    | Tick(seen: Seen)

  datatype Call =
    | OnSuccess(body: string, verifier: string)
    | OnError(body: string)

  const POPUP_CLOSED := "popup_closed"

  predicate Accepted(e: Event)
  {
    e.Message? && e.trusted && e.kind != Other
  }

  /** The callback that an accepted message leads to. */
  function Answer(e: Event, verifier: string): Call
    requires Accepted(e)
  {
    if e.kind == AuthSuccess then OnSuccess(e.body, verifier) else OnError(e.body)
  }

  /** The variables that the two handlers close over; `calls` lists the callbacks made, `events` what was delivered. */
  class SignIn {
    const verifier: string
    var finished: bool
    var listening: bool
    var polling: bool
    var calls: seq<Call>
    ghost var events: seq<Event>

    constructor (verifier: string)
      ensures this.verifier == verifier && Valid() && events == []
    {
      this.verifier := verifier;
      finished := false;
      listening, polling := true, true;
      calls := [];
      events := [];
    }

    function State(): Vars
      reads this
    {
      Vars(finished, listening, polling, calls)
    }

    /** The handlers have made of the events what the schedule asks for. */
    ghost predicate Valid()
      reads this
    {
      State() == Exec(events, verifier)
    }

    method OnMessage(e: Event)
      requires e.Message? && listening
      modifies this`finished, this`listening, this`calls
      ensures State() == Step(old(State()), e, verifier)
    {
      if !e.trusted { return; }
      if e.kind == Other { return; }
      finished := true;
      listening := false;
      if e.kind == AuthSuccess {
        calls := calls + [OnSuccess(e.body, verifier)];
      } else {
        calls := calls + [OnError(e.body)];
      }
    }

    method OnPoll(seen: Seen)
      requires polling
      modifies this`polling, this`listening, this`calls
      ensures State() == Step(old(State()), Tick(seen), verifier)
    {
      if finished {
        polling := false;
        return;
      }
      match seen
      case Closed =>
        polling := false;
        listening := false;
        calls := calls + [OnError(POPUP_CLOSED)];
      case Throws =>
        polling := false;
      case Open =>
    }

    /** The browser delivers to registered handlers only. */
    method Deliver(e: Event)
      requires Valid()
      modifies this
      ensures Valid() && events == old(events) + [e]
      ensures State() == Step(old(State()), e, verifier)
      ensures |calls| <= 1
    {
      events := events + [e];
      if e.Message? && listening { OnMessage(e); }
      else if e.Tick? && polling { OnPoll(e.seen); }
      OutcomeOfSchedule(events, verifier);
    }
  }

  datatype Vars = Vars(finished: bool, listening: bool, polling: bool, calls: seq<Call>)

  const START := Vars(false, true, true, [])

  function Step(s: Vars, e: Event, verifier: string): Vars
  {
    if e.Message? then
      if s.listening && Accepted(e) then Vars(true, false, s.polling, s.calls + [Answer(e, verifier)]) else s
    else if !s.polling then s
    else if s.finished then s.(polling := false)
    else match e.seen
      case Closed => Vars(s.finished, false, false, s.calls + [OnError(POPUP_CLOSED)])
      case Throws => s.(polling := false)
      case Open => s
  }

  /** The variables after a schedule of events. */
  function Exec(es: seq<Event>, verifier: string): Vars
  {
    if es == [] then START else Step(Exec(es[..|es| - 1], verifier), es[|es| - 1], verifier)
  }

  // ---- The outcome, read off the schedule alone ----

  /** The timer gave up: a tick could not read the popup. */
  predicate GaveUp(es: seq<Event>)
  {
    Tick(Throws) in es
  }

  /** An event that ends the sign-in: an accepted message, or a tick that sees the popup closed while the timer runs. */
  predicate Decisive(es: seq<Event>, i: nat)
    requires i < |es|
  {
    Accepted(es[i]) || (es[i] == Tick(Closed) && !GaveUp(es[..i]))
  }

  predicate FirstDecisive(es: seq<Event>, i: nat)
  {
    i < |es| && Decisive(es, i) && forall j :: 0 <= j < i ==> !Decisive(es, j)
  }

  predicate Undecided(es: seq<Event>)
  {
    forall j :: 0 <= j < |es| ==> !Decisive(es, j)
  }

  function Outcome(e: Event, verifier: string): Call
  {
    if Accepted(e) then Answer(e, verifier) else OnError(POPUP_CLOSED)
  }

  lemma {:induction false} UndecidedRuns(es: seq<Event>, verifier: string)
    requires Undecided(es)
    ensures Exec(es, verifier) == Vars(false, true, !GaveUp(es), [])
  {
    if es != [] {
      var n := |es| - 1;
      var before := es[..n];
      forall j | 0 <= j < n ensures !Decisive(before, j) {
        assert before[..j] == es[..j];
        assert !Decisive(es, j);
      }
      UndecidedRuns(before, verifier);
      assert es == before + [es[n]];
      assert !Decisive(es, n);
    }
  }

  lemma {:induction false} DecidedRuns(es: seq<Event>, i: nat, verifier: string)
    requires FirstDecisive(es, i)
    ensures var s := Exec(es, verifier);
            s.calls == [Outcome(es[i], verifier)] && !s.listening && (s.finished || !s.polling)
  {
    var n := |es| - 1;
    var before := es[..n];
    if i == n {
      forall j | 0 <= j < n ensures !Decisive(before, j) {
        assert before[..j] == es[..j];
        assert !Decisive(es, j);
      }
      UndecidedRuns(before, verifier);
    } else {
      assert Decisive(before, i) by { assert before[..i] == es[..i]; }
      forall j | 0 <= j < i ensures !Decisive(before, j) {
        assert before[..j] == es[..j];
        assert !Decisive(es, j);
      }
      DecidedRuns(before, i, verifier);
    }
  }

  lemma {:induction false} DecidedOrNot(es: seq<Event>, n: nat) returns (i: nat)
    requires n <= |es|
    ensures FirstDecisive(es, i) || (i == |es| && forall j :: 0 <= j < n ==> !Decisive(es, j))
  {
    if n == 0 {
      i := |es|;
    } else {
      i := DecidedOrNot(es, n - 1);
      if i == |es| && Decisive(es, n - 1) { i := n - 1; }
    }
  }

  /** In every schedule the callbacks made are exactly the outcome of its first decisive event, or none. */
  lemma {:induction false} OutcomeOfSchedule(es: seq<Event>, verifier: string)
    ensures forall i: nat :: FirstDecisive(es, i) ==> Exec(es, verifier).calls == [Outcome(es[i], verifier)]
    ensures Undecided(es) ==> Exec(es, verifier).calls == []
    ensures |Exec(es, verifier).calls| <= 1
  {
    forall i: nat | FirstDecisive(es, i) ensures Exec(es, verifier).calls == [Outcome(es[i], verifier)] {
      DecidedRuns(es, i, verifier);
    }
    var i := DecidedOrNot(es, |es|);
    if i == |es| { UndecidedRuns(es, verifier); }
  }

  /** Once a callback was made, no later event leads to another. */
  lemma {:induction false} SettledForGood(es: seq<Event>, later: seq<Event>, verifier: string)
    requires Exec(es, verifier).calls != []
    ensures Exec(es + later, verifier).calls == Exec(es, verifier).calls
  {
    var i := DecidedOrNot(es, |es|);
    if i == |es| {
      UndecidedRuns(es, verifier);
      assert false;
    }
    DecidedRuns(es, i, verifier);
    var all := es + later;
    forall j | 0 <= j <= i ensures all[j] == es[j] && (Decisive(all, j) <==> Decisive(es, j)) {
      assert all[..j] == es[..j];
    }
    DecidedRuns(all, i, verifier);
  }

  /** A success message is reported, with the verifier, exactly if no decisive event came before it. */
  lemma {:induction false} SuccessIsReported(es: seq<Event>, body: string, verifier: string)
    ensures Exec(es + [Message(true, AuthSuccess, body)], verifier).calls
            == Exec(es, verifier).calls + [OnSuccess(body, verifier)]
       <==> Undecided(es)
  {
    var e := Message(true, AuthSuccess, body);
    assert (es + [e])[..|es|] == es;
    var i := DecidedOrNot(es, |es|);
    if i == |es| { UndecidedRuns(es, verifier); } else { DecidedRuns(es, i, verifier); }
  }

  /** So is an error message, to the other callback and with its own body. */
  lemma {:induction false} ErrorIsReported(es: seq<Event>, body: string, verifier: string)
    ensures Exec(es + [Message(true, AuthError, body)], verifier).calls == Exec(es, verifier).calls + [OnError(body)]
       <==> Undecided(es)
  {
    var e := Message(true, AuthError, body);
    assert (es + [e])[..|es|] == es;
    var i := DecidedOrNot(es, |es|);
    if i == |es| { UndecidedRuns(es, verifier); } else { DecidedRuns(es, i, verifier); }
  }

  /** Messages from elsewhere, and of other kinds, change nothing. */
  lemma {:induction false} OthersAreIgnored(es: seq<Event>, trusted: bool, kind: Kind, body: string, verifier: string)
    requires !trusted || kind == Other
    ensures Exec(es + [Message(trusted, kind, body)], verifier) == Exec(es, verifier)
  {
    var e := Message(trusted, kind, body);
    assert (es + [e])[..|es|] == es;
  }

  /**
   A sign-in that succeeded is reported as abandoned when a tick sees the popup closed
   before the message is delivered.
   */
  lemma {:induction false} CloseBeatsSuccess(body: string, verifier: string)
    ensures Exec([Tick(Closed), Message(true, AuthSuccess, body)], verifier).calls == [OnError(POPUP_CLOSED)]
  {
    var es := [Tick(Closed), Message(true, AuthSuccess, body)];
    assert FirstDecisive(es, 0);
    DecidedRuns(es, 0, verifier);
  }

  /** After a tick that could not read the popup, closing it is never reported. */
  lemma {:induction false} SilentAfterThrow(es: seq<Event>, later: seq<Event>, verifier: string)
    requires Undecided(es) && GaveUp(es)
    requires forall i :: 0 <= i < |later| ==> !Accepted(later[i])
    ensures Exec(es + later, verifier).calls == []
  {
    var all := es + later;
    forall j | 0 <= j < |all| ensures !Decisive(all, j) {
      if j < |es| {
        assert all[..j] == es[..j] && !Decisive(es, j);
      } else {
        assert all[..j] == es + later[..j - |es|];
        assert all[j] == later[j - |es|];
      }
    }
    UndecidedRuns(all, verifier);
  }
}
