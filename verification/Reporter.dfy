/**
 The client error reporter of `client/src/lib/reportError.ts`: throttling per
 key, a bounded queue, a flush timer and a ring of breadcrumbs.  `Reporter` is
 the module's mutable state; its methods are proved against `Step`, and what a
 run of `Step` amounts to is stated from the events alone.
 */
module Reporter {
  import opened Wrappers
  import opened Sums

  const THROTTLE_MS := 12000
  const MAX_QUEUE := 40
  const FLUSH_AT := 8
  const MAX_BREADCRUMBS := 40

  /** `status` is the text of the status code, empty when there is none. */
  datatype Report = Report(kind: string, endpoint: Option<string>, status: string, message: string)

  datatype Queued = Queued(report: Report, at: int, suppressed: nat)

  datatype Breadcrumb = Breadcrumb(category: string, message: string)

  function Cut(s: string, n: nat): string
  {
    if |s| <= n then s else s[..n]
  }

  function FirstLine(s: string): string
  {
    if s == "" || s[0] == '\n' then "" else [s[0]] + FirstLine(s[1..])
  }

  function ReportKey(r: Report): string
  {
    var endpoint := if r.endpoint.Some? then r.endpoint.value else "";
    r.kind + ":" + endpoint + ":" + r.status + ":" + Cut(FirstLine(r.message), 100)
  }

  /** The message up to its first line break. */
  lemma {:induction false} FirstLineEnds(s: string)
    ensures FirstLine(s) <= s && '\n' !in FirstLine(s)
    ensures |FirstLine(s)| < |s| ==> s[|FirstLine(s)|] == '\n'
  {
    if s != "" && s[0] != '\n' {
      FirstLineEnds(s[1..]);
      assert s == [s[0]] + s[1..];
    }
  }

  lemma {:induction false} CutAtColon(a: string, b: string, a': string, b': string)
    requires ':' !in a && ':' !in a' && a + ":" + b == a' + ":" + b'
    ensures a == a' && b == b'
  {
    var s := a + ":" + b;
    assert s[|a|] == ':' && s[|a'|] == ':';
    assert forall i :: 0 <= i < |a| ==> s[i] == a[i];
    assert forall i :: 0 <= i < |a'| ==> s[i] == a'[i];
    assert !(|a| < |a'|) && !(|a'| < |a|);
    assert s[..|a|] == a && s[|a| + 1..] == b;
    assert s[..|a'|] == a' && s[|a'| + 1..] == b';
  }

  function EndpointOf(r: Report): string { if r.endpoint.Some? then r.endpoint.value else "" }

  /** No part but the message has a colon, which separates the parts of a key. */
  predicate Plain(r: Report)
  {
    ':' !in r.kind && ':' !in EndpointOf(r) && ':' !in r.status
  }

  /**
   Two reports count as the same exactly if kind, endpoint, status and the first hundred
   characters of the first line agree.
   */
  lemma {:induction false} SameKeyIff(r: Report, r': Report)
    requires Plain(r) && Plain(r')
    ensures ReportKey(r) == ReportKey(r') <==>
              && r.kind == r'.kind && EndpointOf(r) == EndpointOf(r') && r.status == r'.status
              && Cut(FirstLine(r.message), 100) == Cut(FirstLine(r'.message), 100)
  {
    var e, e', m, m' := EndpointOf(r), EndpointOf(r'), Cut(FirstLine(r.message), 100), Cut(FirstLine(r'.message), 100);
    assert ReportKey(r) == r.kind + ":" + (e + ":" + (r.status + ":" + m));
    assert ReportKey(r') == r'.kind + ":" + (e' + ":" + (r'.status + ":" + m'));
    if ReportKey(r) == ReportKey(r') {
      CutAtColon(r.kind, e + ":" + (r.status + ":" + m), r'.kind, e' + ":" + (r'.status + ":" + m'));
      CutAtColon(e, r.status + ":" + m, e', r'.status + ":" + m');
      CutAtColon(r.status, m, r'.status, m');
    }
  }

  /** With a colon in an endpoint, different reports can count as the same. */
  lemma {:induction false} SharedKeyExample(kind: string, message: string)
    ensures ReportKey(Report(kind, Some("a:1"), "", message)) == ReportKey(Report(kind, Some("a"), "1:", message))
  {
  }

  // ---- State and steps ----

  /** `posted` lists the batches handed to the transport so far. */
  datatype State = State(
    reportedAt: map<string, int>, suppressed: map<string, nat>, queue: seq<Queued>, timerArmed: bool,
    breadcrumbs: seq<Breadcrumb>, posted: seq<seq<Queued>>)

  const START := State(map[], map[], [], false, [], [])

  /** `noise` is the verdict of the filters that precede the throttle. */
  datatype Event =
    | Reported(report: Report, now: int, noise: bool)
    | TimerFires
    | PageHides
    | Crumb(item: Breadcrumb)

  function Get<T>(m: map<string, T>, k: string, default: T): T
  {
    if k in m then m[k] else default
  }

  function AddBreadcrumb(s: State, item: Breadcrumb): State
  {
    var all := s.breadcrumbs + [item.(message := Cut(item.message, 240))];
    s.(breadcrumbs := if |all| > MAX_BREADCRUMBS then all[1..] else all)
  }

  function Flush(s: State): State
  {
    if s.queue == [] then s
    else
      var n := if |s.queue| <= MAX_QUEUE then |s.queue| else MAX_QUEUE;
      s.(posted := s.posted + [s.queue[..n]], queue := s.queue[n..])
  }

  function TrailOf(r: Report): Breadcrumb
  {
    Breadcrumb("http", "[" + r.kind + "] " + Cut(r.message, 120))
  }

  function ReportStep(s: State, r: Report, now: int, noise: bool): State
  {
    var key := ReportKey(r);
    if noise then s
    else if now - Get(s.reportedAt, key, 0) < THROTTLE_MS then
      s.(suppressed := s.suppressed[key := Get(s.suppressed, key, 0) + 1])
    else
      var count := Get(s.suppressed, key, 0);
      var s1 := AddBreadcrumb(s.(suppressed := s.suppressed[key := 0], reportedAt := s.reportedAt[key := now]),
        TrailOf(r));
      var s2 := s1.(queue := s1.queue + [Queued(r, now, count)]);
      if |s2.queue| >= FLUSH_AT then Flush(s2) else s2.(timerArmed := true)
  }

  function Step(s: State, e: Event): State
  {
    match e
    case Reported(r, now, noise) => ReportStep(s, r, now, noise)
    case TimerFires => if s.timerArmed then Flush(s.(timerArmed := false)) else s
    case PageHides => Flush(s)
    case Crumb(item) => AddBreadcrumb(s, item)
  }

  function Exec(es: seq<Event>): State
  {
    if es == [] then START else Step(Exec(es[..|es| - 1]), es[|es| - 1])
  }

  lemma {:induction false} ExecSnoc(es: seq<Event>, e: Event)
    ensures Exec(es + [e]) == Step(Exec(es), e)
  {
    assert (es + [e])[..|es|] == es;
  }

  // ---- What should happen, from the events alone ----

  /** When a report with this key was last accepted; the epoch if never. */
  function LastAt(acc: seq<Queued>, key: string): int
  {
    if acc == [] then 0
    else if ReportKey(acc[|acc| - 1].report) == key then acc[|acc| - 1].at
    else LastAt(acc[..|acc| - 1], key)
  }

  predicate Counts(e: Event, key: string)
  {
    e.Reported? && !e.noise && ReportKey(e.report) == key
  }

  /** A report is throttled if the last accepted one with its key is less than twelve seconds old. */
  predicate Throttled(before: seq<Event>, e: Event)
  {
    e.Reported? && !e.noise && e.now - LastAt(Accepted(before), ReportKey(e.report)) < THROTTLE_MS
  }

  /** The accepted reports of a run, each with the number throttled since the one before. */
  function Accepted(es: seq<Event>): seq<Queued>
    decreases |es|, 1
  {
    if es == [] then []
    else
      var before, e := es[..|es| - 1], es[|es| - 1];
      if !e.Reported? || e.noise || e.now - LastAt(Accepted(before), ReportKey(e.report)) < THROTTLE_MS
        then Accepted(before)
      else Accepted(before) + [Queued(e.report, e.now, PendingCount(before, ReportKey(e.report)))]
  }

  /** How many reports with this key were throttled since the last accepted one. */
  function PendingCount(es: seq<Event>, key: string): nat
    decreases |es|, 0
  {
    if es == [] then 0
    else
      var before, e := es[..|es| - 1], es[|es| - 1];
      if !Counts(e, key) then PendingCount(before, key)
      else if e.now - LastAt(Accepted(before), key) < THROTTLE_MS then PendingCount(before, key) + 1
      else 0
  }

  function ThrottledCount(es: seq<Event>, key: string): nat
  {
    if es == [] then 0
    else
      var before, e := es[..|es| - 1], es[|es| - 1];
      ThrottledCount(before, key) + if Counts(e, key) && Throttled(before, e) then 1 else 0
  }

  function Trail(es: seq<Event>): seq<Breadcrumb>
  {
    if es == [] then []
    else
      var before, e := es[..|es| - 1], es[|es| - 1];
      match e
      case Crumb(item) => Trail(before) + [item.(message := Cut(item.message, 240))]
      case Reported(r, _, noise) =>
        if noise || Throttled(before, e) then Trail(before)
        else Trail(before) + [TrailOf(r).(message := Cut(TrailOf(r).message, 240))]
      case _ => Trail(before)
  }

  function Concat(bs: seq<seq<Queued>>): seq<Queued>
  {
    if bs == [] then [] else Concat(bs[..|bs| - 1]) + bs[|bs| - 1]
  }

  function LastForty(all: seq<Breadcrumb>): seq<Breadcrumb>
  {
    if |all| <= MAX_BREADCRUMBS then all else all[|all| - MAX_BREADCRUMBS..]
  }

  // ---- The reporter does that ----

  /** The throttle knows the history of every key. */
  ghost predicate ThrottleOk(s: State, es: seq<Event>)
  {
    && (forall key :: Get(s.reportedAt, key, 0) == LastAt(Accepted(es), key))
    && (forall key :: Get(s.suppressed, key, 0) == PendingCount(es, key))
  }

  /** Every accepted report is posted or still queued, once and in order, and the queue never waits without a timer. */
  ghost predicate QueueOk(s: State, accepted: seq<Queued>)
  {
    && Concat(s.posted) + s.queue == accepted
    && |s.queue| < FLUSH_AT && (s.queue != [] ==> s.timerArmed)
    && (forall i :: 0 <= i < |s.posted| ==> 0 < |s.posted[i]| <= FLUSH_AT)
  }

  /** What a state owes to the events that led to it. */
  ghost predicate Faithful(s: State, es: seq<Event>)
  {
    ThrottleOk(s, es) && QueueOk(s, Accepted(es)) && s.breadcrumbs == LastForty(Trail(es))
  }

  lemma {:induction false} ConcatSnoc(bs: seq<seq<Queued>>, b: seq<Queued>)
    ensures Concat(bs + [b]) == Concat(bs) + b
  {
    assert (bs + [b])[..|bs|] == bs;
  }

  /** Flushing a queue that fits hands everything over. */
  lemma {:induction false} FlushAll(s: State)
    requires |s.queue| <= FLUSH_AT
    ensures Concat(Flush(s).posted) + Flush(s).queue == Concat(s.posted) + s.queue
    ensures Flush(s).queue == []
    ensures (forall i :: 0 <= i < |s.posted| ==> 0 < |s.posted[i]| <= FLUSH_AT)
        ==> forall i :: 0 <= i < |Flush(s).posted| ==> 0 < |Flush(s).posted[i]| <= FLUSH_AT
  {
    if s.queue != [] {
      ConcatSnoc(s.posted, s.queue);
      assert s.queue[..|s.queue|] == s.queue;
    }
  }

  lemma {:induction false} CrumbTail(s: State, all: seq<Breadcrumb>, item: Breadcrumb)
    requires s.breadcrumbs == LastForty(all)
    ensures AddBreadcrumb(s, item).breadcrumbs == LastForty(all + [item.(message := Cut(item.message, 240))])
  {
  }

  lemma {:induction false} QueueAccepts(s: State, acc: seq<Queued>, q: Queued)
    requires QueueOk(s, acc)
    ensures var s2 := s.(queue := s.queue + [q]);
            QueueOk(if |s2.queue| >= FLUSH_AT then Flush(s2) else s2.(timerArmed := true), acc + [q])
  {
    var s2 := s.(queue := s.queue + [q]);
    assert Concat(s2.posted) + s2.queue == Concat(s.posted) + s.queue + [q];
    FlushAll(s2);
  }

  lemma {:induction false} QueueFlushes(s: State, acc: seq<Queued>)
    requires QueueOk(s, acc)
    ensures QueueOk(Flush(s), acc) && QueueOk(Flush(s.(timerArmed := false)), acc)
  {
    FlushAll(s);
    FlushAll(s.(timerArmed := false));
  }

  /** The histories after one more event. */
  lemma {:induction false} HistoryStep(es: seq<Event>, e: Event)
    ensures var es' := es + [e];
            var accepts := e.Reported? && !e.noise && !Throttled(es, e);
            && Accepted(es') == (if accepts
               then Accepted(es) + [Queued(e.report, e.now, PendingCount(es, ReportKey(e.report)))]
                                 else Accepted(es))
            && (forall key :: PendingCount(es', key) ==
                  if !Counts(e, key) then PendingCount(es, key) else if accepts then 0 else PendingCount(es, key) + 1)
  {
    assert (es + [e])[..|es|] == es;
  }

  lemma {:induction false} LastAtSnoc(acc: seq<Queued>, q: Queued, key: string)
    ensures LastAt(acc + [q], key) == if ReportKey(q.report) == key then q.at else LastAt(acc, key)
  {
    assert (acc + [q])[..|acc|] == acc;
  }

  lemma {:induction false} StepMaps(s: State, e: Event)
    ensures var s' := Step(s, e);
            if !e.Reported? || e.noise then s'.reportedAt == s.reportedAt && s'.suppressed == s.suppressed
            else
              var key := ReportKey(e.report);
              if e.now - Get(s.reportedAt, key, 0) < THROTTLE_MS then
                s'.reportedAt == s.reportedAt && s'.suppressed == s.suppressed[key := Get(s.suppressed, key, 0) + 1]
              else s'.reportedAt == s.reportedAt[key := e.now] && s'.suppressed == s.suppressed[key := 0]
  {
  }

  lemma {:induction false} ThrottleStep(s: State, es: seq<Event>, e: Event)
    requires ThrottleOk(s, es)
    ensures ThrottleOk(Step(s, e), es + [e])
  {
    HistoryStep(es, e);
    StepMaps(s, e);
    var s', acc := Step(s, e), Accepted(es + [e]);
    forall key
      ensures Get(s'.reportedAt, key, 0) == LastAt(acc, key)
              && Get(s'.suppressed, key, 0) == PendingCount(es + [e], key)
    {
      if e.Reported? { LastAtSnoc(Accepted(es), Queued(e.report, e.now, PendingCount(es, ReportKey(e.report))), key); }
    }
  }

  lemma {:induction false} ReportTrail(s: State, e: Event, all: seq<Breadcrumb>)
    requires e.Reported? && s.breadcrumbs == LastForty(all)
    ensures Step(s, e).breadcrumbs ==
      if e.noise || e.now - Get(s.reportedAt, ReportKey(e.report), 0) < THROTTLE_MS then LastForty(all)
      else LastForty(all + [TrailOf(e.report).(message := Cut(TrailOf(e.report).message, 240))])
  {
    CrumbTail(s, all, TrailOf(e.report));
  }

  lemma {:induction false} TrailSnoc(es: seq<Event>, e: Event)
    ensures Trail(es + [e]) == match e
      case Crumb(item) => Trail(es) + [item.(message := Cut(item.message, 240))]
      case Reported(r, _, noise) =>
        if noise || Throttled(es, e) then Trail(es)
          else Trail(es) + [TrailOf(r).(message := Cut(TrailOf(r).message, 240))]
      case _ => Trail(es)
  {
    assert (es + [e])[..|es|] == es;
  }

  lemma {:induction false} TrailStep(s: State, es: seq<Event>, e: Event)
    requires ThrottleOk(s, es) && s.breadcrumbs == LastForty(Trail(es))
    ensures Step(s, e).breadcrumbs == LastForty(Trail(es + [e]))
  {
    TrailSnoc(es, e);
    match e
    case Crumb(item) => CrumbTail(s, Trail(es), item);
    case Reported(r, now, noise) =>
      ReportTrail(s, e, Trail(es));
      assert Get(s.reportedAt, ReportKey(r), 0) == LastAt(Accepted(es), ReportKey(r));
    case _ =>
  }

  lemma {:induction false} QueueStep(s: State, es: seq<Event>, e: Event)
    requires ThrottleOk(s, es) && QueueOk(s, Accepted(es))
    ensures QueueOk(Step(s, e), Accepted(es + [e]))
  {
    HistoryStep(es, e);
    match e
    case Reported(r, now, noise) =>
      if !noise && !Throttled(es, e) {
        var key := ReportKey(r);
        var s1 := AddBreadcrumb(s.(suppressed := s.suppressed[key := 0], reportedAt := s.reportedAt[key := now]),
          TrailOf(r));
        QueueAccepts(s1, Accepted(es), Queued(r, now, PendingCount(es, key)));
      }
    case TimerFires => QueueFlushes(s, Accepted(es));
    case PageHides => QueueFlushes(s, Accepted(es));
    case Crumb(_) =>
  }

  /**
   Every accepted report is posted or still queued, once and in order; the queue
   stays below eight and never waits without a timer; the breadcrumbs are the last
   forty; and the throttle knows exactly the history of every key.
   */
  lemma {:induction false} ReporterIsFaithful(es: seq<Event>)
    ensures Faithful(Exec(es), es)
  {
    if es != [] {
      var before, e := es[..|es| - 1], es[|es| - 1];
      ReporterIsFaithful(before);
      assert es == before + [e];
      ThrottleStep(Exec(before), before, e);
      QueueStep(Exec(before), before, e);
      TrailStep(Exec(before), before, e);
    }
  }

  // ---- Consequences ----

  /** An accepted report leaves a trail that names its kind and has at most 120 characters of its message. */
  lemma {:induction false} ReportLeavesTrail(es: seq<Event>, r: Report, now: int)
    requires !Throttled(es, Reported(r, now, false)) && |r.kind| <= 100
    ensures var bs, n := Exec(es + [Reported(r, now, false)]).breadcrumbs, |r.kind| + 3;
            && bs != [] && var b := bs[|bs| - 1];
            && b.category == "http" && "[" + r.kind + "] " <= b.message && b.message[n..] <= r.message
            && |b.message[n..]| == if |r.message| < 120 then |r.message| else 120
  {
    var e := Reported(r, now, false);
    ReporterIsFaithful(es + [e]);
    TrailSnoc(es, e);
    var head, tail := "[" + r.kind + "] ", Cut(r.message, 120);
    var b := TrailOf(r);
    assert b.message == head + tail && b.message[|head|..] == tail && |head| == |r.kind| + 3;
    assert b.(message := Cut(b.message, 240)) == b;
  }

  /** A page that hides, and the timer whenever something waits, leave nothing unposted. */
  lemma {:induction false} EverythingIsPosted(es: seq<Event>, e: Event)
    requires e.PageHides? || e.TimerFires?
    ensures var s := Exec(es + [e]); s.queue == [] && Concat(s.posted) == Accepted(es)
    ensures e.TimerFires? ==> !Exec(es + [e]).timerArmed
  {
    ExecSnoc(es, e);
    ReporterIsFaithful(es);
    ReporterIsFaithful(es + [e]);
    HistoryStep(es, e);
    FlushAll(Exec(es));
  }

  lemma {:induction false} StepWaits(s: State, r: Report, now: int)
    ensures |s.queue| < 7 ==> ReportStep(s, r, now, false).posted == s.posted
  {
  }

  /** A report is posted at once only with seven others waiting, and then with them; until then it waits. */
  lemma {:induction false} ReportWaits(es: seq<Event>, r: Report, now: int)
    ensures var s, s' := Exec(es), Exec(es + [Reported(r, now, false)]);
            && (|s.queue| < 7 ==> s'.posted == s.posted)
            && (|s.queue| == 7 && !Throttled(es, Reported(r, now, false)) ==>
                  s'.queue == [] && |s'.posted| == |s.posted| + 1)
  {
    var e := Reported(r, now, false);
    ExecSnoc(es, e);
    ReporterIsFaithful(es);
    StepWaits(Exec(es), r, now);
    if !Throttled(es, e) {
      assert Get(Exec(es).reportedAt, ReportKey(r), 0) == LastAt(Accepted(es), ReportKey(r));
      NotThrottled(Exec(es), r, now);
    }
  }

  lemma {:induction false} NotThrottled(s: State, r: Report, now: int)
    requires now - Get(s.reportedAt, ReportKey(r), 0) >= THROTTLE_MS
    ensures ReportStep(s, r, now, false).reportedAt == s.reportedAt[ReportKey(r) := now]
    ensures |s.queue| == 7 ==>
              ReportStep(s, r, now, false).queue == [] && |ReportStep(s, r, now, false).posted| == |s.posted| + 1
  {
  }

  /** A key not accepted before is accepted exactly once the clock has passed the throttle interval. */
  lemma {:induction false} FirstReportAccepted(es: seq<Event>, r: Report, now: int)
    requires forall i :: 0 <= i < |Accepted(es)| ==> ReportKey(Accepted(es)[i].report) != ReportKey(r)
    ensures |Accepted(es + [Reported(r, now, false)])| == |Accepted(es)| + 1 <==> now >= THROTTLE_MS
  {
    HistoryStep(es, Reported(r, now, false));
    LastAtNone(Accepted(es), ReportKey(r));
  }

  lemma {:induction false} LastAtNone(acc: seq<Queued>, key: string)
    requires forall i :: 0 <= i < |acc| ==> ReportKey(acc[i].report) != key
    ensures LastAt(acc, key) == 0
  {
    if acc != [] { LastAtNone(acc[..|acc| - 1], key); }
  }

  /** Accepted reports with one key are at least twelve seconds apart, however the clock moves. */
  ghost predicate Spaced(acc: seq<Queued>)
  {
    forall i, j | 0 <= i < j < |acc| ::
      ReportKey(acc[i].report) == ReportKey(acc[j].report) ==> acc[j].at - acc[i].at >= THROTTLE_MS
  }

  lemma {:induction false} LastIsLatest(acc: seq<Queued>, i: nat)
    requires Spaced(acc) && i < |acc|
    ensures acc[i].at <= LastAt(acc, ReportKey(acc[i].report))
  {
    var n := |acc| - 1;
    if i < n && ReportKey(acc[n].report) != ReportKey(acc[i].report) { LastIsLatest(acc[..n], i); }
  }

  lemma {:induction false} AcceptedAreSpaced(es: seq<Event>)
    ensures Spaced(Accepted(es))
  {
    if es != [] {
      var before, e := es[..|es| - 1], es[|es| - 1];
      AcceptedAreSpaced(before);
      var acc := Accepted(before);
      forall i | 0 <= i < |acc| ensures acc[i].at <= LastAt(acc, ReportKey(acc[i].report)) { LastIsLatest(acc, i); }
    }
  }

  function SuppressedOf(key: string): Queued -> int
  {
    (q: Queued) => if ReportKey(q.report) == key then q.suppressed else 0
  }

  /** No throttled report goes uncounted: each is in the count of a later accepted one, or still pending. */
  lemma {:induction false} ThrottledAreCounted(es: seq<Event>, key: string)
    ensures ThrottledCount(es, key) == Sum(SuppressedOf(key), Accepted(es)) + PendingCount(es, key)
  {
    if es != [] {
      var before, e := es[..|es| - 1], es[|es| - 1];
      ThrottledAreCounted(before, key);
      if e.Reported? {
        SumSnoc(SuppressedOf(key), Accepted(before),
          Queued(e.report, e.now, PendingCount(before, ReportKey(e.report))));
      }
    }
  }

  // ---- The module's state ----

  /** `events` is what has happened to the reporter so far. */
  class ErrorReporter {
    var reportedAt: map<string, int>
    var suppressed: map<string, nat>
    var queue: seq<Queued>
    var timerArmed: bool
    var breadcrumbs: seq<Breadcrumb>
    var posted: seq<seq<Queued>>
    ghost var events: seq<Event>

    ghost function View(): State
      reads this
    {
      State(reportedAt, suppressed, queue, timerArmed, breadcrumbs, posted)
    }

    ghost predicate Valid()
      reads this
    {
      View() == Exec(events)
    }

    constructor ()
      ensures Valid() && events == []
    {
      reportedAt, suppressed, queue, timerArmed, breadcrumbs, posted := map[], map[], [], false, [], [];
      events := [];
    }

    /** Whatever was called on it, the reporter has delivered, counted and kept what the events ask for. */
    lemma {:induction false} ValidIsFaithful()
      requires Valid()
      ensures Faithful(View(), events)
    {
      ReporterIsFaithful(events);
    }

    method PushBreadcrumb(item: Breadcrumb)
      modifies this`breadcrumbs
      ensures View() == AddBreadcrumb(old(View()), item)
    {
      breadcrumbs := breadcrumbs + [item.(message := Cut(item.message, 240))];
      if |breadcrumbs| > MAX_BREADCRUMBS {
        breadcrumbs := breadcrumbs[1..];
      }
    }

    method ScheduleFlush()
      modifies this`timerArmed
      ensures View() == old(View()).(timerArmed := true)
    {
      if timerArmed { return; }
      timerArmed := true;
    }

    method FlushErrorQueue()
      modifies this`queue, this`posted
      ensures View() == Flush(old(View()))
    {
      if |queue| == 0 { return; }
      var n := if |queue| <= MAX_QUEUE then |queue| else MAX_QUEUE;
      var batch := queue[..n];
      queue := queue[n..];
      posted := posted + [batch];
    }

    // What the rest of the client calls, and the browser's callbacks.

    method OnBreadcrumb(item: Breadcrumb)
      requires Valid()
      modifies this
      ensures Valid() && events == old(events) + [Crumb(item)]
    {
      ExecSnoc(events, Crumb(item));
      events := events + [Crumb(item)];
      PushBreadcrumb(item);
    }

    method OnPageHide()
      requires Valid()
      modifies this
      ensures Valid() && events == old(events) + [PageHides]
    {
      ExecSnoc(events, PageHides);
      events := events + [PageHides];
      FlushErrorQueue();
    }

    method OnTimer()
      requires Valid()
      modifies this
      ensures Valid() && events == old(events) + [TimerFires]
    {
      ExecSnoc(events, TimerFires);
      events := events + [TimerFires];
      if timerArmed {
        timerArmed := false;
        FlushErrorQueue();
      }
    }

    method ReportClientError(r: Report, now: int, noise: bool)
      requires Valid()
      modifies this
      ensures Valid() && events == old(events) + [Reported(r, now, noise)]
      ensures View() == Step(old(View()), Reported(r, now, noise))
    {
      ExecSnoc(events, Reported(r, now, noise));
      events := events + [Reported(r, now, noise)];
      if !noise { Throttle(r, now); }
    }

    /** What is left of the method behind the noise filters. */
    method Throttle(r: Report, now: int)
      modifies this`reportedAt, this`suppressed, this`queue, this`timerArmed, this`breadcrumbs, this`posted
      ensures View() == ReportStep(old(View()), r, now, false)
    {
      var key := ReportKey(r);
      var lastReported := Get(reportedAt, key, 0);
      if now - lastReported < THROTTLE_MS {
        suppressed := suppressed[key := Get(suppressed, key, 0) + 1];
        return;
      }
      var count := Get(suppressed, key, 0);
      suppressed := suppressed[key := 0];
      reportedAt := reportedAt[key := now];
      PushBreadcrumb(TrailOf(r));
      Push(Queued(r, now, count));
    }

    method Push(q: Queued)
      modifies this`queue, this`timerArmed, this`posted
      ensures var s2 := old(View()).(queue := old(queue) + [q]);
              View() == if |s2.queue| >= FLUSH_AT then Flush(s2) else s2.(timerArmed := true)
    {
      queue := queue + [q];
      if |queue| >= FLUSH_AT {
        FlushErrorQueue();
      } else {
        ScheduleFlush();
      }
    }
  }
}
