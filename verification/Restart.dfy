/** Session restarts: the request, its preflight, re-arms, closes and the return
    mark, over every interleaving of their locked updates
    (cmd/spinclass/restart_cmd.go, internal/delta/close/close.go,
    internal/delta/hooks/hooks.go). */
module Restart {
  import opened Text

  const MAX_REARMS := 2
  /** RestartInFlightWindow, two minutes in nanoseconds. */
  const WINDOW := 120_000_000_000

  datatype Request = Request(id: nat, idle: bool)

  /** The part of a session record that restarts and closes touch. */
  datatype Rec = Rec(
    request: Option<Request>, closingAt: Option<int>,
    restartingAt: Option<int>, firstAt: Option<int>, rearms: nat, restartedAt: Option<int>)

  // ------------------------------------------------------------- locked updates

  predicate InFlight(r: Rec, now: int) {
    r.restartingAt.Some? && now - r.restartingAt.value < WINDOW
  }

  /** The return mark of the current restart is set. */
  predicate CameBack(r: Rec) {
    r.restartingAt.Some? && r.restartedAt.Some? && r.restartedAt.value >= r.restartingAt.value
  }

  /** The preflight's locked step: a close that began since the read wins. */
  function Consumed(r: Rec, now: int): Option<Rec> {
    if r.closingAt.Some? then None
    else Some(r.(request := None, restartingAt := Some(now), firstAt := Some(now), rearms := 0))
  }

  /** The re-arm's locked step. */
  function Rearmed(r: Rec, now: int): Option<Rec> {
    if r.closingAt.Some? || r.request.Some? || r.restartingAt.None? || r.rearms >= MAX_REARMS || CameBack(r) then None
    else Some(r.(firstAt := if r.firstAt.None? then r.restartingAt else r.firstAt,
                 restartingAt := Some(now), rearms := r.rearms + 1))
  }

  /** beginClosing: refused while a consumed restart is in flight, unless forced. */
  function Closing(r: Rec, now: int, force: bool): Option<Rec> {
    if !force && InFlight(r, now) then None else Some(r.(closingAt := Some(now)))
  }

  /** markRestartReturn. */
  function Returned(r: Rec, now: int): Option<Rec> {
    if r.restartingAt.None? || CameBack(r) then None else Some(r.(restartedAt := Some(now)))
  }

  /** What a re-arm checks on its unlocked read. */
  predicate RearmReadOk(r: Rec, now: int) {
    && r.closingAt.None? && r.request.None? && r.restartingAt.Some? && !CameBack(r) && r.rearms < MAX_REARMS
    && now - (if r.firstAt.Some? then r.firstAt.value else r.restartingAt.value) < WINDOW
  }

  /** The record's fields and the closures run on them under the session lock. */
  class SessionRecord {
    var request: Option<Request>
    var closingAt: Option<int>
    var restartingAt: Option<int>
    var firstAt: Option<int>
    var rearms: nat
    var restartedAt: Option<int>

    function Fields(): Rec
      reads this
    {
      Rec(request, closingAt, restartingAt, firstAt, rearms, restartedAt)
    }

    method ConsumeRequest(now: int) returns (ok: bool)
      modifies this
      ensures ok <==> old(closingAt).None?
      ensures ok ==> Fields() == Rec(None, None, Some(now), Some(now), 0, old(restartedAt))
      ensures ok <==> Consumed(old(Fields()), now).Some?
      ensures Fields() == if ok then Consumed(old(Fields()), now).value else old(Fields())
    {
      if closingAt.Some? { return false; }
      request := None;
      restartingAt := Some(now);
      firstAt, rearms := Some(now), 0;
      return true;
    }

    method RearmRestart(now: int) returns (ok: bool)
      modifies this
      ensures ok <==> old(closingAt.None? && request.None? && restartingAt.Some? && rearms < 2
                          && (restartedAt.None? || restartedAt.value < restartingAt.value))
      ensures ok ==> Fields() == Rec(None, None, Some(now), if old(firstAt).None? then old(restartingAt) else old(firstAt),
                                     old(rearms) + 1, old(restartedAt))
      ensures ok <==> Rearmed(old(Fields()), now).Some?
      ensures Fields() == if ok then Rearmed(old(Fields()), now).value else old(Fields())
    {
      if closingAt.Some? { return false; }
      if request.Some? || restartingAt.None? || rearms >= MAX_REARMS { return false; }
      if restartedAt.Some? && restartedAt.value >= restartingAt.value { return false; }
      if firstAt.None? { firstAt := restartingAt; }
      restartingAt := Some(now);
      rearms := rearms + 1;
      return true;
    }

    method BeginClosing(now: int, force: bool) returns (ok: bool)
      modifies this
      ensures ok <==> force || old(restartingAt).None? || now - old(restartingAt).value >= 120_000_000_000
      ensures ok ==> Fields() == old(Fields()).(closingAt := Some(now))
      ensures ok <==> Closing(old(Fields()), now, force).Some?
      ensures Fields() == if ok then Closing(old(Fields()), now, force).value else old(Fields())
    {
      if !force && restartingAt.Some? && now - restartingAt.value < WINDOW { return false; }
      closingAt := Some(now);
      return true;
    }

    method MarkReturn(now: int) returns (ok: bool)
      modifies this
      ensures ok <==> old(restartingAt.Some? && (restartedAt.None? || restartedAt.value < restartingAt.value))
      ensures ok ==> Fields() == old(Fields()).(restartedAt := Some(now))
      ensures ok <==> Returned(old(Fields()), now).Some?
      ensures Fields() == if ok then Returned(old(Fields()), now).value else old(Fields())
    {
      if restartingAt.None? { return false; }
      if restartedAt.Some? && restartedAt.value >= restartingAt.value { return false; }
      restartedAt := Some(now);
      return true;
    }
  }

  // -------------------------------------------------------------------- machine

  /** The history of the locked updates: requests queued, over one that still
      was, and withdrawn; verdicts, with the request the update cleared; closes
      marked and given up; the session coming back. */
  datatype Event =
    | Queued(id: nat, over: Option<Request>)
    | Cancelled(id: nat)
    | Restarted(id: nat, at: int, cleared: Option<Request>)
    | Refused(id: nat, cleared: Option<Request>)
    | RearmedAgain(at: int)
    | ClosingMarked
    | ClosingCleared
    | Back

  /** A command between its unlocked read and its locked update. */
  datatype Thread = Preflight(request: Request) | Rearm | Finished

  datatype State = State(rec: Rec, threads: seq<Thread>, log: seq<Event>, now: int, requests: nat)

  datatype Step =
    | ClockReads(now: int)
    | QueueRequest(idle: bool)
    | ClearRequest
    | PreflightReads
    | PreflightRefuses(i: nat)
    | PreflightCommits(i: nat)
    | RearmReads
    | RearmRefuses(i: nat)
    | RearmCommits(i: nat)
    | CloseBegins(force: bool)
    | CloseFails
    | SessionStarts

  predicate Enabled(s: State, step: Step) {
    match step
    case PreflightReads => s.rec.request.Some? && s.rec.closingAt.None?
    case PreflightRefuses(i) => i < |s.threads| && s.threads[i].Preflight?
    case PreflightCommits(i) => i < |s.threads| && s.threads[i].Preflight?
    case RearmReads => RearmReadOk(s.rec, s.now)
    case RearmRefuses(i) => i < |s.threads| && s.threads[i].Rearm?
    case RearmCommits(i) => i < |s.threads| && s.threads[i].Rearm?
    case _ => true
  }

  function Logged(s: State, r: Option<Rec>, e: Event): State {
    if r.None? then s else s.(rec := r.value, log := s.log + [e])
  }

  function Finish(s: State, i: nat): State
    requires i < |s.threads|
  {
    s.(threads := s.threads[i := Finished])
  }

  function Next(s: State, step: Step): State
    requires Enabled(s, step)
  {
    match step
    case ClockReads(now) => s.(now := now)
    case QueueRequest(idle) =>
      Logged(s, Some(s.rec.(request := Some(Request(s.requests, idle)))), Queued(s.requests, s.rec.request)).(requests := s.requests + 1)
    case ClearRequest =>
      if s.rec.request.None? then s else Logged(s, Some(s.rec.(request := None)), Cancelled(s.rec.request.value.id))
    case PreflightReads => s.(threads := s.threads + [Preflight(s.rec.request.value)])
    case PreflightRefuses(i) => Finish(Logged(s, Some(s.rec.(request := None)), Refused(s.threads[i].request.id, s.rec.request)), i)
    case PreflightCommits(i) => Finish(Logged(s, Consumed(s.rec, s.now), Restarted(s.threads[i].request.id, s.now, s.rec.request)), i)
    case RearmReads => s.(threads := s.threads + [Rearm])
    case RearmRefuses(i) => Finish(s, i)
    case RearmCommits(i) => Finish(Logged(s, Rearmed(s.rec, s.now), RearmedAgain(s.now)), i)
    case CloseBegins(force) => Logged(s, Closing(s.rec, s.now, force), ClosingMarked)
    case CloseFails => Logged(s, Some(s.rec.(closingAt := None)), ClosingCleared)
    case SessionStarts => Logged(s, Returned(s.rec, s.now), Back)
  }

  ghost predicate IsRun(s: State, steps: seq<Step>)
    decreases steps
  {
    steps == [] || (Enabled(s, steps[0]) && IsRun(Next(s, steps[0]), steps[1..]))
  }

  ghost function After(s: State, steps: seq<Step>): State
    requires IsRun(s, steps)
    decreases steps
  {
    if steps == [] then s else After(Next(s, steps[0]), steps[1..])
  }

  /** A run's start: any record, nothing logged, no command under way. */
  ghost predicate Fresh(s: State) {
    s.threads == [] && s.log == [] && (s.rec.request.Some? ==> s.rec.request.value.id < s.requests)
  }

  // ------------------------------------------------------------ bounded re-arms

  /** Re-arms since the last preflight verdict to restart. */
  function RearmsSince(log: seq<Event>): nat {
    if log == [] || log[|log| - 1].Restarted? then 0
    else RearmsSince(log[..|log| - 1]) + if log[|log| - 1].RearmedAgain? then 1 else 0
  }

  lemma LogGrows(log: seq<Event>, e: Event)
    ensures (log + [e])[..|log|] == log && (log + [e])[|log|] == e
    ensures RearmsSince(log + [e]) == if e.Restarted? then 0 else RearmsSince(log) + if e.RearmedAgain? then 1 else 0
  {
    assert (log + [e])[..|log + [e]| - 1] == log;
  }

  /** At no point of the log more than two re-arms follow one verdict. */
  ghost predicate RearmsBounded(log: seq<Event>) {
    forall n | 0 <= n <= |log| :: RearmsSince(log[..n]) <= 2
  }

  ghost predicate RearmInv(s: State) {
    RearmsBounded(s.log) && RearmsSince(s.log) <= s.rec.rearms && (RearmsSince(s.log) > 0 ==> s.rec.rearms <= MAX_REARMS)
  }

  lemma BoundedGrows(log: seq<Event>, e: Event)
    requires RearmsBounded(log) && RearmsSince(log + [e]) <= MAX_REARMS
    ensures RearmsBounded(log + [e])
  {
    var more := log + [e];
    forall n | 0 <= n <= |more| ensures RearmsSince(more[..n]) <= 2 {
      if n <= |log| { assert more[..n] == log[..n]; } else { assert more[..n] == more; }
    }
  }

  lemma RearmStep(s: State, step: Step)
    requires RearmInv(s) && Enabled(s, step)
    ensures RearmInv(Next(s, step))
  {
    hide InFlight, RearmReadOk, CameBack, RearmsSince, RearmsBounded;
    var t := Next(s, step);
    if t.log != s.log {
      var e := t.log[|s.log|];
      assert t.log == s.log + [e];
      LogGrows(s.log, e);
      BoundedGrows(s.log, e);
    }
  }

  lemma {:induction false} RearmRun(s: State, steps: seq<Step>)
    requires RearmInv(s) && IsRun(s, steps)
    ensures RearmInv(After(s, steps))
    decreases |steps|
  {
    hide RearmInv, Next, Enabled;
    if steps != [] {
      RearmStep(s, steps[0]);
      RearmRun(Next(s, steps[0]), steps[1..]);
    }
  }

  /** Over every interleaving, from any record, at most two re-armed verdicts
      follow one preflight verdict. */
  lemma AtMostTwoRearms(s: State, steps: seq<Step>)
    requires Fresh(s) && IsRun(s, steps)
    ensures RearmsBounded(After(s, steps).log)
  {
    assert s.log[..0] == [];
    RearmRun(s, steps);
  }

  /** The stamp of the last preflight verdict to restart. */
  function LastVerdict(log: seq<Event>): Option<int> {
    if log == [] then None
    else if log[|log| - 1].Restarted? then Some(log[|log| - 1].at)
    else LastVerdict(log[..|log| - 1])
  }

  ghost predicate FirstInv(s: State) {
    LastVerdict(s.log).Some? ==> s.rec.restartingAt.Some? && s.rec.firstAt == LastVerdict(s.log)
  }

  lemma FirstStep(s: State, step: Step)
    requires FirstInv(s) && Enabled(s, step)
    ensures FirstInv(Next(s, step))
  {
    hide InFlight, RearmReadOk, CameBack;
    var t := Next(s, step);
    if t.log != s.log {
      assert t.log[..|t.log| - 1] == s.log;
    }
  }

  /** Over every interleaving a re-arm is only begun within two minutes of the
      preflight verdict it repeats, however often that was re-armed before. */
  lemma {:induction false} RearmsStayInTheWindow(s: State, steps: seq<Step>)
    requires FirstInv(s) && IsRun(s, steps)
    ensures var t := After(s, steps);
      LastVerdict(t.log).Some? && Enabled(t, RearmReads) ==> t.now - LastVerdict(t.log).value < 120_000_000_000
    decreases |steps|
  {
    if steps != [] {
      FirstStep(s, steps[0]);
      hide Next, Enabled, FirstInv;
      RearmsStayInTheWindow(Next(s, steps[0]), steps[1..]);
    }
  }

  // ---------------------------------------------------------- restart and close

  /** Time never runs backwards and no close is forced. */
  predicate Steady(s: State, step: Step) {
    (step.ClockReads? ==> step.now >= s.now) && (step.CloseBegins? ==> !step.force)
  }

  ghost predicate SteadyRun(s: State, steps: seq<Step>)
    requires IsRun(s, steps)
    decreases |steps|
  {
    steps == [] || (Steady(s, steps[0]) && SteadyRun(Next(s, steps[0]), steps[1..]))
  }

  /** A verdict to restart is only given while no close is under way, and while
      the restart it announces is in flight none begins. */
  ghost predicate NoRestartIntoClose(s: State) {
    InFlight(s.rec, s.now) ==> s.rec.closingAt.None?
  }

  /** A close is marked, by what was marked and given up since the start. */
  predicate CloseOpen(init: Rec, log: seq<Event>) {
    if log == [] then init.closingAt.Some?
    else if log[|log| - 1].ClosingMarked? then true
    else if log[|log| - 1].ClosingCleared? then false
    else CloseOpen(init, log[..|log| - 1])
  }

  /** A request is queued, by what was queued, withdrawn and decided since the start. */
  predicate RequestOpen(init: Rec, log: seq<Event>) {
    if log == [] then init.request.Some?
    else
      var e := log[|log| - 1];
      if e.Queued? then true
      else if e.Cancelled? || e.Restarted? || e.Refused? then false
      else RequestOpen(init, log[..|log| - 1])
  }

  /** Each verdict to restart was given with no close open before it, each re-armed
      one with no request queued before it either. */
  ghost predicate GivenOpen(init: Rec, log: seq<Event>) {
    forall n | 0 <= n < |log| ::
      && (log[n].Restarted? || log[n].RearmedAgain? ==> !CloseOpen(init, log[..n]))
      && (log[n].RearmedAgain? ==> !RequestOpen(init, log[..n]))
  }

  ghost predicate HistoryInv(init: Rec, s: State) {
    && GivenOpen(init, s.log)
    && (CloseOpen(init, s.log) <==> s.rec.closingAt.Some?) && (RequestOpen(init, s.log) <==> s.rec.request.Some?)
  }

  lemma GivenOpenGrows(init: Rec, log: seq<Event>, e: Event)
    requires GivenOpen(init, log)
    requires e.Restarted? || e.RearmedAgain? ==> !CloseOpen(init, log)
    requires e.RearmedAgain? ==> !RequestOpen(init, log)
    ensures GivenOpen(init, log + [e])
    ensures CloseOpen(init, log + [e]) <==> e.ClosingMarked? || (!e.ClosingCleared? && CloseOpen(init, log))
    ensures RequestOpen(init, log + [e])
      <==> e.Queued? || (!e.Cancelled? && !e.Restarted? && !e.Refused? && RequestOpen(init, log))
  {
    var more := log + [e];
    assert more[..|more| - 1] == log;
    hide CloseOpen, RequestOpen;
    forall n | 0 <= n < |more|
      ensures more[n].Restarted? || more[n].RearmedAgain? ==> !CloseOpen(init, more[..n])
      ensures more[n].RearmedAgain? ==> !RequestOpen(init, more[..n])
    {
      if n < |log| { assert more[..n] == log[..n]; } else { assert more[..n] == log; }
    }
  }

  lemma HistoryStep(init: Rec, s: State, step: Step)
    requires HistoryInv(init, s) && Enabled(s, step)
    ensures HistoryInv(init, Next(s, step))
  {
    hide InFlight, RearmReadOk, CameBack, GivenOpen, CloseOpen, RequestOpen;
    var t := Next(s, step);
    if t.log != s.log {
      var e := t.log[|s.log|];
      assert t.log == s.log + [e];
      GivenOpenGrows(init, s.log, e);
    }
  }

  lemma {:induction false} HistoryRun(init: Rec, s: State, steps: seq<Step>)
    requires HistoryInv(init, s) && IsRun(s, steps)
    ensures HistoryInv(init, After(s, steps))
    decreases |steps|
  {
    hide HistoryInv, Next, Enabled;
    if steps != [] {
      HistoryStep(init, s, steps[0]);
      HistoryRun(init, Next(s, steps[0]), steps[1..]);
    }
  }

  /** Over every interleaving: no verdict to restart is given between the marking
      of a close and its being given up, and none is re-armed while a request is
      queued. */
  lemma EveryVerdictWasOpen(s: State, steps: seq<Step>)
    requires Fresh(s) && IsRun(s, steps)
    ensures GivenOpen(s.rec, After(s, steps).log)
  {
    HistoryRun(s.rec, s, steps);
  }

  lemma {:induction false} CloseAndRestartExclude(s: State, steps: seq<Step>)
    requires NoRestartIntoClose(s) && IsRun(s, steps) && SteadyRun(s, steps)
    ensures NoRestartIntoClose(After(s, steps))
    decreases |steps|
  {
    if steps != [] {
      assert NoRestartIntoClose(Next(s, steps[0]));
      hide Next, Enabled, NoRestartIntoClose;
      CloseAndRestartExclude(Next(s, steps[0]), steps[1..]);
    }
  }

  // ------------------------------------------------------- no re-arm after return

  /** The session came back since the last preflight verdict to restart. */
  predicate BackSince(log: seq<Event>) {
    if log == [] || log[|log| - 1].Restarted? then false else log[|log| - 1].Back? || BackSince(log[..|log| - 1])
  }

  ghost predicate NoRearmAfterBack(log: seq<Event>) {
    forall n | 0 <= n < |log| && log[n].RearmedAgain? :: !BackSince(log[..n])
  }

  ghost predicate BackInv(s: State) {
    && NoRearmAfterBack(s.log) && (BackSince(s.log) ==> CameBack(s.rec))
    && (s.rec.restartingAt.Some? ==> s.rec.restartingAt.value <= s.now)
  }

  lemma BackGrows(log: seq<Event>, e: Event)
    requires NoRearmAfterBack(log) && (e.RearmedAgain? ==> !BackSince(log))
    ensures NoRearmAfterBack(log + [e])
    ensures BackSince(log + [e]) <==> !e.Restarted? && (e.Back? || BackSince(log))
  {
    var more := log + [e];
    assert more[..|more| - 1] == log;
    forall n | 0 <= n < |more| && more[n].RearmedAgain? ensures !BackSince(more[..n]) {
      if n < |log| { assert more[..n] == log[..n]; } else { assert more[..n] == log; }
    }
  }

  lemma BackStep(s: State, step: Step)
    requires BackInv(s) && Enabled(s, step) && (step.ClockReads? ==> step.now >= s.now)
    ensures BackInv(Next(s, step))
  {
    hide InFlight, RearmReadOk, BackSince, NoRearmAfterBack;
    var t := Next(s, step);
    if t.log != s.log {
      var e := t.log[|s.log|];
      assert t.log == s.log + [e];
      BackGrows(s.log, e);
    }
  }

  ghost predicate ClockRises(s: State, steps: seq<Step>)
    requires IsRun(s, steps)
    decreases |steps|
  {
    steps == [] || ((steps[0].ClockReads? ==> steps[0].now >= s.now) && ClockRises(Next(s, steps[0]), steps[1..]))
  }

  lemma {:induction false} BackRun(s: State, steps: seq<Step>)
    requires BackInv(s) && IsRun(s, steps) && ClockRises(s, steps)
    ensures BackInv(After(s, steps))
    decreases |steps|
  {
    hide BackInv, Next, Enabled;
    if steps != [] {
      BackStep(s, steps[0]);
      BackRun(Next(s, steps[0]), steps[1..]);
    }
  }

  /** With a clock that does not run backwards nothing is re-armed once the session came back. */
  lemma NoRearmOnceBack(s: State, steps: seq<Step>)
    requires Fresh(s) && IsRun(s, steps) && ClockRises(s, steps)
    requires s.rec.restartingAt.Some? ==> s.rec.restartingAt.value <= s.now
    ensures NoRearmAfterBack(After(s, steps).log)
  {
    BackRun(s, steps);
  }

  /** The return mark tells a re-arm the session is back exactly when it is not
      older than the restart it answers. */
  lemma ReturnMarkHoldsIff(r: Rec, now: int, later: int)
    requires Returned(r, now).Some? && r.closingAt.None? && r.request.None? && r.rearms < MAX_REARMS
    ensures Rearmed(Returned(r, now).value, later).None? <==> now >= r.restartingAt.value
  {
  }

  // ------------------------------------------------------------------- watchdog

  /** restart-watch, armed at a verdict with its stamp, finds the restart lost. */
  predicate WatchReports(r: Rec, since: int) {
    && r.closingAt.None? && !(r.restartedAt.Some? && r.restartedAt.value >= since)
    && !(r.restartingAt.Some? && r.restartingAt.value > since)
  }

  ghost predicate StampOk(s: State, e: Event) {
    e.Restarted? || e.RearmedAgain? ==> s.rec.restartingAt.Some? && e.at <= s.rec.restartingAt.value
  }

  ghost predicate StampInv(s: State) {
    && (s.rec.restartingAt.Some? ==> s.rec.restartingAt.value <= s.now)
    && forall i | 0 <= i < |s.log| :: StampOk(s, s.log[i])
  }

  lemma StampStep(s: State, step: Step)
    requires StampInv(s) && Enabled(s, step) && (step.ClockReads? ==> step.now >= s.now)
    ensures StampInv(Next(s, step))
  {
    hide InFlight, RearmReadOk, CameBack;
    var t := Next(s, step);
    forall i | 0 <= i < |t.log| ensures StampOk(t, t.log[i]) {
      assert i < |s.log| ==> StampOk(s, s.log[i]) && t.log[i] == s.log[i];
    }
  }

  lemma {:induction false} StampRun(s: State, steps: seq<Step>)
    requires StampInv(s) && IsRun(s, steps) && ClockRises(s, steps)
    ensures StampInv(After(s, steps))
    decreases |steps|
  {
    hide StampInv, Next, Enabled;
    if steps != [] {
      StampStep(s, steps[0]);
      StampRun(Next(s, steps[0]), steps[1..]);
    }
  }

  /** Over every run with a rising clock a watchdog reports exactly for the newest
      verdict, while its restart has not come back and no close is under way:
      never for a superseded one, and never once the session is back. */
  lemma WatchdogReportsExactly(s: State, steps: seq<Step>, i: nat)
    requires Fresh(s) && IsRun(s, steps) && ClockRises(s, steps)
    requires s.rec.restartingAt.Some? ==> s.rec.restartingAt.value <= s.now
    requires i < |After(s, steps).log| && (After(s, steps).log[i].Restarted? || After(s, steps).log[i].RearmedAgain?)
    ensures var t := After(s, steps); var since := t.log[i].at;
      WatchReports(t.rec, since) <==> t.rec.restartingAt == Some(since) && !CameBack(t.rec) && t.rec.closingAt.None?
  {
    StampRun(s, steps);
    assert StampOk(After(s, steps), After(s, steps).log[i]);
    hide After, IsRun, ClockRises;
  }

  // ------------------------------------------------------------ one verdict each

  function ActedBy(e: Event): seq<nat> {
    if e.Restarted? || e.Refused? then [e.id] else []
  }

  /** The requests a verdict has been given on, in order. */
  function Acted(log: seq<Event>): seq<nat> {
    if log == [] then [] else Acted(log[..|log| - 1]) + ActedBy(log[|log| - 1])
  }

  ghost predicate OnceEach(ids: seq<nat>) {
    forall i, j | 0 <= i < j < |ids| :: ids[i] != ids[j]
  }

  predicate NoPreflight(threads: seq<Thread>) {
    forall i | 0 <= i < |threads| :: !threads[i].Preflight?
  }

  /** One preflight at a time. */
  ghost predicate OneAtATime(s: State, steps: seq<Step>)
    requires IsRun(s, steps)
    decreases |steps|
  {
    steps == [] || ((steps[0].PreflightReads? ==> NoPreflight(s.threads)) && OneAtATime(Next(s, steps[0]), steps[1..]))
  }

  /** A request nobody gave a verdict on. */
  ghost predicate Open(s: State, id: nat) {
    id < s.requests && id !in Acted(s.log)
  }

  ghost predicate OnceInv(s: State) {
    && OnceEach(Acted(s.log)) && (forall id | id in Acted(s.log) :: id < s.requests)
    && (s.rec.request.Some? ==> Open(s, s.rec.request.value.id))
    && (forall i | 0 <= i < |s.threads| && s.threads[i].Preflight? :: Open(s, s.threads[i].request.id))
    && (forall i, j | 0 <= i < j < |s.threads| :: !(s.threads[i].Preflight? && s.threads[j].Preflight?))
  }

  lemma ActedGrows(log: seq<Event>, e: Event)
    ensures Acted(log + [e]) == Acted(log) + ActedBy(e)
  {
    assert (log + [e])[..|log + [e]| - 1] == log;
  }

  /** The one preflight under way ends with a verdict and clears the request. */
  lemma OnceActs(s: State, i: nat, r: Rec, e: Event)
    requires OnceInv(s) && i < |s.threads| && s.threads[i].Preflight?
    requires ActedBy(e) == [s.threads[i].request.id] && r.request.None?
    ensures OnceInv(Finish(Logged(s, Some(r), e), i))
  {
    ActedGrows(s.log, e);
    var t := Finish(Logged(s, Some(r), e), i);
    hide Acted;
    assert Open(s, s.threads[i].request.id);
    forall j | 0 <= j < |t.threads| ensures !t.threads[j].Preflight? {
    }
  }

  /** An update that gives no verdict on a request and brings no new preflight. */
  lemma OnceSame(s: State, t: State)
    requires OnceInv(s) && Acted(t.log) == Acted(s.log) && t.requests >= s.requests
    requires t.rec.request.Some? ==> t.rec.request == s.rec.request || s.requests == t.rec.request.value.id < t.requests
    requires forall i | 0 <= i < |t.threads| && t.threads[i].Preflight? :: i < |s.threads| && t.threads[i] == s.threads[i]
    ensures OnceInv(t)
  {
    hide Acted;
    forall i | 0 <= i < |t.threads| && t.threads[i].Preflight? ensures Open(t, t.threads[i].request.id) {
      assert Open(s, s.threads[i].request.id);
    }
  }

  lemma ActedSame(log: seq<Event>, more: seq<Event>)
    requires log == more || (|more| == |log| + 1 && more[..|log|] == log && ActedBy(more[|log|]) == [])
    ensures Acted(more) == Acted(log)
  {
    if log != more {
      assert Acted(more) == Acted(log) + [];
    }
  }

  /** The one preflight under way reads the request. */
  lemma OnceReads(s: State)
    requires OnceInv(s) && s.rec.request.Some? && NoPreflight(s.threads)
    ensures OnceInv(s.(threads := s.threads + [Preflight(s.rec.request.value)]))
  {
    hide Acted, OnceEach;
    var t := s.(threads := s.threads + [Preflight(s.rec.request.value)]);
    assert Open(s, s.rec.request.value.id);
    assert forall i | 0 <= i < |s.threads| :: t.threads[i] == s.threads[i];
  }

  lemma OnceStep(s: State, step: Step)
    requires OnceInv(s) && Enabled(s, step) && (step.PreflightReads? ==> NoPreflight(s.threads))
    ensures OnceInv(Next(s, step))
  {
    hide OnceInv, Acted, NoPreflight;
    var t := Next(s, step);
    match step {
      case PreflightReads => OnceReads(s);
      case PreflightRefuses(i) =>
        OnceActs(s, i, s.rec.(request := None), Refused(s.threads[i].request.id, s.rec.request));
      case PreflightCommits(i) =>
        if s.rec.closingAt.None? {
          OnceActs(s, i, Consumed(s.rec, s.now).value, Restarted(s.threads[i].request.id, s.now, s.rec.request));
        } else {
          OnceSame(s, t);
        }
      case _ => OnceOfRest(s, step);
    }
  }

  lemma OnceOfRest(s: State, step: Step)
    requires OnceInv(s) && Enabled(s, step) && !step.PreflightReads? && !step.PreflightRefuses? && !step.PreflightCommits?
    ensures OnceInv(Next(s, step))
  {
    hide *;
    RestKeeps(s, step);
    ActedSame(s.log, Next(s, step).log);
    OnceSame(s, Next(s, step));
  }

  /** What is no preflight's gives no verdict on a request and starts no preflight. */
  lemma RestKeeps(s: State, step: Step)
    requires Enabled(s, step) && !step.PreflightReads? && !step.PreflightRefuses? && !step.PreflightCommits?
    ensures var t := Next(s, step);
      && (t.log == s.log || (|t.log| == |s.log| + 1 && t.log[..|s.log|] == s.log && ActedBy(t.log[|s.log|]) == []))
      && t.requests >= s.requests
      && (t.rec.request.Some? ==> t.rec.request == s.rec.request || s.requests == t.rec.request.value.id < t.requests)
      && forall i | 0 <= i < |t.threads| && t.threads[i].Preflight? :: i < |s.threads| && t.threads[i] == s.threads[i]
  {
    hide CameBack, InFlight, RearmReadOk;
  }

  lemma {:induction false} OnceRun(s: State, steps: seq<Step>)
    requires OnceInv(s) && IsRun(s, steps) && OneAtATime(s, steps)
    ensures OnceInv(After(s, steps))
    decreases |steps|
  {
    hide OnceInv, Next, Enabled, NoPreflight;
    if steps != [] {
      OnceStep(s, steps[0]);
      OnceRun(Next(s, steps[0]), steps[1..]);
    }
  }

  /** With preflights that do not overlap, each request gets at most one verdict,
      whatever else interleaves. */
  lemma EachRequestActedOnOnce(s: State, steps: seq<Step>)
    requires Fresh(s) && IsRun(s, steps) && OneAtATime(s, steps)
    ensures OnceEach(Acted(After(s, steps).log))
  {
    OnceRun(s, steps);
  }

  // --------------------------------------------------- what overlap does to it

  lemma FourSteps(s: State, s1: State, s2: State, s3: State, s4: State, steps: seq<Step>)
    requires |steps| == 4
    requires Enabled(s, steps[0]) && Next(s, steps[0]) == s1 && Enabled(s1, steps[1]) && Next(s1, steps[1]) == s2
    requires Enabled(s2, steps[2]) && Next(s2, steps[2]) == s3 && Enabled(s3, steps[3]) && Next(s3, steps[3]) == s4
    ensures IsRun(s, steps) && After(s, steps) == s4
  {
    hide Next, Enabled;
    assert steps[1..][1..] == steps[2..] && steps[2..][1..] == steps[3..] && steps[3..][1..] == [];
    assert IsRun(s4, []) && IsRun(s3, steps[3..]) && IsRun(s2, steps[2..]) && IsRun(s1, steps[1..]);
    assert After(s4, []) == s4 && After(s3, steps[3..]) == s4 && After(s2, steps[2..]) == s4 && After(s1, steps[1..]) == s4;
  }

  /** Two preflights that read the same request both announce a restart: the
      locked step looks at the closing mark and not at the request. */
  lemma OverlapActsTwice(s: State)
    requires Fresh(s) && s.rec.request.Some? && s.rec.closingAt.None?
    ensures var steps := [PreflightReads, PreflightReads, PreflightCommits(0), PreflightCommits(1)];
      IsRun(s, steps) && !OnceEach(Acted(After(s, steps).log))
  {
    var steps := [PreflightReads, PreflightReads, PreflightCommits(0), PreflightCommits(1)];
    var id := s.rec.request.value.id;
    var s1 := Next(s, steps[0]);
    var s2 := Next(s1, steps[1]);
    var s3 := Next(s2, steps[2]);
    var s4 := Next(s3, steps[3]);
    FourSteps(s, s1, s2, s3, s4, steps);
    hide After, IsRun;
    var first, second := Restarted(id, s2.now, s2.rec.request), Restarted(id, s3.now, s3.rec.request);
    ActedGrows([], first);
    ActedGrows([first], second);
    assert s4.log == [first] + [second];
    assert Acted(s4.log)[0] == Acted(s4.log)[1];
  }

  /** A clock set back before the session returns leaves a return mark older than
      the restart, and the restart is re-armed although the session is back. */
  lemma RearmAfterReturn(s: State, early: int)
    requires Fresh(s) && s.rec.request.None? && s.rec.closingAt.None? && s.rec.rearms < MAX_REARMS
    requires s.rec.restartingAt.Some? && s.rec.firstAt == s.rec.restartingAt && s.rec.restartedAt.None?
    requires early < s.rec.restartingAt.value
    ensures var steps := [ClockReads(early), SessionStarts, RearmReads, RearmCommits(0)];
      IsRun(s, steps) && !NoRearmAfterBack(After(s, steps).log)
  {
    var steps := [ClockReads(early), SessionStarts, RearmReads, RearmCommits(0)];
    var s1 := Next(s, steps[0]);
    var s2 := Next(s1, steps[1]);
    var s3 := Next(s2, steps[2]);
    var s4 := Next(s3, steps[3]);
    FourSteps(s, s1, s2, s3, s4, steps);
    hide After, IsRun;
    assert s4.log == [Back, RearmedAgain(s3.now)];
    assert s4.log[1].RearmedAgain? && s4.log[..1] == [Back] && BackSince([Back]);
  }

  lemma ThreeSteps(s: State, s1: State, s2: State, s3: State, steps: seq<Step>)
    requires |steps| == 3
    requires Enabled(s, steps[0]) && Next(s, steps[0]) == s1 && Enabled(s1, steps[1]) && Next(s1, steps[1]) == s2
    requires Enabled(s2, steps[2]) && Next(s2, steps[2]) == s3
    ensures IsRun(s, steps) && After(s, steps) == s3
  {
    hide Next, Enabled;
    assert steps[1..][1..] == steps[2..] && steps[2..][1..] == [];
    assert IsRun(s3, []) && IsRun(s2, steps[2..]) && IsRun(s1, steps[1..]);
    assert After(s3, []) == s3 && After(s2, steps[2..]) == s3 && After(s1, steps[1..]) == s3;
  }

  /** A request withdrawn between a preflight's read and its commit restarts. */
  lemma WithdrawnRequestRestarts(s: State)
    requires Fresh(s) && s.rec.request.Some? && s.rec.closingAt.None?
    ensures var steps := [PreflightReads, ClearRequest, PreflightCommits(0)]; var id := s.rec.request.value.id;
      IsRun(s, steps) && After(s, steps).log == [Cancelled(id), Restarted(id, s.now, None)]
  {
    var steps := [PreflightReads, ClearRequest, PreflightCommits(0)];
    var s1 := Next(s, steps[0]);
    var s2 := Next(s1, steps[1]);
    ThreeSteps(s, s1, s2, Next(s2, steps[2]), steps);
  }

  /** A request queued between a preflight's read and its commit is cleared, and
      the one verdict given is on the request it replaced. */
  lemma NewerRequestLost(s: State, idle: bool)
    requires Fresh(s) && s.rec.request.Some? && s.rec.closingAt.None?
    ensures var steps := [PreflightReads, QueueRequest(idle), PreflightCommits(0)]; var r := s.rec.request.value;
      var newer := Request(s.requests, idle);
      && IsRun(s, steps) && After(s, steps).rec.request.None?
      && After(s, steps).log == [Queued(newer.id, Some(r)), Restarted(r.id, s.now, Some(newer))]
  {
    var steps := [PreflightReads, QueueRequest(idle), PreflightCommits(0)];
    var s1 := Next(s, steps[0]);
    var s2 := Next(s1, steps[1]);
    ThreeSteps(s, s1, s2, Next(s2, steps[2]), steps);
  }

  // --------------------------------------------------- when each request ends once

  function IdOf(r: Option<Request>): set<nat> {
    if r.None? then {} else {r.value.id}
  }

  /** The requests an update ends: decided, withdrawn, replaced, or cleared along
      with another. */
  function EndedBy(e: Event): set<nat> {
    match e
    case Queued(_, over) => IdOf(over)
    case Cancelled(id) => {id}
    case Restarted(id, _, cleared) => {id} + IdOf(cleared)
    case Refused(id, cleared) => {id} + IdOf(cleared)
    case _ => {}
  }

  function Ended(log: seq<Event>): set<nat> {
    if log == [] then {} else Ended(log[..|log| - 1]) + EndedBy(log[|log| - 1])
  }

  /** No request ends twice: none is restarted or refused again, or once it was
      withdrawn, replaced or cleared. */
  ghost predicate EachEndsOnce(log: seq<Event>) {
    forall n | 0 <= n < |log| :: EndedBy(log[n]) !! Ended(log[..n])
  }

  lemma EndedGrows(log: seq<Event>, e: Event)
    ensures Ended(log + [e]) == Ended(log) + EndedBy(e)
    ensures EachEndsOnce(log + [e]) <==> EachEndsOnce(log) && EndedBy(e) !! Ended(log)
  {
    var more := log + [e];
    assert more[..|more| - 1] == log;
    hide EndedBy, Ended;
    assert forall n | 0 <= n < |log| :: more[..n] == log[..n] && more[n] == log[n];
    assert more[..|log|] == log && more[|log|] == e;
  }

  /** The queued request has not ended; what a preflight read is still queued or has. */
  ghost predicate EndInv(s: State) {
    && (forall id | id in Ended(s.log) :: id < s.requests)
    && (s.rec.request.Some? ==> s.rec.request.value.id < s.requests && s.rec.request.value.id !in Ended(s.log))
    && (forall i | 0 <= i < |s.threads| && s.threads[i].Preflight? ::
          && s.threads[i].request.id < s.requests
          && (s.threads[i].request.id in Ended(s.log) || s.rec.request == Some(s.threads[i].request)))
  }

  /** The verdict's locked step finds the request it read, or a close under way. */
  predicate FindsItsRequest(s: State, step: Step)
    requires Enabled(s, step)
  {
    && (step.PreflightRefuses? ==> s.rec.request == Some(s.threads[step.i].request))
    && (step.PreflightCommits? && s.rec.closingAt.None? ==> s.rec.request == Some(s.threads[step.i].request))
  }

  /** An update of the record that ends requests, the queued one among them. */
  lemma EndUpdate(s: State, t: State, e: Event)
    requires EndInv(s) && t.log == s.log + [e] && t.requests >= s.requests
    requires t.rec.request == s.rec.request || IdOf(s.rec.request) <= EndedBy(e)
    requires forall id | id in EndedBy(e) :: id < s.requests
    requires t.rec.request.Some? ==> (t.rec.request == s.rec.request && EndedBy(e) == {}) || s.requests == t.rec.request.value.id < t.requests
    requires |t.threads| == |s.threads| && forall i | 0 <= i < |t.threads| && t.threads[i].Preflight? :: t.threads[i] == s.threads[i]
    ensures EndInv(t)
  {
    EndedGrows(s.log, e);
    hide Ended, EndedBy;
  }

  lemma EndStep(s: State, step: Step)
    requires EndInv(s) && Enabled(s, step)
    ensures EndInv(Next(s, step))
    ensures EachEndsOnce(Next(s, step).log) <==> EachEndsOnce(s.log) && FindsItsRequest(s, step)
  {
    hide InFlight, RearmReadOk, CameBack, EachEndsOnce, Ended;
    var t := Next(s, step);
    if t.log != s.log {
      var e := t.log[|s.log|];
      assert t.log == s.log + [e];
      EndedGrows(s.log, e);
      EndUpdate(s, t, e);
    }
  }

  lemma {:induction false} EndRun(s: State, steps: seq<Step>)
    requires EndInv(s) && IsRun(s, steps)
    ensures EndInv(After(s, steps))
    ensures EachEndsOnce(After(s, steps).log) <==> EachEndsOnce(s.log) && AllFind(s, steps)
    decreases |steps|
  {
    hide EndInv, Next, Enabled, EachEndsOnce, FindsItsRequest;
    if steps != [] {
      EndStep(s, steps[0]);
      EndRun(Next(s, steps[0]), steps[1..]);
    }
  }

  ghost predicate AllFind(s: State, steps: seq<Step>)
    requires IsRun(s, steps)
    decreases |steps|
  {
    steps == [] || (FindsItsRequest(s, steps[0]) && AllFind(Next(s, steps[0]), steps[1..]))
  }

  /** Over every interleaving: each request ends once, acted on, withdrawn or
      replaced, exactly when every verdict's locked step still finds in the record
      the request it read. */
  lemma RequestsEndOnceIff(s: State, steps: seq<Step>)
    requires Fresh(s) && IsRun(s, steps)
    ensures EachEndsOnce(After(s, steps).log) <==> AllFind(s, steps)
  {
    EndRun(s, steps);
  }

  /** In every reachable state: a commit with no close under way gives a first
      verdict, on a request nothing else ended, and ends no other, exactly when
      the record still holds the request its preflight read. */
  lemma FirstVerdictIff(s: State, steps: seq<Step>, i: nat)
    requires Fresh(s) && IsRun(s, steps)
    requires var t := After(s, steps); Enabled(t, PreflightCommits(i)) && t.rec.closingAt.None?
    ensures var t := After(s, steps); var id := t.threads[i].request.id;
      (id !in Ended(t.log) && Ended(Next(t, PreflightCommits(i)).log) == Ended(t.log) + {id})
      <==> t.rec.request == Some(t.threads[i].request)
  {
    EndRun(s, steps);
    var t := After(s, steps);
    EndedGrows(t.log, Restarted(t.threads[i].request.id, t.now, t.rec.request));
    hide After, Ended;
  }

  // ------------------------------------------------------- what a verdict allows

  /** Between its first verdict and the next the record counts the re-arms and
      keeps the verdict's stamp. */
  ghost predicate CountInv(s: State) {
    LastVerdict(s.log).Some? ==>
      s.rec.rearms == RearmsSince(s.log) && s.rec.restartingAt.Some? && s.rec.firstAt == LastVerdict(s.log)
  }

  lemma CountStep(s: State, step: Step)
    requires CountInv(s) && Enabled(s, step)
    ensures CountInv(Next(s, step))
  {
    hide InFlight, RearmReadOk, CameBack, RearmsSince, LastVerdict;
    var t := Next(s, step);
    if t.log != s.log {
      var e := t.log[|s.log|];
      assert t.log == s.log + [e];
      LogGrows(s.log, e);
      LastGrows(s.log, e);
    }
  }

  lemma LastGrows(log: seq<Event>, e: Event)
    ensures LastVerdict(log + [e]) == if e.Restarted? then Some(e.at) else LastVerdict(log)
  {
    assert (log + [e])[..|log + [e]| - 1] == log;
  }

  lemma {:induction false} CountRun(s: State, steps: seq<Step>)
    requires CountInv(s) && IsRun(s, steps)
    ensures CountInv(After(s, steps))
    decreases |steps|
  {
    hide CountInv, Next, Enabled;
    if steps != [] {
      CountStep(s, steps[0]);
      CountRun(Next(s, steps[0]), steps[1..]);
    }
  }

  /** The restart may still be repeated: by the run's own updates no close is
      marked and no request queued, fewer than two re-arms followed the verdict,
      and no return mark is as new as the restart. */
  ghost predicate Repeatable(init: Rec, t: State) {
    && !CloseOpen(init, t.log) && !RequestOpen(init, t.log) && RearmsSince(t.log) < 2
    && t.rec.restartingAt.Some? && !(t.rec.restartedAt.Some? && t.rec.restartedAt.value >= t.rec.restartingAt.value)
  }

  /** In every reachable state after a verdict: a re-arm is begun iff the restart
      may still be repeated and the verdict is less than two minutes old, and its
      locked step gives a verdict iff the restart may still be repeated then. */
  lemma RearmIff(s: State, steps: seq<Step>, i: nat)
    requires Fresh(s) && IsRun(s, steps) && LastVerdict(After(s, steps).log).Some?
    ensures var t := After(s, steps);
      Enabled(t, RearmReads) <==> Repeatable(s.rec, t) && t.now - LastVerdict(t.log).value < 120_000_000_000
    ensures var t := After(s, steps);
      Enabled(t, RearmCommits(i)) ==> Next(t, RearmCommits(i)).log == if Repeatable(s.rec, t) then t.log + [RearmedAgain(t.now)] else t.log
  {
    CountRun(s, steps);
    HistoryRun(s.rec, s, steps);
    hide After, IsRun, GivenOpen, CloseOpen, RequestOpen, RearmsSince, LastVerdict;
  }

  /** A verdict starts the count afresh: however often the last restart was re-armed,
      this one is twice, and not a third time. */
  lemma VerdictAllowsTwo(r: Rec, now: int, first: int, second: int, third: int)
    requires r.closingAt.None? && (r.restartedAt.None? || r.restartedAt.value < now) && now <= first <= second
    ensures var a := Consumed(r, now);
      && a.Some? && Rearmed(a.value, first).Some? && Rearmed(Rearmed(a.value, first).value, second).Some?
      && Rearmed(Rearmed(Rearmed(a.value, first).value, second).value, third).None?
  {
  }

  /** A close that was given up, a request that was withdrawn and one that replaced
      another are what the next verdict finds. */
  lemma UpdatesTake(s: State, idle: bool, now: int)
    ensures var t := Next(s, CloseFails); t.rec == s.rec.(closingAt := None) && Consumed(t.rec, now).Some?
    ensures var t := Next(s, ClearRequest); t.rec == s.rec.(request := None) && !Enabled(t, PreflightReads)
    ensures var t := Next(s, QueueRequest(idle));
      t.rec == s.rec.(request := Some(Request(s.requests, idle))) && (Enabled(t, PreflightReads) <==> s.rec.closingAt.None?)
  {
  }
}
