/** One application opened on first use, shared by concurrent callers, closed once
    (internal/cli/lazyapp.go). Every method is split at its lock and channel operations. */
module LazyApp {
  import opened Common

  /** An opened application; hasClose tells whether its close function is set. */
  datatype App = App(id: nat, hasClose: bool)

  datatype Outcome = Opened(app: App) | ConnectFailed

  /** The mutable fields of lazyApp; an attempt is named by its number. */
  datatype Fields = Fields(openedApp: Option<App>, attempt: Option<nat>, closed: bool)

  // ---------- the critical sections ----------

  datatype Entry = Refused | Have(app: App) | Join(attempt: nat) | Start(attempt: nat)

  /** get, under the lock; fresh is the number a new attempt would have. */
  function Enter(f: Fields, number: nat): Entry {
    if f.closed then Refused
    else if f.openedApp.Some? then Have(f.openedApp.value)
    else if f.attempt.Some? then Join(f.attempt.value)
    else Start(number)
  }

  /** open, under the lock, once connect has returned. */
  function Publish(f: Fields, r: Outcome): Fields {
    f.(openedApp := if r.Opened? then Some(r.app) else f.openedApp, attempt := None)
  }

  class Lazy {
    var openedApp: Option<App>
    var attempt: Option<nat>
    var closed: bool

    function State(): Fields
      reads this
    {
      Fields(openedApp, attempt, closed)
    }

    constructor ()
      ensures State() == Fields(None, None, false)
    {
      openedApp, attempt, closed := None, None, false;
    }

    method Get(number: nat) returns (e: Entry)
      modifies this
      ensures e == Enter(old(State()), number)
      ensures State() == if e.Start? then old(State()).(attempt := Some(number)) else old(State())
    {
      if closed {
        return Refused;
      }
      if openedApp != None {
        return Have(openedApp.value);
      }
      if attempt == None {
        attempt := Some(number);
        return Start(number);
      }
      return Join(attempt.value);
    }

    method Open(r: Outcome)
      modifies this
      ensures State() == Publish(old(State()), r)
    {
      if r.Opened? {
        openedApp := Some(r.app);
      }
      attempt := None;
    }

    method Close() returns (first: bool, inFlight: Option<nat>, app: Option<App>)
      modifies this
      ensures first == !old(closed) && State() == old(State()).(closed := true)
      ensures inFlight == old(attempt) && app == old(openedApp)
    {
      inFlight, app := attempt, openedApp;
      if closed {
        return false, inFlight, app;
      }
      closed := true;
      first := true;
    }

    method Reread(seen: Option<App>) returns (app: Option<App>)
      ensures app == if seen.None? then openedApp else seen
    {
      app := seen;
      if app == None {
        app := openedApp;
      }
    }
  }

  // ---------- the protocol ----------

  /** One connection attempt: the goroutine running it, what it stored, and whether its channel
      is closed. */
  datatype Attempt = Attempt(opener: nat, result: Option<Outcome>, done: bool)

  datatype GetResult = Got(app: App) | GotError | ShuttingDown | GaveUp

  /** Where a goroutine stands. */
  datatype Proc =
    | GetEnter | GetWait(attempt: nat) | GetReturned(r: GetResult)
    | Connecting(attempt: nat) | Connected(attempt: nat, outcome: Outcome) | Published(attempt: nat) | OpenReturned
    | CloseEnter | CloseWait(attempt: nat, seen: Option<App>) | CloseReread(seen: Option<App>)
    | CloseApp(seen: Option<App>) | CloseReturned

  datatype State = State(
    f: Fields,
    attempts: seq<Attempt>,
    procs: map<nat, Proc>,
    connected: seq<App>,          // every app a connect returned
    closes: seq<App>,             // every app whose close function was called
    firstCloser: Option<nat>)

  const INIT := State(Fields(None, None, false), [], map[], [], [], None)

  datatype Step =
    | CallGet(p: nat) | EnterGet(p: nat, opener: nat) | WakeGet(p: nat) | GiveUpGet(p: nat)
    | ConnectReturns(p: nat, outcome: Outcome) | PublishOpen(p: nat) | CloseChannel(p: nat)
    | CallClose(p: nat) | EnterClose(p: nat) | WakeClose(p: nat) | RereadClose(p: nat) | FinishClose(p: nat)

  predicate At(s: State, p: nat, x: Proc) { p in s.procs && s.procs[p] == x }

  predicate Enabled(s: State, step: Step) {
    match step
    case CallGet(p) => p !in s.procs
    case EnterGet(p, q) => At(s, p, GetEnter) && q !in s.procs
    case WakeGet(p) =>
      p in s.procs && s.procs[p].GetWait? && s.procs[p].attempt < |s.attempts| && s.attempts[s.procs[p].attempt].done
    case GiveUpGet(p) => p in s.procs && s.procs[p].GetWait?
    case ConnectReturns(p, r) =>
      p in s.procs && s.procs[p].Connecting? && (r.Opened? ==> forall x :: x in s.connected ==> x.id != r.app.id)
    case PublishOpen(p) => p in s.procs && s.procs[p].Connected? && s.procs[p].attempt < |s.attempts|
    case CloseChannel(p) => p in s.procs && s.procs[p].Published? && s.procs[p].attempt < |s.attempts|
    case CallClose(p) => p !in s.procs
    case EnterClose(p) => At(s, p, CloseEnter)
    case WakeClose(p) =>
      p in s.procs && s.procs[p].CloseWait? && s.procs[p].attempt < |s.attempts| && s.attempts[s.procs[p].attempt].done
    case RereadClose(p) => p in s.procs && s.procs[p].CloseReread?
    case FinishClose(p) => p in s.procs && s.procs[p].CloseApp?
  }

  function Received(a: Attempt): GetResult {
    if a.result.Some? && a.result.value.Opened? then Got(a.result.value.app) else GotError
  }

  function Apply(s: State, step: Step): State
    requires Enabled(s, step)
  {
    match step
    case CallGet(p) => s.(procs := s.procs[p := GetEnter])
    case EnterGet(p, q) => (
      match Enter(s.f, |s.attempts|)
      case Refused => s.(procs := s.procs[p := GetReturned(ShuttingDown)])
      case Have(app) => s.(procs := s.procs[p := GetReturned(Got(app))])
      case Join(a) => s.(procs := s.procs[p := GetWait(a)])
      case Start(a) =>
        s.(f := s.f.(attempt := Some(a)),
           attempts := s.attempts + [Attempt(q, None, false)],
           procs := s.procs[p := GetWait(a)][q := Connecting(a)]))
    case WakeGet(p) => s.(procs := s.procs[p := GetReturned(Received(s.attempts[s.procs[p].attempt]))])
    case GiveUpGet(p) => s.(procs := s.procs[p := GetReturned(GaveUp)])
    case ConnectReturns(p, r) =>
      s.(procs := s.procs[p := Connected(s.procs[p].attempt, r)],
         connected := if r.Opened? then s.connected + [r.app] else s.connected)
    case PublishOpen(p) =>
      var a, r := s.procs[p].attempt, s.procs[p].outcome;
      s.(f := Publish(s.f, r),
         attempts := s.attempts[a := s.attempts[a].(result := Some(r))],
         procs := s.procs[p := Published(a)])
    case CloseChannel(p) =>
      var a := s.procs[p].attempt;
      s.(attempts := s.attempts[a := s.attempts[a].(done := true)], procs := s.procs[p := OpenReturned])
    case CallClose(p) => s.(procs := s.procs[p := CloseEnter])
    case EnterClose(p) =>
      if s.f.closed then s.(procs := s.procs[p := CloseReturned])
      else
        s.(f := s.f.(closed := true), firstCloser := Some(p),
           procs := s.procs[p := if s.f.attempt.Some? then CloseWait(s.f.attempt.value, s.f.openedApp)
                                 else CloseApp(s.f.openedApp)])
    case WakeClose(p) => s.(procs := s.procs[p := CloseReread(s.procs[p].seen)])
    case RereadClose(p) =>
      var seen := s.procs[p].seen;
      s.(procs := s.procs[p := CloseApp(if seen.None? then s.f.openedApp else seen)])
    case FinishClose(p) =>
      var seen := s.procs[p].seen;
      s.(procs := s.procs[p := CloseReturned],
         closes := if seen.Some? && seen.value.hasClose then s.closes + [seen.value] else s.closes)
  }

  // ---------- the invariant ----------

  /** p is running attempt a, which has not been published. */
  predicate InFlight(s: State, p: nat, a: nat) {
    p in s.procs && (s.procs[p] == Connecting(a) || (s.procs[p].Connected? && s.procs[p].attempt == a))
  }

  /** The app that has been connected, if any: published, or still in its opener's hands. */
  function Current(s: State): Option<App> {
    if s.f.openedApp.Some? then s.f.openedApp
    else if s.f.attempt.Some? && s.f.attempt.value < |s.attempts|
            && s.attempts[s.f.attempt.value].opener in s.procs
            && s.procs[s.attempts[s.f.attempt.value].opener].Connected?
            && s.procs[s.attempts[s.f.attempt.value].opener].outcome.Opened?
    then Some(s.procs[s.attempts[s.f.attempt.value].opener].outcome.app)
    else None
  }

  predicate AttemptOk(s: State) {
    s.f.attempt.Some? ==>
      var a := s.f.attempt.value;
      a < |s.attempts| && s.f.openedApp.None?
      && InFlight(s, s.attempts[a].opener, a) && s.attempts[a].result.None? && !s.attempts[a].done
  }

  predicate AttemptsOk(s: State) {
    forall a :: 0 <= a < |s.attempts| ==>
      && (s.attempts[a].done ==> s.attempts[a].result.Some?)
      && (s.attempts[a].result.Some? ==> s.f.attempt != Some(a))
      && (s.attempts[a].result.Some? && s.attempts[a].result.value.Opened? ==>
            s.f.openedApp == Some(s.attempts[a].result.value.app))
  }

  predicate ProcOk(s: State, p: nat, x: Proc) {
    match x
    case GetWait(a) => a < |s.attempts|
    case GetReturned(r) => r.Got? ==> s.f.openedApp == Some(r.app)
    case Connecting(a) => a < |s.attempts| && s.attempts[a].opener == p && s.f.attempt == Some(a)
    case Connected(a, _) => a < |s.attempts| && s.attempts[a].opener == p && s.f.attempt == Some(a)
    case Published(a) =>
      a < |s.attempts| && s.attempts[a].opener == p && s.attempts[a].result.Some? && !s.attempts[a].done
    case CloseWait(a, seen) => s.firstCloser == Some(p) && a < |s.attempts| && seen.None? && s.closes == []
                               && (s.f.attempt.Some? ==> s.f.attempt == Some(a))
    case CloseReread(seen) => s.firstCloser == Some(p) && seen.None? && s.f.attempt.None? && s.closes == []
    case CloseApp(seen) => s.firstCloser == Some(p) && seen == s.f.openedApp && s.f.attempt.None? && s.closes == []
    case _ => true
  }

  /** What has been closed when the first closer has returned. */
  function AllClosed(s: State): seq<App> {
    if s.f.openedApp.Some? && s.f.openedApp.value.hasClose then [s.f.openedApp.value] else []
  }

  predicate CloserOk(s: State) {
    && s.f.closed == s.firstCloser.Some?
    && (s.firstCloser.None? ==> s.closes == [])
    && (s.firstCloser.Some? ==>
          var p := s.firstCloser.value;
          && p in s.procs
          && (s.procs[p].CloseWait? || s.procs[p].CloseReread? || s.procs[p].CloseApp? || s.procs[p].CloseReturned?)
          && (s.procs[p].CloseReturned? ==> s.f.attempt.None? && s.closes == AllClosed(s)))
  }

  predicate Inv(s: State) {
    && AttemptOk(s)
    && AttemptsOk(s)
    && (forall p :: p in s.procs ==> ProcOk(s, p, s.procs[p]))
    && CloserOk(s)
    && s.connected == (if Current(s).Some? then [Current(s).value] else [])
  }

  lemma KeepsAttempt(s: State, step: Step)
    requires Inv(s) && Enabled(s, step)
    ensures AttemptOk(Apply(s, step))
  {
    if s.f.attempt.Some? {
      var q := s.attempts[s.f.attempt.value].opener;
      assert ProcOk(s, q, s.procs[q]);
    }
    match step
    case PublishOpen(p) => assert ProcOk(s, p, s.procs[p]);
    case CloseChannel(p) => assert ProcOk(s, p, s.procs[p]);
    case _ =>
  }

  lemma KeepsAttempts(s: State, step: Step)
    requires Inv(s) && Enabled(s, step)
    ensures AttemptsOk(Apply(s, step))
  {
    match step
    case PublishOpen(p) => assert ProcOk(s, p, s.procs[p]);
    case CloseChannel(p) => assert ProcOk(s, p, s.procs[p]);
    case _ =>
  }

  lemma PublishKeepsProc(s: State, q: nat, p: nat)
    requires Inv(s) && Enabled(s, PublishOpen(q)) && p in s.procs
    ensures var t := Apply(s, PublishOpen(q)); ProcOk(t, p, t.procs[p])
  {
    assert ProcOk(s, p, s.procs[p]) && ProcOk(s, q, s.procs[q]);
  }

  lemma ChannelKeepsProc(s: State, q: nat, p: nat)
    requires Inv(s) && Enabled(s, CloseChannel(q)) && p in s.procs
    ensures var t := Apply(s, CloseChannel(q)); ProcOk(t, p, t.procs[p])
  {
    assert ProcOk(s, p, s.procs[p]) && ProcOk(s, q, s.procs[q]);
  }

  lemma EnterKeepsProc(s: State, g: nat, q: nat, p: nat)
    requires Inv(s) && Enabled(s, EnterGet(g, q)) && p in Apply(s, EnterGet(g, q)).procs
    ensures var t := Apply(s, EnterGet(g, q)); ProcOk(t, p, t.procs[p])
  {
    assert p in s.procs ==> ProcOk(s, p, s.procs[p]);
  }

  lemma ConnectKeepsProc(s: State, q: nat, r: Outcome, p: nat)
    requires Inv(s) && Enabled(s, ConnectReturns(q, r)) && p in s.procs
    ensures var t := Apply(s, ConnectReturns(q, r)); ProcOk(t, p, t.procs[p])
  {
    assert ProcOk(s, p, s.procs[p]) && ProcOk(s, q, s.procs[q]);
  }

  lemma CloseKeepsProc(s: State, step: Step, p: nat)
    requires step.EnterClose? || step.WakeClose? || step.RereadClose? || step.FinishClose?
    requires Inv(s) && Enabled(s, step) && p in s.procs
    ensures var t := Apply(s, step); ProcOk(t, p, t.procs[p])
  {
    assert ProcOk(s, p, s.procs[p]);
    match step
    case WakeClose(q) => assert ProcOk(s, q, s.procs[q]);
    case RereadClose(q) => assert ProcOk(s, q, s.procs[q]);
    case FinishClose(q) => assert ProcOk(s, q, s.procs[q]);
    case _ =>
  }

  lemma KeepsProc(s: State, step: Step, p: nat)
    requires Inv(s) && Enabled(s, step) && p in Apply(s, step).procs
    ensures ProcOk(Apply(s, step), p, Apply(s, step).procs[p])
  {
    if step.EnterGet? {
      EnterKeepsProc(s, step.p, step.opener, p);
    } else if step.ConnectReturns? {
      ConnectKeepsProc(s, step.p, step.outcome, p);
    } else if step.PublishOpen? {
      PublishKeepsProc(s, step.p, p);
    } else if step.CloseChannel? {
      ChannelKeepsProc(s, step.p, p);
    } else if step.EnterClose? || step.WakeClose? || step.RereadClose? || step.FinishClose? {
      CloseKeepsProc(s, step, p);
    } else {
      assert p in s.procs ==> ProcOk(s, p, s.procs[p]);
    }
  }

  lemma KeepsCloser(s: State, step: Step)
    requires Inv(s) && Enabled(s, step)
    ensures CloserOk(Apply(s, step))
  {
    match step
    case PublishOpen(q) => assert ProcOk(s, q, s.procs[q]);
    case WakeClose(q) => assert ProcOk(s, q, s.procs[q]);
    case RereadClose(q) => assert ProcOk(s, q, s.procs[q]);
    case FinishClose(q) => assert ProcOk(s, q, s.procs[q]);
    case _ =>
  }

  lemma KeepsConnected(s: State, step: Step)
    requires Inv(s) && Enabled(s, step)
    ensures var t := Apply(s, step);
            t.connected == (if Current(t).Some? then [Current(t).value] else [])
  {
    if s.f.attempt.Some? {
      var q := s.attempts[s.f.attempt.value].opener;
      assert ProcOk(s, q, s.procs[q]);
    }
    match step
    case ConnectReturns(q, _) => assert ProcOk(s, q, s.procs[q]);
    case PublishOpen(q) => assert ProcOk(s, q, s.procs[q]);
    case CloseChannel(q) => assert ProcOk(s, q, s.procs[q]);
    case _ =>
  }

  lemma StepKeepsInv(s: State, step: Step)
    requires Inv(s) && Enabled(s, step)
    ensures Inv(Apply(s, step))
  {
    KeepsAttempt(s, step);
    KeepsAttempts(s, step);
    KeepsCloser(s, step);
    KeepsConnected(s, step);
    forall p | p in Apply(s, step).procs ensures ProcOk(Apply(s, step), p, Apply(s, step).procs[p]) {
      KeepsProc(s, step, p);
    }
  }

  // ---------- every run ----------

  predicate CanRun(s: State, steps: seq<Step>)
    decreases |steps|
  {
    steps == [] || (Enabled(s, steps[0]) && CanRun(Apply(s, steps[0]), steps[1..]))
  }

  function Run(s: State, steps: seq<Step>): State
    requires CanRun(s, steps)
    decreases |steps|
  {
    if steps == [] then s else Run(Apply(s, steps[0]), steps[1..])
  }

  lemma {:induction false} RunKeepsInv(s: State, steps: seq<Step>)
    requires Inv(s) && CanRun(s, steps)
    ensures Inv(Run(s, steps))
    decreases |steps|
  {
    if steps != [] {
      StepKeepsInv(s, steps[0]);
      RunKeepsInv(Apply(s, steps[0]), steps[1..]);
    }
  }

  /** In every interleaving, whatever the connects do: at most one attempt is in flight, at most
      one app is ever connected, every caller that got an app got that one, and no channel is
      closed twice. */
  lemma SharedAttempt(steps: seq<Step>)
    requires CanRun(INIT, steps)
    ensures var s := Run(INIT, steps);
            && (forall p, q, a, b :: InFlight(s, p, a) && InFlight(s, q, b) ==> p == q && a == b)
            && |s.connected| <= 1
            && (forall p :: p in s.procs && s.procs[p].GetReturned? && s.procs[p].r.Got? ==>
                  s.connected == [s.procs[p].r.app])
            && (forall p :: Enabled(s, CloseChannel(p)) ==> !s.attempts[s.procs[p].attempt].done)
  {
    RunKeepsInv(INIT, steps);
    var s := Run(INIT, steps);
    assert forall p :: p in s.procs ==> ProcOk(s, p, s.procs[p]);
  }

  // ---------- who hears what of a connect ----------

  /** The goroutine running attempt a, from the connect to its end. */
  predicate Runs(s: State, q: nat, a: nat) {
    InFlight(s, q, a) || At(s, q, Published(a)) || (At(s, q, OpenReturned) && a < |s.attempts| && s.attempts[a].result.Some?)
  }

  /** q has connected with this outcome, and has kept it or stored it in its attempt. */
  predicate Told(s: State, q: nat, r: Outcome) {
    && q in s.procs
    && (s.procs[q].Connected? || s.procs[q].Published? || s.procs[q] == OpenReturned)
    && (s.procs[q].Connected? ==> s.procs[q].outcome == r)
    && (!s.procs[q].Connected? ==>
          forall a :: 0 <= a < |s.attempts| && s.attempts[a].opener == q ==> s.attempts[a].result == Some(r))
  }

  /** What the goroutines hold and the attempts store is what the connects so far have returned. */
  predicate Remembers(s: State, past: seq<Step>) {
    && (forall a :: 0 <= a < |s.attempts| ==> Runs(s, s.attempts[a].opener, a))
    && (forall i :: 0 <= i < |past| && past[i].ConnectReturns? ==> Told(s, past[i].p, past[i].outcome))
    && (forall q :: q in s.procs && s.procs[q].Connected? ==> ConnectReturns(q, s.procs[q].outcome) in past)
    && (forall a :: 0 <= a < |s.attempts| && s.attempts[a].result.Some? ==>
          ConnectReturns(s.attempts[a].opener, s.attempts[a].result.value) in past)
  }

  lemma StepKeepsRuns(s: State, past: seq<Step>, step: Step, a: nat)
    requires Inv(s) && Remembers(s, past) && Enabled(s, step) && a < |Apply(s, step).attempts|
    ensures Runs(Apply(s, step), Apply(s, step).attempts[a].opener, a)
  {
    if a < |s.attempts| {
      assert Runs(s, s.attempts[a].opener, a);
    }
  }

  lemma StepKeepsTold(s: State, past: seq<Step>, step: Step, q: nat, r: Outcome)
    requires Inv(s) && Remembers(s, past) && Enabled(s, step) && Told(s, q, r)
    ensures Told(Apply(s, step), q, r)
  {
    forall a | 0 <= a < |s.attempts| ensures Runs(s, s.attempts[a].opener, a) { }
  }

  lemma NewlyTold(s: State, past: seq<Step>, q: nat, r: Outcome)
    requires Inv(s) && Remembers(s, past) && Enabled(s, ConnectReturns(q, r))
    ensures Told(Apply(s, ConnectReturns(q, r)), q, r)
  {
  }

  lemma StepRemembers(s: State, past: seq<Step>, step: Step)
    requires Inv(s) && Remembers(s, past) && Enabled(s, step)
    ensures Remembers(Apply(s, step), past + [step])
  {
    var t, now := Apply(s, step), past + [step];
    forall a | 0 <= a < |t.attempts| ensures Runs(t, t.attempts[a].opener, a) {
      StepKeepsRuns(s, past, step, a);
    }
    forall i | 0 <= i < |now| && now[i].ConnectReturns? ensures Told(t, now[i].p, now[i].outcome) {
      if i < |past| {
        StepKeepsTold(s, past, step, past[i].p, past[i].outcome);
      } else {
        NewlyTold(s, past, step.p, step.outcome);
      }
    }
    StepStores(s, past, step);
  }

  lemma StepStores(s: State, past: seq<Step>, step: Step)
    requires Inv(s) && Remembers(s, past) && Enabled(s, step)
    ensures
      var t, now := Apply(s, step), past + [step];
      && (forall q :: q in t.procs && t.procs[q].Connected? ==> ConnectReturns(q, t.procs[q].outcome) in now)
      && (forall a :: 0 <= a < |t.attempts| && t.attempts[a].result.Some? ==>
            ConnectReturns(t.attempts[a].opener, t.attempts[a].result.value) in now)
  {
    var now := past + [step];
    assert forall x :: x in past ==> x in now;
    assert step in now;
    if step.PublishOpen? {
      assert ProcOk(s, step.p, s.procs[step.p]);
    }
  }

  lemma Regroup(past: seq<Step>, steps: seq<Step>)
    requires steps != []
    ensures past + [steps[0]] + steps[1..] == past + steps
  {
  }

  lemma {:induction false} RunRemembers(s: State, past: seq<Step>, steps: seq<Step>)
    requires Inv(s) && Remembers(s, past) && CanRun(s, steps)
    ensures Remembers(Run(s, steps), past + steps)
    decreases |steps|
  {
    if steps == [] {
      assert past + steps == past;
    } else {
      StepKeepsInv(s, steps[0]);
      StepRemembers(s, past, steps[0]);
      RunRemembers(Apply(s, steps[0]), past + [steps[0]], steps[1..]);
      Regroup(past, steps);
    }
  }

  predicate SomeInFlight(s: State) { exists a :: 0 <= a < |s.attempts| && InFlight(s, s.attempts[a].opener, a) }

  /** Close has begun exactly if some close has entered. */
  lemma {:induction false} ClosedIff(s: State, steps: seq<Step>)
    requires CanRun(s, steps)
    ensures Run(s, steps).f.closed <==> s.f.closed || exists i :: 0 <= i < |steps| && steps[i].EnterClose?
    decreases |steps|
  {
    if steps != [] {
      ClosedIff(Apply(s, steps[0]), steps[1..]);
      if i :| 0 <= i < |steps| && steps[i].EnterClose? && i > 0 {
        assert steps[1..][i - 1] == steps[i];
      }
    }
  }

  /** In every run, what a get answers when it has the lock: that aidev is shutting down, exactly if a close
      has begun; the app, if one is open; and otherwise it waits for the attempt in flight, starting one
      exactly if there is none. A get that gives up is told so. */
  lemma GetAnswers(steps: seq<Step>, p: nat, q: nat)
    requires CanRun(INIT, steps) && Enabled(Run(INIT, steps), EnterGet(p, q))
    ensures
      var s, t := Run(INIT, steps), Apply(Run(INIT, steps), EnterGet(p, q));
      var closing := exists i :: 0 <= i < |steps| && steps[i].EnterClose?;
      && (At(t, p, GetReturned(ShuttingDown)) <==> closing)
      && (!closing && s.f.openedApp.Some? ==> At(t, p, GetReturned(Got(s.f.openedApp.value))) && s.connected == [s.f.openedApp.value])
      && (!closing && s.f.openedApp.None? ==> exists a: nat :: At(t, p, GetWait(a)) && a < |t.attempts| && InFlight(t, t.attempts[a].opener, a))
      && |t.attempts| == |s.attempts| + (if !closing && s.f.openedApp.None? && !SomeInFlight(s) then 1 else 0)
  {
    RunKeepsInv(INIT, steps);
    ClosedIff(INIT, steps);
    EnterAnswers(Run(INIT, steps), p, q);
  }

  lemma EnterAnswers(s: State, p: nat, q: nat)
    requires Inv(s) && Enabled(s, EnterGet(p, q))
    ensures
      var t := Apply(s, EnterGet(p, q));
      && (At(t, p, GetReturned(ShuttingDown)) <==> s.f.closed)
      && (!s.f.closed && s.f.openedApp.Some? ==> At(t, p, GetReturned(Got(s.f.openedApp.value))) && s.connected == [s.f.openedApp.value])
      && (!s.f.closed && s.f.openedApp.None? ==> exists a: nat :: At(t, p, GetWait(a)) && a < |t.attempts| && InFlight(t, t.attempts[a].opener, a))
      && |t.attempts| == |s.attempts| + (if !s.f.closed && s.f.openedApp.None? && !SomeInFlight(s) then 1 else 0)
  {
    var t := Apply(s, EnterGet(p, q));
    InFlightIff(s);
    if !s.f.closed && s.f.openedApp.None? {
      var a := if s.f.attempt.Some? then s.f.attempt.value else |s.attempts|;
      assert At(t, p, GetWait(a)) && InFlight(t, t.attempts[a].opener, a);
    }
  }

  lemma InFlightIff(s: State)
    requires Inv(s)
    ensures SomeInFlight(s) <==> s.f.attempt.Some?
  {
    forall a | 0 <= a < |s.attempts| && InFlight(s, s.attempts[a].opener, a) ensures s.f.attempt == Some(a) {
      assert ProcOk(s, s.attempts[a].opener, s.procs[s.attempts[a].opener]);
    }
  }

  /** The first close to enter marks the app closed and takes the attempt in flight and the open app; any
      other returns at once. Someone who gives up waiting is told that. */
  lemma CloseBegins(s: State, p: nat)
    ensures Enabled(s, EnterClose(p)) ==>
      var t := Apply(s, EnterClose(p));
      && t.f == s.f.(closed := true)
      && (s.f.closed ==> At(t, p, CloseReturned) && t.firstCloser == s.firstCloser)
      && (!s.f.closed ==> t.firstCloser == Some(p))
      && (!s.f.closed && s.f.attempt.Some? ==> At(t, p, CloseWait(s.f.attempt.value, s.f.openedApp)))
      && (!s.f.closed && s.f.attempt.None? ==> At(t, p, CloseApp(s.f.openedApp)))
    ensures Enabled(s, GiveUpGet(p)) ==> At(Apply(s, GiveUpGet(p)), p, GetReturned(GaveUp))
  {
  }

  /** In every run, a get that waited for an attempt is told exactly what that attempt's connect
      returned: the app, which is then the one that is open, or an error if it failed. */
  lemma WaiterIsTold(steps: seq<Step>, p: nat, app: App)
    requires CanRun(INIT, steps) && Enabled(Run(INIT, steps), WakeGet(p))
    ensures
      var s := Run(INIT, steps);
      var q, after := s.attempts[s.procs[p].attempt].opener, Apply(s, WakeGet(p));
      && (At(after, p, GetReturned(Got(app))) <==> ConnectReturns(q, Opened(app)) in steps)
      && (At(after, p, GetReturned(Got(app))) ==> after.connected == [app] && after.f.openedApp == Some(app))
      && (At(after, p, GetReturned(GotError)) <==> ConnectReturns(q, ConnectFailed) in steps)
  {
    RunKeepsInv(INIT, steps);
    RunRemembers(INIT, [], steps);
    assert [] + steps == steps;
    WakeTells(Run(INIT, steps), steps, p, app);
  }

  lemma WakeTells(s: State, past: seq<Step>, p: nat, app: App)
    requires Inv(s) && Remembers(s, past) && Enabled(s, WakeGet(p))
    ensures
      var q, after := s.attempts[s.procs[p].attempt].opener, Apply(s, WakeGet(p));
      && (At(after, p, GetReturned(Got(app))) <==> ConnectReturns(q, Opened(app)) in past)
      && (At(after, p, GetReturned(Got(app))) ==> after.connected == [app] && after.f.openedApp == Some(app))
      && (At(after, p, GetReturned(GotError)) <==> ConnectReturns(q, ConnectFailed) in past)
  {
    var a := s.procs[p].attempt;
    WhatIsTold(s, past, a, Opened(app));
    WhatIsTold(s, past, a, ConnectFailed);
  }

  lemma WhatIsTold(s: State, past: seq<Step>, a: nat, r: Outcome)
    requires Inv(s) && Remembers(s, past) && a < |s.attempts| && s.attempts[a].done
    ensures s.attempts[a].result == Some(r) <==> ConnectReturns(s.attempts[a].opener, r) in past
  {
    var q := s.attempts[a].opener;
    assert Runs(s, q, a);
    assert ProcOk(s, q, s.procs[q]);
    if ConnectReturns(q, r) in past {
      var i :| 0 <= i < |past| && past[i] == ConnectReturns(q, r);
      assert Told(s, q, r);
    }
  }

  lemma {:induction false} ClosedStays(s: State, steps: seq<Step>)
    requires Inv(s) && CanRun(s, steps) && s.f.closed
    ensures Run(s, steps).f.closed && |Run(s, steps).attempts| == |s.attempts|
    ensures Run(s, steps).firstCloser == s.firstCloser
    decreases |steps|
  {
    if steps != [] {
      StepKeepsInv(s, steps[0]);
      ClosedStays(Apply(s, steps[0]), steps[1..]);
    }
  }

  /** No attempt starts once close has begun. */
  lemma NoAttemptAfterClose(before: seq<Step>, after: seq<Step>)
    requires CanRun(INIT, before) && Run(INIT, before).f.closed && CanRun(Run(INIT, before), after)
    ensures |Run(Run(INIT, before), after).attempts| == |Run(INIT, before).attempts|
  {
    RunKeepsInv(INIT, before);
    ClosedStays(Run(INIT, before), after);
  }

  predicate FirstCloseReturned(s: State) {
    s.firstCloser.Some? && At(s, s.firstCloser.value, CloseReturned)
  }

  /** The apps that have a close function, of those ever connected. */
  function Closable(apps: seq<App>): seq<App> {
    Filter(apps, (x: App) => x.hasClose)
  }

  lemma {:induction false} ReturnedStays(s: State, steps: seq<Step>)
    requires Inv(s) && CanRun(s, steps) && FirstCloseReturned(s)
    ensures FirstCloseReturned(Run(s, steps))
    decreases |steps|
  {
    if steps != [] {
      StepKeepsInv(s, steps[0]);
      ReturnedStays(Apply(s, steps[0]), steps[1..]);
    }
  }

  /** When the first close has returned, and ever after, each app that was connected has been
      closed exactly once, and nothing else has. */
  lemma ClosedExactlyOnce(before: seq<Step>, after: seq<Step>)
    requires CanRun(INIT, before) && FirstCloseReturned(Run(INIT, before))
    requires CanRun(Run(INIT, before), after)
    ensures var s, t := Run(INIT, before), Run(Run(INIT, before), after);
            && s.closes == Closable(s.connected)
            && t.closes == Closable(t.connected) && t.connected == s.connected
  {
    var s := Run(INIT, before);
    RunKeepsInv(INIT, before);
    var t := Run(s, after);
    RunKeepsInv(s, after);
    ReturnedStays(s, after);
    ClosesAre(s);
    ClosesAre(t);
    ConnectedStays(s, after);
  }

  lemma ClosesAre(s: State)
    requires Inv(s) && FirstCloseReturned(s)
    ensures s.closes == Closable(s.connected)
  {
    var keep := (x: App) => x.hasClose;
    if s.connected != [] {
      var x := s.connected[0];
      assert s.connected == [x] && [x][..0] == [];
      assert Filter([x], keep) == Filter([], keep) + (if keep(x) then [x] else []);
    } else {
      assert Filter([], keep) == [];
    }
  }

  lemma {:induction false} ConnectedStays(s: State, steps: seq<Step>)
    requires Inv(s) && CanRun(s, steps) && FirstCloseReturned(s)
    ensures Run(s, steps).connected == s.connected
    decreases |steps|
  {
    if steps != [] {
      StepKeepsInv(s, steps[0]);
      ReturnedStays(s, steps[..1]) by { assert CanRun(s, steps[..1]); }
      assert forall p :: p in s.procs ==> ProcOk(s, p, s.procs[p]);
      ConnectedStays(Apply(s, steps[0]), steps[1..]);
    }
  }

  // ---------- close returns ----------

  /** How many steps of the first closer and of the attempt it waits for are still to come. */
  function StepsToClose(s: State): nat {
    if s.firstCloser.None? || s.firstCloser.value !in s.procs then 0
    else match s.procs[s.firstCloser.value]
      case CloseWait(a, _) => 3 + (if a < |s.attempts| then StepsToDone(s, s.attempts[a]) else 0)
      case CloseReread(_) => 2
      case CloseApp(_) => 1
      case _ => 0
  }

  function StepsToDone(s: State, a: Attempt): nat {
    if a.done || a.opener !in s.procs then 0
    else match s.procs[a.opener]
      case Connecting(_) => 3
      case Connected(_, _) => 2
      case Published(_) => 1
      case _ => 0
  }

  /** The step the first closer is waiting for. */
  function NextForClose(s: State): Step
    requires s.firstCloser.Some? && s.firstCloser.value in s.procs
  {
    var p := s.firstCloser.value;
    match s.procs[p]
    case CloseReread(_) => RereadClose(p)
    case CloseApp(_) => FinishClose(p)
    case CloseWait(a, _) => (
      if a >= |s.attempts| || s.attempts[a].done || s.attempts[a].opener !in s.procs then WakeClose(p)
      else match s.procs[s.attempts[a].opener]
        case Connecting(_) => ConnectReturns(s.attempts[a].opener, ConnectFailed)
        case Connected(_, _) => PublishOpen(s.attempts[a].opener)
        case _ => CloseChannel(s.attempts[a].opener))
    case _ => WakeClose(p)
  }

  /** An attempt someone waits for is still run by its opener until its channel is closed. */
  predicate OpenersRun(s: State) {
    forall a :: 0 <= a < |s.attempts| && !s.attempts[a].done ==>
      var q := s.attempts[a].opener;
      InFlight(s, q, a) || At(s, q, Published(a))
  }

  lemma StepKeepsOpeners(s: State, step: Step)
    requires Inv(s) && OpenersRun(s) && Enabled(s, step)
    ensures OpenersRun(Apply(s, step))
  {
    if step.PublishOpen? || step.CloseChannel? || step.ConnectReturns? {
      assert ProcOk(s, step.p, s.procs[step.p]);
      OpeningKeepsOpeners(s, step);
    }
  }

  lemma OpeningKeepsOpeners(s: State, step: Step)
    requires OpenersRun(s) && Enabled(s, step) && (step.PublishOpen? || step.CloseChannel? || step.ConnectReturns?)
    requires ProcOk(s, step.p, s.procs[step.p])
    ensures OpenersRun(Apply(s, step))
  {
  }

  lemma {:induction false} RunKeepsOpeners(s: State, steps: seq<Step>)
    requires Inv(s) && OpenersRun(s) && CanRun(s, steps)
    ensures OpenersRun(Run(s, steps))
    decreases |steps|
  {
    if steps != [] {
      StepKeepsInv(s, steps[0]);
      StepKeepsOpeners(s, steps[0]);
      RunKeepsOpeners(Apply(s, steps[0]), steps[1..]);
    }
  }

  /** The first close never gets stuck: until it has returned, the step it waits for can happen,
      brings it nearer to returning, and no step of anyone takes it further away. */
  lemma CloseReturns(steps: seq<Step>, other: Step)
    requires CanRun(INIT, steps) && Run(INIT, steps).firstCloser.Some?
    requires !FirstCloseReturned(Run(INIT, steps)) && Enabled(Run(INIT, steps), other)
    ensures var s := Run(INIT, steps);
            && s.firstCloser.value in s.procs
            && Enabled(s, NextForClose(s))
            && StepsToClose(Apply(s, NextForClose(s))) < StepsToClose(s) <= 6
            && StepsToClose(Apply(s, other)) <= StepsToClose(s)
  {
    RunKeepsInv(INIT, steps);
    RunKeepsOpeners(INIT, steps);
    var s := Run(INIT, steps);
    NextEnabled(s);
    NeverFurther(s, other);
  }

  lemma NextEnabled(s: State)
    requires Inv(s) && OpenersRun(s) && s.firstCloser.Some? && !FirstCloseReturned(s)
    ensures Enabled(s, NextForClose(s)) && StepsToClose(Apply(s, NextForClose(s))) < StepsToClose(s) <= 6
  {
    var p := s.firstCloser.value;
    assert ProcOk(s, p, s.procs[p]);
    if s.procs[p].CloseWait? {
      var a := s.procs[p].attempt;
      if !s.attempts[a].done {
        assert ProcOk(s, s.attempts[a].opener, s.procs[s.attempts[a].opener]);
      }
    }
  }

  lemma NeverFurther(s: State, step: Step)
    requires Inv(s) && OpenersRun(s) && s.firstCloser.Some? && Enabled(s, step)
    ensures StepsToClose(Apply(s, step)) <= StepsToClose(s)
  {
    var p := s.firstCloser.value;
    assert ProcOk(s, p, s.procs[p]);
    match step
    case PublishOpen(q) => assert ProcOk(s, q, s.procs[q]);
    case CloseChannel(q) => assert ProcOk(s, q, s.procs[q]);
    case ConnectReturns(q, _) => assert ProcOk(s, q, s.procs[q]);
    case _ =>
  }

  /** Everything ever connected is published and closed. */
  predicate Settled(s: State) { s.f.attempt.None? && s.closes == Closable(s.connected) }

  /** A close call that finds the app already closing returns at once. In every run, what it finds
      on returning is settled exactly if the first close has returned, or there was nothing to wait
      for and nothing to close. */
  lemma LaterCloseFindsItSettledIff(steps: seq<Step>, p: nat)
    requires CanRun(INIT, steps) && At(Run(INIT, steps), p, CloseEnter) && Run(INIT, steps).f.closed
    ensures var s := Run(INIT, steps);
            var t := Apply(s, EnterClose(p));
            && At(t, p, CloseReturned)
            && (Settled(t) <==>
                  FirstCloseReturned(s) || (s.f.attempt.None? && Closable(s.connected) == []))
  {
    RunKeepsInv(INIT, steps);
    var s := Run(INIT, steps);
    var q := s.firstCloser.value;
    assert ProcOk(s, q, s.procs[q]);
    if FirstCloseReturned(s) {
      ClosesAre(s);
    }
  }

  /** One such run: the second close has returned while the app is connected and not closed. */
  lemma LaterCloseReturnsEarly()
    ensures var app := App(0, true);
            var steps := [CallGet(0), EnterGet(0, 1), CallClose(2), EnterClose(2), CallClose(3), EnterClose(3),
                          ConnectReturns(1, Opened(app))];
            && CanRun(INIT, steps)
            && At(Run(INIT, steps), 3, CloseReturned)
            && Run(INIT, steps).connected == [app] && Run(INIT, steps).closes == []
  {
    var app := App(0, true);
    var first := [CallGet(0), EnterGet(0, 1), CallClose(2), EnterClose(2)];
    var second := [CallClose(3), EnterClose(3), ConnectReturns(1, Opened(app))];
    FirstCloser();
    SecondCloser(Run(INIT, first), app);
    RunJoined(INIT, first, second);
    assert first + second == [CallGet(0), EnterGet(0, 1), CallClose(2), EnterClose(2), CallClose(3), EnterClose(3),
                              ConnectReturns(1, Opened(app))];
  }

  lemma {:induction false} RunJoined(s: State, a: seq<Step>, b: seq<Step>)
    requires CanRun(s, a) && CanRun(Run(s, a), b)
    ensures CanRun(s, a + b) && Run(s, a + b) == Run(Run(s, a), b)
    decreases |a|
  {
    if a == [] {
      assert a + b == b;
    } else {
      assert (a + b)[0] == a[0] && (a + b)[1..] == a[1..] + b;
      RunJoined(Apply(s, a[0]), a[1..], b);
    }
  }

  /** A get has started an attempt and a close waits for it. */
  predicate CloseIsWaiting(s: State) {
    s.f.closed && 3 !in s.procs && At(s, 1, Connecting(0)) && s.connected == [] && s.closes == []
  }

  lemma FirstCloser()
    ensures
      var steps := [CallGet(0), EnterGet(0, 1), CallClose(2), EnterClose(2)];
      CanRun(INIT, steps) && CloseIsWaiting(Run(INIT, steps))
  {
    var s1 := Apply(INIT, CallGet(0));
    var s2 := Apply(s1, EnterGet(0, 1));
    GetThenClose(s2);
    var t1, t2 := [EnterGet(0, 1), CallClose(2), EnterClose(2)], [CallClose(2), EnterClose(2)];
    Prepend(s1, EnterGet(0, 1), t2);
    Prepend(INIT, CallGet(0), t1);
    assert [EnterGet(0, 1)] + t2 == t1;
    assert [CallGet(0)] + t1 == [CallGet(0), EnterGet(0, 1), CallClose(2), EnterClose(2)];
  }

  lemma GetThenClose(s: State)
    requires s.procs.Keys == {0, 1} && At(s, 1, Connecting(0)) && s.f == Fields(None, Some(0), false) && s.connected == [] && s.closes == []
    ensures CanRun(s, [CallClose(2), EnterClose(2)]) && CloseIsWaiting(Run(s, [CallClose(2), EnterClose(2)]))
  {
    var s3 := Apply(s, CallClose(2));
    Prepend(s3, EnterClose(2), []);
    Prepend(s, CallClose(2), [EnterClose(2)]);
    assert [EnterClose(2)] + [] == [EnterClose(2)] && [CallClose(2)] + [EnterClose(2)] == [CallClose(2), EnterClose(2)];
  }

  lemma SecondCloser(s: State, app: App)
    requires CloseIsWaiting(s)
    ensures
      var steps := [CallClose(3), EnterClose(3), ConnectReturns(1, Opened(app))];
      && CanRun(s, steps) && At(Run(s, steps), 3, CloseReturned)
      && Run(s, steps).connected == [app] && Run(s, steps).closes == []
  {
    var s5 := Apply(s, CallClose(3));
    var s6 := Apply(s5, EnterClose(3));
    var last := ConnectReturns(1, Opened(app));
    Prepend(s6, last, []);
    Prepend(s5, EnterClose(3), [last] + []);
    Prepend(s, CallClose(3), [EnterClose(3)] + ([last] + []));
    assert [CallClose(3)] + ([EnterClose(3)] + ([last] + [])) == [CallClose(3), EnterClose(3), last];
  }

  lemma Prepend(s: State, step: Step, rest: seq<Step>)
    requires Enabled(s, step) && CanRun(Apply(s, step), rest)
    ensures CanRun(s, [step] + rest) && Run(s, [step] + rest) == Run(Apply(s, step), rest)
  {
    assert ([step] + rest)[0] == step && ([step] + rest)[1..] == rest;
  }
}
