/**
 * The supervision of the streamer processes as a function of values: what a session is, what each event does to it,
 * and what every run keeps. Module Streamer has the classes that carry this out with signals and callbacks.
 */
module Supervision {
  import opened SessionDetails

  datatype ChildState = STARTING | RUNNING | STOPPING | STOPPED

  /**
   * One child process: the state its manager shows, whether the operating system still runs it, whether it reported
   * its connection, whether a kill timer is pending, and how many times it was sent SIGTERM and SIGKILL.
   */
  datatype Proc = Proc(state: ChildState, alive: bool, connected: bool, killPending: bool, terms: nat, kills: nat)

  const NOT_STARTED := Proc(STOPPED, false, false, false, 0, 0)

  /** The streamer manager: its state, its processes, and the states its signal has announced, in order. */
  datatype Session = Session(state: ChildState, procs: map<Role, Proc>, heard: seq<ChildState>)

  const IDLE := Session(STOPPED, map[], [])

  // ----- One event

  predicate Stoppable(p: Proc) {
    p.state == RUNNING || p.state == STARTING
  }

  /** What telling a process to stop does to it; a process that has ended cannot be sent a signal. */
  function StopProc(p: Proc): Proc {
    match p.state
    case STARTING | RUNNING =>
      if p.alive then p.(state := STOPPING, terms := p.terms + 1, killPending := true) else p.(state := STOPPING)
    case STOPPING => if p.alive then p.(kills := p.kills + 1) else p
    case STOPPED => p
  }

  function ToldProc(p: Proc): Proc {
    if Stoppable(p) then StopProc(p) else p
  }

  predicate Active(s: Session) {
    s.state == RUNNING || s.state == STARTING
  }

  function Announce(s: Session, newState: ChildState): Session {
    s.(state := newState, heard := s.heard + [newState])
  }

  function StopAll(s: Session): Session {
    if Active(s)
    then Announce(s, STOPPING).(procs := map r | r in s.procs :: ToldProc(s.procs[r]))
    else s
  }

  function WithProc(s: Session, r: Role, p: Proc): Session {
    s.(procs := s.procs[r := p])
  }

  predicate OthersEnded(s: Session, r: Role) {
    forall q :: q in s.procs && q != r ==> s.procs[q].state == STOPPED
  }

  predicate NoOtherLives(s: Session, r: Role) {
    forall q :: q in s.procs && q != r ==> !s.procs[q].alive
  }

  /** What the manager does when process r announces a state, before the process has taken that state. */
  function Notified(s: Session, r: Role, newState: ChildState): Session {
    match newState
    case RUNNING => if s.state == STARTING then Announce(s, RUNNING) else s
    case STOPPED =>
      var told := StopAll(s);
      if told.state == STOPPING && OthersEnded(told, r) then Announce(told, STOPPED).(procs := map[]) else told
    case _ => s
  }

  function Assigned(s: Session, r: Role, newState: ChildState): Session {
    if r in s.procs then WithProc(s, r, s.procs[r].(state := newState)) else s
  }

  /** A process takes a new state: its manager hears of it first. */
  function Changed(s: Session, r: Role, newState: ChildState): Session
    requires r in s.procs
  {
    if s.procs[r].state == newState then s else Assigned(Notified(s, r, newState), r, newState)
  }

  /** The transition that the process manager refuses with an error. */
  predicate IllegalChildState(p: Proc, newState: ChildState) {
    p.state == STOPPED && newState != STOPPED && newState != STARTING
  }

  /** sync holds the processes that report their connection from within the call that spawns them. */
  datatype Event =
    | Start(roles: set<Role>, sync: set<Role>)
    | UserStop
    | Connect(r: Role)
    | End(r: Role)
    | KillTimer(r: Role)

  /** What the operating system and the reactor can deliver. */
  predicate Enabled(s: Session, e: Event) {
    match e
    case Start(roles, sync) => s.state == STOPPED && roles != {}
    case UserStop => true
    case Connect(r) => r in s.procs && s.procs[r].alive && !s.procs[r].connected
    case End(r) => r in s.procs && s.procs[r].alive
    case KillTimer(r) => r in s.procs && s.procs[r].killPending
  }

  function Started(sync: bool): Proc {
    Proc(if sync then RUNNING else STARTING, true, sync, false, 0, 0)
  }

  /** The end of a process cancels its kill timer when it was stopping. */
  function Ended(p: Proc): Proc {
    p.(alive := false, killPending := p.killPending && p.state != STOPPING)
  }

  function TimerFired(p: Proc): Proc {
    p.(killPending := false, kills := p.kills + (if p.state == STOPPING && p.alive then 1 else 0))
  }

  function Apply(s: Session, e: Event): Session
    requires Enabled(s, e)
  {
    match e
    case Start(roles, sync) =>
      var started := Announce(s, STARTING).(procs := map r | r in roles :: Started(r in sync));
      if roles * sync != {} then Announce(started, RUNNING) else started
    case UserStop => StopAll(s)
    case Connect(r) => Changed(WithProc(s, r, s.procs[r].(connected := true)), r, RUNNING)
    case End(r) => Changed(WithProc(s, r, Ended(s.procs[r])), r, STOPPED)
    case KillTimer(r) => WithProc(s, r, TimerFired(s.procs[r]))
  }

  // ----- The invariant

  predicate ProcInv(state: ChildState, p: Proc) {
    && (p.state == STOPPED <==> !p.alive)
    && p.terms <= 1
    && (p.killPending ==> p.terms == 1)
    && match state
       case STARTING => p.state == STARTING && p.alive && !p.connected && p.terms == 0
       case RUNNING => p.alive && p.terms == 0 && p.state == (if p.connected then RUNNING else STARTING)
       case STOPPING => p.alive ==> p.terms == 1 && (p.state == STOPPING || (p.state == RUNNING && p.connected))
       case STOPPED => false
  }

  function Latest(heard: seq<ChildState>): ChildState {
    if heard == [] then STOPPED else heard[|heard| - 1]
  }

  /** The cycle a streamer manager goes through. */
  predicate Follows(a: ChildState, b: ChildState) {
    match a
    case STOPPED => b == STARTING
    case STARTING => b == RUNNING || b == STOPPING
    case RUNNING => b == STOPPING
    case STOPPING => b == STOPPED
  }

  predicate Legal(heard: seq<ChildState>) {
    heard == [] || (Legal(heard[..|heard| - 1]) && Follows(Latest(heard[..|heard| - 1]), heard[|heard| - 1]))
  }

  ghost predicate SomeAlive(s: Session) {
    exists r :: r in s.procs && s.procs[r].alive
  }

  /** Between two events: a session is over exactly when it has no process, and one that is not over has a live one. */
  ghost predicate Inv(s: Session) {
    && (s.state == STOPPED ==> s.procs == map[])
    && (s.state != STOPPED ==> SomeAlive(s))
    && (forall r :: r in s.procs ==> ProcInv(s.state, s.procs[r]))
    && Latest(s.heard) == s.state
    && Legal(s.heard)
  }

  lemma {:induction false} AnnounceLegal(s: Session, newState: ChildState)
    requires Legal(s.heard) && Latest(s.heard) == s.state && Follows(s.state, newState)
    ensures Legal(Announce(s, newState).heard) && Latest(Announce(s, newState).heard) == newState
  {
    assert (s.heard + [newState])[..|s.heard|] == s.heard;
  }

  lemma {:induction false} StartKeepsInv(s: Session, roles: set<Role>, sync: set<Role>)
    requires Inv(s) && s.state == STOPPED && roles != {}
    ensures Inv(Apply(s, Start(roles, sync)))
  {
    var t := Apply(s, Start(roles, sync));
    AnnounceLegal(s, STARTING);
    AnnounceLegal(Announce(s, STARTING), RUNNING);
    var r :| r in roles;
    assert r in t.procs && t.procs[r].alive;
    assert forall q :: q in roles && q in sync ==> q in roles * sync;
  }

  lemma {:induction false} StopAllKeepsInv(s: Session)
    requires Inv(s)
    ensures Inv(StopAll(s))
    ensures !(StopAll(s).state == RUNNING || StopAll(s).state == STARTING)
  {
    if Active(s) {
      AnnounceLegal(s, STOPPING);
      var r :| r in s.procs && s.procs[r].alive;
      assert StopAll(s).procs[r].alive;
    }
  }

  lemma {:induction false} ConnectKeepsInv(s: Session, r: Role)
    requires Inv(s) && Enabled(s, Connect(r))
    ensures !IllegalChildState(s.procs[r], RUNNING)
    ensures Inv(Apply(s, Connect(r)))
  {
    var t := Apply(s, Connect(r));
    if s.state == STARTING {
      AnnounceLegal(s, RUNNING);
    }
    assert t.procs[r].alive;
  }

  /** The session when process r has ended and the manager, hearing of it, has told the others to stop. */
  function Told(s: Session, r: Role): Session
    requires r in s.procs
  {
    StopAll(WithProc(s, r, Ended(s.procs[r])))
  }

  lemma {:induction false} ToldOthers(s: Session, r: Role)
    requires Inv(s) && Enabled(s, End(r))
    ensures Told(s, r).state == STOPPING && Told(s, r).procs.Keys == s.procs.Keys
    ensures forall q :: q in s.procs && q != r ==>
              && Told(s, r).procs[q] == (if Active(s) then StopProc(s.procs[q]) else s.procs[q])
              && (Told(s, r).procs[q].state == STOPPED <==> !s.procs[q].alive)
  {
    forall q | q in s.procs && q != r
      ensures Told(s, r).procs[q] == (if Active(s) then StopProc(s.procs[q]) else s.procs[q])
      ensures Told(s, r).procs[q].state == STOPPED <==> !s.procs[q].alive
    {
      assert ProcInv(s.state, s.procs[q]);
    }
  }

  lemma {:induction false} EndIs(s: Session, r: Role)
    requires Inv(s) && Enabled(s, End(r))
    ensures var told := Told(s, r);
            && !told.procs[r].alive
            && Apply(s, End(r)) == if OthersEnded(told, r) then Announce(told, STOPPED).(procs := map[])
                                   else told.(procs := told.procs[r := told.procs[r].(state := STOPPED)])
  {
    ToldOthers(s, r);
    assert ProcInv(s.state, s.procs[r]);
  }

  /** What is left of a session right after process r has ended. */
  lemma {:induction false} EndGives(s: Session, r: Role)
    requires Inv(s) && Enabled(s, End(r))
    ensures var t := Apply(s, End(r));
            if NoOtherLives(s, r)
            then t.state == STOPPED && t.procs == map[]
            else t.state == STOPPING && t.procs.Keys == s.procs.Keys && !t.procs[r].alive && t.procs[r].state == STOPPED
                 && forall q :: q in s.procs && q != r ==>
                      t.procs[q] == (if Active(s) then StopProc(s.procs[q]) else s.procs[q])
  {
    ToldOthers(s, r);
    EndIs(s, r);
    assert OthersEnded(Told(s, r), r) <==> NoOtherLives(s, r);
  }

  lemma {:induction false} EndState(s: Session, r: Role)
    requires Inv(s) && Enabled(s, End(r))
    ensures s.state != STOPPED && Apply(s, End(r)).state == if NoOtherLives(s, r) then STOPPED else STOPPING
  {
    EndGives(s, r);
  }

  lemma {:induction false} EndKeepsInv(s: Session, r: Role)
    requires Inv(s) && Enabled(s, End(r))
    ensures Inv(Apply(s, End(r)))
  {
    var t := Apply(s, End(r));
    EndGives(s, r);
    EndHeard(s, r);
    if t.state == STOPPING {
      var q :| q in s.procs && q != r && s.procs[q].alive;
      assert t.procs[q].alive;
      forall q | q in t.procs
        ensures ProcInv(STOPPING, t.procs[q])
      {
        assert ProcInv(s.state, s.procs[q]);
      }
    }
  }

  lemma {:induction false} ToldHeard(s: Session, r: Role)
    requires Inv(s) && Enabled(s, End(r))
    ensures Told(s, r).state == STOPPING && Legal(Told(s, r).heard) && Latest(Told(s, r).heard) == STOPPING
  {
    if Active(s) { AnnounceLegal(s, STOPPING); }
  }

  lemma {:induction false} EndHeard(s: Session, r: Role)
    requires Inv(s) && Enabled(s, End(r))
    ensures var t := Apply(s, End(r)); Legal(t.heard) && Latest(t.heard) == t.state
  {
    ToldHeard(s, r);
    EndIs(s, r);
    AnnounceLegal(Told(s, r), STOPPED);
  }

  lemma {:induction false} ApplyKeepsInv(s: Session, e: Event)
    requires Inv(s) && Enabled(s, e)
    ensures Inv(Apply(s, e))
  {
    match e
    case Start(roles, sync) => StartKeepsInv(s, roles, sync);
    case UserStop => StopAllKeepsInv(s);
    case Connect(r) => ConnectKeepsInv(s, r);
    case End(r) => EndKeepsInv(s, r);
    case KillTimer(r) =>
      var q :| q in s.procs && s.procs[q].alive;
      assert Apply(s, e).procs[q].alive;
  }

  // ----- Runs

  predicate IsRun(events: seq<Event>)
    decreases |events|, 0
  {
    events == [] || (IsRun(events[..|events| - 1]) && Enabled(Run(events[..|events| - 1]), events[|events| - 1]))
  }

  function Run(events: seq<Event>): Session
    requires IsRun(events)
    decreases |events|, 1
  {
    if events == [] then IDLE else Apply(Run(events[..|events| - 1]), events[|events| - 1])
  }

  /** Every run keeps the invariant: in particular no manager is ever asked for a transition it refuses. */
  lemma {:induction false} RunKeepsInv(events: seq<Event>)
    requires IsRun(events)
    ensures Inv(Run(events))
  {
    if events == [] {
    } else {
      RunKeepsInv(events[..|events| - 1]);
      ApplyKeepsInv(Run(events[..|events| - 1]), events[|events| - 1]);
    }
  }

  /** A process, as it stands, is asked to take a new state. */
  datatype Request = Request(p: Proc, newState: ChildState)

  function StopRequests(s: Session): set<Request> {
    if Active(s) then set r | r in s.procs && Stoppable(s.procs[r]) :: Request(s.procs[r], STOPPING) else {}
  }

  /**
   * Every change of state that an event asks of a process, the one told to stop inside its own announcement included.
   */
  function Requests(s: Session, e: Event): set<Request>
    requires Enabled(s, e)
  {
    match e
    case Start(roles, sync) =>
      (set r | r in roles :: Request(NOT_STARTED, STARTING))
      + (set r | r in roles && r in sync :: Request(Started(false).(connected := true), RUNNING))
    case UserStop => StopRequests(s)
    case Connect(r) => {Request(s.procs[r].(connected := true), RUNNING)}
    case End(r) =>
      var ended := Ended(s.procs[r]);
      StopRequests(WithProc(s, r, ended))
      + {Request(if Active(s) && Stoppable(ended) then StopProc(ended) else ended, STOPPED)}
    case KillTimer(_) => {}
  }

  lemma {:induction false} StopRequestLegal(s: Session, q: Request)
    requires q in StopRequests(s)
    ensures Stoppable(q.p) && q.newState == STOPPING
  {
  }

  lemma {:induction false} RequestLegal(s: Session, e: Event, q: Request)
    requires Inv(s) && Enabled(s, e) && q in Requests(s, e)
    ensures !IllegalChildState(q.p, q.newState)
  {
    match e
    case Start(_, _) =>
    case UserStop => StopRequestLegal(s, q);
    case Connect(r) => ConnectKeepsInv(s, r);
    case End(r) =>
      if q.newState != STOPPED {
        StopRequestLegal(WithProc(s, r, Ended(s.procs[r])), q);
      }
    case KillTimer(_) =>
  }

  /** No process is ever asked for a state that it refuses, and the manager goes round its cycle only. */
  lemma {:induction false} NeverIllegal(events: seq<Event>, e: Event)
    requires IsRun(events) && Enabled(Run(events), e)
    ensures forall q :: q in Requests(Run(events), e) ==> !IllegalChildState(q.p, q.newState)
    ensures Legal(Apply(Run(events), e).heard)
  {
    RunKeepsInv(events);
    ApplyKeepsInv(Run(events), e);
    forall q | q in Requests(Run(events), e)
      ensures !IllegalChildState(q.p, q.newState)
    {
      RequestLegal(Run(events), e, q);
    }
  }

  /** A session in progress becomes STOPPED exactly while handling the end of its last live process. */
  lemma {:induction false} StoppedAtLastExit(events: seq<Event>, e: Event)
    requires IsRun(events) && Enabled(Run(events), e) && Run(events).state != STOPPED
    ensures var s := Run(events);
            Apply(s, e).state == STOPPED <==> e.End? && NoOtherLives(s, e.r)
  {
    RunKeepsInv(events);
    match e {
      case End(r) => EndGives(Run(events), r);
      case _ =>
    }
  }

  /** Once a session is stopping, every live process has been sent SIGTERM exactly once, however the stop began. */
  lemma {:induction false} EveryoneIsTold(events: seq<Event>, r: Role)
    requires IsRun(events) && r in Run(events).procs
    ensures Run(events).procs[r].terms <= 1
    ensures Run(events).procs[r].alive ==> (Run(events).procs[r].terms == 1 <==> Run(events).state == STOPPING)
  {
    RunKeepsInv(events);
    assert ProcInv(Run(events).state, Run(events).procs[r]);
  }

  /** Process r reported its connection in the current session, after that session had begun to stop. */
  predicate LateReport(events: seq<Event>, r: Role)
    requires IsRun(events)
  {
    if events == [] then false
    else
      var before, last := events[..|events| - 1], events[|events| - 1];
      match last
      case Start(_, _) => false
      case Connect(q) => (q == r && Run(before).state == STOPPING) || LateReport(before, r)
      case _ => LateReport(before, r)
  }

  /** Process r of a stopping session shows RUNNING, if it lives, exactly when its connection was reported late. */
  predicate LateShows(s: Session, r: Role, late: bool) {
    && (Active(s) ==> !late)
    && (s.state == STOPPING && r in s.procs && s.procs[r].alive ==> (s.procs[r].state == RUNNING <==> late))
  }

  lemma {:induction false} LateShowsAfterEnd(s: Session, q: Role, r: Role, late: bool)
    requires Inv(s) && Enabled(s, End(q)) && LateShows(s, r, late)
    ensures LateShows(Apply(s, End(q)), r, late)
  {
    EndGives(s, q);
    if r in s.procs { assert ProcInv(s.state, s.procs[r]); }
  }

  lemma {:induction false} LateShowsAfter(s: Session, e: Event, r: Role, late: bool)
    requires Inv(s) && Enabled(s, e) && LateShows(s, r, late)
    ensures LateShows(Apply(s, e), r, !e.Start? && (late || (e == Connect(r) && s.state == STOPPING)))
  {
    match e {
      case End(q) => LateShowsAfterEnd(s, q, r, late);
      case UserStop => if r in s.procs { assert ProcInv(s.state, s.procs[r]); }
      case _ =>
    }
  }

  lemma {:induction false} ShowsRunning(events: seq<Event>, r: Role)
    requires IsRun(events)
    ensures LateShows(Run(events), r, LateReport(events, r))
  {
    if events == [] {
    } else {
      var before, last := events[..|events| - 1], events[|events| - 1];
      RunKeepsInv(before);
      ShowsRunning(before, r);
      LateShowsAfter(Run(before), last, r, LateReport(before, r));
    }
  }

  /**
   * The timer kills a live process exactly when no report of its connection has come since the session began to stop.
   */
  lemma {:induction false} TimerKillsExactly(events: seq<Event>, r: Role)
    requires IsRun(events) && Enabled(Run(events), KillTimer(r)) && Run(events).procs[r].alive
    ensures Run(events).state == STOPPING
    ensures Apply(Run(events), KillTimer(r)).procs[r].kills
         == Run(events).procs[r].kills + (if LateReport(events, r) then 0 else 1)
  {
    RunKeepsInv(events);
    ShowsRunning(events, r);
    assert ProcInv(Run(events).state, Run(events).procs[r]);
  }

  /**
   * The kill timer of process r, read off the run: armed when the session begins to stop and r is not the process whose
   * end it is, gone once it has fired, and at the end of the process cancelled unless its connection was reported late.
   */
  predicate TimerPending(events: seq<Event>, r: Role)
    requires IsRun(events)
  {
    if events == [] then false
    else
      var before, last := events[..|events| - 1], events[|events| - 1];
      match last
      case Start(_, _) => false
      case UserStop => Active(Run(before)) || TimerPending(before, r)
      case Connect(_) => TimerPending(before, r)
      case End(q) =>
        if q == r then TimerPending(before, r) && LateReport(before, r)
        else Active(Run(before)) || TimerPending(before, r)
      case KillTimer(q) => q != r && TimerPending(before, r)
  }

  predicate PendingIs(s: Session, r: Role, pending: bool) {
    r in s.procs ==> (s.procs[r].killPending <==> pending)
  }

  lemma {:induction false} PendingAfterEnd(s: Session, q: Role, r: Role, pending: bool, late: bool)
    requires Inv(s) && Enabled(s, End(q)) && PendingIs(s, r, pending) && LateShows(s, r, late)
    ensures PendingIs(Apply(s, End(q)), r, if q == r then pending && late else Active(s) || pending)
  {
    EndGives(s, q);
    if r in s.procs { assert ProcInv(s.state, s.procs[r]); }
    if q == r { EndIs(s, r); ToldDying(s, r); }
  }

  lemma {:induction false} ToldDying(s: Session, r: Role)
    requires Inv(s) && Enabled(s, End(r))
    ensures r in Told(s, r).procs && Told(s, r).procs[r].killPending == Ended(s.procs[r]).killPending
  {
    assert ProcInv(s.state, s.procs[r]);
  }

  lemma {:induction false} PendingAfterStop(s: Session, r: Role, pending: bool)
    requires Inv(s) && PendingIs(s, r, pending)
    ensures PendingIs(StopAll(s), r, Active(s) || pending)
  {
    if r in s.procs { assert ProcInv(s.state, s.procs[r]); }
  }

  /** A timer is pending exactly when the run says so. */
  lemma {:induction false} TimersExactly(events: seq<Event>, r: Role)
    requires IsRun(events)
    ensures r in Run(events).procs ==> (Run(events).procs[r].killPending <==> TimerPending(events, r))
  {
    if events == [] {
    } else {
      var before, last := events[..|events| - 1], events[|events| - 1];
      TimersExactly(before, r);
      RunKeepsInv(before);
      ShowsRunning(before, r);
      match last {
        case End(q) => PendingAfterEnd(Run(before), q, r, TimerPending(before, r), LateReport(before, r));
        case UserStop => PendingAfterStop(Run(before), r, TimerPending(before, r));
        case _ =>
      }
    }
  }

  /** How often a timer of process r fired while it lived, and before any late report, in the current session. */
  function FiredInTime(events: seq<Event>, r: Role): nat
    requires IsRun(events)
  {
    if events == [] then 0
    else
      var before, last := events[..|events| - 1], events[|events| - 1];
      match last
      case Start(_, _) => 0
      case KillTimer(q) =>
        FiredInTime(before, r) + (if q == r && Run(before).procs[r].alive && !LateReport(before, r) then 1 else 0)
      case _ => FiredInTime(before, r)
  }

  lemma {:induction false} KillsAfterEnd(s: Session, q: Role, r: Role)
    requires Inv(s) && Enabled(s, End(q))
    ensures r in Apply(s, End(q)).procs ==> r in s.procs && Apply(s, End(q)).procs[r].kills == s.procs[r].kills
  {
    EndGives(s, q);
    if r in s.procs { assert ProcInv(s.state, s.procs[r]); }
    if q == r { EndIs(s, r); }
  }

  /** A process was sent SIGKILL exactly as often as its timer fired in time: its manager never kills it otherwise. */
  lemma {:induction false} KilledExactly(events: seq<Event>, r: Role)
    requires IsRun(events)
    ensures r in Run(events).procs ==> Run(events).procs[r].kills == FiredInTime(events, r)
  {
    if events == [] {
    } else {
      var before, last := events[..|events| - 1], events[|events| - 1];
      KilledExactly(before, r);
      RunKeepsInv(before);
      match last {
        case End(q) => KillsAfterEnd(Run(before), q, r);
        case UserStop => KillsAfterStop(Run(before), r);
        case KillTimer(q) =>
          if q == r && Run(before).procs[r].alive { TimerKillsExactly(before, r); }
        case _ =>
      }
    }
  }

  lemma {:induction false} KillsAfterStop(s: Session, r: Role)
    ensures r in s.procs ==> r in StopAll(s).procs && StopAll(s).procs[r].kills == s.procs[r].kills
  {
  }

  /** A start runs exactly the processes it is asked to, each alive and none told anything yet. */
  lemma {:induction false} StartGives(events: seq<Event>, roles: set<Role>, sync: set<Role>)
    requires IsRun(events) && Enabled(Run(events), Start(roles, sync))
    ensures var t := Apply(Run(events), Start(roles, sync));
            && t.procs.Keys == roles
            && (t.state == RUNNING || t.state == STARTING)
            && (t.state == RUNNING <==> exists r :: r in roles && r in sync)
            && forall r :: r in roles ==>
                 && t.procs[r].alive && t.procs[r].terms == 0 && t.procs[r].kills == 0
                 && (t.procs[r].state == RUNNING <==> r in sync)
  {
    if r :| r in roles && r in sync { assert r in roles * sync; }
    if roles * sync != {} { var r :| r in roles * sync; }
  }

  /** Telling a live process twice terminates it and then kills it; one that has stopped is left alone. */
  lemma {:induction false} StopTwice(p: Proc)
    ensures p.alive && (p.state == STARTING || p.state == RUNNING) ==>
              && StopProc(p).terms == p.terms + 1 && StopProc(p).kills == p.kills && StopProc(p).killPending
              && StopProc(StopProc(p)).terms == p.terms + 1 && StopProc(StopProc(p)).kills == p.kills + 1
    ensures !p.alive ==> StopProc(p).terms == p.terms && StopProc(p).kills == p.kills
    ensures p.state == STOPPED ==> StopProc(p) == p
    ensures p.state != STOPPED ==> StopProc(p).state == STOPPING
  {
  }

  /** A process that reports its connection only after it was told to stop outlives its kill timer. */
  lemma {:induction false} LateReportExample() returns (events: seq<Event>)
    ensures events == [Start({Sender}, {}), UserStop, Connect(Sender)]
    ensures IsRun(events) && Enabled(Run(events), KillTimer(Sender))
    ensures var p := Apply(Run(events), KillTimer(Sender)).procs[Sender]; p.alive && p.terms == 1 && p.kills == 0
  {
    events := [Start({Sender}, {}), UserStop, Connect(Sender)];
    RunSnoc([], Start({Sender}, {}));
    assert Sender in Run([Start({Sender}, {})]).procs;
    RunSnoc([Start({Sender}, {})], UserStop);
    RunSnoc([Start({Sender}, {}), UserStop], Connect(Sender));
    assert events == [Start({Sender}, {}), UserStop] + [Connect(Sender)];
  }

  lemma {:induction false} RunSnoc(events: seq<Event>, e: Event)
    requires IsRun(events) && Enabled(Run(events), e)
    ensures IsRun(events + [e]) && Run(events + [e]) == Apply(Run(events), e)
  {
    assert (events + [e])[..|events|] == events;
  }

  function CountState(heard: seq<ChildState>, x: ChildState): nat {
    if heard == [] then 0
    else CountState(heard[..|heard| - 1], x) + (if heard[|heard| - 1] == x then 1 else 0)
  }

  /** Sessions announced as started and sessions announced as stopped differ only by the one in progress. */
  lemma {:induction false} LegalCounts(heard: seq<ChildState>)
    requires Legal(heard)
    ensures CountState(heard, STARTING) == CountState(heard, STOPPED) + (if Latest(heard) == STOPPED then 0 else 1)
  {
    if heard == [] {
    } else {
      LegalCounts(heard[..|heard| - 1]);
    }
  }

  function CountStarts(events: seq<Event>): nat {
    if events == [] then 0
    else CountStarts(events[..|events| - 1]) + (if events[|events| - 1].Start? then 1 else 0)
  }

  lemma {:induction false} AnnounceCounts(s: Session, x: ChildState)
    ensures CountState(Announce(s, x).heard, STARTING)
         == CountState(s.heard, STARTING) + (if x == STARTING then 1 else 0)
  {
    assert (s.heard + [x])[..|s.heard|] == s.heard;
  }

  lemma {:induction false} NotifiedCounts(s: Session, r: Role, newState: ChildState)
    ensures CountState(Notified(s, r, newState).heard, STARTING) == CountState(s.heard, STARTING)
  {
    if newState == RUNNING { AnnounceCounts(s, RUNNING); }
    AnnounceCounts(s, STOPPING);
    AnnounceCounts(StopAll(s), STOPPED);
  }

  lemma {:induction false} ApplyCounts(s: Session, e: Event)
    requires Enabled(s, e)
    ensures CountState(Apply(s, e).heard, STARTING) == CountState(s.heard, STARTING) + (if e.Start? then 1 else 0)
  {
    match e
    case Start(roles, sync) =>
      AnnounceCounts(s, STARTING);
      AnnounceCounts(Announce(s, STARTING), RUNNING);
    case UserStop => AnnounceCounts(s, STOPPING);
    case Connect(r) => NotifiedCounts(WithProc(s, r, s.procs[r].(connected := true)), r, RUNNING);
    case End(r) => NotifiedCounts(WithProc(s, r, Ended(s.procs[r])), r, STOPPED);
    case KillTimer(r) =>
  }

  /** Each started session is announced as STOPPED exactly once, when it is over. */
  lemma {:induction false} StoppedOncePerSession(events: seq<Event>)
    requires IsRun(events)
    ensures CountState(Run(events).heard, STARTING) == CountStarts(events)
    ensures CountStarts(events)
         == CountState(Run(events).heard, STOPPED) + (if Run(events).state == STOPPED then 0 else 1)
  {
    RunKeepsInv(events);
    LegalCounts(Run(events).heard);
    if events == [] {
    } else {
      StoppedOncePerSession(events[..|events| - 1]);
      ApplyCounts(Run(events[..|events| - 1]), events[|events| - 1]);
    }
  }
}
