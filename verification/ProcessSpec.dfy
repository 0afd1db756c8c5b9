/** The process run loop: one goroutine owns the lifecycle of one upstream process.
    An event is one turn of the loop's select, from the moment it leaves the select
    until it is back there or has returned. */
module ProcessSpec {

  datatype Option<+T> = None | Some(value: T)

  datatype ProcState = Stopped | Starting | Ready | Stopping | Shutdown

  datatype Kind = Run | EnsureReady | WaitReady | Stop

  /** A caller's request; `id` stands for its private response channel. */
  datatype Request = Request(kind: Kind, id: nat)

  datatype Result = Ok | ShuttingDown | Exited | WrongState | StartFailed | Aborted | TornDown

  /** What starting came to: a live command, or none. `running` is false when the
      process has already exited by itself. */
  datatype Launch = Launched(pid: nat, running: bool) | Failed

  /** How the wait for a start ended: by itself, cut by a stop request, or by shutdown. */
  datatype Ending = Finished | StopArrived(stop: Request) | ShutdownArrived

  datatype Event =
    | ParentDone
    | UpstreamExited
    | WaitArrives(r: Request)
    | StartArrives(r: Request, launch: Launch, ending: Ending)
    | StopRequested(r: Request)
    | Exit(pid: nat)   // a process dies by itself; the loop has not noticed yet

  /** What a caller was told, and in which state of the process. */
  datatype Answer = Answer(r: Request, result: Result, state: ProcState)

  /** `accepted`, `answered`, `cutShort` and `answers` are the history of requests;
      `since` holds those accepted since the last start attempt ended. */
  datatype State = State(
    state: ProcState,
    cmd: Option<nat>,
    cmdDone: Option<nat>,
    handler: Option<nat>,
    readyWaiters: seq<Request>,
    runResp: Option<Request>,
    alive: set<nat>,
    over: bool,
    accepted: multiset<Request>,
    answered: multiset<Request>,
    cutShort: multiset<Request>,
    answers: seq<Answer>,
    since: set<Request>)

  const INITIAL: State :=
    State(Stopped, None, None, None, [], None, {}, false, multiset{}, multiset{}, multiset{}, [], {})

  function Accept(s: State, r: Request): State
  {
    s.(accepted := s.accepted + multiset{r}, since := s.since + {r})
  }

  function Reply(s: State, r: Request, result: Result): State
  {
    s.(answered := s.answered + multiset{r}, answers := s.answers + [Answer(r, result, s.state)])
  }

  function ReplyAll(s: State, rs: seq<Request>, result: Result): State
  {
    if rs == [] then s else Reply(ReplyAll(s, rs[..|rs| - 1], result), rs[|rs| - 1], result)
  }

  function NotifyWaiters(s: State, result: Result): State
  {
    ReplyAll(s, s.readyWaiters, result).(readyWaiters := [])
  }

  function RespondRun(s: State, result: Result): State
  {
    if s.runResp.None? then s else Reply(s, s.runResp.value, result).(runResp := None)
  }

  /** The process exits, killed or by itself, and its command is forgotten. */
  function Forgotten(s: State): State { s.(cmd := None, cmdDone := None, handler := None) }

  function Killed(s: State): State
  {
    if s.cmd.None? then s else Forgotten(s).(alive := s.alive - {s.cmd.value})
  }

  function OnParentDone(s: State): State
  {
    RespondRun(NotifyWaiters(Killed(s.(state := Shutdown)), ShuttingDown), ShuttingDown).(over := true)
  }

  function OnUpstreamExited(s: State): State
  {
    RespondRun(NotifyWaiters(Forgotten(s).(state := Stopped), Exited), Exited)
  }

  function OnWait(s: State, r: Request): State
  {
    match s.state
    case Ready => Reply(Accept(s, r), r, Ok)
    case Shutdown => Reply(Accept(s, r), r, ShuttingDown)
    case _ => Accept(s, r).(readyWaiters := s.readyWaiters + [r])
  }

  function OnStart(s: State, r: Request, launch: Launch, ending: Ending): State
  {
    var t := Accept(s, r);
    if r.kind != Run && s.state == Ready then Reply(t, r, Ok)
    else if r.kind != Run && s.state == Shutdown then Reply(t, r, ShuttingDown)
    else if s.state != Stopped then Reply(t, r, WrongState)
    else Ended(t.(since := {}), r, launch, ending)
  }

  /** The start has ended; a command that came up after a stop or a shutdown was
      asked for is killed. */
  function Ended(s: State, r: Request, launch: Launch, ending: Ending): State
  {
    match ending
    case Finished =>
      if launch.Failed? then Reply(NotifyWaiters(s.(state := Stopped), StartFailed), r, StartFailed)
      else
        var up := s.(cmd := Some(launch.pid), cmdDone := Some(launch.pid), handler := Some(launch.pid),
                     alive := if launch.running then s.alive + {launch.pid} else s.alive, state := Ready);
        var told := NotifyWaiters(up, Ok);
        if r.kind == Run then told.(runResp := Some(r)) else Reply(told, r, Ok)
    case StopArrived(stop) =>
      Reply(Reply(NotifyWaiters(Accept(s, stop).(state := Stopped), Aborted), r, Aborted), stop, Ok)
    case ShutdownArrived =>
      RespondRun(NotifyWaiters(s.(state := Shutdown), ShuttingDown), ShuttingDown)
        .(cutShort := s.cutShort + multiset{r}, over := true)
  }

  function OnStop(s: State, r: Request): State
  {
    var t := Accept(s, r);
    var down := Killed(t).(state := Stopped);
    Reply(RespondRun(if s.cmd.Some? then NotifyWaiters(down, TornDown) else down, Ok), r, Ok)
  }

  function Next(s: State, e: Event): State
  {
    match e
    case ParentDone => OnParentDone(s)
    case UpstreamExited => OnUpstreamExited(s)
    case WaitArrives(r) => OnWait(s, r)
    case StartArrives(r, launch, ending) => OnStart(s, r, launch, ending)
    case StopRequested(r) => OnStop(s, r)
    case Exit(pid) => s.(alive := s.alive - {pid})
  }

  // ------------------------------------------------------------------------ runs

  /** Every request is a new one, of the kind its channel carries, and a command is
      seen as done only once its process is gone. */
  ghost predicate Enabled(s: State, e: Event)
  {
    && !s.over
    && match e
       case ParentDone => true
       case UpstreamExited => s.cmdDone.Some? && s.cmdDone.value !in s.alive
       case WaitArrives(r) => r.kind == WaitReady && New(s, r)
       case StartArrives(r, launch, ending) =>
         && (r.kind == Run || r.kind == EnsureReady) && New(s, r)
         && (launch.Launched? ==> launch.pid !in s.alive)
         && (ending.StopArrived? ==> ending.stop.kind == Stop && New(s, ending.stop))
       case StopRequested(r) => r.kind == Stop && New(s, r)
       case Exit(pid) => true
  }

  ghost predicate New(s: State, r: Request) { r !in s.accepted }

  ghost function After(run: seq<Event>): State
  {
    if run == [] then INITIAL else Next(After(run[..|run| - 1]), run[|run| - 1])
  }

  ghost predicate Legal(run: seq<Event>)
  {
    run == [] || (Legal(run[..|run| - 1]) && Enabled(After(run[..|run| - 1]), run[|run| - 1]))
  }
}
