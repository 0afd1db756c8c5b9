/** The run loop as it runs: one turn of its select updates the loop's own variables
    step by step and is proved to be its event, so every turn keeps the invariant. */
module ProcessLoop {
  import opened ProcessSpec
  import opened ProcessRuns

  class Loop {
    var state: ProcState
    var cmd: Option<nat>
    var cmdDone: Option<nat>
    var handler: Option<nat>
    var readyWaiters: seq<Request>
    var runResp: Option<Request>
    var over: bool
    ghost var alive: set<nat>
    ghost var accepted: multiset<Request>
    ghost var answered: multiset<Request>
    ghost var cutShort: multiset<Request>
    ghost var answers: seq<Answer>
    ghost var since: set<Request>

    ghost function View(): State
      reads this
    {
      State(state, cmd, cmdDone, handler, readyWaiters, runResp, alive, over, accepted, answered, cutShort, answers, since)
    }

    constructor ()
      ensures View() == INITIAL && Inv(View())
    {
      state, cmd, cmdDone, handler := Stopped, None, None, None;
      readyWaiters, runResp, over := [], None, false;
      alive, accepted, answered, cutShort, answers, since := {}, multiset{}, multiset{}, multiset{}, [], {};
    }

    ghost method Received(r: Request)
      modifies this`accepted, this`since
      ensures View() == Accept(old(View()), r)
    {
      accepted, since := accepted + multiset{r}, since + {r};
    }

    /** A send on the caller's own channel, which has room for its one answer. */
    method Respond(r: Request, result: Result)
      modifies this`answered, this`answers
      ensures View() == Reply(old(View()), r, result)
    {
      answered, answers := answered + multiset{r}, answers + [Answer(r, result, state)];
    }

    method NotifyReadyWaiters(result: Result)
      modifies this`readyWaiters, this`answered, this`answers
      ensures View() == NotifyWaiters(old(View()), result)
    {
      RespondToAll(readyWaiters, result);
      readyWaiters := [];
    }

    method RespondToAll(rs: seq<Request>, result: Result)
      modifies this`answered, this`answers
      ensures View() == ReplyAll(old(View()), rs, result)
    {
      for i := 0 to |rs|
        invariant View() == ReplyAll(old(View()), rs[..i], result)
      {
        assert rs[..i + 1][..i] == rs[..i];
        Respond(rs[i], result);
      }
      assert rs[..|rs|] == rs;
    }

    method RespondToRun(result: Result)
      modifies this`runResp, this`answered, this`answers
      ensures View() == RespondRun(old(View()), result)
    {
      if runResp.Some? {
        Respond(runResp.value, result);
        runResp := None;
      }
    }

    /** Wakes the subscribers and then the parked Run caller. */
    method TellEveryone(result: Result)
      modifies this`readyWaiters, this`runResp, this`answered, this`answers
      ensures View() == RespondRun(NotifyWaiters(old(View()), result), result)
    {
      NotifyReadyWaiters(result);
      RespondToRun(result);
    }

    /** Returns only when the process is gone. */
    method Kill(pid: nat)
      modifies this`alive
      ensures alive == old(alive) - {pid}
    {
      alive := alive - {pid};
    }

    method ForgetCommand()
      modifies this`cmd, this`cmdDone, this`handler
      ensures View() == Forgotten(old(View()))
    {
      cmd, cmdDone, handler := None, None, None;
    }

    // ------------------------------------------------------------ the select's cases

    /** Everyone that waited is told of the shutdown, and nothing is left running. */
    method ParentIsDone()
      requires Inv(View()) && !over
      modifies this
      ensures View() == OnParentDone(old(View()))
      ensures over && state == Shutdown && alive == {} && cmd == None && Callers(View()) == []
      ensures answers == old(answers) + Told(old(Callers(View())), ShuttingDown, Shutdown)
    {
      ghost var start := View();
      ParentDoneTells(start);
      state := Shutdown;
      KillCommand();
      assert View() == Killed(start.(state := Shutdown));
      TellEveryone(ShuttingDown);
      over := true;
    }

    /** Kills the installed command, if there is one, and forgets it. */
    method KillCommand()
      modifies this`alive, this`cmd, this`cmdDone, this`handler
      ensures View() == Killed(old(View()))
    {
      if cmd.Some? {
        handler := None;
        Kill(cmd.value);
        ForgetCommand();
      }
    }

    /** Everyone that waited is told of the exit. */
    method UpstreamHasExited()
      requires Inv(View()) && Enabled(View(), UpstreamExited)
      modifies this
      ensures View() == OnUpstreamExited(old(View()))
      ensures state == Stopped && alive == {} && cmd == None && Callers(View()) == []
      ensures answers == old(answers) + Told(old(Callers(View())), Exited, Stopped)
    {
      UpstreamExitedTells(View());
      ForgetCommand();
      state := Stopped;
      TellEveryone(Exited);
    }

    /** Answered at once, or else subscribed. */
    method WaitForReady(r: Request)
      modifies this
      ensures View() == OnWait(old(View()), r)
      ensures answers == old(answers) + AtOnce(r, old(state))
      ensures readyWaiters == old(readyWaiters) + if AtOnce(r, old(state)) == [] then [r] else []
    {
      Received(r);
      match state {
        case Ready => Respond(r, Ok);
        case Shutdown => Respond(r, ShuttingDown);
        case _ => readyWaiters := readyWaiters + [r];
      }
    }

    /** `launch` is what starting came to and `ending` how the wait for it ended. */
    method Start(r: Request, launch: Launch, ending: Ending)
      requires launch.Launched? ==> launch.pid !in alive
      requires r.kind == Run || r.kind == EnsureReady
      modifies this
      ensures View() == OnStart(old(View()), r, launch, ending)
      ensures answers == old(answers) + StartAnswers(old(View()), r, launch, ending)
      ensures StartLeaves(old(View()), View(), r, launch, ending)
    {
      StartTells(View(), r, launch, ending);
      Received(r);
      if r.kind != Run {
        match state {
          case Ready =>
            Respond(r, Ok);
            return;
          case Shutdown =>
            Respond(r, ShuttingDown);
            return;
          case _ =>
        }
      }
      if state != Stopped {
        Respond(r, WrongState);
        return;
      }
      BeginStart();
      match ending {
        case Finished => StartFinished(r, launch);
        case StopArrived(stop) => StartStopped(r, launch, stop);
        case ShutdownArrived => StartShutDown(r, launch);
      }
    }

    method BeginStart()
      modifies this`state, this`since
      ensures View() == old(View()).(state := Starting, since := {})
    {
      state := Starting;
      since := {};
    }

    method StartFinished(r: Request, launch: Launch)
      requires state == Starting
      modifies this
      ensures View() == Ended(old(View()).(state := Stopped), r, launch, Finished)
    {
      if launch.Launched? {
        Install(launch);
        NotifyReadyWaiters(Ok);
        if r.kind == Run {
          runResp := Some(r);
        } else {
          Respond(r, Ok);
        }
      } else {
        state := Stopped;
        NotifyReadyWaiters(StartFailed);
        Respond(r, StartFailed);
      }
    }

    method Install(launch: Launch)
      requires launch.Launched?
      modifies this`cmd, this`cmdDone, this`handler, this`alive, this`state
      ensures
        var s := old(View());
        View() == s.(cmd := Some(launch.pid), cmdDone := Some(launch.pid), handler := Some(launch.pid),
                     alive := if launch.running then s.alive + {launch.pid} else s.alive, state := Ready)
    {
      cmd, cmdDone, handler := Some(launch.pid), Some(launch.pid), Some(launch.pid);
      alive := if launch.running then alive + {launch.pid} else alive;
      state := Ready;
    }

    /** A command that came up after its start was cut is killed. */
    method KillLate(launch: Launch)
      requires launch.Launched? ==> launch.pid !in alive
      modifies this`alive
      ensures alive == old(alive)
    {
      if launch.Launched? {
        alive := if launch.running then alive + {launch.pid} else alive;
        Kill(launch.pid);
      }
    }

    /** A start that made it all the same is killed before anybody is answered. */
    method StartStopped(r: Request, launch: Launch, stop: Request)
      requires state == Starting && (launch.Launched? ==> launch.pid !in alive)
      modifies this
      ensures View() == Ended(old(View()).(state := Stopped), r, launch, StopArrived(stop))
    {
      ghost var s := View().(state := Stopped);
      Received(stop);
      KillLate(launch);
      state := Stopped;
      assert View() == Accept(s, stop).(state := Stopped);
      NotifyReadyWaiters(Aborted);
      Respond(r, Aborted);
      Respond(stop, Ok);
    }

    method StartShutDown(r: Request, launch: Launch)
      requires state == Starting && (launch.Launched? ==> launch.pid !in alive)
      modifies this
      ensures View() == Ended(old(View()).(state := Stopped), r, launch, ShutdownArrived)
    {
      ghost var s := View();
      state := Shutdown;
      KillLate(launch);
      assert View() == s.(state := Shutdown);
      CutShort(r);
    }

    /** Everybody is told of the shutdown but the one whose start it cut. */
    method CutShort(r: Request)
      modifies this
      ensures
        var s := old(View());
        View() == RespondRun(NotifyWaiters(s, ShuttingDown), ShuttingDown).(cutShort := s.cutShort + multiset{r}, over := true)
    {
      ghost var s := View();
      TellEveryone(ShuttingDown);
      EveryoneTold(s, ShuttingDown);
      cutShort := cutShort + multiset{r};
      over := true;
    }

    /** Nothing is left running, and the stop is answered last; a stop of nothing
        wakes no subscriber. */
    method StopProcess(r: Request)
      requires Inv(View()) && !over
      modifies this
      ensures View() == OnStop(old(View()), r)
      ensures state == Stopped && alive == {} && cmd == None && runResp == None
      ensures readyWaiters == (if old(cmd).Some? then [] else old(readyWaiters))
      ensures answers == old(answers) + Told(if old(cmd).Some? then old(readyWaiters) else [], TornDown, Stopped)
        + (if old(runResp).Some? then [Answer(old(runResp).value, Ok, Stopped)] else []) + [Answer(r, Ok, Stopped)]
    {
      ghost var start := View();
      StopTells(start, r);
      Received(r);
      var toreDown := cmd.Some?;
      if cmd.Some? {
        state := Stopping;
        KillCommand();
      }
      state := Stopped;
      assert View() == Killed(Accept(start, r)).(state := Stopped);
      if toreDown {
        NotifyReadyWaiters(TornDown);
      }
      RespondToRun(Ok);
      Respond(r, Ok);
    }

    /** One turn of the select. */
    method Turn(e: Event)
      requires Inv(View()) && Enabled(View(), e)
      modifies this
      ensures View() == Next(old(View()), e) && Inv(View())
    {
      EventKeepsInvariant(View(), e);
      match e {
        case ParentDone => ParentIsDone();
        case UpstreamExited => UpstreamHasExited();
        case WaitArrives(r) => WaitForReady(r);
        case StartArrives(r, launch, ending) => Start(r, launch, ending);
        case StopRequested(r) => StopProcess(r);
        case Exit(pid) => alive := alive - {pid};
      }
    }
  }

  /** Replying touches only the history. */
  lemma {:induction false} ReplyAllReads(s: State, rs: seq<Request>, result: Result)
    ensures var t := ReplyAll(s, rs, result); t == s.(answered := t.answered, answers := t.answers)
  {
    if rs != [] {
      ReplyAllReads(s, rs[..|rs| - 1], result);
    }
  }
}
