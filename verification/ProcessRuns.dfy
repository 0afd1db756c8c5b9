/** What the run loop keeps: a settled state, every request answered exactly once, no
    process left behind, and answers that tell the truth. */
module ProcessRuns {
  import opened ProcessSpec

  /** The state at the select: nothing half done. */
  ghost predicate Settled(s: State)
  {
    && s.cmd == s.cmdDone == s.handler
    && (if s.over then s.state == Shutdown else s.state == Stopped || s.state == Ready)
    && (s.state == Ready <==> s.cmd.Some?)
    && (s.runResp.Some? ==> s.state == Ready)
    && (s.readyWaiters != [] ==> s.state == Stopped)
    && (forall pid :: pid in s.alive ==> s.cmd == Some(pid))
  }

  ghost function Waiting(s: State, r: Request): nat
  {
    multiset(s.readyWaiters)[r] + (if s.runResp == Some(r) then 1 else 0)
  }

  /** A request is accepted at most once, and then it is waiting, was answered, or was
      cut short. */
  ghost predicate CountedFor(s: State, r: Request)
  {
    s.accepted[r] <= 1 && s.accepted[r] == s.answered[r] + s.cutShort[r] + Waiting(s, r)
  }

  ghost predicate Recent(s: State)
  {
    forall i :: 0 <= i < |s.readyWaiters| ==> s.readyWaiters[i] in s.since
  }

  /** "Ready" is only said while it is so, and "done" to a Run or a Stop only once
      the process is stopped. */
  ghost predicate IsTrue(a: Answer)
  {
    a.result == Ok ==> a.state == if a.r.kind == WaitReady || a.r.kind == EnsureReady then Ready else Stopped
  }

  ghost predicate Honest(s: State)
  {
    && (forall k :: 0 <= k < |s.answers| ==> IsTrue(s.answers[k]))
    && (forall i :: 0 <= i < |s.readyWaiters| ==> s.readyWaiters[i].kind == WaitReady)
    && (s.runResp.Some? ==> s.runResp.value.kind == Run)
  }

  ghost predicate Inv(s: State)
  {
    Whole(s) && forall r :: CountedFor(s, r)
  }

  ghost predicate Whole(s: State)
  {
    Settled(s) && Recent(s) && Honest(s) && (s.cutShort != multiset{} ==> s.over)
  }

  // ---------------------------------------------------------------- waking callers

  /** What replying to a list changes: its requests are answered, truthfully. */
  lemma {:induction false} ReplyAllReplies(s: State, rs: seq<Request>, result: Result)
    requires forall i :: 0 <= i < |rs| ==> rs[i].kind == WaitReady
    requires result == Ok ==> s.state == Ready
    requires forall k :: 0 <= k < |s.answers| ==> IsTrue(s.answers[k])
    ensures
      var t := ReplyAll(s, rs, result);
      && t == s.(answered := s.answered + multiset(rs), answers := t.answers)
      && forall k :: 0 <= k < |t.answers| ==> IsTrue(t.answers[k])
  {
    if rs == [] {
      assert s.answered + multiset(rs) == s.answered;
    } else {
      var before, last := rs[..|rs| - 1], rs[|rs| - 1];
      assert rs == before + [last];
      ReplyAllReplies(s, before, result);
      assert s.answered + multiset(rs) == s.answered + multiset(before) + multiset{last};
    }
  }

  /** Nobody waits any more, and the requests stay accounted for. */
  lemma Notified(s: State, result: Result)
    requires Honest(s) && (result == Ok ==> s.state == Ready)
    ensures
      var t := NotifyWaiters(s, result);
      && t == s.(answered := s.answered + multiset(s.readyWaiters), answers := t.answers, readyWaiters := [])
      && Honest(t)
  {
    ReplyAllReplies(s, s.readyWaiters, result);
  }

  lemma Responded(s: State, result: Result)
    requires Honest(s) && (result == Ok ==> s.state == Stopped)
    ensures
      var t := RespondRun(s, result);
      && t == s.(answered := t.answered, answers := t.answers, runResp := None) && Honest(t)
      && t.answered == s.answered + (if s.runResp.Some? then multiset{s.runResp.value} else multiset{})
  {
  }

  // ------------------------------------------------------------------- the events

  lemma ParentDoneKeeps(s: State)
    requires Whole(s) && !s.over
    ensures Whole(OnParentDone(s))
  {
    var t := Killed(s.(state := Shutdown));
    Notified(t, ShuttingDown);
    Responded(NotifyWaiters(t, ShuttingDown), ShuttingDown);
  }

  lemma UpstreamExitedKeeps(s: State)
    requires Whole(s) && Enabled(s, UpstreamExited)
    ensures Whole(OnUpstreamExited(s))
  {
    var t := Forgotten(s).(state := Stopped);
    Notified(t, Exited);
    Responded(NotifyWaiters(t, Exited), Exited);
  }

  lemma WaitKeeps(s: State, r: Request)
    requires Whole(s) && Enabled(s, WaitArrives(r))
    ensures Whole(OnWait(s, r))
  {
  }

  /** A start under way: its request is accepted and nothing runs. */
  ghost predicate Begun(s: State, r: Request)
  {
    && s.state == Stopped && s.cmd == s.cmdDone == s.handler == None && s.runResp == None && s.alive == {} && !s.over
    && Honest(s) && s.cutShort == multiset{} && (r.kind == Run || r.kind == EnsureReady)
  }

  lemma FinishedKeeps(s: State, r: Request, launch: Launch)
    requires Begun(s, r)
    ensures Whole(Ended(s, r, launch, Finished))
  {
    if launch.Failed? {
      Notified(s.(state := Stopped), StartFailed);
    } else {
      var up := s.(cmd := Some(launch.pid), cmdDone := Some(launch.pid), handler := Some(launch.pid),
                   alive := if launch.running then s.alive + {launch.pid} else s.alive, state := Ready);
      Notified(up, Ok);
    }
  }

  lemma StopArrivedKeeps(s: State, r: Request, launch: Launch, stop: Request)
    requires Begun(s, r) && stop.kind == Stop
    ensures Whole(Ended(s, r, launch, StopArrived(stop)))
  {
    Notified(Accept(s, stop).(state := Stopped), Aborted);
  }

  lemma ShutdownArrivedKeeps(s: State, r: Request, launch: Launch)
    requires Begun(s, r)
    ensures Whole(Ended(s, r, launch, ShutdownArrived))
  {
    var t := s.(state := Shutdown);
    Notified(t, ShuttingDown);
    Responded(NotifyWaiters(t, ShuttingDown), ShuttingDown);
  }

  lemma StartKeeps(s: State, r: Request, launch: Launch, ending: Ending)
    requires Whole(s) && Enabled(s, StartArrives(r, launch, ending))
    ensures Whole(OnStart(s, r, launch, ending))
  {
    if s.state == Stopped {
      var t := Accept(s, r).(since := {});
      assert Begun(t, r);
      match ending {
        case Finished => FinishedKeeps(t, r, launch);
        case StopArrived(stop) => StopArrivedKeeps(t, r, launch, stop);
        case ShutdownArrived => ShutdownArrivedKeeps(t, r, launch);
      }
    }
  }

  lemma StopKeeps(s: State, r: Request)
    requires Whole(s) && Enabled(s, StopRequested(r))
    ensures Whole(OnStop(s, r))
  {
    var t := Accept(s, r);
    var down := Killed(t).(state := Stopped);
    if s.cmd.Some? {
      Notified(down, TornDown);
      Responded(NotifyWaiters(down, TornDown), Ok);
    } else {
      assert down == t.(state := Stopped) && s.runResp == None;
    }
  }

  // ------------------------------------------------------- one request's account

  lemma NotifiedCount(s: State, result: Result, r: Request)
    requires Honest(s) && (result == Ok ==> s.state == Ready)
    ensures
      var t := NotifyWaiters(s, result);
      && Honest(t) && t == s.(answered := t.answered, answers := t.answers, readyWaiters := [])
      && t.answered[r] == s.answered[r] + multiset(s.readyWaiters)[r]
  {
    Notified(s, result);
  }

  lemma RespondedCount(s: State, result: Result, r: Request)
    ensures
      var t := RespondRun(s, result);
      && t == s.(answered := t.answered, answers := t.answers, runResp := None)
      && t.answered[r] == s.answered[r] + if s.runResp == Some(r) then 1 else 0
  {
  }

  lemma ReplyCount(s: State, x: Request, result: Result, r: Request)
    ensures
      var t := Reply(s, x, result);
      && t == s.(answered := t.answered, answers := t.answers)
      && t.answered[r] == s.answered[r] + if r == x then 1 else 0
  {
  }

  lemma AcceptCount(s: State, x: Request, r: Request)
    ensures
      var t := Accept(s, x);
      && t == s.(accepted := t.accepted, since := t.since)
      && t.accepted[r] == s.accepted[r] + if r == x then 1 else 0
  {
  }

  lemma ParkCount(rs: seq<Request>, x: Request, r: Request)
    ensures multiset(rs + [x])[r] == multiset(rs)[r] + if r == x then 1 else 0
  {
    assert multiset(rs + [x]) == multiset(rs) + multiset{x};
  }

  lemma WaitCounts(s: State, x: Request, r: Request)
    requires CountedFor(s, r) && New(s, x)
    ensures CountedFor(OnWait(s, x), r)
  {
    AcceptCount(s, x, r);
    match s.state {
      case Ready => ReplyCount(Accept(s, x), x, Ok, r);
      case Shutdown => ReplyCount(Accept(s, x), x, ShuttingDown, r);
      case _ => ParkCount(s.readyWaiters, x, r);
    }
  }

  /** What is known of a request while the start of `x` is under way. */
  ghost predicate AccountedFor(s: State, x: Request, r: Request)
  {
    s.accepted[r] <= 1 && s.accepted[r] == s.answered[r] + multiset(s.readyWaiters)[r] + if r == x then 1 else 0
  }

  lemma FinishedCounts(s: State, x: Request, launch: Launch, r: Request)
    requires Begun(s, x) && AccountedFor(s, x, r)
    ensures CountedFor(Ended(s, x, launch, Finished), r)
  {
    if launch.Failed? {
      var t := s.(state := Stopped);
      NotifiedCount(t, StartFailed, r);
      ReplyCount(NotifyWaiters(t, StartFailed), x, StartFailed, r);
    } else {
      var up := s.(cmd := Some(launch.pid), cmdDone := Some(launch.pid), handler := Some(launch.pid),
                   alive := if launch.running then s.alive + {launch.pid} else s.alive, state := Ready);
      NotifiedCount(up, Ok, r);
      if x.kind != Run {
        ReplyCount(NotifyWaiters(up, Ok), x, Ok, r);
      }
    }
  }

  lemma StopArrivedCounts(s: State, x: Request, launch: Launch, stop: Request, r: Request)
    requires Begun(s, x) && AccountedFor(s, x, r) && New(s, stop)
    ensures CountedFor(Ended(s, x, launch, StopArrived(stop)), r)
  {
    AcceptCount(s, stop, r);
    var t := Accept(s, stop).(state := Stopped);
    NotifiedCount(t, Aborted, r);
    ReplyCount(NotifyWaiters(t, Aborted), x, Aborted, r);
    ReplyCount(Reply(NotifyWaiters(t, Aborted), x, Aborted), stop, Ok, r);
  }

  lemma ShutdownArrivedCounts(s: State, x: Request, launch: Launch, r: Request)
    requires Begun(s, x) && AccountedFor(s, x, r)
    ensures CountedFor(Ended(s, x, launch, ShutdownArrived), r)
  {
    var t := s.(state := Shutdown);
    NotifiedCount(t, ShuttingDown, r);
    RespondedCount(NotifyWaiters(t, ShuttingDown), ShuttingDown, r);
  }

  lemma EndedCounts(s: State, x: Request, launch: Launch, ending: Ending, r: Request)
    requires Begun(s, x) && AccountedFor(s, x, r) && (ending.StopArrived? ==> New(s, ending.stop))
    ensures CountedFor(Ended(s, x, launch, ending), r)
  {
    match ending {
      case Finished => FinishedCounts(s, x, launch, r);
      case StopArrived(stop) => StopArrivedCounts(s, x, launch, stop, r);
      case ShutdownArrived => ShutdownArrivedCounts(s, x, launch, r);
    }
  }

  lemma StartCounts(s: State, x: Request, launch: Launch, ending: Ending, r: Request)
    requires Whole(s) && CountedFor(s, r) && Enabled(s, StartArrives(x, launch, ending))
    requires ending.StopArrived? ==> ending.stop != x
    ensures CountedFor(OnStart(s, x, launch, ending), r)
  {
    AcceptCount(s, x, r);
    if s.state == Stopped {
      EndedCounts(Accept(s, x).(since := {}), x, launch, ending, r);
    }
  }

  lemma StopCounts(s: State, x: Request, r: Request)
    requires Whole(s) && CountedFor(s, r) && Enabled(s, StopRequested(x))
    ensures CountedFor(OnStop(s, x), r)
  {
    var down := Killed(Accept(s, x)).(state := Stopped);
    AcceptCount(s, x, r);
    NotifiedCount(down, TornDown, r);
    RespondedCount(if s.cmd.Some? then NotifyWaiters(down, TornDown) else down, Ok, r);
  }

  lemma EventCounts(s: State, e: Event, r: Request)
    requires Whole(s) && CountedFor(s, r) && Enabled(s, e)
    ensures CountedFor(Next(s, e), r)
  {
    match e {
      case ParentDone =>
        var t := Killed(s.(state := Shutdown));
        NotifiedCount(t, ShuttingDown, r);
        RespondedCount(NotifyWaiters(t, ShuttingDown), ShuttingDown, r);
      case UpstreamExited =>
        var t := Forgotten(s).(state := Stopped);
        NotifiedCount(t, Exited, r);
        RespondedCount(NotifyWaiters(t, Exited), Exited, r);
      case WaitArrives(x) => WaitCounts(s, x, r);
      case StartArrives(x, launch, ending) => StartCounts(s, x, launch, ending, r);
      case StopRequested(x) => StopCounts(s, x, r);
      case Exit(_) =>
    }
  }

  lemma EventKeepsInvariant(s: State, e: Event)
    requires Inv(s) && Enabled(s, e)
    ensures Inv(Next(s, e))
  {
    match e {
      case ParentDone => ParentDoneKeeps(s);
      case UpstreamExited => UpstreamExitedKeeps(s);
      case WaitArrives(r) => WaitKeeps(s, r);
      case StartArrives(r, launch, ending) => StartKeeps(s, r, launch, ending);
      case StopRequested(r) => StopKeeps(s, r);
      case Exit(_) =>
    }
    forall r
      ensures CountedFor(Next(s, e), r)
    {
      assert CountedFor(s, r);
      EventCounts(s, e, r);
    }
  }

  lemma {:induction false} RunsKeepInvariant(run: seq<Event>)
    requires Legal(run)
    ensures Inv(After(run))
  {
    if run != [] {
      RunsKeepInvariant(run[..|run| - 1]);
      EventKeepsInvariant(After(run[..|run| - 1]), run[|run| - 1]);
    }
  }

  // ------------------------------------------------------------ what it guarantees

  /** Back at its select the loop is stopped or ready; ready exactly when a command,
      its done channel and a handler are installed, all of one process; a Run caller
      is parked only then, subscribers wait only when stopped and all came after the
      last start attempt ended; and no other process it started is alive. */
  lemma SelectIsSettled(run: seq<Event>)
    requires Legal(run)
    ensures
      var s := After(run);
      && (!s.over ==> s.state == Stopped || s.state == Ready)
      && (s.state == Ready <==> s.cmd.Some? && s.cmdDone == s.cmd && s.handler == s.cmd)
      && (s.runResp.Some? ==> s.state == Ready)
      && (s.readyWaiters != [] ==> s.state == Stopped)
      && (forall i :: 0 <= i < |s.readyWaiters| ==> s.readyWaiters[i] in s.since)
      && (forall pid :: pid in s.alive ==> s.cmd == Some(pid))
  {
    RunsKeepInvariant(run);
  }

  /** Every accepted request is answered exactly once, still waiting, or cut short;
      and once the loop has returned nobody waits. */
  lemma AnsweredExactlyOnce(run: seq<Event>, r: Request)
    requires Legal(run)
    ensures
      var s := After(run);
      && s.answered[r] + s.cutShort[r] + Waiting(s, r) == (if r in s.accepted then 1 else 0)
      && (s.over ==> Waiting(s, r) == 0)
  {
    RunsKeepInvariant(run);
    assert CountedFor(After(run), r);
  }

  lemma CutsOnlyInStart(s: State, e: Event, r: Request)
    requires Inv(s) && Enabled(s, e) && r in Next(s, e).cutShort
    ensures e.StartArrives? && e.r == r && e.ending.ShutdownArrived?
  {
    assert s.cutShort == multiset{};
    match e {
      case ParentDone =>
        Notified(Killed(s.(state := Shutdown)), ShuttingDown);
        Responded(NotifyWaiters(Killed(s.(state := Shutdown)), ShuttingDown), ShuttingDown);
      case UpstreamExited => Notified(Forgotten(s).(state := Stopped), Exited);
      case StartArrives(x, launch, ending) =>
        StartCuts(s, x, launch, ending);
      case StopRequested(x) => Notified(Killed(Accept(s, x)).(state := Stopped), TornDown);
      case _ =>
    }
  }

  lemma StartCuts(s: State, r: Request, launch: Launch, ending: Ending)
    requires Inv(s) && Enabled(s, StartArrives(r, launch, ending)) && s.cutShort == multiset{}
    ensures OnStart(s, r, launch, ending).cutShort <= multiset{r}
    ensures !ending.ShutdownArrived? ==> OnStart(s, r, launch, ending).cutShort == multiset{}
  {
    if s.state == Stopped {
      var t := Accept(s, r).(since := {});
      match ending {
        case Finished =>
          Notified(t.(state := Stopped), StartFailed);
          if launch.Launched? {
            Notified(t.(cmd := Some(launch.pid), cmdDone := Some(launch.pid), handler := Some(launch.pid),
                        alive := if launch.running then t.alive + {launch.pid} else t.alive, state := Ready), Ok);
          }
        case StopArrived(stop) => Notified(Accept(t, stop).(state := Stopped), Aborted);
        case ShutdownArrived =>
      }
    }
  }

  /** Only a shutdown during its own start leaves a request without an answer. */
  lemma {:induction false} OnlyShutdownCutsShort(run: seq<Event>, r: Request)
    requires Legal(run) && r in After(run).cutShort
    ensures run != [] && exists launch :: run[|run| - 1] == StartArrives(r, launch, ShutdownArrived)
  {
    if run != [] {
      RunsKeepInvariant(run[..|run| - 1]);
      CutsOnlyInStart(After(run[..|run| - 1]), run[|run| - 1], r);
    }
  }

  /** A caller is told "ready" only while the process is, and a Run or a Stop is told
      it is done only when the process is stopped. */
  lemma AnswersAreTrue(run: seq<Event>, k: nat)
    requires Legal(run) && k < |After(run).answers| && After(run).answers[k].result == Ok
    ensures
      var a := After(run).answers[k];
      a.state == if a.r.kind == WaitReady || a.r.kind == EnsureReady then Ready else Stopped
  {
    RunsKeepInvariant(run);
    assert IsTrue(After(run).answers[k]);
  }

  // ------------------------------------------------------------ who is told what

  /** The same answer to each of them, given in one state. */
  ghost function Told(rs: seq<Request>, result: Result, state: ProcState): seq<Answer>
  {
    if rs == [] then []
    else Told(rs[..|rs| - 1], result, state) + [Answer(rs[|rs| - 1], result, state)]
  }

  /** The callers that wait, subscribers first. */
  ghost function Callers(s: State): seq<Request>
  {
    s.readyWaiters + if s.runResp.Some? then [s.runResp.value] else []
  }

  lemma {:induction false} ReplyAllTells(s: State, rs: seq<Request>, result: Result)
    ensures
      var t := ReplyAll(s, rs, result);
      t == s.(answered := t.answered, answers := s.answers + Told(rs, result, s.state))
  {
    if rs != [] {
      ReplyAllTells(s, rs[..|rs| - 1], result);
    }
  }

  lemma EveryoneTold(s: State, result: Result)
    ensures
      var t := RespondRun(NotifyWaiters(s, result), result);
      t == s.(answered := t.answered, answers := s.answers + Told(Callers(s), result, s.state), readyWaiters := [], runResp := None)
  {
    ReplyAllTells(s, s.readyWaiters, result);
    if s.runResp.Some? {
      assert Callers(s)[..|s.readyWaiters|] == s.readyWaiters;
    } else {
      assert Callers(s) == s.readyWaiters;
    }
  }

  /** After a shutdown everyone that waited was told so, nobody waits, and nothing runs. */
  lemma ParentDoneTells(s: State)
    requires Inv(s) && !s.over
    ensures
      var t := OnParentDone(s);
      && t.over && t.state == Shutdown && t.alive == {} && t.cmd == None && Callers(t) == []
      && t.answers == s.answers + Told(Callers(s), ShuttingDown, Shutdown)
  {
    EveryoneTold(Killed(s.(state := Shutdown)), ShuttingDown);
  }

  /** After an exit everyone that waited was told so, nobody waits, and nothing runs. */
  lemma UpstreamExitedTells(s: State)
    requires Inv(s) && Enabled(s, UpstreamExited)
    ensures
      var t := OnUpstreamExited(s);
      && t.state == Stopped && t.alive == {} && t.cmd == None && Callers(t) == []
      && t.answers == s.answers + Told(Callers(s), Exited, Stopped)
  {
    EveryoneTold(Forgotten(s).(state := Stopped), Exited);
  }

  /** What a subscriber is told at once; nothing while it has to wait. */
  ghost function AtOnce(r: Request, state: ProcState): seq<Answer>
  {
    match state
    case Ready => [Answer(r, Ok, Ready)]
    case Shutdown => [Answer(r, ShuttingDown, Shutdown)]
    case _ => []
  }

  /** A stop ends with nothing running and the stop answered last; the parked Run caller
      is told it is done, and subscribers only if something was torn down. */
  lemma StopTells(s: State, r: Request)
    requires Inv(s) && !s.over
    ensures
      var t := OnStop(s, r);
      && t.state == Stopped && t.alive == {} && t.cmd == None && t.runResp == None
      && t.readyWaiters == (if s.cmd.Some? then [] else s.readyWaiters)
      && t.answers == s.answers + Told(if s.cmd.Some? then s.readyWaiters else [], TornDown, Stopped)
           + (if s.runResp.Some? then [Answer(s.runResp.value, Ok, Stopped)] else []) + [Answer(r, Ok, Stopped)]
  {
    var down := Killed(Accept(s, r)).(state := Stopped);
    ReplyAllTells(down, s.readyWaiters, TornDown);
  }

  /** What a start answers, in order. A caller that only wants the process ready is
      answered from the state when that settles it; a start in any other state than
      stopped is refused; and a start that is made answers the subscribers first. */
  ghost function StartAnswers(s: State, r: Request, launch: Launch, ending: Ending): seq<Answer>
  {
    if r.kind == EnsureReady && s.state == Ready then [Answer(r, Ok, Ready)]
    else if r.kind == EnsureReady && s.state == Shutdown then [Answer(r, ShuttingDown, Shutdown)]
    else if s.state != Stopped then [Answer(r, WrongState, s.state)]
    else
      match ending
      case Finished =>
        if launch.Failed? then Told(s.readyWaiters, StartFailed, Stopped) + [Answer(r, StartFailed, Stopped)]
        else Told(s.readyWaiters, Ok, Ready) + if r.kind == Run then [] else [Answer(r, Ok, Ready)]
      case StopArrived(stop) =>
        Told(s.readyWaiters, Aborted, Stopped) + [Answer(r, Aborted, Stopped), Answer(stop, Ok, Stopped)]
      case ShutdownArrived => Told(Callers(s), ShuttingDown, Shutdown)
  }

  /** Where a start leaves the loop. Only a start that came up leaves a process, and only
      then is its Run caller parked; one cut by a shutdown leaves its caller unanswered. */
  ghost predicate StartLeaves(s: State, t: State, r: Request, launch: Launch, ending: Ending)
  {
    if s.state != Stopped then
      && t.state == s.state && t.cmd == s.cmd && t.cmdDone == s.cmdDone && t.handler == s.handler && t.alive == s.alive
      && t.readyWaiters == s.readyWaiters && t.runResp == s.runResp && t.over == s.over && t.cutShort == s.cutShort
    else
      && t.readyWaiters == []
      && match ending
         case Finished =>
           && t.over == s.over && t.cutShort == s.cutShort
           && if launch.Failed? then t.state == Stopped && t.cmd == s.cmd && t.alive == s.alive && t.runResp == s.runResp
              else
                && t.state == Ready && t.cmd == t.cmdDone == t.handler == Some(launch.pid)
                && t.alive == s.alive + (if launch.running then {launch.pid} else {})
                && t.runResp == if r.kind == Run then Some(r) else s.runResp
         case StopArrived(_) =>
           && t.over == s.over && t.cutShort == s.cutShort
           && t.state == Stopped && t.cmd == s.cmd && t.alive == s.alive && t.runResp == s.runResp
         case ShutdownArrived =>
           && t.over && t.cutShort == s.cutShort + multiset{r}
           && t.state == Shutdown && t.cmd == s.cmd && t.alive == s.alive && t.runResp == None
  }

  /** Every start answers exactly these, and leaves the loop so. */
  lemma StartTells(s: State, r: Request, launch: Launch, ending: Ending)
    requires r.kind == Run || r.kind == EnsureReady
    ensures
      var t := OnStart(s, r, launch, ending);
      t.answers == s.answers + StartAnswers(s, r, launch, ending) && StartLeaves(s, t, r, launch, ending)
  {
    if s.state == Stopped {
      EndedTells(Accept(s, r).(since := {}), r, launch, ending);
    }
  }

  lemma EndedTells(s: State, r: Request, launch: Launch, ending: Ending)
    requires s.state == Stopped && (r.kind == Run || r.kind == EnsureReady)
    ensures
      var t := Ended(s, r, launch, ending);
      t.answers == s.answers + StartAnswers(s, r, launch, ending) && StartLeaves(s, t, r, launch, ending)
  {
    match ending {
      case Finished =>
        if launch.Failed? {
          FailedTells(s, r, launch);
        } else {
          LaunchedTells(s, r, launch);
        }
      case StopArrived(stop) => StopCutTells(s, r, launch, stop);
      case ShutdownArrived => ShutdownCutTells(s, r, launch);
    }
  }

  lemma StopCutTells(s: State, r: Request, launch: Launch, stop: Request)
    requires s.state == Stopped
    ensures
      var t := Ended(s, r, launch, StopArrived(stop));
      && t.answers == s.answers + (Told(s.readyWaiters, Aborted, Stopped) + [Answer(r, Aborted, Stopped), Answer(stop, Ok, Stopped)])
      && StartLeaves(s, t, r, launch, StopArrived(stop))
  {
    ReplyAllTells(Accept(s, stop).(state := Stopped), s.readyWaiters, Aborted);
  }

  lemma ShutdownCutTells(s: State, r: Request, launch: Launch)
    requires s.state == Stopped
    ensures
      var t := Ended(s, r, launch, ShutdownArrived);
      && t.answers == s.answers + Told(Callers(s), ShuttingDown, Shutdown)
      && StartLeaves(s, t, r, launch, ShutdownArrived)
  {
    EveryoneTold(s.(state := Shutdown), ShuttingDown);
    assert Callers(s.(state := Shutdown)) == Callers(s);
  }

  lemma FailedTells(s: State, r: Request, launch: Launch)
    requires s.state == Stopped && launch.Failed?
    ensures
      var t := Ended(s, r, launch, Finished);
      && t.answers == s.answers + Told(s.readyWaiters, StartFailed, Stopped) + [Answer(r, StartFailed, Stopped)]
      && StartLeaves(s, t, r, launch, Finished)
  {
    ReplyAllTells(s.(state := Stopped), s.readyWaiters, StartFailed);
  }

  lemma LaunchedTells(s: State, r: Request, launch: Launch)
    requires s.state == Stopped && launch.Launched? && (r.kind == Run || r.kind == EnsureReady)
    ensures
      var t := Ended(s, r, launch, Finished);
      && t.answers == s.answers + Told(s.readyWaiters, Ok, Ready) + (if r.kind == Run then [] else [Answer(r, Ok, Ready)])
      && StartLeaves(s, t, r, launch, Finished)
  {
    var up := s.(cmd := Some(launch.pid), cmdDone := Some(launch.pid), handler := Some(launch.pid),
                 alive := if launch.running then s.alive + {launch.pid} else s.alive, state := Ready);
    ReplyAllTells(up, s.readyWaiters, Ok);
  }
}
