/** Replication of the in-flight request list to a reader: tracker mutations under a
    lock, a bounded outbox, and publishers that come and go. Every step below is one
    atomic action of the program, and any interleaving of them is a run. */
module Inflight {

  type Id = nat

  /** What a request is when it is added; it never changes afterwards. */
  datatype Details = Details(
    timestamp: int, path: string, verb: string, remoteIP: string, model: string,
    reqHeaders: map<string, string>, metadata: map<string, string>)

  datatype Entry = Entry(details: Details, respHeaders: map<string, string>, respBytes: int)

  /** A tracked request and whether its delayed update is armed. */
  datatype Tracked = Tracked(entry: Entry, armed: bool)

  datatype Update =
    | Upsert(id: Id, entry: Entry)
    | Remove(id: Id)
    | Snapshot(entries: map<Id, Entry>)

  /** Where the goroutine that holds the tracker's lock is. */
  datatype Mutator =
    | Idle
    | Sending(update: Update)   // requests changed, the outbox send not tried yet
    | Overflowed                // the outbox was full, the flag not set yet
    | Starting                  // about to start a publisher if none runs

  /** Where the publisher that owns the running flag is. */
  datatype Owner =
    | NoOwner
    | Selecting
    | Publishing(update: Update)
    | Recovering                // about to test and clear the snapshot flag
    | Discarding
    | Snapshotting              // outbox seen empty, about to read the requests
    | Stopping                  // outbox seen empty, about to clear the running flag

  /** `leaving` publishers have cleared the running flag but not looked at the outbox
      again; `reclaiming` ones saw work there and will try to take the flag back. */
  datatype State = State(
    requests: map<Id, Tracked>,
    outbox: seq<Update>,
    needsSnapshot: bool,
    running: bool,
    mutator: Mutator,
    owner: Owner,
    leaving: nat,
    reclaiming: nat,
    published: seq<Update>)

  const START: State := State(map[], [], false, false, Idle, NoOwner, 0, 0, [])

  datatype Mutation =
    | Added(id: Id, details: Details)
    | Removed(id: Id)
    | HeadersSet(id: Id, headers: map<string, string>)
    | BytesAdded(id: Id, total: int, due: bool)   // due: the update interval has passed
    | TimerFired(id: Id)

  datatype Step =
    | Mutate(m: Mutation)
    | TrySend
    | SetFlag
    | StartPublisher
    | Receive
    | Publish
    | TestFlag
    | DiscardOne
    | TakeSnapshot
    | ClearRunning
    | LookAgain
    | Reclaim

  // ----------------------------------------------------------------- the reader

  /** The reader's fold of one update into its list. */
  function Apply(view: map<Id, Entry>, u: Update): map<Id, Entry>
  {
    match u
    case Upsert(id, entry) => view[id := entry]
    case Remove(id) => view - {id}
    case Snapshot(entries) => entries
  }

  function View(published: seq<Update>): map<Id, Entry>
  {
    if published == [] then map[] else Apply(View(published[..|published| - 1]), published[|published| - 1])
  }

  // ------------------------------------------------------------------ the steps

  function Current(requests: map<Id, Tracked>): map<Id, Entry>
  {
    map id | id in requests :: requests[id].entry
  }

  /** A mutation changes the requests and, unless it has nothing to say, leaves the
      lock holder about to send an update. */
  function Mutated(s: State, m: Mutation): State
  {
    match m
    case Added(id, details) =>
      var entry := Entry(details, map[], 0);
      s.(requests := s.requests[id := Tracked(entry, false)], mutator := Sending(Upsert(id, entry)))
    case Removed(id) =>
      if id !in s.requests then s else s.(requests := s.requests - {id}, mutator := Sending(Remove(id)))
    case HeadersSet(id, headers) =>
      if id !in s.requests then s
      else
        var t := s.requests[id];
        var entry := t.entry.(respHeaders := headers);
        s.(requests := s.requests[id := t.(entry := entry)], mutator := Sending(Upsert(id, entry)))
    case BytesAdded(id, total, due) =>
      if total <= 0 || id !in s.requests then s
      else
        var t := s.requests[id];
        var entry := t.entry.(respBytes := t.entry.respBytes + total);
        if due && !t.armed then s.(requests := s.requests[id := t.(entry := entry)], mutator := Sending(Upsert(id, entry)))
        else s.(requests := s.requests[id := Tracked(entry, true)])
    case TimerFired(id) =>
      if id !in s.requests then s
      else
        var entry := s.requests[id].entry;
        s.(requests := s.requests[id := Tracked(entry, false)], mutator := Sending(Upsert(id, entry)))
  }

  predicate Enabled(s: State, step: Step)
  {
    match step
    case Mutate(_) => s.mutator.Idle?
    case TrySend => s.mutator.Sending?
    case SetFlag => s.mutator.Overflowed?
    case StartPublisher => s.mutator.Starting?
    case Receive => s.owner.Selecting?
    case Publish => s.owner.Publishing?
    case TestFlag => s.owner.Recovering?
    case DiscardOne => s.owner.Discarding?
    case TakeSnapshot => s.owner.Snapshotting? && s.mutator.Idle?
    case ClearRunning => s.owner.Stopping?
    case LookAgain => s.leaving > 0
    case Reclaim => s.reclaiming > 0
  }

  /** `size` is the capacity of the outbox channel. */
  function Next(size: nat, s: State, step: Step): State
    requires Enabled(s, step)
  {
    match step
    case Mutate(m) => Mutated(s, m)
    case TrySend =>
      if |s.outbox| < size then s.(outbox := s.outbox + [s.mutator.update], mutator := Starting)
      else s.(mutator := Overflowed)
    case SetFlag => s.(needsSnapshot := true, mutator := Starting)
    case StartPublisher =>
      if s.running then s.(mutator := Idle) else s.(mutator := Idle, running := true, owner := Selecting)
    case Receive =>
      if s.outbox != [] then s.(outbox := s.outbox[1..], owner := Publishing(s.outbox[0])) else s.(owner := Stopping)
    case Publish => s.(published := s.published + [s.owner.update], owner := Recovering)
    case TestFlag => s.(needsSnapshot := false, owner := if s.needsSnapshot then Discarding else Selecting)
    case DiscardOne =>
      if s.outbox != [] then s.(outbox := s.outbox[1..]) else s.(owner := Snapshotting)
    case TakeSnapshot => s.(owner := Publishing(Snapshot(Current(s.requests))))
    case ClearRunning => s.(running := false, owner := NoOwner, leaving := s.leaving + 1)
    case LookAgain =>
      var t := s.(leaving := s.leaving - 1);
      if s.outbox != [] then t.(reclaiming := s.reclaiming + 1) else t
    case Reclaim =>
      var t := s.(reclaiming := s.reclaiming - 1);
      if s.running then t else t.(running := true, owner := Selecting)
  }

  ghost function After(size: nat, s: State, run: seq<Step>): State
    requires Legal(size, s, run)
    decreases |run|, 1
  {
    if run == [] then s else Next(size, After(size, s, run[..|run| - 1]), run[|run| - 1])
  }

  ghost predicate Legal(size: nat, s: State, run: seq<Step>)
    decreases |run|, 0
  {
    run == [] || (Legal(size, s, run[..|run| - 1]) && Enabled(After(size, s, run[..|run| - 1]), run[|run| - 1]))
  }

  // -------------------------------------------------------------- the invariant

  datatype Option<+T> = None | Some(value: T)

  function Lookup(view: map<Id, Entry>, id: Id): Option<Entry>
  {
    if id in view then Some(view[id]) else None
  }

  /** What an update leaves the reader with for `id`. */
  function ToldBy(u: Update, id: Id, before: Option<Entry>): Option<Entry>
  {
    match u
    case Upsert(i, entry) => if i == id then Some(entry) else before
    case Remove(i) => if i == id then None else before
    case Snapshot(entries) => Lookup(entries, id)
  }

  ghost function Told(before: Option<Entry>, updates: seq<Update>, id: Id): Option<Entry>
  {
    if updates == [] then before
    else ToldBy(updates[|updates| - 1], id, Told(before, updates[..|updates| - 1], id))
  }

  /** What the reader has been or is just being told. A publisher about to take a
      snapshot is as good as one about to publish the current requests. */
  ghost function HeadTold(s: State, id: Id): Option<Entry>
  {
    var seen := Lookup(View(s.published), id);
    match s.owner
    case Publishing(u) => ToldBy(u, id, seen)
    case Snapshotting => Lookup(Current(s.requests), id)
    case _ => seen
  }

  /** What the reader will hold for `id` once every update on its way has arrived. */
  ghost function FinallyTold(s: State, id: Id): Option<Entry>
  {
    var queued := Told(HeadTold(s, id), s.outbox, id);
    if s.mutator.Sending? then ToldBy(s.mutator.update, id, queued) else queued
  }

  /** The reader's entry is the tracker's, its byte count excepted while an update of
      the count is due. */
  ghost predicate Matches(told: Option<Entry>, requests: map<Id, Tracked>, id: Id)
  {
    if id !in requests then told == None
    else
      && told.Some?
      && var t := requests[id];
         told.value == if t.armed then t.entry.(respBytes := told.value.respBytes) else t.entry
  }

  /** An update was dropped and the snapshot that makes up for it not yet begun. */
  ghost predicate Missing(s: State)
  {
    s.needsSnapshot || s.mutator.Overflowed? || s.owner.Discarding?
  }

  /** The update being sent says what the tracker holds. */
  ghost predicate Truthful(s: State)
  {
    s.mutator.Sending? ==>
      match s.mutator.update
      case Upsert(id, entry) => id in s.requests && s.requests[id].entry == entry
      case Remove(id) => id !in s.requests
      case Snapshot(_) => false
  }

  ghost predicate Someone(s: State)
  {
    s.owner != NoOwner || s.leaving > 0 || s.reclaiming > 0 || s.mutator.Starting?
  }

  ghost predicate Inv(size: nat, s: State)
  {
    && (s.running <==> s.owner != NoOwner)
    && |s.outbox| <= size
    && (s.outbox != [] ==> Someone(s))
    && Truthful(s)
    && (!Missing(s) ==> forall id :: Matches(FinallyTold(s, id), s.requests, id))
  }

  // ------------------------------------------------------------------- its proof

  lemma ToldLast(before: Option<Entry>, updates: seq<Update>, u: Update, id: Id)
    ensures Told(before, updates + [u], id) == ToldBy(u, id, Told(before, updates, id))
  {
    assert (updates + [u])[..|updates|] == updates;
  }

  lemma {:induction false} ToldFirst(before: Option<Entry>, updates: seq<Update>, id: Id)
    requires updates != []
    ensures Told(before, updates, id) == Told(ToldBy(updates[0], id, before), updates[1..], id)
  {
    var k := |updates| - 1;
    if k > 0 {
      ToldFirst(before, updates[..k], id);
      assert updates[..k][1..] == updates[1..][..k - 1];
    }
  }

  /** The queued updates settle `id` or leave what was known before. */
  lemma {:induction false} ToldOtherwise(a: Option<Entry>, b: Option<Entry>, updates: seq<Update>, id: Id)
    ensures Told(a, updates, id) == Told(b, updates, id) || (Told(a, updates, id) == a && Told(b, updates, id) == b)
  {
    if updates != [] {
      ToldOtherwise(a, b, updates[..|updates| - 1], id);
    }
  }

  lemma ViewNext(published: seq<Update>, u: Update)
    ensures View(published + [u]) == Apply(View(published), u)
  {
    assert (published + [u])[..|published|] == published;
  }

  lemma MutateMatches(s: State, m: Mutation, id: Id)
    requires s.mutator.Idle? && Matches(FinallyTold(s, id), s.requests, id)
    ensures var t := Mutated(s, m); Matches(FinallyTold(t, id), t.requests, id)
  {
    var t := Mutated(s, m);
    if m.id == id && t.mutator.Idle? {
      ToldOtherwise(HeadTold(s, id), HeadTold(t, id), s.outbox, id);
    }
  }

  lemma MutateKeeps(size: nat, s: State, m: Mutation)
    requires Inv(size, s) && s.mutator.Idle?
    ensures Inv(size, Mutated(s, m))
  {
    if !Missing(s) {
      forall id
        ensures var t := Mutated(s, m); Matches(FinallyTold(t, id), t.requests, id)
      {
        MutateMatches(s, m, id);
      }
    }
  }

  lemma SendKeeps(size: nat, s: State)
    requires Inv(size, s) && s.mutator.Sending?
    ensures Inv(size, Next(size, s, TrySend))
  {
    forall id
      ensures |s.outbox| < size ==> FinallyTold(Next(size, s, TrySend), id) == FinallyTold(s, id)
    {
      ToldLast(HeadTold(s, id), s.outbox, s.mutator.update, id);
    }
  }

  lemma ReceiveKeeps(size: nat, s: State)
    requires Inv(size, s) && s.owner.Selecting?
    ensures Inv(size, Next(size, s, Receive))
  {
    var t := Next(size, s, Receive);
    forall id
      ensures FinallyTold(t, id) == FinallyTold(s, id)
    {
      if s.outbox != [] {
        ToldFirst(HeadTold(s, id), s.outbox, id);
      }
    }
  }

  lemma ApplyTold(view: map<Id, Entry>, u: Update, id: Id)
    ensures Lookup(Apply(view, u), id) == ToldBy(u, id, Lookup(view, id))
  {}

  lemma PublishTold(size: nat, s: State, id: Id)
    requires s.owner.Publishing?
    ensures FinallyTold(Next(size, s, Publish), id) == FinallyTold(s, id)
  {
    ViewNext(s.published, s.owner.update);
    ApplyTold(View(s.published), s.owner.update, id);
    assert HeadTold(Next(size, s, Publish), id) == HeadTold(s, id);
  }

  lemma PublishKeeps(size: nat, s: State)
    requires Inv(size, s) && s.owner.Publishing?
    ensures Inv(size, Next(size, s, Publish))
  {
    forall id
      ensures FinallyTold(Next(size, s, Publish), id) == FinallyTold(s, id)
    {
      PublishTold(size, s, id);
    }
  }

  /** Once the outbox was seen empty, the current requests and the update being sent
      are all the reader needs. */
  lemma DiscardKeeps(size: nat, s: State)
    requires Inv(size, s) && s.owner.Discarding?
    ensures Inv(size, Next(size, s, DiscardOne))
  {
    var t := Next(size, s, DiscardOne);
    if s.outbox == [] {
      forall id
        ensures Matches(FinallyTold(t, id), t.requests, id)
      {}
    }
  }

  lemma OtherStepsKeep(size: nat, s: State, step: Step)
    requires Inv(size, s) && Enabled(s, step)
    requires
      || step.SetFlag? || step.StartPublisher? || step.TestFlag? || step.TakeSnapshot?
      || step.ClearRunning? || step.LookAgain? || step.Reclaim?
    ensures Inv(size, Next(size, s, step))
  {
    var t := Next(size, s, step);
    if !Missing(t) {
      forall id
        ensures FinallyTold(t, id) == FinallyTold(s, id)
      {}
    }
  }

  lemma StepKeepsInvariant(size: nat, s: State, step: Step)
    requires Inv(size, s) && Enabled(s, step)
    ensures Inv(size, Next(size, s, step))
  {
    match step {
      case Mutate(m) => MutateKeeps(size, s, m);
      case TrySend => SendKeeps(size, s);
      case Receive => ReceiveKeeps(size, s);
      case Publish => PublishKeeps(size, s);
      case DiscardOne => DiscardKeeps(size, s);
      case _ => OtherStepsKeep(size, s, step);
    }
  }

  lemma {:induction false} RunsKeepInvariant(size: nat, s: State, run: seq<Step>)
    requires Inv(size, s) && Legal(size, s, run)
    ensures Inv(size, After(size, s, run))
  {
    if run != [] {
      RunsKeepInvariant(size, s, run[..|run| - 1]);
      StepKeepsInvariant(size, After(size, s, run[..|run| - 1]), run[|run| - 1]);
    }
  }

  // ------------------------------------------------------------- what it promises

  /** The outbox is empty, nothing is mid-mutation or mid-publish, and no snapshot is due. */
  ghost predicate Settled(s: State)
  {
    && s.outbox == [] && !s.needsSnapshot && s.mutator.Idle?
    && (s.owner.NoOwner? || s.owner.Selecting? || s.owner.Recovering? || s.owner.Stopping?)
  }

  /** Every publisher has returned and no mutation is under way. */
  ghost predicate Quiet(s: State)
  {
    s.mutator.Idle? && s.owner.NoOwner? && s.leaving == 0 && s.reclaiming == 0
  }

  ghost predicate Converged(s: State)
  {
    && View(s.published).Keys == s.requests.Keys
    && forall id :: Matches(Lookup(View(s.published), id), s.requests, id)
  }

  /** Under every interleaving, a settled tracker's reader holds exactly the tracker's
      requests, byte counts of armed entries excepted. */
  lemma SettledReaderConverged(size: nat, run: seq<Step>)
    requires Legal(size, START, run) && Settled(After(size, START, run))
    ensures Converged(After(size, START, run))
  {
    RunsKeepInvariant(size, START, run);
    var s := After(size, START, run);
    forall id
      ensures Matches(Lookup(View(s.published), id), s.requests, id)
    {
      assert Matches(FinallyTold(s, id), s.requests, id);
    }
    forall id
      ensures id in View(s.published) <==> id in s.requests
    {
      assert Matches(Lookup(View(s.published), id), s.requests, id);
    }
  }

  /** The last time a sender raised the snapshot flag, no publisher tested it
      afterwards. */
  ghost predicate RaisedTooLate(run: seq<Step>)
  {
    exists k :: 0 <= k < |run| && run[k].SetFlag? && forall j :: k < j < |run| ==> !run[j].TestFlag?
  }

  lemma RaisedNext(run: seq<Step>, step: Step)
    ensures RaisedTooLate(run + [step]) <==> step.SetFlag? || (RaisedTooLate(run) && !step.TestFlag?)
  {
    var longer := run + [step];
    if step.SetFlag? {
      assert longer[|run|].SetFlag?;
    }
    if RaisedTooLate(run) && !step.TestFlag? {
      var k :| 0 <= k < |run| && run[k].SetFlag? && forall j :: k < j < |run| ==> !run[j].TestFlag?;
      assert longer[k].SetFlag? && forall j :: k < j < |longer| ==> !longer[j].TestFlag?;
    }
    if RaisedTooLate(longer) && !step.SetFlag? {
      var k :| 0 <= k < |longer| && longer[k].SetFlag? && forall j :: k < j < |longer| ==> !longer[j].TestFlag?;
      assert run[k].SetFlag?;
      assert !longer[|run|].TestFlag?;
      assert forall j :: k < j < |run| ==> run[j] == longer[j];
    }
  }

  /** In every reachable state the flag is up exactly when its last raise was not
      tested yet. */
  lemma {:induction false} FlagStaysUpExactlyWhen(size: nat, run: seq<Step>)
    requires Legal(size, START, run)
    ensures After(size, START, run).needsSnapshot <==> RaisedTooLate(run)
  {
    if run != [] {
      var before, step := run[..|run| - 1], run[|run| - 1];
      FlagStaysUpExactlyWhen(size, before);
      assert run == before + [step];
      RaisedNext(before, step);
      MutationsLeaveFlag(size, After(size, START, before), step);
    }
  }

  lemma MutationsLeaveFlag(size: nat, s: State, step: Step)
    requires Enabled(s, step)
    ensures Next(size, s, step).needsSnapshot <==> step.SetFlag? || (s.needsSnapshot && !step.TestFlag?)
  {}

  /** No update is stranded: when every publisher has returned, the outbox is empty,
      a snapshot is still due exactly when the last raise of the flag came after the
      last test, and otherwise the reader has converged. */
  lemma QuietReaderConverged(size: nat, run: seq<Step>)
    requires Legal(size, START, run) && Quiet(After(size, START, run))
    ensures After(size, START, run).outbox == []
    ensures After(size, START, run).needsSnapshot <==> RaisedTooLate(run)
    ensures !RaisedTooLate(run) ==> Converged(After(size, START, run))
  {
    RunsKeepInvariant(size, START, run);
    FlagStaysUpExactlyWhen(size, run);
    if !RaisedTooLate(run) {
      SettledReaderConverged(size, run);
    }
  }

  /** Every send of the run found room in the outbox. */
  ghost predicate Roomy(size: nat, run: seq<Step>)
    requires Legal(size, START, run)
  {
    run == [] ||
    var before := run[..|run| - 1];
    Roomy(size, before) && (run[|run| - 1].TrySend? ==> |After(size, START, before).outbox| < size)
  }

  lemma {:induction false} RoomyNeedsNoSnapshot(size: nat, run: seq<Step>)
    requires Legal(size, START, run) && Roomy(size, run)
    ensures !After(size, START, run).needsSnapshot && !After(size, START, run).mutator.Overflowed?
  {
    if run != [] {
      var before := run[..|run| - 1];
      RoomyNeedsNoSnapshot(size, before);
      MutationsLeaveFlag(size, After(size, START, before), run[|run| - 1]);
    }
  }

  /** As long as no send finds the outbox full, the reader has converged whenever all is
      quiet, whatever the interleaving. */
  lemma RoomyReaderConverged(size: nat, run: seq<Step>)
    requires Legal(size, START, run) && Roomy(size, run) && Quiet(After(size, START, run))
    ensures Converged(After(size, START, run))
  {
    RoomyNeedsNoSnapshot(size, run);
    QuietReaderConverged(size, run);
  }

  /** With no update of a byte count due, convergence is equality. */
  lemma ConvergedIsEqual(s: State)
    requires Converged(s) && forall id :: id in s.requests ==> !s.requests[id].armed
    ensures View(s.published) == Current(s.requests)
  {
    forall id | id in s.requests
      ensures View(s.published)[id] == s.requests[id].entry
    {
      assert Matches(Lookup(View(s.published), id), s.requests, id);
    }
  }

  // ------------------------------------------------------- where recovery stalls

  lemma Extend(size: nat, s: State, run: seq<Step>, step: Step)
    requires Legal(size, s, run) && Enabled(After(size, s, run), step)
    ensures Legal(size, s, run + [step]) && After(size, s, run + [step]) == Next(size, After(size, s, run), step)
  {
    assert (run + [step])[..|run|] == run;
  }

  lemma Take(size: nat, run: seq<Step>, step: Step) returns (longer: seq<Step>, t: State)
    requires Legal(size, START, run) && Enabled(After(size, START, run), step)
    ensures longer == run + [step] && Legal(size, START, longer)
    ensures t == After(size, START, longer) == Next(size, After(size, START, run), step)
  {
    longer := run + [step];
    t := Next(size, After(size, START, run), step);
    Extend(size, START, run, step);
  }

  /** The requests 1 to `n`, alike but for their ids, and the updates that announce them. */
  ghost function Requests(n: nat, details: Details): map<Id, Tracked>
  {
    if n == 0 then map[] else Requests(n - 1, details)[n := Tracked(Entry(details, map[], 0), false)]
  }

  ghost function Announced(n: nat, details: Details): (updates: seq<Update>)
    ensures |updates| == n
  {
    if n == 0 then [] else Announced(n - 1, details) + [Upsert(n, Entry(details, map[], 0))]
  }

  lemma {:induction false} AnnouncedView(n: nat, details: Details)
    ensures forall id :: id in View(Announced(n, details)) ==> 1 <= id <= n
  {
    if n > 0 {
      AnnouncedView(n - 1, details);
      ViewNext(Announced(n - 1, details), Upsert(n, Entry(details, map[], 0)));
    }
  }

  /** One more request: its update is queued and a publisher is running. */
  lemma AddOne(size: nat, run: seq<Step>, id: Id, details: Details) returns (longer: seq<Step>, t: State)
    requires Legal(size, START, run)
    requires
      var s := After(size, START, run);
      s.mutator.Idle? && |s.outbox| < size && (if s.running then s.owner.Selecting? else s.owner.NoOwner?)
    ensures Legal(size, START, longer) && t == After(size, START, longer)
    ensures
      var s := After(size, START, run);
      var entry := Entry(details, map[], 0);
      t == s.(requests := s.requests[id := Tracked(entry, false)], outbox := s.outbox + [Upsert(id, entry)],
              running := true, owner := Selecting)
  {
    var r1, s1 := Take(size, run, Mutate(Added(id, details)));
    var r2, s2 := Take(size, r1, TrySend);
    longer, t := Take(size, r2, StartPublisher);
  }

  /** `n` requests added, their updates queued, a publisher started by the first of
      them but not run yet. */
  lemma {:induction false} Filled(size: nat, n: nat, details: Details) returns (run: seq<Step>, t: State)
    requires 1 <= n <= size
    ensures Legal(size, START, run) && t == After(size, START, run)
    ensures t ==
      START.(requests := Requests(n, details), outbox := Announced(n, details), running := true, owner := Selecting)
  {
    var before: seq<Step>, s: State := [], START;
    if n > 1 {
      before, s := Filled(size, n - 1, details);
    }
    assert s.requests == Requests(n - 1, details) && s.outbox == Announced(n - 1, details);
    run, t := AddOne(size, before, n, details);
  }

  /** The publisher sends the first queued update and stands before its flag test. */
  lemma PublishOne(size: nat, run: seq<Step>) returns (longer: seq<Step>, t: State)
    requires Legal(size, START, run)
    requires var s := After(size, START, run); s.owner.Selecting? && s.outbox != []
    ensures Legal(size, START, longer) && t == After(size, START, longer)
    ensures
      var s := After(size, START, run);
      t == s.(outbox := s.outbox[1..], owner := Recovering, published := s.published + [s.outbox[0]])
  {
    var r1, s1 := Take(size, run, Receive);
    longer, t := Take(size, r1, Publish);
  }

  /** Having sent one update, it finds the flag down and goes back for the next. */
  lemma PublishNext(size: nat, run: seq<Step>) returns (longer: seq<Step>, t: State)
    requires Legal(size, START, run)
    requires var s := After(size, START, run); s.owner.Selecting? && s.outbox != [] && !s.needsSnapshot
    ensures Legal(size, START, longer) && t == After(size, START, longer)
    ensures
      var s := After(size, START, run);
      t == s.(outbox := s.outbox[1..], published := s.published + [s.outbox[0]])
  {
    var r1, s1 := PublishOne(size, run);
    longer, t := Take(size, r1, TestFlag);
  }

  /** Everything queued is sent and the publisher stands before its flag test. */
  ghost function AllSent(s: State): State
  {
    s.(outbox := [], owner := Recovering, published := s.published + s.outbox)
  }

  lemma SentInTurn(s: State)
    requires s.outbox != []
    ensures AllSent(s.(outbox := s.outbox[1..], published := s.published + [s.outbox[0]])) == AllSent(s)
    ensures |s.outbox| == 1 ==>
      AllSent(s) == s.(outbox := s.outbox[1..], owner := Recovering, published := s.published + [s.outbox[0]])
  {
    assert s.published + [s.outbox[0]] + s.outbox[1..] == s.published + s.outbox;
    if |s.outbox| == 1 {
      assert s.outbox == [s.outbox[0]];
    }
  }

  /** While a sender that found the outbox full stands before the flag, the publisher
      sends everything that is queued. */
  lemma {:induction false} Drained(size: nat, run: seq<Step>, n: nat) returns (longer: seq<Step>, t: State)
    requires Legal(size, START, run) && n == |After(size, START, run).outbox| > 0
    requires var s := After(size, START, run); s.owner.Selecting? && !s.needsSnapshot
    ensures Legal(size, START, longer) && t == After(size, START, longer)
    ensures t == AllSent(After(size, START, run))
    decreases n
  {
    SentInTurn(After(size, START, run));
    if n == 1 {
      longer, t := PublishOne(size, run);
    } else {
      var r2, s2 := PublishNext(size, run);
      longer, t := Drained(size, r2, n - 1);
    }
  }

  /** A publisher with nothing to receive leaves without testing the flag. */
  lemma PublisherLeaves(size: nat, run: seq<Step>) returns (longer: seq<Step>, t: State)
    requires Legal(size, START, run)
    requires var s := After(size, START, run); s.outbox == [] && s.owner.Selecting? && s.running
    ensures Legal(size, START, longer) && t == After(size, START, longer)
    ensures t == After(size, START, run).(running := false, owner := NoOwner)
  {
    longer, t := Take(size, run, Receive);
    longer, t := Take(size, longer, ClearRunning);
    longer, t := Take(size, longer, LookAgain);
  }

  /** Whenever a publisher reaches its flag test before the sender that found the
      outbox full has raised the flag, the snapshot can be lost: both this publisher
      and the one the sender starts leave, and the flag stays up. */
  lemma FlagRaisedTooLate(size: nat, run: seq<Step>) returns (longer: seq<Step>, t: State)
    requires Legal(size, START, run)
    requires
      var s := After(size, START, run);
      s.outbox == [] && s.mutator.Overflowed? && s.owner.Recovering? && s.running && !s.needsSnapshot
    ensures Legal(size, START, longer) && t == After(size, START, longer)
    ensures t == After(size, START, run).(needsSnapshot := true, mutator := Idle, running := false, owner := NoOwner)
  {
    longer, t := Take(size, run, TestFlag);
    longer, t := PublisherLeaves(size, longer);
    longer, t := Take(size, longer, SetFlag);
    longer, t := Take(size, longer, StartPublisher);
    longer, t := PublisherLeaves(size, longer);
  }

  /** So, whatever the size of the outbox, a dropped update can stay unpublished with
      everything quiet: `size` requests fill it, the next one finds it full, and the
      publisher empties it and tests the flag before that sender goes on. */
  lemma RecoveryCanStall(size: nat, details: Details) returns (run: seq<Step>)
    requires size >= 1
    ensures Legal(size, START, run)
    ensures
      var s := After(size, START, run);
      && Quiet(s) && s.needsSnapshot
      && size + 1 in s.requests && size + 1 !in View(s.published) && !Converged(s)
  {
    var t;
    run, t := Filled(size, size, details);
    run, t := Take(size, run, Mutate(Added(size + 1, details)));
    run, t := Take(size, run, TrySend);
    run, t := Drained(size, run, size);
    assert t.published == Announced(size, details);
    run, t := FlagRaisedTooLate(size, run);
    AnnouncedView(size, details);
  }
}
