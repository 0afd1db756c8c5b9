/** One group of the event dispatcher: its consumers' queues under the group's lock,
    and the listening goroutines that swap a queue out and hand its events over one by
    one. Any interleaving of these steps is a run. */
module EventGroup {

  datatype Option<+A> = None | Some(value: A)

  /** `pending` is what is left of the batch a listener took out of the queue. */
  datatype Consumer<T> = Consumer(queue: seq<T>, pending: seq<T>, stop: bool, done: bool)

  /** Which broadcasts a consumer was subscribed for, and what its handler was given. */
  datatype Span<T> = Span(from: nat, until: Option<nat>, delivered: seq<T>)

  datatype State<T> = State(subs: seq<nat>, consumers: seq<Consumer<T>>, spans: seq<Span<T>>, log: seq<T>)

  function Empty<T>(): State<T> { State([], [], [], []) }

  datatype Step<T> =
    | Add
    | Broadcast(event: T)
    | Remove(id: nat)
    | TakeBatch(id: nat)
    | Deliver(id: nat)
    | Finish(id: nat)

  function Longest<T>(consumers: seq<Consumer<T>>, subs: seq<nat>): nat
    requires forall i :: 0 <= i < |subs| ==> subs[i] < |consumers|
  {
    if subs == [] then 0
    else
      var before, n := Longest(consumers, subs[..|subs| - 1]), |consumers[subs[|subs| - 1]].queue|;
      if n > before then n else before
  }

  /** The event at the end of every subscriber's queue. */
  function Appended<T>(consumers: seq<Consumer<T>>, subs: seq<nat>, event: T): (r: seq<Consumer<T>>)
    requires forall i :: 0 <= i < |subs| ==> subs[i] < |consumers|
    ensures |r| == |consumers|
  {
    if subs == [] then consumers
    else
      var before, id := Appended(consumers, subs[..|subs| - 1], event), subs[|subs| - 1];
      before[id := before[id].(queue := before[id].queue + [event])]
  }

  /** The list without the first occurrence of `id`. */
  function Without(subs: seq<nat>, id: nat): seq<nat>
  {
    if subs == [] then [] else if subs[0] == id then subs[1..] else [subs[0]] + Without(subs[1..], id)
  }

  predicate InRange<T>(s: State<T>)
  {
    |s.spans| == |s.consumers| && forall i :: 0 <= i < |s.subs| ==> s.subs[i] < |s.consumers|
  }

  predicate Enabled<T>(max: nat, s: State<T>, step: Step<T>)
  {
    && InRange(s)
    && match step
       case Add => true
       case Broadcast(_) => Longest(s.consumers, s.subs) < max
       case Remove(id) => id < |s.consumers|
       case TakeBatch(id) =>
         && id < |s.consumers| && !s.consumers[id].done
         && s.consumers[id].pending == [] && s.consumers[id].queue != []
       case Deliver(id) => id < |s.consumers| && s.consumers[id].pending != []
       case Finish(id) => id < |s.consumers| && s.consumers[id].pending == [] && s.consumers[id].queue == [] && s.consumers[id].stop
  }

  function Next<T>(max: nat, s: State<T>, step: Step<T>): State<T>
    requires Enabled(max, s, step)
  {
    match step
    case Add =>
      s.(subs := s.subs + [|s.consumers|], consumers := s.consumers + [Consumer([], [], false, false)],
         spans := s.spans + [Span(|s.log|, None, [])])
    case Broadcast(event) => s.(consumers := Appended(s.consumers, s.subs, event), log := s.log + [event])
    case Remove(id) =>
      s.(subs := Without(s.subs, id), consumers := s.consumers[id := s.consumers[id].(stop := true)],
         spans := if id in s.subs then s.spans[id := s.spans[id].(until := Some(|s.log|))] else s.spans)
    case TakeBatch(id) =>
      var c := s.consumers[id];
      s.(consumers := s.consumers[id := c.(queue := [], pending := c.queue)])
    case Deliver(id) =>
      var c, span := s.consumers[id], s.spans[id];
      s.(consumers := s.consumers[id := c.(pending := c.pending[1..])],
         spans := s.spans[id := span.(delivered := span.delivered + [c.pending[0]])])
    case Finish(id) => s.(consumers := s.consumers[id := s.consumers[id].(done := true)])
  }

  // ------------------------------------------------------------------- invariant

  function End<T>(log: seq<T>, span: Span<T>): nat
  {
    if span.until.Some? then span.until.value else |log|
  }

  /** Delivered, then pending, then queued: exactly what was broadcast meanwhile. */
  ghost predicate Exact<T>(max: nat, s: State<T>, id: nat)
    requires InRange(s) && id < |s.consumers|
  {
    var c, span := s.consumers[id], s.spans[id];
    && span.from <= End(s.log, span) <= |s.log|
    && span.delivered + c.pending + c.queue == s.log[span.from..End(s.log, span)]
    && |c.queue| <= max
    && (id in s.subs <==> span.until.None?)
  }

  ghost predicate Distinct(subs: seq<nat>)
  {
    forall i, j :: 0 <= i < j < |subs| ==> subs[i] != subs[j]
  }

  ghost predicate Inv<T>(max: nat, s: State<T>)
  {
    InRange(s) && Distinct(s.subs) && forall id :: 0 <= id < |s.consumers| ==> Exact(max, s, id)
  }

  lemma {:induction false} LongestBounds<T>(consumers: seq<Consumer<T>>, subs: seq<nat>)
    requires forall i :: 0 <= i < |subs| ==> subs[i] < |consumers|
    ensures forall i :: 0 <= i < |subs| ==> |consumers[subs[i]].queue| <= Longest(consumers, subs)
  {
    if subs != [] {
      LongestBounds(consumers, subs[..|subs| - 1]);
    }
  }

  lemma {:induction false} LongestIsOne<T>(consumers: seq<Consumer<T>>, subs: seq<nat>)
    requires forall i :: 0 <= i < |subs| ==> subs[i] < |consumers|
    ensures Longest(consumers, subs) == 0 || exists i :: 0 <= i < |subs| && |consumers[subs[i]].queue| == Longest(consumers, subs)
  {
    if subs != [] {
      LongestIsOne(consumers, subs[..|subs| - 1]);
    }
  }

  lemma {:induction false} AppendedOnce<T>(consumers: seq<Consumer<T>>, subs: seq<nat>, event: T, id: nat)
    requires (forall i :: 0 <= i < |subs| ==> subs[i] < |consumers|) && Distinct(subs) && id < |consumers|
    ensures Appended(consumers, subs, event)[id] ==
      if id in subs then consumers[id].(queue := consumers[id].queue + [event]) else consumers[id]
  {
    if subs != [] {
      var before, last := subs[..|subs| - 1], subs[|subs| - 1];
      assert subs == before + [last];
      AppendedOnce(consumers, before, event, id);
    }
  }

  lemma {:induction false} WithoutOne(subs: seq<nat>, id: nat)
    requires Distinct(subs)
    ensures Distinct(Without(subs, id)) && forall x :: x in Without(subs, id) <==> x in subs && x != id
  {
    if subs != [] && subs[0] != id {
      assert Distinct(subs[1..]);
      WithoutOne(subs[1..], id);
      assert subs == [subs[0]] + subs[1..];
      var rest := Without(subs[1..], id);
      assert forall i :: 0 <= i < |rest| ==> rest[i] in rest;
    } else if subs != [] {
      assert subs == [subs[0]] + subs[1..];
    }
  }

  lemma BroadcastKeeps<T>(max: nat, s: State<T>, event: T)
    requires Inv(max, s) && Enabled(max, s, Broadcast(event))
    ensures Inv(max, Next(max, s, Broadcast(event)))
  {
    var t := Next(max, s, Broadcast(event));
    LongestBounds(s.consumers, s.subs);
    forall id | 0 <= id < |t.consumers|
      ensures Exact(max, t, id)
    {
      AppendedOnce(s.consumers, s.subs, event, id);
      assert Exact(max, s, id);
      var c, span := s.consumers[id], s.spans[id];
      if id in s.subs {
        assert t.log[span.from..|t.log|] == s.log[span.from..|s.log|] + [event];
        assert span.delivered + c.pending + (c.queue + [event]) == span.delivered + c.pending + c.queue + [event];
      } else {
        assert t.log[span.from..span.until.value] == s.log[span.from..span.until.value];
      }
    }
  }

  lemma AddKeeps<T>(max: nat, s: State<T>)
    requires Inv(max, s)
    ensures Inv(max, Next(max, s, Add))
  {
    var t := Next(max, s, Add);
    forall id | 0 <= id < |t.consumers|
      ensures Exact(max, t, id)
    {
      if id < |s.consumers| {
        assert Exact(max, s, id);
      }
    }
  }

  lemma RemoveKeeps<T>(max: nat, s: State<T>, id: nat)
    requires Inv(max, s) && id < |s.consumers|
    ensures Inv(max, Next(max, s, Remove(id)))
  {
    var t := Next(max, s, Remove(id));
    WithoutOne(s.subs, id);
    assert forall i :: 0 <= i < |t.subs| ==> t.subs[i] in t.subs;
    forall x | 0 <= x < |t.consumers|
      ensures Exact(max, t, x)
    {
      assert Exact(max, s, x);
    }
  }

  lemma ListenerKeeps<T>(max: nat, s: State<T>, step: Step<T>)
    requires Inv(max, s) && Enabled(max, s, step) && (step.TakeBatch? || step.Deliver? || step.Finish?)
    ensures Inv(max, Next(max, s, step))
  {
    var t := Next(max, s, step);
    forall x | 0 <= x < |t.consumers|
      ensures Exact(max, t, x)
    {
      assert Exact(max, s, x);
      var c, span := s.consumers[x], s.spans[x];
      if x == step.id && step.TakeBatch? {
        assert span.delivered + c.queue + [] == span.delivered + [] + c.queue;
      }
      if x == step.id && step.Deliver? {
        assert c.pending == [c.pending[0]] + c.pending[1..];
        assert span.delivered + [c.pending[0]] + c.pending[1..] + c.queue == span.delivered + c.pending + c.queue;
      }
    }
  }

  lemma StepKeepsInvariant<T>(max: nat, s: State<T>, step: Step<T>)
    requires Inv(max, s) && Enabled(max, s, step)
    ensures Inv(max, Next(max, s, step))
  {
    match step {
      case Add => AddKeeps(max, s);
      case Broadcast(event) => BroadcastKeeps(max, s, event);
      case Remove(id) => RemoveKeeps(max, s, id);
      case _ => ListenerKeeps(max, s, step);
    }
  }

  // ------------------------------------------------------------------------ runs

  ghost function After<T>(max: nat, run: seq<Step<T>>): State<T>
    requires Legal(max, run)
    decreases |run|, 1
  {
    if run == [] then Empty() else Next(max, After(max, run[..|run| - 1]), run[|run| - 1])
  }

  ghost predicate Legal<T>(max: nat, run: seq<Step<T>>)
    decreases |run|, 0
  {
    run == [] || (Legal(max, run[..|run| - 1]) && Enabled(max, After(max, run[..|run| - 1]), run[|run| - 1]))
  }

  lemma {:induction false} RunsKeepInvariant<T>(max: nat, run: seq<Step<T>>)
    requires Legal(max, run)
    ensures Inv(max, After(max, run))
  {
    if run != [] {
      RunsKeepInvariant(max, run[..|run| - 1]);
      StepKeepsInvariant(max, After(max, run[..|run| - 1]), run[|run| - 1]);
    }
  }

  /** In every interleaving, what a consumer's handler was given, what its listener
      still holds and what is queued for it are together, in order, exactly the events
      broadcast while it was subscribed, and no queue is longer than the limit. */
  lemma DeliveredInOrder<T>(max: nat, run: seq<Step<T>>, id: nat)
    requires Legal(max, run) && id < |After(max, run).consumers|
    ensures
      var s := After(max, run);
      && |s.spans| == |s.consumers|
      && var c, span := s.consumers[id], s.spans[id];
         && span.from <= End(s.log, span) <= |s.log| && |c.queue| <= max
         && span.delivered + c.pending + c.queue == s.log[span.from..End(s.log, span)]
         && (id in s.subs <==> span.until.None?)
  {
    RunsKeepInvariant(max, run);
    assert Exact(max, After(max, run), id);
  }

  // ----------------------------------------------------------------- the methods

  class Group<T> {
    const maxQueue: nat
    var subs: seq<nat>
    var consumers: seq<Consumer<T>>
    var maxLen: nat
    ghost var spans: seq<Span<T>>
    ghost var log: seq<T>

    ghost function View(): State<T>
      reads this
    {
      State(subs, consumers, spans, log)
    }

    ghost predicate Valid()
      reads this
    {
      Inv(maxQueue, View())
    }

    constructor (maxQueue: nat)
      ensures Valid() && this.maxQueue == maxQueue && View() == Empty()
    {
      this.maxQueue := maxQueue;
      subs, consumers, maxLen, spans, log := [], [], 0, [], [];
    }

    method NewConsumer() returns (id: nat)
      requires Valid()
      modifies this
      ensures Valid() && View() == Next(maxQueue, old(View()), Add) && id == |old(consumers)|
      ensures subs == old(subs) + [id] && consumers == old(consumers) + [Consumer([], [], false, false)]
    {
      AddKeeps(maxQueue, View());
      id := |consumers|;
      subs := subs + [id];
      consumers := consumers + [Consumer([], [], false, false)];
      spans := spans + [Span(|log|, None, [])];
    }

    method LongestQueue() returns (longest: nat)
      requires Valid()
      ensures longest == Longest(consumers, subs)
    {
      longest := 0;
      for i := 0 to |subs|
        invariant longest == Longest(consumers, subs[..i])
      {
        assert subs[..i + 1][..i] == subs[..i];
        if |consumers[subs[i]].queue| > longest {
          longest := |consumers[subs[i]].queue|;
        }
      }
      assert subs[..|subs|] == subs;
    }

    /** One attempt, with the lock held; when a queue is full the publisher waits for a
        listener to take a batch and tries again. */
    method TryBroadcast(event: T) returns (sent: bool)
      requires Valid()
      modifies this
      ensures Valid() && (sent <==> Longest(old(consumers), old(subs)) < maxQueue)
      ensures sent <==> maxQueue > 0 && forall i :: 0 <= i < |old(subs)| ==> |old(consumers)[old(subs)[i]].queue| < maxQueue
      ensures sent ==> |consumers| == |old(consumers)| && forall id :: 0 <= id < |consumers| ==>
        consumers[id].queue == old(consumers)[id].queue + if id in old(subs) then [event] else []
      ensures View() == if sent then Next(maxQueue, old(View()), Broadcast(event)) else old(View())
    {
      assert InRange(View());
      LongestBounds(consumers, subs);
      LongestIsOne(consumers, subs);
      maxLen := LongestQueue();
      if maxLen >= maxQueue {
        return false;
      }
      forall id | 0 <= id < |consumers|
        ensures Appended(consumers, subs, event)[id].queue == consumers[id].queue + if id in subs then [event] else []
      {
        AppendedOnce(consumers, subs, event, id);
      }
      BroadcastKeeps(maxQueue, View(), event);
      Append(event);
      log := log + [event];
      return true;
    }

    method Append(event: T)
      requires Valid()
      modifies this`consumers, this`maxLen
      ensures consumers == Appended(old(consumers), subs, event)
    {
      var newMax: nat := 0;
      ghost var was := consumers;
      for i := 0 to |subs|
        invariant consumers == Appended(was, subs[..i], event)
      {
        assert subs[..i + 1][..i] == subs[..i];
        var id := subs[i];
        consumers := consumers[id := consumers[id].(queue := consumers[id].queue + [event])];
        if |consumers[id].queue| > newMax {
          newMax := |consumers[id].queue|;
        }
      }
      assert subs[..|subs|] == subs;
      maxLen := newMax;
    }

    method Del(id: nat)
      requires Valid() && id < |consumers|
      modifies this
      ensures Valid() && View() == Next(maxQueue, old(View()), Remove(id))
      ensures (forall x :: x in subs <==> x in old(subs) && x != id) && |consumers| == |old(consumers)|
      ensures consumers[id] == old(consumers)[id].(stop := true)
      ensures forall x :: 0 <= x < |consumers| && x != id ==> consumers[x] == old(consumers)[x]
    {
      WithoutOne(subs, id);
      RemoveKeeps(maxQueue, View(), id);
      consumers := consumers[id := consumers[id].(stop := true)];
      spans := if id in subs then spans[id := spans[id].(until := Some(|log|))] else spans;
      subs := RemoveFirst(subs, id);
    }

    /** One turn of a listener that was found something to do. */
    method Swap(id: nat)
      requires Valid() && Enabled(maxQueue, View(), TakeBatch(id))
      modifies this
      ensures Valid() && View() == Next(maxQueue, old(View()), TakeBatch(id))
    {
      ListenerKeeps(maxQueue, View(), TakeBatch(id));
      var batch := consumers[id].queue;
      consumers := consumers[id := consumers[id].(queue := [], pending := batch)];
    }

    method HandOver(id: nat) returns (event: T)
      requires Valid() && Enabled(maxQueue, View(), Deliver(id))
      modifies this
      ensures Valid() && View() == Next(maxQueue, old(View()), Deliver(id))
      ensures spans[id].delivered == old(spans)[id].delivered + [event]
    {
      ListenerKeeps(maxQueue, View(), Deliver(id));
      event := consumers[id].pending[0];
      spans := spans[id := spans[id].(delivered := spans[id].delivered + [event])];
      consumers := consumers[id := consumers[id].(pending := consumers[id].pending[1..])];
    }

    /** What other goroutines do while the listener of `id` runs outside the lock. They
        publish, subscribe and unsubscribe, that consumer included, and the other
        listeners go on; a publisher that finds a full queue just waits. */
    method Others(id: nat, steps: seq<Step<T>>)
      requires Valid() && id < |consumers|
      modifies this
      ensures Valid() && Beside(id, old(View()), View())
    {
      for i := 0 to |steps|
        invariant Valid() && id < |consumers| && Beside(id, old(View()), View())
      {
        Other(id, steps[i]);
      }
    }

    method Other(id: nat, step: Step<T>)
      requires Valid() && id < |consumers|
      modifies this
      ensures Valid() && Beside(id, old(View()), View())
    {
      match step {
        case Add => var _ := NewConsumer();
        case Broadcast(event) => Publish(id, event);
        case Remove(x) =>
          if x < |consumers| {
            Del(x);
          }
        case TakeBatch(x) =>
          if x < |consumers| && x != id && !consumers[x].done && consumers[x].pending == [] && |consumers[x].queue| > 0 {
            Swap(x);
          }
        case Deliver(x) =>
          if x < |consumers| && x != id && |consumers[x].pending| > 0 {
            var _ := HandOver(x);
          }
        case Finish(x) =>
          if x < |consumers| && x != id && |consumers[x].pending| == 0 && |consumers[x].queue| == 0 && consumers[x].stop {
            Retire(x);
          }
      }
    }

    method Publish(id: nat, event: T)
      requires Valid() && id < |consumers|
      modifies this
      ensures Valid() && Beside(id, old(View()), View())
    {
      AppendedOnce(consumers, subs, event, id);
      var _ := TryBroadcast(event);
    }

    method Retire(id: nat)
      requires Valid() && Enabled(maxQueue, View(), Finish(id))
      modifies this
      ensures Valid() && View() == Next(maxQueue, old(View()), Finish(id))
    {
      ListenerKeeps(maxQueue, View(), Finish(id));
      consumers := consumers[id := consumers[id].(done := true)];
    }

    /** One turn of a listener. With nothing queued it returns if it was stopped, and
        waits otherwise; else it takes the whole queue and hands its events over in
        order, the n-th before others take the steps `gaps[n]`. */
    method Listen(id: nat, gaps: seq<seq<Step<T>>>)
      requires Valid() && id < |consumers| && !consumers[id].done && consumers[id].pending == []
      modifies this
      ensures Valid() && id < |consumers| && consumers[id].pending == [] && old(log) <= log
      ensures spans[id].delivered == old(spans)[id].delivered + old(consumers)[id].queue
      ensures consumers[id].done == (old(consumers)[id].queue == [] && old(consumers)[id].stop)
      ensures old(consumers)[id].queue == [] ==> log == old(log) && subs == old(subs)
    {
      if |consumers[id].queue| == 0 {
        if consumers[id].stop {
          Retire(id);
        }
        return;
      }
      ghost var queue, before := consumers[id].queue, spans[id].delivered;
      Swap(id);
      var n := 0;
      while |consumers[id].pending| > 0
        invariant Valid() && id < |consumers| && old(log) <= log && !consumers[id].done
        invariant spans[id].delivered + consumers[id].pending == before + queue
        decreases |consumers[id].pending|
      {
        var _ := HandOver(id);
        if n < |gaps| {
          Others(id, gaps[n]);
        }
        n := n + 1;
      }
    }
  }

  /** The listener of `id` finds its batch and its handler's past as it left them. */
  ghost predicate Beside<T>(id: nat, before: State<T>, after: State<T>)
  {
    && id < |before.consumers| <= |after.consumers| && |before.spans| <= |after.spans| && id < |before.spans|
    && before.log <= after.log
    && after.consumers[id].pending == before.consumers[id].pending && after.consumers[id].done == before.consumers[id].done
    && after.spans[id].delivered == before.spans[id].delivered && after.spans[id].from == before.spans[id].from
  }

  lemma WithoutStep(subs: seq<nat>, i: nat, id: nat)
    requires i < |subs|
    ensures subs[i] == id ==> Without(subs[i..], id) == subs[i + 1..]
    ensures subs[i] != id ==> subs[..i] + Without(subs[i..], id) == subs[..i + 1] + Without(subs[i + 1..], id)
  {
    assert subs[i..][1..] == subs[i + 1..];
    assert subs[..i + 1] == subs[..i] + [subs[i]];
  }

  /** Shifts the rest of the list over the removed entry. */
  method RemoveFirst(subs: seq<nat>, id: nat) returns (out: seq<nat>)
    ensures out == Without(subs, id)
  {
    var i := 0;
    while i < |subs|
      invariant i <= |subs| && Without(subs, id) == subs[..i] + Without(subs[i..], id)
    {
      WithoutStep(subs, i, id);
      if subs[i] == id {
        return subs[..i] + subs[i + 1..];
      }
      i := i + 1;
    }
    return subs;
  }
}
