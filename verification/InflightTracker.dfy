/** The in-flight tracker's methods, each run to its end on the tracker's fields. A
    ghost trace records their atomic steps, so the tracker is always in a state that
    a run of `Inflight` reaches. */
module InflightTracker {
  import opened Inflight

  /** What another goroutine may call. */
  datatype Call =
    | Adding(details: Details)
    | Removing(id: Id)
    | SettingHeaders(id: Id, headers: map<string, string>)
    | AddingBytes(id: Id, total: int, due: bool)
    | Emitting(id: Id)

  class Tracker {
    const size: nat
    var nextID: nat
    var requests: map<Id, Tracked>
    var updates: seq<Update>
    var needsSnapshot: bool
    var publisherRunning: bool
    ghost var trace: seq<Step>
    ghost var state: State

    ghost predicate Traced()
      reads this
    {
      Legal(size, START, trace) && state == After(size, START, trace)
    }

    /** The fields are those of the traced state, and every id was issued. */
    ghost predicate Valid()
      reads this
    {
      && Traced()
      && state.requests == requests && state.outbox == updates
      && state.needsSnapshot == needsSnapshot && state.running == publisherRunning
      && (state.running <==> state.owner != NoOwner)
      && forall id :: id in requests ==> 0 < id <= nextID
    }

    constructor (size: nat)
      ensures Valid() && this.size == size && state == START
    {
      this.size := size;
      nextID, requests, updates, needsSnapshot, publisherRunning := 0, map[], [], false, false;
      trace, state := [], START;
    }

    /** Records one atomic step. */
    ghost method Did(step: Step)
      requires Traced() && Enabled(state, step)
      modifies this`trace, this`state
      ensures Traced() && trace == old(trace) + [step] && state == Next(size, old(state), step)
    {
      Extend(size, START, trace, step);
      state := Next(size, state, step);
      trace := trace + [step];
    }

    // -------------------------------------------------------------- mutations

    method Add(details: Details) returns (id: Id)
      requires Valid() && state.mutator.Idle?
      modifies this
      ensures Valid() && state.mutator.Idle?
      ensures id !in old(requests) && requests == old(requests)[id := Tracked(Entry(details, map[], 0), false)]
      ensures Sent(old(state), state, Upsert(id, Entry(details, map[], 0)))
    {
      nextID := nextID + 1;
      id := nextID;
      var entry := Entry(details, map[], 0);
      requests := requests[id := Tracked(entry, false)];
      Did(Mutate(Added(id, details)));
      EnqueueLocked(Upsert(id, entry));
    }

    method Remove(id: Id)
      requires Valid() && state.mutator.Idle?
      modifies this
      ensures Valid() && state.mutator.Idle? && requests == old(requests) - {id}
      ensures if id in old(requests) then Sent(old(state), state, Update.Remove(id)) else state == old(state)
    {
      Did(Mutate(Removed(id)));
      if id in requests {
        requests := requests - {id};
        EnqueueLocked(Update.Remove(id));
      }
    }

    method SetResponseHeaders(id: Id, headers: map<string, string>)
      requires Valid() && state.mutator.Idle?
      modifies this
      ensures Valid() && state.mutator.Idle? && requests.Keys == old(requests.Keys)
      ensures
        if id in old(requests) then
          var entry := old(requests)[id].entry.(respHeaders := headers);
          && requests == old(requests)[id := Tracked(entry, old(requests)[id].armed)]
          && Sent(old(state), state, Upsert(id, entry))
        else state == old(state)
    {
      Did(Mutate(HeadersSet(id, headers)));
      if id in requests {
        var entry := requests[id].entry.(respHeaders := headers);
        requests := requests[id := requests[id].(entry := entry)];
        EnqueueLocked(Upsert(id, entry));
      }
    }

    /** `due` says that the update interval has passed since the last update of `id`. */
    method AddResponseBytes(id: Id, total: int, due: bool)
      requires Valid() && state.mutator.Idle?
      modifies this
      ensures Valid() && state.mutator.Idle?
      ensures total <= 0 || id !in old(requests) ==> state == old(state)
      ensures total > 0 && id in old(requests) ==>
        var was := old(requests)[id];
        var entry := was.entry.(respBytes := was.entry.respBytes + total);
        var now := due && !was.armed;
        && requests == old(requests)[id := Tracked(entry, !now)]
        && if now then Sent(old(state), state, Upsert(id, entry)) else state == old(state).(requests := requests)
    {
      Did(Mutate(BytesAdded(id, total, due)));
      if total <= 0 || id !in requests {
        return;
      }
      var was := requests[id];
      var entry := was.entry.(respBytes := was.entry.respBytes + total);
      requests := requests[id := was.(entry := entry)];
      if due && !was.armed {
        EnqueueLocked(Upsert(id, entry));
        return;
      }
      if !was.armed {
        requests := requests[id := requests[id].(armed := true)];
      }
    }

    method EmitPending(id: Id)
      requires Valid() && state.mutator.Idle?
      modifies this
      ensures Valid() && state.mutator.Idle? && requests.Keys == old(requests.Keys)
      ensures
        if id in old(requests) then
          var entry := old(requests)[id].entry;
          && requests == old(requests)[id := Tracked(entry, false)]
          && Sent(old(state), state, Upsert(id, entry))
        else state == old(state)
    {
      Did(Mutate(TimerFired(id)));
      if id in requests {
        requests := requests[id := requests[id].(armed := false)];
        EnqueueLocked(Upsert(id, requests[id].entry));
      }
    }

    method EnqueueLocked(update: Update)
      requires Valid() && state.mutator == Sending(update)
      modifies this`updates, this`needsSnapshot, this`publisherRunning, this`trace, this`state
      ensures Valid()
      ensures state == Enqueued(size, old(state), update)
    {
      if |updates| < size {
        updates := updates + [update];
        Did(TrySend);
      } else {
        Did(TrySend);
        needsSnapshot := true;
        Did(SetFlag);
      }
      if !publisherRunning {
        publisherRunning := true;
      }
      Did(StartPublisher);
    }

    // -------------------------------------------------------------- publishing

    /** A moment in which a publisher holds no lock: the next calls of other goroutines
        happen. */
    method Gap(others: seq<seq<Call>>) returns (rest: seq<seq<Call>>)
      requires Valid() && state.mutator.Idle?
      modifies this
      ensures Valid() && state.mutator.Idle? && Beside(old(state), state)
      ensures if others == [] then rest == [] && state == old(state) else rest == others[1..]
    {
      if others == [] {
        return [];
      }
      for i := 0 to |others[0]|
        invariant Valid() && state.mutator.Idle? && Beside(old(state), state)
      {
        match others[0][i] {
          case Adding(details) => var _ := Add(details);
          case Removing(id) => Remove(id);
          case SettingHeaders(id, headers) => SetResponseHeaders(id, headers);
          case AddingBytes(id, total, due) => AddResponseBytes(id, total, due);
          case Emitting(id) => EmitPending(id);
        }
      }
      return others[1..];
    }

    /** One publisher from its start to its return, beside any calls of other goroutines
        between its own atomic actions: when it returns nothing is left behind, since the
        outbox is empty or another publisher runs; and if none does and no snapshot is
        due, the reader has exactly the tracker's requests. Undisturbed, it brings a
        snapshot that is due if there was anything in the outbox, and publishes nothing
        otherwise. */
    method PublishUpdates(others: seq<seq<Call>>) returns (rest: seq<seq<Call>>)
      requires Valid() && state.owner.Selecting? && state.mutator.Idle?
      modifies this
      ensures Valid() && state.mutator.Idle?
      ensures state.leaving == old(state.leaving) && state.reclaiming == old(state.reclaiming)
      ensures updates == [] || publisherRunning
      ensures !publisherRunning && !needsSnapshot ==> Converged(state)
      ensures others == [] ==> !publisherRunning && needsSnapshot == (old(updates) == [] && old(needsSnapshot))
      ensures others == [] && old(updates) == [] ==> state.published == old(state.published)
    {
      ghost var before := state;
      rest := others;
      var at := true;
      while at
        invariant Valid() && state.mutator.Idle? && |rest| <= |others|
        invariant state.leaving == before.leaving && state.reclaiming == before.reclaiming
        invariant at ==> state.owner.Selecting?
        invariant !at ==> updates == [] || publisherRunning
        invariant others == [] && at ==> if before.outbox == [] then state == before else updates == before.outbox || !needsSnapshot
        invariant others == [] && !at ==>
          && !publisherRunning && needsSnapshot == (before.outbox == [] && before.needsSnapshot)
          && (before.outbox == [] ==> state.published == before.published)
        decreases at, |rest|, |updates|
      {
        if |updates| > 0 {
          rest := PublishFirst(rest);
        } else {
          at, rest := Leave(rest);
        }
      }
      if !publisherRunning {
        if !needsSnapshot {
          SettledReaderConverged(size, trace);
        }
      }
    }

    /** Publishes the first queued update, then whatever recovery is due. */
    method PublishFirst(others: seq<seq<Call>>) returns (rest: seq<seq<Call>>)
      requires Valid() && state.owner.Selecting? && state.mutator.Idle? && updates != []
      modifies this
      ensures Valid() && state.owner.Selecting? && state.mutator.Idle?
      ensures state.leaving == old(state.leaving) && state.reclaiming == old(state.reclaiming)
      ensures |rest| < |others| || (rest == others == [] && |updates| < |old(updates)| && !needsSnapshot)
    {
      updates := updates[1..];
      Did(Receive);
      rest := Gap(others);
      Did(Publish);
      rest := PublishRecoverySnapshots(rest);
    }

    /** The outbox was found empty: the publisher gives up the running flag and looks
        again; `again` when it found work and took the flag back. */
    method Leave(others: seq<seq<Call>>) returns (again: bool, rest: seq<seq<Call>>)
      requires Valid() && state.owner.Selecting? && state.mutator.Idle? && updates == []
      modifies this
      ensures Valid() && state.mutator.Idle?
      ensures state.leaving == old(state.leaving) && state.reclaiming == old(state.reclaiming)
      ensures if again then state.owner.Selecting? && |rest| < |others| else updates == [] || publisherRunning
      ensures |rest| <= |others|
      ensures others == [] ==> !again && state == old(state).(running := false, owner := NoOwner)
    {
      Did(Receive);
      rest := Gap(others);
      publisherRunning := false;
      Did(ClearRunning);
      rest := Gap(rest);
      if |updates| == 0 {
        Did(LookAgain);
        return false, rest;
      }
      again, rest := Reclaim(rest);
    }

    /** Work came in after all; whoever takes the running flag sees to it. */
    method Reclaim(others: seq<seq<Call>>) returns (again: bool, rest: seq<seq<Call>>)
      requires Valid() && state.mutator.Idle? && state.leaving > 0 && updates != []
      modifies this
      ensures Valid() && state.mutator.Idle? && publisherRunning && (again ==> state.owner.Selecting?)
      ensures state.leaving == old(state.leaving) - 1 && state.reclaiming == old(state.reclaiming)
      ensures |rest| <= |others|
    {
      Did(LookAgain);
      rest := Gap(others);
      again := !publisherRunning;
      publisherRunning := true;
      Did(Step.Reclaim);
    }

    method PublishRecoverySnapshots(others: seq<seq<Call>>) returns (rest: seq<seq<Call>>)
      requires Valid() && state.owner.Recovering? && state.mutator.Idle?
      modifies this
      ensures Valid() && state.owner.Selecting? && state.mutator.Idle?
      ensures state.leaving == old(state.leaving) && state.reclaiming == old(state.reclaiming)
      ensures |rest| < |others| || (rest == others == [] && |updates| <= |old(updates)| && !needsSnapshot)
    {
      rest := Gap(others);
      while needsSnapshot
        invariant Valid() && state.owner.Recovering? && state.mutator.Idle? && |rest| <= |others|
        invariant state.leaving == old(state.leaving) && state.reclaiming == old(state.reclaiming)
        invariant if others == [] then rest == [] && |updates| <= |old(updates)| else |rest| < |others|
        decreases |rest|, needsSnapshot
      {
        needsSnapshot := false;
        Did(TestFlag);
        rest := DiscardQueuedUpdates(rest);
        var entries := CurrentEntries();
        Did(TakeSnapshot);
        assert state.owner == Publishing(Snapshot(entries));
        rest := Gap(rest);
        Did(Publish);
      }
      Did(TestFlag);
    }

    /** Empties the outbox, of what came in meanwhile as well. */
    method DiscardQueuedUpdates(others: seq<seq<Call>>) returns (rest: seq<seq<Call>>)
      requires Valid() && state.owner.Discarding? && state.mutator.Idle?
      modifies this
      ensures Valid() && updates == [] && state.owner.Snapshotting? && state.mutator.Idle?
      ensures state.leaving == old(state.leaving) && state.reclaiming == old(state.reclaiming)
      ensures state.published == old(state.published) && |rest| <= |others|
      ensures others == [] ==> rest == [] && state == old(state).(outbox := [], owner := Snapshotting)
    {
      rest := others;
      while |updates| > 0
        invariant Valid() && state.owner.Discarding? && state.mutator.Idle? && |rest| <= |others|
        invariant state.leaving == old(state.leaving) && state.reclaiming == old(state.reclaiming)
        invariant state.published == old(state.published)
        invariant others == [] ==> rest == [] && state == old(state).(outbox := updates)
        decreases |rest|, |updates|
      {
        updates := updates[1..];
        Did(DiscardOne);
        rest := Gap(rest);
      }
      Did(DiscardOne);
    }

    /** A copy of the tracked entries. */
    method CurrentEntries() returns (entries: map<Id, Entry>)
      ensures entries == Current(requests)
    {
      entries := map[];
      var left := requests.Keys;
      while left != {}
        invariant left <= requests.Keys && entries == Current(requests - left)
        decreases |left|
      {
        var id :| id in left;
        left := left - {id};
        entries := entries[id := requests[id].entry];
      }
      assert requests - left == requests;
    }
  }

  /** What sending an update does once the lock holder reached the outbox: it is
      queued if there is room and otherwise the flag goes up; either way a publisher
      runs afterwards. */
  ghost function Enqueued(size: nat, s: State, u: Update): State
  {
    var t := if |s.outbox| < size then s.(outbox := s.outbox + [u]) else s.(needsSnapshot := true);
    t.(mutator := Idle, running := true, owner := if s.running then s.owner else Selecting)
  }

  /** The update went out, or a snapshot is due in its place, and a publisher runs. */
  ghost predicate Sent(before: State, after: State, u: Update)
  {
    && (after.outbox == before.outbox + [u] || (after.outbox == before.outbox && after.needsSnapshot))
    && after.running && Beside(before, after)
  }

  /** A publisher at work goes on as it was; nothing is taken back. */
  ghost predicate Beside(before: State, after: State)
  {
    && (before.owner != NoOwner ==> after.owner == before.owner) && (before.running ==> after.running)
    && after.leaving == before.leaving && after.reclaiming == before.reclaiming
    && after.published == before.published && before.outbox <= after.outbox
    && (before.needsSnapshot ==> after.needsSnapshot)
  }
}
