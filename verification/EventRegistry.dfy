/** The dispatcher's copy-on-write registry: sorted arrays of event types and their
    groups. Writers build new arrays and store them in one step; a reader may go on
    searching the arrays it loaded, which never change. */
module EventRegistry {
  import opened EventGroup

  type Key = k: int | 0 <= k < 0x1_0000_0000

  /** An immutable pair of parallel arrays. */
  class Registry<T> {
    const keys: array<Key>
    const grps: array<Group<T>>

    constructor (keys: array<Key>, grps: array<Group<T>>)
      ensures this.keys == keys && this.grps == grps
    {
      this.keys, this.grps := keys, grps;
    }

    ghost predicate Sorted()
      reads keys, grps
    {
      keys.Length == grps.Length && forall i, j :: 0 <= i < j < keys.Length ==> keys[i] < keys[j]
    }

    /** The type's group is `g`. */
    ghost predicate Holds(eventType: Key, g: Group<T>)
      requires Sorted()
      reads keys, grps
    {
      exists i :: 0 <= i < keys.Length && keys[i] == eventType && grps[i] == g
    }

    /** Binary search, without a lock: finds a group iff the type was subscribed. */
    method Find(eventType: Key) returns (g: Group?<T>)
      requires Sorted()
      ensures g != null <==> eventType in keys[..]
      ensures g != null ==> Holds(eventType, g)
    {
      var left, right := 0, keys.Length;
      while left < right
        invariant 0 <= left <= right <= keys.Length
        invariant forall i :: 0 <= i < left ==> keys[i] < eventType
        invariant forall i :: right <= i < keys.Length ==> keys[i] >= eventType
      {
        var mid := left + (right - left) / 2;
        if keys[mid] < eventType {
          left := mid + 1;
        } else {
          right := mid;
        }
      }
      if left < keys.Length && keys[left] == eventType {
        return grps[left];
      }
      return null;
    }

    /** The first place whose key is not smaller. */
    method Place(eventType: Key) returns (idx: nat)
      requires Sorted()
      ensures idx <= keys.Length
      ensures forall i :: 0 <= i < idx ==> keys[i] < eventType
      ensures forall i :: idx <= i < keys.Length ==> keys[i] >= eventType
    {
      var right := keys.Length;
      idx := 0;
      while idx < right
        invariant 0 <= idx <= right <= keys.Length
        invariant forall i :: 0 <= i < idx ==> keys[i] < eventType
        invariant forall i :: right <= i < keys.Length ==> keys[i] >= eventType
      {
        var mid := (idx + right) / 2;
        if keys[mid] >= eventType {
          right := mid;
        } else {
          idx := mid + 1;
        }
      }
    }
  }

  /** Copies an array into a longer one with `x` at `idx`. */
  method InsertCopy<A>(source: array<A>, idx: nat, x: A) returns (longer: array<A>)
    requires idx <= source.Length
    ensures fresh(longer) && longer[..] == source[..idx] + [x] + source[idx..]
  {
    longer := new A[source.Length + 1](_ => x);
    for i := 0 to idx
      invariant source[..] == old(source[..]) && longer[idx] == x
      invariant forall k :: 0 <= k < i ==> longer[k] == source[k]
    {
      longer[i] := source[i];
    }
    for i := idx to source.Length
      invariant source[..] == old(source[..]) && longer[idx] == x
      invariant forall k :: 0 <= k < idx ==> longer[k] == source[k]
      invariant forall k :: idx <= k < i ==> longer[k + 1] == source[k]
    {
      longer[i + 1] := source[i];
    }
    forall k | 0 <= k < longer.Length
      ensures longer[..][k] == (source[..idx] + [x] + source[idx..])[k]
    {
      if k > idx {
        assert longer[(k - 1) + 1] == source[k - 1];
      }
    }
  }

  /** A group listed for a type, as plain sequences. */
  ghost predicate Lists<G>(keys: seq<Key>, grps: seq<G>, k: Key, g: G)
  {
    |keys| == |grps| && exists i :: 0 <= i < |keys| && keys[i] == k && grps[i] == g
  }

  ghost predicate Ascending(keys: seq<Key>)
  {
    forall i, j :: 0 <= i < j < |keys| ==> keys[i] < keys[j]
  }

  /** What one subscription leaves of the registry: the type is there, no other type
      came or went, and the others keep their groups. */
  ghost predicate Extends<G>(keys: seq<Key>, grps: seq<G>, newKeys: seq<Key>, newGrps: seq<G>, eventType: Key, g: G)
  {
    && |keys| == |grps| && Lists(newKeys, newGrps, eventType, g)
    && (forall k :: k in newKeys <==> k in keys || k == eventType)
    && forall i :: 0 <= i < |keys| && keys[i] != eventType ==> Lists(newKeys, newGrps, keys[i], grps[i])
  }

  /** Inserting at the sorted place keeps the keys strictly sorted and the rest in step. */
  lemma InsertExtends<G>(keys: seq<Key>, grps: seq<G>, newKeys: seq<Key>, newGrps: seq<G>, idx: nat, eventType: Key, g: G)
    requires |keys| == |grps| && Ascending(keys) && idx <= |keys| && eventType !in keys
    requires forall i :: 0 <= i < idx ==> keys[i] < eventType
    requires forall i :: idx <= i < |keys| ==> keys[i] >= eventType
    requires newKeys == keys[..idx] + [eventType] + keys[idx..] && newGrps == grps[..idx] + [g] + grps[idx..]
    ensures Ascending(newKeys) && |newKeys| == |newGrps| && Extends(keys, grps, newKeys, newGrps, eventType, g)
  {
    assert newKeys[idx] == eventType && newGrps[idx] == g;
    assert keys == keys[..idx] + keys[idx..];
    forall i | 0 <= i < |keys|
      ensures Lists(newKeys, newGrps, keys[i], grps[i])
      ensures i >= idx ==> keys[i] > eventType
    {
      var at := if i < idx then i else i + 1;
      assert newKeys[at] == keys[i] && newGrps[at] == grps[i];
      assert keys[i] in keys;
    }
  }

  class Dispatcher<T> {
    const maxQueue: nat
    var subs: Registry<T>
    /** Every type ever subscribed to. */
    ghost var subscribed: set<Key>

    ghost predicate Valid()
      reads this, subs, subs.keys, subs.grps
    {
      subs.Sorted() && forall k :: k in subs.keys[..] <==> k in subscribed
    }

    constructor (maxQueue: nat)
      ensures Valid() && fresh(subs) && this.maxQueue == maxQueue && subscribed == {}
    {
      this.maxQueue := maxQueue;
      subscribed := {};
      var keys := new Key[0];
      var grps := new Group<T>[0];
      subs := new Registry(keys, grps);
    }

    /** Adds a consumer to the type's group, creating the group at its sorted place if
        there is none. Arrays already published are left as they are: only the groups'
        own state and the reference to the registry may change. */
    method SubscribeTo(eventType: Key) returns (g: Group<T>, id: nat)
      requires Valid() && forall i :: 0 <= i < subs.grps.Length ==> subs.grps[i].Valid()
      modifies this, subs.grps[..]
      ensures Valid() && subscribed == old(subscribed) + {eventType}
      ensures Extends(old(subs.keys[..]), old(subs.grps[..]), subs.keys[..], subs.grps[..], eventType, g)
      ensures subs == old(subs) || fresh(subs)
      ensures old(subs).keys[..] == old(subs.keys[..]) && old(subs).grps[..] == old(subs.grps[..])
      ensures g.Valid() && id < |g.consumers| && id in g.subs && g.consumers[id].queue == []
    {
      var existing := FindGroup(eventType);
      subscribed := subscribed + {eventType};
      if existing != null {
        g := existing;
        id := g.NewConsumer();
        return;
      }
      g := new Group<T>(maxQueue);
      id := g.NewConsumer();
      subs := WithGroup(subs, eventType, g);
    }

    /** A new registry with the group at its sorted place. */
    method WithGroup(reg: Registry<T>, eventType: Key, g: Group<T>) returns (longer: Registry<T>)
      requires reg.Sorted() && eventType !in reg.keys[..]
      ensures fresh(longer) && fresh(longer.keys) && fresh(longer.grps) && longer.Sorted()
      ensures Extends(reg.keys[..], reg.grps[..], longer.keys[..], longer.grps[..], eventType, g)
    {
      var idx := reg.Place(eventType);
      var newKeys := InsertCopy(reg.keys, idx, eventType);
      var newGrps := InsertCopy(reg.grps, idx, g);
      InsertExtends(reg.keys[..], reg.grps[..], newKeys[..], newGrps[..], idx, eventType, g);
      assert forall i :: 0 <= i < newKeys.Length ==> newKeys[i] == newKeys[..][i];
      longer := new Registry(newKeys, newGrps);
    }

    /** A reader finds a group iff the type was ever subscribed to. */
    method FindGroup(eventType: Key) returns (g: Group?<T>)
      requires Valid()
      ensures g != null <==> eventType in subscribed
      ensures g != null ==> subs.Holds(eventType, g)
    {
      g := subs.Find(eventType);
    }

    /** Sends an event to the type's consumers, or nowhere if it was never subscribed. */
    method Publish(eventType: Key, event: T) returns (sent: bool)
      requires Valid() && forall i :: 0 <= i < subs.grps.Length ==> subs.grps[i].Valid()
      modifies subs.grps[..]
      ensures eventType !in subscribed ==> sent && forall i :: 0 <= i < subs.grps.Length ==> unchanged(subs.grps[i])
      ensures forall i :: 0 <= i < subs.keys.Length && subs.keys[i] == eventType && sent ==>
        subs.grps[i].Valid() && subs.grps[i].log == old(subs.grps[i].log) + [event]
    {
      var g := FindGroup(eventType);
      if g == null {
        return true;
      }
      sent := g.TryBroadcast(event);
    }
  }
}
