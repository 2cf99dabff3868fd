/** The outbox as it runs: the tables as committed, updated in place. */
module OutboxService {
  import opened Common
  import opened Outbox
  import opened OutboxEffects

  /** What a query with a limit returns, in some order: candidates only, none twice, and all of them if
      the limit allows. */
  ghost predicate Picks<T>(batch: seq<T>, candidates: set<T>, limit: nat) {
    && (forall i, j | 0 <= i < j < |batch| :: batch[i] != batch[j])
    && (forall x | x in batch :: x in candidates)
    && |batch| <= limit
    && (|batch| < limit ==> forall x | x in candidates :: x in batch)
  }

  method PickUpTo<T(==)>(candidates: set<T>, limit: nat) returns (batch: seq<T>)
    ensures Picks(batch, candidates, limit)
  {
    batch := [];
    var left := candidates;
    while left != {} && |batch| < limit
      invariant forall x | x in candidates :: x in left || x in batch
      invariant forall x | x in batch :: x in candidates && x !in left
      invariant forall i, j | 0 <= i < j < |batch| :: batch[i] != batch[j]
      invariant left <= candidates && |batch| <= limit
      decreases |left|
    {
      var x :| x in left;
      batch := batch + [x];
      left := left - {x};
    }
  }

  class OutboxTables {
    const registry: Registry
    var events: map<nat, Event>
    var deliveries: map<Key, Delivery>
    var processed: set<Key>
    ghost var effects: seq<Key>

    constructor (registry: Registry)
      ensures this.registry == registry && State() == Tables(map[], map[], {}, [])
    {
      this.registry := registry;
      events, deliveries, processed, effects := map[], map[], {}, [];
    }

    ghost function State(): Tables
      reads this
    {
      Tables(events, deliveries, processed, effects)
    }

    method ConsumersOf(kind: string) returns (names: seq<string>)
      ensures names == ForEvent(registry, kind)
    {
      names := [];
      var i := 0;
      while i < |registry.names|
        invariant 0 <= i <= |registry.names|
        invariant names == Matching(registry.names[..i], registry.matches, kind)
      {
        assert registry.names[..i + 1][..i] == registry.names[..i];
        if registry.matches(registry.names[i], kind) {
          names := names + [registry.names[i]];
        }
        i := i + 1;
      }
      assert registry.names[..i] == registry.names;
    }

    /** One leased delivery per consumer of the event. */
    method MakeDeliveries(e: nat, names: seq<string>, until: int) returns (made: seq<Key>)
      modifies this`deliveries
      ensures State() == old(State()).(deliveries := WithDeliveries(old(deliveries), e, names, until))
      ensures made == KeysOf(e, names)
    {
      made := [];
      var i := 0;
      while i < |names|
        invariant 0 <= i <= |names|
        invariant deliveries == WithDeliveries(old(deliveries), e, names[..i], until)
        invariant made == KeysOf(e, names[..i])
      {
        assert names[..i + 1][..i] == names[..i];
        deliveries := deliveries[(e, names[i]) := LeasedUntil(until)];
        made := made + [(e, names[i])];
        i := i + 1;
      }
      assert names[..i] == names;
    }

    method RelayEvent(e: nat, now: int) returns (made: seq<Key>)
      requires e in events
      modifies this`events, this`deliveries
      ensures State() == RelayOne(registry, old(State()), e, now)
      ensures made == KeysOf(e, ForEvent(registry, old(events)[e].kind))
    {
      var names := ConsumersOf(events[e].kind);
      if names == [] {
        events := events[e := events[e].(status := Done)];
        return [];
      }
      made := MakeDeliveries(e, names, now + LEASE);
      events := events[e := events[e].(status := Dispatched, attempts := events[e].attempts + 1)];
    }

    method RelayBatch(batch: seq<nat>, now: int) returns (toDispatch: seq<Key>)
      requires forall e | e in batch :: e in events
      modifies this`events, this`deliveries
      ensures State() == RelayAll(registry, old(State()), batch, now)
      ensures toDispatch == ToDispatch(registry, old(State()), batch)
    {
      toDispatch := [];
      ghost var before := State();
      var i := 0;
      while i < |batch|
        invariant 0 <= i <= |batch|
        invariant State() == RelayAll(registry, before, batch[..i], now)
        invariant toDispatch == ToDispatch(registry, before, batch[..i])
      {
        assert batch[i] in batch && batch[..i + 1][..i] == batch[..i];
        RelayKeepsKinds(registry, before, batch[..i], now);
        var made := RelayEvent(batch[i], now);
        toDispatch := toDispatch + made;
        i := i + 1;
      }
      assert batch[..i] == batch;
    }

    /** Relays the pending events that are due and that no other relay holds, up to the limit, and tells
        what to dispatch. */
    method RelayPending(now: int, limit: nat, held: set<nat>) returns (toDispatch: seq<Key>, ghost batch: seq<nat>)
      modifies this`events, this`deliveries
      ensures Picks(batch, ToRelay(old(State()), now, held), limit)
      ensures forall e | e in batch :: e in old(events)
      ensures State() == RelayAll(registry, old(State()), batch, now)
      ensures Relayed(registry, old(State()), State(), batch, now)
      ensures forall k :: k in toDispatch <==> ToMake(registry, old(State()), batch, k)
    {
      var due := set e | e in events && events[e].status.Pending?
        && (events[e].due.None? || events[e].due.value <= now) && e !in held;
      var picked := PickUpTo(due, limit);
      batch := picked;
      assert due == ToRelay(State(), now, held);
      AllAreRelayed(registry, State(), picked, now);
      forall k ensures k in ToDispatch(registry, State(), picked) <==> ToMake(registry, State(), picked, k) {
        WhatIsDispatched(registry, State(), picked, k);
      }
      toDispatch := RelayBatch(picked, now);
    }

    method GetOrCreateDelivery(k: Key, now: int) returns (d: Delivery)
      modifies this`deliveries
      ensures d == DeliveryOf(old(State()), k, now)
      ensures State() == old(State()).(deliveries := old(deliveries)[k := d])
    {
      if k !in deliveries {
        deliveries := deliveries[k := NewDelivery(now)];
      }
      d := deliveries[k];
      assert deliveries == old(deliveries)[k := d];
    }

    method Succeed(k: Key, now: int)
      modifies this`deliveries, this`processed, this`effects
      ensures State() == Kept(old(State()), k, now)
    {
      processed := processed + {k};
      effects := effects + [k];
      var d := GetOrCreateDelivery(k, now);
      deliveries := deliveries[k := d.(status := Finished, processedAt := Some(now), attempts := d.attempts + 1)];
      assert deliveries == old(deliveries)[k := deliveries[k]];
    }

    method Fail(k: Key, now: int) returns (status: DeliveryStatus)
      requires k.0 in events
      modifies this`deliveries, this`events
      ensures State() == Failure(old(State()), k, now)
      ensures FailedAs(old(State()), State(), k, now)
      ensures status == State().deliveries[k].status
    {
      var d := GetOrCreateDelivery(k, now);
      var n := d.attempts + 1;
      if n >= MAX_ATTEMPTS {
        deliveries := deliveries[k := d.(attempts := n, status := Dead, due := None)];
        events := events[k.0 := events[k.0].(status := Failed)];
      } else {
        deliveries := deliveries[k := d.(attempts := n, due := Some(now + BackoffAfter(n)))];
      }
      assert deliveries == old(deliveries)[k := deliveries[k]];
      status := deliveries[k].status;
    }

    /** Whether a consumer goes to work on an event, and the status the event had then. It looks once,
        before the handler runs. */
    method Begin(k: Key) returns (reply: Option<Reply>, seen: OutboxStatus)
      ensures reply == Some(Missing) <==> k.0 !in events || k.1 !in registry.names
      ensures reply == Some(Duplicate) <==> k.0 in events && k.1 in registry.names && k in processed
      ensures reply.None? <==> k.0 in events && k.1 in registry.names && k !in processed
      ensures reply.None? ==> seen == events[k.0].status
    {
      if k.1 !in registry.names || k.0 !in events {
        return Some(Missing), Pending;
      }
      if k in processed {
        return Some(Duplicate), Pending;
      }
      return None, events[k.0].status;
    }

    /** The handler returned: unless the processed mark exists by now, the run writes its rows, still
        uncommitted, and counts what is left of the event. */
    method Write(k: Key, seen: OutboxStatus, now: int) returns (reply: Option<Reply>, settles: bool)
      ensures reply == (if k in processed then Some(Duplicate) else None)
      ensures settles == (k !in processed && Settles(State(), k, seen, now))
      ensures settles <==> k !in processed && OthersFinished(State(), k) && !seen.Failed? && !seen.Done?
    {
      if k in processed {      // the mark is a primary key: nothing of this run is kept
        return Some(Duplicate), false;
      }
      var pending := set j | j in deliveries && j.0 == k.0 && j != k && !deliveries[j].status.Finished?;
      settles := pending == {} && !seen.Failed? && !seen.Done?;
      reply := None;
      CountedBeforeCommit(State(), k, now, pending);
      assert OthersFinished(State(), k) <==> pending == {} by {
        assert forall j | j in deliveries && j.0 == k.0 && j != k :: j in pending <==> !deliveries[j].status.Finished?;
      }
    }

    /** And the run commits: its rows, and the event when it counted it as done. */
    method Commit(k: Key, settles: bool, now: int)
      requires k.0 in events
      modifies this`events, this`deliveries, this`processed, this`effects
      ensures State() == Committed(old(State()), k, settles, now)
      ensures CommittedAs(old(State()), State(), k, settles, now)
    {
      Succeed(k, now);
      if settles {
        events := events[k.0 := events[k.0].(status := Done)];
      }
    }

    method ClaimBatch(batch: seq<Key>, now: int)
      requires forall k | k in batch :: k in deliveries
      modifies this`deliveries
      ensures State() == ClaimAll(old(State()), batch, now)
    {
      var i := 0;
      while i < |batch|
        invariant 0 <= i <= |batch|
        invariant State() == ClaimAll(old(State()), batch[..i], now)
      {
        assert batch[i] in batch && batch[..i + 1][..i] == batch[..i];
        deliveries := deliveries[batch[i] := deliveries[batch[i]].(due := Some(now + LEASE))];
        i := i + 1;
      }
      assert batch[..i] == batch;
    }

    /** Claims the deliveries that are due and that no other claim holds, up to the limit. */
    method ClaimDueDeliveries(now: int, limit: nat, held: set<Key>) returns (toDispatch: seq<Key>)
      modifies this`deliveries
      ensures Picks(toDispatch, ToClaim(old(State()), now, held), limit)
      ensures forall k | k in toDispatch :: k in old(deliveries)
      ensures State() == ClaimAll(old(State()), toDispatch, now)
      ensures ClaimedAs(old(State()), State(), toDispatch, now)
    {
      var due := set k | k in deliveries && deliveries[k].status.Waiting?
        && deliveries[k].due.Some? && deliveries[k].due.value <= now && k !in held;
      toDispatch := PickUpTo(due, limit);
      assert due == ToClaim(State(), now, held);
      AllAreClaimed(State(), toDispatch, now);
      ClaimBatch(toDispatch, now);
    }

    /** An operator puts the failed deliveries of one event back, and is told how many there were. */
    method Retry(e: nat, now: int) returns (restarted: nat)
      modifies this`deliveries, this`events
      ensures State() == RetryFailed(old(State()), e, now)
      ensures RetriedAs(old(State()), State(), e, now) && restarted == |GivenUp(old(State()), e)|
    {
      var failed := set k | k in deliveries && k.0 == e && deliveries[k].status.Dead?;
      assert failed == GivenUp(State(), e);
      restarted := |failed|;
      deliveries := map k | k in deliveries ::
        if k.0 == e && deliveries[k].status.Dead? then Revived(deliveries[k], now) else deliveries[k];
      if e in events {
        events := events[e := events[e].(status := Dispatched)];
      }
    }
  }

  /** Counting the others is counting all, its own delivery being done. */
  lemma CountedBeforeCommit(t: Tables, k: Key, now: int, pending: set<Key>)
    requires pending == set j | j in t.deliveries && j.0 == k.0 && j != k && !t.deliveries[j].status.Finished?
    ensures pending == {} <==> AllFinished(Kept(t, k, now), k.0)
  {
    var kept := Kept(t, k, now);
    if pending == {} {
      forall j | j in kept.deliveries && j.0 == k.0 ensures kept.deliveries[j].status.Finished? {
        assert j !in pending;
      }
    } else {
      var j :| j in pending;
      assert j in kept.deliveries && !kept.deliveries[j].status.Finished?;
    }
  }

  lemma {:induction false} RelayKeepsKinds(r: Registry, t: Tables, batch: seq<nat>, now: int)
    requires forall e | e in batch :: e in t.events
    ensures forall e | e in t.events :: RelayAll(r, t, batch, now).events[e].kind == t.events[e].kind
  {
    if batch != [] {
      RelayKeepsKinds(r, t, batch[..|batch| - 1], now);
      assert batch[|batch| - 1] in batch;
    }
  }
}
