/** The outbox tables and what each transaction does to them: relaying events into one delivery per
    consumer, running a delivery, claiming what is due, and putting dead deliveries back. */
module Outbox {
  import opened Common

  datatype OutboxStatus = Pending | Dispatched | Done | Failed

  /** pending, done and failed in the deliveries table. */
  datatype DeliveryStatus = Waiting | Finished | Dead

  datatype Event = Event(kind: string, status: OutboxStatus, attempts: nat, due: Option<int>)
  datatype Delivery = Delivery(status: DeliveryStatus, attempts: nat, due: Option<int>, processedAt: Option<int>)

  /** An event and a consumer of it. */
  type Key = (nat, string)

  /** `effects` is what the handlers' own committed writes amount to: one entry per handler run that
      was kept. */
  datatype Tables = Tables(
    events: map<nat, Event>,
    deliveries: map<Key, Delivery>,
    processed: set<Key>,
    effects: seq<Key>)

  /** The consumers in registration order, and which event types each of them takes. */
  datatype Registry = Registry(names: seq<string>, matches: (string, string) -> bool)

  // Times are in seconds.
  const MAX_ATTEMPTS := 8
  const BACKOFF: seq<int> := [30, 60, 300, 900, 1800, 3600, 7200, 14400]
  const LEASE := 300

  function BackoffAfter(attempts: nat): int
    requires 0 < attempts
  {
    BACKOFF[Min(attempts - 1, |BACKOFF| - 1)]
  }

  function Matching(names: seq<string>, matches: (string, string) -> bool, kind: string): seq<string> {
    if names == [] then []
    else
      var before := Matching(names[..|names| - 1], matches, kind);
      if matches(names[|names| - 1], kind) then before + [names[|names| - 1]] else before
  }

  function ForEvent(r: Registry, kind: string): seq<string> {
    Matching(r.names, r.matches, kind)
  }

  // ---------------------------------------------------------------- relaying

  predicate DueEvent(t: Tables, e: nat, now: int) {
    e in t.events && t.events[e].status.Pending? && (t.events[e].due.None? || t.events[e].due.value <= now)
  }

  function LeasedUntil(until: int): Delivery {
    Delivery(Waiting, 0, Some(until), None)
  }

  function WithDeliveries(deliveries: map<Key, Delivery>, e: nat, names: seq<string>, until: int): map<Key, Delivery> {
    if names == [] then deliveries
    else WithDeliveries(deliveries, e, names[..|names| - 1], until)[(e, names[|names| - 1]) := LeasedUntil(until)]
  }

  function RelayOne(r: Registry, t: Tables, e: nat, now: int): Tables
    requires e in t.events
  {
    var event := t.events[e];
    var names := ForEvent(r, event.kind);
    if names == [] then t.(events := t.events[e := event.(status := Done)])
    else t.(events := t.events[e := event.(status := Dispatched, attempts := event.attempts + 1)],
            deliveries := WithDeliveries(t.deliveries, e, names, now + LEASE))
  }

  function RelayAll(r: Registry, t: Tables, batch: seq<nat>, now: int): (t': Tables)
    requires forall e | e in batch :: e in t.events
    ensures t'.events.Keys == t.events.Keys
  {
    if batch == [] then t
    else
      assert batch[|batch| - 1] in batch;
      RelayOne(r, RelayAll(r, t, batch[..|batch| - 1], now), batch[|batch| - 1], now)
  }

  /** One task per delivery made, in the order they are made. */
  function KeysOf(e: nat, names: seq<string>): seq<Key> {
    if names == [] then [] else KeysOf(e, names[..|names| - 1]) + [(e, names[|names| - 1])]
  }

  function ToDispatch(r: Registry, t: Tables, batch: seq<nat>): seq<Key>
    requires forall e | e in batch :: e in t.events
  {
    if batch == [] then []
    else
      assert batch[|batch| - 1] in batch;
      var e := batch[|batch| - 1];
      ToDispatch(r, t, batch[..|batch| - 1]) + KeysOf(e, ForEvent(r, t.events[e].kind))
  }

  // ---------------------------------------------------------------- delivering

  datatype Reply = Missing | Duplicate

  /** What a delivery that does not exist yet starts from. */
  function NewDelivery(now: int): Delivery {
    Delivery(Waiting, 0, Some(now), None)
  }

  function DeliveryOf(t: Tables, k: Key, now: int): Delivery {
    if k in t.deliveries then t.deliveries[k] else NewDelivery(now)
  }

  predicate AllFinished(t: Tables, e: nat) {
    forall k | k in t.deliveries && k.0 == e :: t.deliveries[k].status.Finished?
  }

  /** The handler's writes, the processed mark and the delivery, in one transaction. */
  function Kept(t: Tables, k: Key, now: int): Tables {
    var d := DeliveryOf(t, k, now);
    t.(deliveries := t.deliveries[k := d.(status := Finished, processedAt := Some(now), attempts := d.attempts + 1)],
       processed := t.processed + {k},
       effects := t.effects + [k])
  }

  /** Nothing of the handler is kept; the failure is counted in a transaction of its own. */
  function Failure(t: Tables, k: Key, now: int): Tables
    requires k.0 in t.events
  {
    var d := DeliveryOf(t, k, now);
    var n := d.attempts + 1;
    if n >= MAX_ATTEMPTS then
      t.(deliveries := t.deliveries[k := d.(attempts := n, status := Dead, due := None)],
         events := t.events[k.0 := t.events[k.0].(status := Failed)])
    else
      t.(deliveries := t.deliveries[k := d.(attempts := n, due := Some(now + BackoffAfter(n)))])
  }

  /** Whether a run marks the event done: it counts the deliveries before it commits, its own included,
      and goes by the event's status as it was when the run began. A status that reads done already is
      not written again. */
  function Settles(t: Tables, k: Key, seen: OutboxStatus, now: int): bool {
    AllFinished(Kept(t, k, now), k.0) && !seen.Failed? && !seen.Done?
  }

  function Committed(t: Tables, k: Key, settles: bool, now: int): Tables
    requires k.0 in t.events
  {
    var kept := Kept(t, k, now);
    if settles then kept.(events := t.events[k.0 := t.events[k.0].(status := Done)]) else kept
  }

  // ---------------------------------------------------------------- claiming and retrying

  predicate DueDelivery(t: Tables, k: Key, now: int) {
    && k in t.deliveries && t.deliveries[k].status.Waiting?
    && t.deliveries[k].due.Some? && t.deliveries[k].due.value <= now
  }

  function ClaimAll(t: Tables, batch: seq<Key>, now: int): (t': Tables)
    requires forall k | k in batch :: k in t.deliveries
    ensures t' == t.(deliveries := t'.deliveries) && t'.deliveries.Keys == t.deliveries.Keys
  {
    if batch == [] then t
    else
      var k := batch[|batch| - 1];
      assert k in batch;
      var s := ClaimAll(t, batch[..|batch| - 1], now);
      s.(deliveries := s.deliveries[k := s.deliveries[k].(due := Some(now + LEASE))])
  }

  function Revived(d: Delivery, now: int): Delivery {
    d.(status := Waiting, attempts := 0, due := Some(now))
  }

  function RetryFailed(t: Tables, e: nat, now: int): Tables {
    t.(deliveries := map k | k in t.deliveries ::
         if k.0 == e && t.deliveries[k].status.Dead? then Revived(t.deliveries[k], now) else t.deliveries[k],
       events := if e in t.events then t.events[e := t.events[e].(status := Dispatched)] else t.events)
  }

  // ---------------------------------------------------------------- facts about these functions

  lemma {:induction false} MatchingAre(names: seq<string>, matches: (string, string) -> bool, kind: string, c: string)
    ensures c in Matching(names, matches, kind) <==> c in names && matches(c, kind)
  {
    if names != [] {
      MatchingAre(names[..|names| - 1], matches, kind, c);
      assert names == names[..|names| - 1] + [names[|names| - 1]];
    }
  }

  lemma {:induction false} WithDeliveriesIs(deliveries: map<Key, Delivery>, e: nat, names: seq<string>, until: int)
    ensures var m := WithDeliveries(deliveries, e, names, until);
      && (forall k :: k in m <==> k in deliveries || (k.0 == e && k.1 in names))
      && (forall k | k in m :: m[k] == if k.0 == e && k.1 in names then LeasedUntil(until) else deliveries[k])
  {
    if names != [] {
      var last := |names| - 1;
      WithDeliveriesIs(deliveries, e, names[..last], until);
      assert names == names[..last] + [names[last]];
    }
  }

  lemma {:induction false} KeysOfAre(e: nat, names: seq<string>, k: Key)
    ensures k in KeysOf(e, names) <==> k.0 == e && k.1 in names
  {
    if names != [] {
      KeysOfAre(e, names[..|names| - 1], k);
      assert names == names[..|names| - 1] + [names[|names| - 1]];
    }
  }

  lemma {:induction false} ClaimAllIs(t: Tables, batch: seq<Key>, now: int, k: Key)
    requires (forall b | b in batch :: b in t.deliveries) && k in t.deliveries
    ensures ClaimAll(t, batch, now).deliveries[k]
         == if k in batch then t.deliveries[k].(due := Some(now + LEASE)) else t.deliveries[k]
  {
    if batch != [] {
      ClaimAllIs(t, batch[..|batch| - 1], now, k);
      assert batch == batch[..|batch| - 1] + [batch[|batch| - 1]];
    }
  }

  /** The wait after a failed attempt that leaves another: at most two hours. The last entry of the
      table is never reached. */
  lemma BackoffIsBounded(attempts: nat)
    requires 0 < attempts < MAX_ATTEMPTS
    ensures 30 <= BackoffAfter(attempts) <= 7200
  {
    assert BACKOFF[attempts - 1] in [30, 60, 300, 900, 1800, 3600, 7200];
  }

  /** A claimed delivery is out of everyone's reach until its lease ends. */
  lemma ClaimsDoNotOverlap(t: Tables, batch: seq<Key>, now: int, k: Key, later: int)
    requires (forall b | b in batch :: b in t.deliveries && DueDelivery(t, b, now)) && k in batch
    ensures DueDelivery(ClaimAll(t, batch, now), k, later) <==> now + LEASE <= later
  {
    ClaimAllIs(t, batch, now, k);
  }
}
