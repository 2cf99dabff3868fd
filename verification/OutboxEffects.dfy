/** What each transaction writes on the outbox, told on the rows: `s` before, `t` after; and that the steps of
    a run write nothing else. */
module OutboxEffects {
  import opened Common
  import opened Outbox
  import opened OutboxRuns

  predicate Takes(r: Registry, c: string, kind: string) {
    c in r.names && r.matches(c, kind)
  }

  ghost predicate Wanted(r: Registry, kind: string) {
    exists c :: Takes(r, c, kind)
  }

  /** Only these deliveries changed, and no other event did. */
  ghost predicate OthersStay(s: Tables, t: Tables, k: Key) {
    && (forall j :: j in t.deliveries <==> j in s.deliveries || j == k)
    && (forall j | j in s.deliveries && j != k :: t.deliveries[j] == s.deliveries[j])
    && (forall e :: e in t.events <==> e in s.events)
    && (forall e | e in s.events && e != k.0 :: t.events[e] == s.events[e])
  }

  // ---------------------------------------------------------------- relaying

  /** Pending, due or without a due time, and not locked by anyone else. */
  function ToRelay(s: Tables, now: int, held: set<nat>): set<nat> {
    set e | e in s.events && e !in held && s.events[e].status.Pending? && (s.events[e].due.None? || s.events[e].due.value <= now)
  }

  predicate ToMake(r: Registry, s: Tables, batch: seq<nat>, k: Key) {
    k.0 in batch && k.0 in s.events && Takes(r, k.1, s.events[k.0].kind)
  }

  /** An event somebody wants is dispatched, and counts an attempt; one nobody wants is done. */
  ghost predicate EventRelayed(r: Registry, before: Event, after: Event) {
    && (Wanted(r, before.kind) ==> after == Event(before.kind, Dispatched, before.attempts + 1, before.due))
    && (!Wanted(r, before.kind) ==> after == Event(before.kind, Done, before.attempts, before.due))
  }

  /** Each event of the batch gets one delivery for each consumer that takes it, waiting and out of
      reach for five minutes; nothing else changes. */
  ghost predicate Relayed(r: Registry, s: Tables, t: Tables, batch: seq<nat>, now: int) {
    && t.processed == s.processed && t.effects == s.effects && t.events.Keys == s.events.Keys
    && (forall e | e in s.events && e !in batch :: t.events[e] == s.events[e])
    && (forall e | e in batch :: e in s.events && EventRelayed(r, s.events[e], t.events[e]))
    && (forall k :: k in t.deliveries <==> k in s.deliveries || ToMake(r, s, batch, k))
    && (forall k | k in t.deliveries ::
          t.deliveries[k] == if ToMake(r, s, batch, k) then Delivery(Waiting, 0, Some(now + 300), None) else s.deliveries[k])
  }

  lemma ConsumersTake(r: Registry, kind: string)
    ensures forall c :: c in ForEvent(r, kind) <==> Takes(r, c, kind)
    ensures ForEvent(r, kind) == [] <==> !Wanted(r, kind)
  {
    forall c ensures c in ForEvent(r, kind) <==> Takes(r, c, kind) {
      MatchingAre(r.names, r.matches, kind, c);
    }
    if ForEvent(r, kind) != [] {
      assert ForEvent(r, kind)[0] in ForEvent(r, kind);
    }
  }

  lemma OneIsRelayed(r: Registry, s: Tables, e: nat, now: int)
    requires e in s.events
    ensures Relayed(r, s, RelayOne(r, s, e, now), [e], now)
  {
    var names := ForEvent(r, s.events[e].kind);
    ConsumersTake(r, s.events[e].kind);
    WithDeliveriesIs(s.deliveries, e, names, now + LEASE);
  }

  lemma TwoRelaysAreOne(r: Registry, s: Tables, u: Tables, t: Tables, batch: seq<nat>, e: nat, now: int)
    requires Relayed(r, s, u, batch, now) && Relayed(r, u, t, [e], now) && e !in batch
    ensures Relayed(r, s, t, batch + [e], now)
  {
    assert forall f :: f in batch + [e] <==> f in batch || f == e;
    forall k ensures ToMake(r, s, batch + [e], k) <==> ToMake(r, s, batch, k) || ToMake(r, u, [e], k) {
    }
  }

  lemma {:induction false} AllAreRelayed(r: Registry, s: Tables, batch: seq<nat>, now: int)
    requires (forall i, j | 0 <= i < j < |batch| :: batch[i] != batch[j]) && forall e | e in batch :: e in s.events
    ensures Relayed(r, s, RelayAll(r, s, batch, now), batch, now)
  {
    if batch != [] {
      var last := |batch| - 1;
      assert batch == batch[..last] + [batch[last]] && batch[last] in batch && batch[last] !in batch[..last];
      AllAreRelayed(r, s, batch[..last], now);
      OneIsRelayed(r, RelayAll(r, s, batch[..last], now), batch[last], now);
      TwoRelaysAreOne(r, s, RelayAll(r, s, batch[..last], now), RelayAll(r, s, batch, now), batch[..last], batch[last], now);
    }
  }

  lemma {:induction false} WhatIsDispatched(r: Registry, s: Tables, batch: seq<nat>, k: Key)
    requires forall e | e in batch :: e in s.events
    ensures k in ToDispatch(r, s, batch) <==> ToMake(r, s, batch, k)
  {
    if batch != [] {
      var last := |batch| - 1;
      assert batch == batch[..last] + [batch[last]] && batch[last] in batch;
      WhatIsDispatched(r, s, batch[..last], k);
      KeysOfAre(batch[last], ForEvent(r, s.events[batch[last]].kind), k);
      ConsumersTake(r, s.events[batch[last]].kind);
    }
  }

  // ---------------------------------------------------------------- delivering

  function AttemptsOf(s: Tables, k: Key): nat {
    if k in s.deliveries then s.deliveries[k].attempts else 0
  }

  /** The run is kept: effect, mark and delivery, and the event reads done if the run counted it so. */
  ghost predicate CommittedAs(s: Tables, t: Tables, k: Key, settles: bool, now: int) {
    && OthersStay(s, t, k) && k.0 in s.events && k in t.deliveries
    && t.processed == s.processed + {k} && t.effects == s.effects + [k]
    && t.deliveries[k].status.Finished? && t.deliveries[k].processedAt == Some(now)
    && t.deliveries[k].attempts == AttemptsOf(s, k) + 1
    && t.deliveries[k].due == (if k in s.deliveries then s.deliveries[k].due else Some(now))
    && t.events[k.0] == s.events[k.0].(status := if settles then Done else s.events[k.0].status)
  }

  /** The waits after a failure that leaves another attempt. */
  predicate FailureWaits(attempts: nat, now: int, due: Option<int>) {
    && (attempts == 1 ==> due == Some(now + 30)) && (attempts == 2 ==> due == Some(now + 60))
    && (attempts == 3 ==> due == Some(now + 300)) && (attempts == 4 ==> due == Some(now + 900))
    && (attempts == 5 ==> due == Some(now + 1800)) && (attempts == 6 ==> due == Some(now + 3600))
    && (attempts == 7 ==> due == Some(now + 7200))
  }

  /** One more attempt failed: the delivery waits for the next, or, at the eighth, it and its event are
      given up. */
  ghost predicate FailedAs(s: Tables, t: Tables, k: Key, now: int) {
    var n := AttemptsOf(s, k) + 1;
    && OthersStay(s, t, k) && k.0 in s.events && k in t.deliveries
    && t.processed == s.processed && t.effects == s.effects
    && t.deliveries[k].attempts == n
    && t.deliveries[k].processedAt == (if k in s.deliveries then s.deliveries[k].processedAt else None)
    && (8 <= n ==> t.deliveries[k].status.Dead? && t.deliveries[k].due.None? && t.events[k.0] == s.events[k.0].(status := Failed))
    && (n < 8 ==>
          && t.deliveries[k].status == (if k in s.deliveries then s.deliveries[k].status else Waiting)
          && FailureWaits(n, now, t.deliveries[k].due)
          && t.events[k.0] == s.events[k.0])
  }

  /** Every other delivery of the event is done. */
  predicate OthersFinished(s: Tables, k: Key) {
    forall j | j in s.deliveries && j.0 == k.0 && j != k :: s.deliveries[j].status.Finished?
  }

  // ---------------------------------------------------------------- claiming and retrying

  /** Waiting, due, and not locked by anyone else. */
  function ToClaim(s: Tables, now: int, held: set<Key>): set<Key> {
    set k | k in s.deliveries && k !in held && s.deliveries[k].status.Waiting?
            && s.deliveries[k].due.Some? && s.deliveries[k].due.value <= now
  }

  /** The claimed deliveries are out of reach for five minutes; nothing else changes. */
  predicate ClaimedAs(s: Tables, t: Tables, batch: seq<Key>, now: int) {
    && t.events == s.events && t.processed == s.processed && t.effects == s.effects
    && t.deliveries.Keys == s.deliveries.Keys
    && (forall k | k in batch :: k in s.deliveries && t.deliveries[k] == s.deliveries[k].(due := Some(now + 300)))
    && (forall k | k in s.deliveries && k !in batch :: t.deliveries[k] == s.deliveries[k])
  }

  lemma AllAreClaimed(s: Tables, batch: seq<Key>, now: int)
    requires forall k | k in batch :: k in s.deliveries
    ensures ClaimedAs(s, ClaimAll(s, batch, now), batch, now)
  {
    forall k | k in s.deliveries
      ensures ClaimAll(s, batch, now).deliveries[k]
           == if k in batch then s.deliveries[k].(due := Some(now + LEASE)) else s.deliveries[k]
    {
      ClaimAllIs(s, batch, now, k);
    }
  }

  /** The deliveries of one event that were given up. */
  function GivenUp(s: Tables, e: nat): set<Key> {
    set k | k in s.deliveries && k.0 == e && s.deliveries[k].status.Dead?
  }

  /** They start over, due at once, and the event is dispatched again; nothing else changes. */
  predicate RetriedAs(s: Tables, t: Tables, e: nat, now: int) {
    && t.processed == s.processed && t.effects == s.effects
    && t.deliveries.Keys == s.deliveries.Keys && t.events.Keys == s.events.Keys
    && (forall k | k in GivenUp(s, e) :: t.deliveries[k] == Delivery(Waiting, 0, Some(now), s.deliveries[k].processedAt))
    && (forall k | k in s.deliveries && k !in GivenUp(s, e) :: t.deliveries[k] == s.deliveries[k])
    && (e in s.events ==> t.events[e] == Event(s.events[e].kind, Dispatched, s.events[e].attempts, s.events[e].due))
    && (forall f | f in s.events && f != e :: t.events[f] == s.events[f])
  }

  // ---------------------------------------------------------------- every step of a run

  /** A run that finds the processed mark is over; any other has counted whether it is the last. */
  predicate WrittenAs(w: World, w': World, i: nat) {
    && i < |w.tasks| && |w'.tasks| == |w.tasks|
    && var task := w.tasks[i];
       && (task.key in w.tables.processed ==> w'.tasks[i].stage.Over?)
       && (task.key !in w.tables.processed ==>
             w'.tasks[i].stage == Written(OthersFinished(w.tables, task.key) && !task.seen.Failed? && !task.seen.Done?))
  }

  /** What a step writes on the tables. */
  ghost predicate TablesTakeEffect(r: Registry, w: World, w': World, step: Step) {
    match step
    case Emit(e, kind) => w'.tables == w.tables.(events := w.tables.events[e := Event(kind, Pending, 0, Some(w.now))])
    case Relay(events) => Relayed(r, w.tables, w'.tables, events, w.now)
    case Claim(keys) => ClaimedAs(w.tables, w'.tables, keys, w.now)
    case Retry(e) => RetriedAs(w.tables, w'.tables, e, w.now)
    case Write(i) => w'.tables == w.tables && WrittenAs(w, w', i)
    case Commit(i) =>
      && i < |w.tasks| && w.tasks[i].stage.Written?
      && CommittedAs(w.tables, w'.tables, w.tasks[i].key, w.tasks[i].stage.settles, w.now)
    case Raise(i) => i < |w.tasks| && FailedAs(w.tables, w'.tables, w.tasks[i].key, w.now)
    case _ => w'.tables == w.tables
  }

  lemma RunsSettleExactly(s: Tables, k: Key, seen: OutboxStatus, now: int)
    ensures Settles(s, k, seen, now) <==> OthersFinished(s, k) && !seen.Failed? && !seen.Done?
  {
    var kept := Kept(s, k, now);
    assert forall j | j in kept.deliveries && j.0 == k.0 && j != k :: j in s.deliveries && kept.deliveries[j] == s.deliveries[j];
    assert forall j | j in s.deliveries && j.0 == k.0 && j != k :: j in kept.deliveries;
  }

  /** Every step of every run writes what its transaction is to write. */
  lemma StepsTakeEffect(r: Registry, w: World, step: Step)
    requires Enabled(w, step)
    ensures TablesTakeEffect(r, w, Next(r, w, step), step)
  {
    match step
    case Relay(events) => AllAreRelayed(r, w.tables, events, w.now);
    case Claim(keys) => AllAreClaimed(w.tables, keys, w.now);
    case Write(i) => RunsSettleExactly(w.tables, w.tasks[i].key, w.tasks[i].seen, w.now);
    case _ =>
  }
}
