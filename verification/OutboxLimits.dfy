/** What the outbox does not give: deliveries that read failed though their effect is committed, events
    that read done over such a delivery, events that never read done, and events no consumer hears of.
    Each is reached by runs of the code as it is. */
module OutboxLimits {
  import opened Common
  import opened Outbox
  import opened OutboxRuns

  // ---------------------------------------------------------------- building blocks

  /** A delivery a task can be sent for, with its effect not committed yet. */
  ghost predicate Undone(w: World, k: Key) {
    && k in w.dispatched && k.0 in w.tables.events && k in w.tables.deliveries
    && w.tables.deliveries[k].status.Waiting? && k !in w.tables.processed
  }

  ghost predicate NoneOpen(w: World) {
    forall i | 0 <= i < |w.tasks| :: !w.tasks[i].stage.Written?
  }

  ghost predicate SameBut(t: Tables, t': Tables, k: Key) {
    && t'.events == t.events && t'.processed == t.processed
    && t'.deliveries.Keys == t.deliveries.Keys
    && forall j | j in t.deliveries && j != k :: t'.deliveries[j] == t.deliveries[j]
  }

  lemma ItBegins(r: Registry, c: seq<Step>, k: Key) returns (c': seq<Step>)
    requires Feasible(r, START, c) && Enabled(Exec(r, START, c), Begin(k)) && k !in Exec(r, START, c).tables.processed
    ensures Feasible(r, START, c') && c <= c'
    ensures var w := Exec(r, START, c);
      Exec(r, START, c') == w.(tasks := w.tasks + [Task(k, w.tables.events[k.0].status, Working)])
  {
    OneMore(r, START, c, Begin(k));
    c' := c + [Begin(k)];
  }

  lemma ItWrites(r: Registry, c: seq<Step>, i: nat) returns (c': seq<Step>)
    requires Feasible(r, START, c) && AtWork(Exec(r, START, c), i)
    requires Exec(r, START, c).tasks[i].key !in Exec(r, START, c).tables.processed
    ensures Feasible(r, START, c') && c <= c'
    ensures var w := Exec(r, START, c);
      Exec(r, START, c') == MoveTask(w, i, Written(Settles(w.tables, w.tasks[i].key, w.tasks[i].seen, w.now)))
  {
    OneMore(r, START, c, Write(i));
    c' := c + [Write(i)];
  }

  lemma ItCommits(r: Registry, c: seq<Step>, i: nat) returns (c': seq<Step>)
    requires Feasible(r, START, c) && Enabled(Exec(r, START, c), Commit(i))
    ensures Feasible(r, START, c') && c <= c'
    ensures var w := Exec(r, START, c);
      Exec(r, START, c') == MoveTask(w, i, Over).(tables := Committed(w.tables, w.tasks[i].key, w.tasks[i].stage.settles, w.now))
  {
    OneMore(r, START, c, Commit(i));
    c' := c + [Commit(i)];
  }

  lemma ItRaises(r: Registry, c: seq<Step>, i: nat) returns (c': seq<Step>)
    requires Feasible(r, START, c) && AtWork(Exec(r, START, c), i)
    ensures Feasible(r, START, c') && c <= c'
    ensures var w := Exec(r, START, c);
      Exec(r, START, c') == MoveTask(w, i, Over).(tables := Failure(w.tables, w.tasks[i].key, w.now))
  {
    OneMore(r, START, c, Raise(i));
    c' := c + [Raise(i)];
  }

  lemma ItFailsOnce(r: Registry, c: seq<Step>, k: Key) returns (c': seq<Step>)
    requires Feasible(r, START, c) && Undone(Exec(r, START, c), k) && NoneOpen(Exec(r, START, c))
    requires Exec(r, START, c).tables.deliveries[k].attempts + 1 < MAX_ATTEMPTS
    ensures Feasible(r, START, c') && c <= c' && Undone(Exec(r, START, c'), k) && NoneOpen(Exec(r, START, c'))
    ensures Exec(r, START, c').tables.deliveries[k].attempts == Exec(r, START, c).tables.deliveries[k].attempts + 1
    ensures SameBut(Exec(r, START, c).tables, Exec(r, START, c').tables, k)
    ensures Exec(r, START, c').dispatched == Exec(r, START, c).dispatched
  {
    c' := ItBegins(r, c, k);
    c' := ItRaises(r, c', |Exec(r, START, c).tasks|);
  }

  lemma {:induction false} ItFailsUntil(r: Registry, c: seq<Step>, k: Key, n: nat) returns (c': seq<Step>)
    requires Feasible(r, START, c) && Undone(Exec(r, START, c), k) && NoneOpen(Exec(r, START, c)) && n < MAX_ATTEMPTS
    ensures Feasible(r, START, c') && c <= c' && Undone(Exec(r, START, c'), k) && NoneOpen(Exec(r, START, c'))
    ensures n <= Exec(r, START, c').tables.deliveries[k].attempts
    ensures SameBut(Exec(r, START, c).tables, Exec(r, START, c').tables, k)
    ensures Exec(r, START, c').dispatched == Exec(r, START, c).dispatched
    decreases n - Exec(r, START, c).tables.deliveries[k].attempts
  {
    c' := c;
    if Exec(r, START, c).tables.deliveries[k].attempts < n {
      c' := ItFailsOnce(r, c, k);
      c' := ItFailsUntil(r, c', k, n);
    }
  }

  /** Two tasks of one delivery are begun, and one of them commits. */
  lemma OneOfTwoCommits(r: Registry, c: seq<Step>, k: Key) returns (c': seq<Step>, double: nat)
    requires Feasible(r, START, c) && Undone(Exec(r, START, c), k) && NoneOpen(Exec(r, START, c))
    ensures Feasible(r, START, c') && c <= c' && NoneOpen(Exec(r, START, c'))
    ensures var w, w' := Exec(r, START, c), Exec(r, START, c');
      && w'.now == w.now && w'.dispatched == w.dispatched
      && w'.tables == Committed(w.tables, k, Settles(w.tables, k, w.tables.events[k.0].status, w.now), w.now)
      && double < |w'.tasks| && w'.tasks[double] == Task(k, w.tables.events[k.0].status, Working)
  {
    var n := |Exec(r, START, c).tasks|;
    c' := ItBegins(r, c, k);
    c' := ItBegins(r, c', k);
    c' := ItWrites(r, c', n);
    c' := ItCommits(r, c', n);
    double := n + 1;
  }

  // ---------------------------------------------------------------- failed, though done

  /** The consumer's effect is committed, but its delivery reads failed. */
  ghost predicate FailedThoughDone(t: Tables, k: Key) {
    k in t.processed && k in t.effects && k in t.deliveries && t.deliveries[k].status.Dead?
  }

  /** From any reachable state, with any consumers: every delivery that still has to be made can end as
      failed, and its event with it, though its effect is committed. */
  lemma ADeliveryCanFailThoughDone(r: Registry, steps: seq<Step>, k: Key) returns (more: seq<Step>)
    requires Feasible(r, START, steps) && Undone(Exec(r, START, steps), k)
    ensures Feasible(r, START, steps + more) && FailedThoughDone(Exec(r, START, steps + more).tables, k)
    ensures k.0 in Exec(r, START, steps + more).tables.events
    ensures Exec(r, START, steps + more).tables.events[k.0].status.Failed?
  {
    var freed := TasksLetGo(r, steps, |Exec(r, START, steps).tasks|);
    var c := ItFailsUntil(r, steps + freed, k, MAX_ATTEMPTS - 2);
    var double: nat;
    c, double := OneOfTwoCommits(r, c, k);
    c := ItRaises(r, c, double);
    EveryRunIsFine(r, c);
    more := c[|steps|..];
    assert steps + more == c;
  }

  // ---------------------------------------------------------------- two consumers

  /** Two deliveries of an event are still to be made, and they are the last. */
  ghost predicate TwoToGo(w: World, a: Key, b: Key) {
    && a.0 == b.0 && a != b && Undone(w, a) && Undone(w, b)
    && w.tables.events[a.0].status.Dispatched?
    && RestFinished(w.tables, a, b)
  }

  ghost predicate RestFinished(t: Tables, a: Key, b: Key) {
    forall k | k in t.deliveries && k.0 == a.0 && k != a && k != b :: t.deliveries[k].status.Finished?
  }

  lemma OneEventRelayed(r: Registry, kind: string, t: Tables, now: int)
    requires t == Tables(map[0 := Event(kind, Pending, 0, Some(now))], map[], {}, []) && ForEvent(r, kind) != []
    ensures var t' := RelayAll(r, t, [0], now);
      && 0 in t'.events && t'.events[0].status.Dispatched? && t'.processed == {}
      && (forall k :: k in t'.deliveries <==> k.0 == 0 && k.1 in ForEvent(r, kind))
      && (forall k | k in t'.deliveries :: t'.deliveries[k].status.Waiting? && k in ToDispatch(r, t, [0]))
  {
    var names := ForEvent(r, kind);
    assert [0][..0] == [];
    WithDeliveriesIs(map[], 0, names, now + LEASE);
    forall k ensures k in KeysOf(0, names) <==> k.0 == 0 && k.1 in names { KeysOfAre(0, names, k); }
    assert ToDispatch(r, t, [0]) == [] + KeysOf(0, names);
    assert RelayAll(r, t, [0], now) == RelayOne(r, t, 0, now);
  }

  /** Such states are an event and a relay away from an empty outbox. */
  lemma ARelayedEvent(r: Registry, kind: string) returns (run: seq<Step>)
    requires ForEvent(r, kind) != []
    ensures Feasible(r, START, run) && NoneOpen(Exec(r, START, run))
    ensures forall c | c in ForEvent(r, kind) :: Undone(Exec(r, START, run), (0, c))
    ensures forall k | k in Exec(r, START, run).tables.deliveries :: k.0 == 0 && k.1 in ForEvent(r, kind)
    ensures 0 in Exec(r, START, run).tables.events && Exec(r, START, run).tables.events[0].status.Dispatched?
  {
    var emitted := [] + [Emit(0, kind)];
    OneMore(r, START, [], Emit(0, kind));
    var w := Exec(r, START, emitted);
    OneMore(r, START, emitted, Relay([0]));
    run := emitted + [Relay([0])];
    OneEventRelayed(r, kind, w.tables, w.now);
    assert Exec(r, START, run).tables == RelayAll(r, w.tables, [0], w.now);
  }

  lemma TwoConsumersToGo(r: Registry, kind: string, c: string, d: string) returns (run: seq<Step>)
    requires c != d && forall x :: x in ForEvent(r, kind) <==> x == c || x == d
    ensures Feasible(r, START, run) && TwoToGo(Exec(r, START, run), (0, c), (0, d))
  {
    assert c in ForEvent(r, kind);
    run := ARelayedEvent(r, kind);
    assert (0, c).0 == 0 && (0, c) != (0, d);
  }

  /** A run that counted before a late failure of another consumer commits after it: the event reads
      done, and one of its deliveries failed. */
  lemma ADoneEventCanHoldAFailure(r: Registry, c: seq<Step>, a: Key, b: Key) returns (c': seq<Step>)
    requires Feasible(r, START, c) && TwoToGo(Exec(r, START, c), a, b)
    ensures Feasible(r, START, c') && c <= c'
    ensures var t := Exec(r, START, c').tables; a.0 in t.events && t.events[a.0].status.Done? && FailedThoughDone(t, b)
  {
    var freed := TasksLetGo(r, c, |Exec(r, START, c).tasks|);
    var failed := ItFailsUntil(r, c + freed, b, MAX_ATTEMPTS - 2);
    var once, double := OneOfTwoCommits(r, failed, b);
    c' := TheOtherCountsTooEarly(r, once, a, b, double);
  }

  lemma TheOtherCountsTooEarly(r: Registry, c: seq<Step>, a: Key, b: Key, double: nat) returns (c': seq<Step>)
    requires Feasible(r, START, c) && a.0 == b.0 && a != b && Undone(Exec(r, START, c), a) && NoneOpen(Exec(r, START, c))
    requires var w := Exec(r, START, c);
      && w.tables.events[a.0].status.Dispatched? && b in w.tables.processed && b in w.tables.deliveries
      && w.tables.deliveries[b].status.Finished? && w.tables.deliveries[b].attempts + 1 >= MAX_ATTEMPTS
      && RestFinished(w.tables, a, b)
      && double < |w.tasks| && w.tasks[double].key == b && w.tasks[double].stage.Working?
    ensures Feasible(r, START, c') && c <= c'
    ensures var t := Exec(r, START, c').tables; a.0 in t.events && t.events[a.0].status.Done? && FailedThoughDone(t, b)
  {
    var w := Exec(r, START, c);
    var n := |w.tasks|;
    var c1 := ItBegins(r, c, a);
    var c2 := ItWrites(r, c1, n);
    assert Settles(w.tables, a, w.tables.events[a.0].status, w.now);
    assert Exec(r, START, c2) == w.(tasks := w.tasks + [Task(a, w.tables.events[a.0].status, Written(true))]);
    assert !Locked(Exec(r, START, c2), b);
    var c3 := ItRaises(r, c2, double);
    c' := ItCommits(r, c3, n);
    EveryRunIsFine(r, c');
  }

  // ---------------------------------------------------------------- never done

  /** Every delivery is done, and the event still reads dispatched. */
  ghost predicate LeftOpen(t: Tables, e: nat) {
    e in t.events && t.events[e].status.Dispatched? && AllFinished(t, e)
  }

  ghost predicate NoneLeftOpen(t: Tables) {
    forall e | e in t.events :: !LeftOpen(t, e)
  }

  /** A run that did not count the event as done makes its last delivery. */
  ghost predicate MissesTheLast(w: World, step: Step)
    requires Enabled(w, step)
  {
    step.Commit? &&
    var task := w.tasks[step.task];
    !task.stage.settles && w.tables.events[task.key.0].status.Dispatched? && AllFinished(Kept(w.tables, task.key, w.now), task.key.0)
  }

  /** A retry by hand of an event with nothing to retry. */
  ghost predicate ReopensForNothing(w: World, step: Step) {
    step.Retry? && AllFinished(w.tables, step.event)
  }

  lemma {:induction false} RelayLeavesNoneOpen(r: Registry, t: Tables, batch: seq<nat>, now: int)
    requires TablesFine(r, t, now) && NoneLeftOpen(t) && Distinct(batch)
    requires forall e | e in batch :: e in t.events && t.events[e].status.Pending?
    ensures NoneLeftOpen(RelayAll(r, t, batch, now))
  {
    if batch != [] {
      var last := |batch| - 1;
      var e := batch[last];
      assert e in batch && batch == batch[..last] + [e];
      RelayKeeps(r, t, batch[..last], now);
      RelayLeavesNoneOpen(r, t, batch[..last], now);
      RelayOneLeavesNoneOpen(r, RelayAll(r, t, batch[..last], now), e, now);
    }
  }

  lemma RelayOneLeavesNoneOpen(r: Registry, t: Tables, e: nat, now: int)
    requires TablesFine(r, t, now) && NoneLeftOpen(t) && e in t.events && t.events[e].status.Pending?
    ensures NoneLeftOpen(RelayOne(r, t, e, now))
  {
    var t' := RelayOne(r, t, e, now);
    var names := ForEvent(r, t.events[e].kind);
    WithDeliveriesIs(t.deliveries, e, names, now + LEASE);
    if names != [] {
      assert (e, names[0]) in t'.deliveries && !t'.deliveries[(e, names[0])].status.Finished?;
    }
    forall f | f in t'.events ensures !LeftOpen(t', f) {
      assert !LeftOpen(t, f);
    }
  }

  lemma ClaimLeavesNoneOpen(t: Tables, keys: seq<Key>, now: int)
    requires NoneLeftOpen(t) && forall k | k in keys :: k in t.deliveries
    ensures NoneLeftOpen(ClaimAll(t, keys, now))
  {
    var t' := ClaimAll(t, keys, now);
    forall k | k in t.deliveries ensures t'.deliveries[k].status == t.deliveries[k].status {
      ClaimAllIs(t, keys, now, k);
    }
    forall e | e in t'.events ensures !LeftOpen(t', e) {
      assert !LeftOpen(t, e);
    }
  }

  lemma FailureLeavesNoneOpen(t: Tables, k: Key, now: int)
    requires NoneLeftOpen(t) && k in t.deliveries && k.0 in t.events
    ensures NoneLeftOpen(Failure(t, k, now))
  {
    var t' := Failure(t, k, now);
    forall e | e in t'.events ensures !LeftOpen(t', e) {
      assert !LeftOpen(t, e);
      if t.events[e].status.Dispatched? {
        var j :| j in t.deliveries && j.0 == e && !t.deliveries[j].status.Finished?;
        assert j in t'.deliveries && (t'.deliveries[j].status == t.deliveries[j].status || t'.deliveries[j].status.Dead?);
      }
    }
  }

  lemma CommitLeavesOpen(w: World, step: Step)
    requires Enabled(w, step) && step.Commit? && NoneLeftOpen(w.tables) && w.tasks[step.task].key in w.tables.deliveries
    ensures var task := w.tasks[step.task];
      NoneLeftOpen(Committed(w.tables, task.key, task.stage.settles, w.now)) <==> !MissesTheLast(w, step)
  {
    var task := w.tasks[step.task];
    var t' := Committed(w.tables, task.key, task.stage.settles, w.now);
    forall e | e in t'.events && e != task.key.0 ensures !LeftOpen(t', e) {
      assert !LeftOpen(w.tables, e);
      if t'.events[e].status.Dispatched? {
        var j :| j in w.tables.deliveries && j.0 == e && !w.tables.deliveries[j].status.Finished?;
        assert j in t'.deliveries && !t'.deliveries[j].status.Finished?;
      }
    }
  }

  lemma RetryLeavesOpen(t: Tables, e: nat, now: int)
    requires NoneLeftOpen(t) && e in t.events
    ensures NoneLeftOpen(RetryFailed(t, e, now)) <==> !AllFinished(t, e)
  {
    var t' := RetryFailed(t, e, now);
    forall f | f in t'.events && f != e ensures !LeftOpen(t', f) {
      assert !LeftOpen(t, f);
      if t'.events[f].status.Dispatched? {
        var j :| j in t.deliveries && j.0 == f && !t.deliveries[j].status.Finished?;
        assert j in t'.deliveries && t'.deliveries[j] == t.deliveries[j];
      }
    }
    if !AllFinished(t, e) {
      var j :| j in t.deliveries && j.0 == e && !t.deliveries[j].status.Finished?;
      assert j in t'.deliveries && !t'.deliveries[j].status.Finished?;
    } else {
      assert LeftOpen(t', e);
    }
  }

  /** The only ways to leave a finished event open: a count that missed the deliveries finishing beside
      it, and a retry by hand of what is finished already. */
  lemma OnlyAMissedCountLeavesOpen(r: Registry, w: World, step: Step)
    requires Fine(r, w) && NoneLeftOpen(w.tables) && Enabled(w, step)
    ensures NoneLeftOpen(Next(r, w, step).tables) <==> !MissesTheLast(w, step) && !ReopensForNothing(w, step)
  {
    match step
    case Emit(e, _) =>
      forall f | f in Next(r, w, step).tables.events ensures !LeftOpen(Next(r, w, step).tables, f) {
        assert f != e ==> !LeftOpen(w.tables, f);
      }
    case Relay(events) => RelayLeavesNoneOpen(r, w.tables, events, w.now);
    case Claim(keys) => ClaimLeavesNoneOpen(w.tables, keys, w.now);
    case Retry(e) => RetryLeavesOpen(w.tables, e, w.now);
    case Commit(i) =>
      assert TaskFine(r, w.tables, w.tasks[i]);
      CommitLeavesOpen(w, step);
    case Raise(i) =>
      assert TaskFine(r, w.tables, w.tasks[i]);
      FailureLeavesNoneOpen(w.tables, w.tasks[i].key, w.now);
    case _ =>
  }

  ghost predicate NeverMissesTheLast(r: Registry, steps: seq<Step>)
    requires Feasible(r, START, steps)
  {
    steps == [] ||
    var last := |steps| - 1;
    && NeverMissesTheLast(r, steps[..last])
    && !MissesTheLast(Exec(r, START, steps[..last]), steps[last])
    && !ReopensForNothing(Exec(r, START, steps[..last]), steps[last])
  }

  /** Without either of them, an event whose deliveries are all done does not read dispatched. */
  lemma {:induction false} FinishedEventsClose(r: Registry, steps: seq<Step>)
    requires Feasible(r, START, steps) && NeverMissesTheLast(r, steps)
    ensures NoneLeftOpen(Exec(r, START, steps).tables)
  {
    if steps != [] {
      var last := |steps| - 1;
      FinishedEventsClose(r, steps[..last]);
      EveryRunIsFine(r, steps[..last]);
      OnlyAMissedCountLeavesOpen(r, Exec(r, START, steps[..last]), steps[last]);
    }
  }

  /** Two consumers that finish side by side, each of which still counts the other. */
  lemma TwoCountsMissEachOther(r: Registry, c: seq<Step>, a: Key, b: Key) returns (c': seq<Step>)
    requires Feasible(r, START, c) && TwoToGo(Exec(r, START, c), a, b)
    ensures Feasible(r, START, c') && c <= c'
    ensures LeftOpen(Exec(r, START, c').tables, a.0) && NoMoreToDo(Exec(r, START, c'), a.0)
  {
    var freed := TasksLetGo(r, c, |Exec(r, START, c).tasks|);
    c' := TheyFinishSideBySide(r, c + freed, a, b);
  }

  lemma BothAtWork(r: Registry, c: seq<Step>, a: Key, b: Key) returns (c': seq<Step>)
    requires Feasible(r, START, c) && TwoToGo(Exec(r, START, c), a, b) && NoneOpen(Exec(r, START, c))
    ensures Feasible(r, START, c') && c <= c'
    ensures var w := Exec(r, START, c);
      Exec(r, START, c') == w.(tasks := w.tasks + [Task(a, Dispatched, Working), Task(b, Dispatched, Working)])
  {
    c' := ItBegins(r, c, a);
    c' := ItBegins(r, c', b);
  }

  lemma TheyFinishSideBySide(r: Registry, c: seq<Step>, a: Key, b: Key) returns (c': seq<Step>)
    requires Feasible(r, START, c) && TwoToGo(Exec(r, START, c), a, b) && NoneOpen(Exec(r, START, c))
    ensures Feasible(r, START, c') && c <= c'
    ensures LeftOpen(Exec(r, START, c').tables, a.0) && NoMoreToDo(Exec(r, START, c'), a.0)
  {
    var w := Exec(r, START, c);
    var n := |w.tasks|;
    var c2 := BothAtWork(r, c, a, b);
    assert b in Kept(w.tables, a, w.now).deliveries && a in Kept(w.tables, b, w.now).deliveries;
    var c3 := ItWrites(r, c2, n);
    assert !Locked(Exec(r, START, c3), b);
    var c4 := ItWrites(r, c3, n + 1);
    c' := BothCommit(r, c4, a, b, n);
  }

  lemma FinishedIsProcessed(r: Registry, w: World, e: nat)
    requires Fine(r, w) && AllFinished(w.tables, e)
    ensures forall k | k in w.tables.deliveries && k.0 == e :: k in w.tables.processed
  {
    forall k | k in w.tables.deliveries && k.0 == e ensures k in w.tables.processed {
      assert DeliveryFine(r, w.tables, k, w.now);
    }
  }

  lemma BothCommit(r: Registry, c: seq<Step>, a: Key, b: Key, n: nat) returns (c': seq<Step>)
    requires Feasible(r, START, c) && a.0 == b.0 && a != b
    requires var w := Exec(r, START, c);
      && |w.tasks| == n + 2 && w.tasks[n].key == a && w.tasks[n + 1].key == b
      && w.tasks[n].stage == Written(false) == w.tasks[n + 1].stage
      && (forall i | 0 <= i < n :: !w.tasks[i].stage.Written?)
      && a.0 in w.tables.events && w.tables.events[a.0].status.Dispatched?
      && RestFinished(w.tables, a, b)
    ensures Feasible(r, START, c') && c <= c'
    ensures LeftOpen(Exec(r, START, c').tables, a.0) && NoMoreToDo(Exec(r, START, c'), a.0)
  {
    c' := ItCommits(r, c, n);
    c' := ItCommits(r, c', n + 1);
    EveryRunIsFine(r, c');
    FinishedIsProcessed(r, Exec(r, START, c'), a.0);
  }

  /** Every consumer of the event has had its effect, and no open transaction is about to say so. */
  ghost predicate NoMoreToDo(w: World, e: nat) {
    && e in w.tables.events && !w.tables.events[e].status.Pending? && !w.tables.events[e].status.Done?
    && (forall k | k in w.tables.deliveries && k.0 == e :: k in w.tables.processed)
    && (forall i | 0 <= i < |w.tasks| && w.tasks[i].key.0 == e :: !w.tasks[i].stage.Written?)
  }

  lemma {:induction false} RelayPassesBy(r: Registry, t: Tables, batch: seq<nat>, now: int, e: nat)
    requires e in t.events && e !in batch && forall f | f in batch :: f in t.events
    ensures var t' := RelayAll(r, t, batch, now);
      && t'.events[e] == t.events[e] && t'.processed == t.processed
      && (forall k: Key | k.0 == e :: k in t'.deliveries <==> k in t.deliveries)
  {
    if batch != [] {
      var last := |batch| - 1;
      assert batch[last] in batch && batch[last] != e;
      RelayPassesBy(r, t, batch[..last], now, e);
      var s := RelayAll(r, t, batch[..last], now);
      WithDeliveriesIs(s.deliveries, batch[last], ForEvent(r, s.events[batch[last]].kind), now + LEASE);
    }
  }

  lemma StepLeavesNothingToDo(r: Registry, w: World, step: Step, e: nat)
    requires Fine(r, w) && Enabled(w, step) && NoMoreToDo(w, e)
    ensures NoMoreToDo(Next(r, w, step), e)
  {
    match step
    case Relay(events) => RelayPassesBy(r, w.tables, events, w.now, e);
    case Write(i) => assert TaskFine(r, w.tables, w.tasks[i]);
    case Commit(i) => assert w.tasks[i].key.0 != e;
    case Raise(i) => assert TaskFine(r, w.tables, w.tasks[i]);
    case _ =>
  }

  /** Such an event never reads done again, whatever happens afterwards, retries by hand included. */
  lemma {:induction false} ItNeverReadsDone(r: Registry, steps: seq<Step>, more: seq<Step>, e: nat)
    requires Feasible(r, START, steps) && Feasible(r, START, steps + more) && NoMoreToDo(Exec(r, START, steps), e)
    ensures NoMoreToDo(Exec(r, START, steps + more), e) && !Exec(r, START, steps + more).tables.events[e].status.Done?
  {
    if more == [] {
      assert steps + more == steps;
    } else {
      var last := |more| - 1;
      assert (steps + more)[..|steps + more| - 1] == steps + more[..last];
      ItNeverReadsDone(r, steps, more[..last], e);
      EveryRunIsFine(r, steps + more[..last]);
      StepLeavesNothingToDo(r, Exec(r, START, steps + more[..last]), more[last], e);
    }
  }

  // ---------------------------------------------------------------- never heard of

  /** The relay has let go of the event, and no one will ever deliver it. */
  ghost predicate Forgotten(t: Tables, e: nat) {
    e in t.events && !t.events[e].status.Pending? && forall k | k in t.deliveries :: k.0 != e
  }

  lemma StepForgets(r: Registry, w: World, step: Step, e: nat)
    requires Fine(r, w) && Enabled(w, step) && Forgotten(w.tables, e)
    ensures Forgotten(Next(r, w, step).tables, e)
  {
    match step
    case Relay(events) => RelayPassesBy(r, w.tables, events, w.now, e);
    case Commit(i) => assert TaskFine(r, w.tables, w.tasks[i]);
    case Raise(i) => assert TaskFine(r, w.tables, w.tasks[i]);
    case _ =>
  }

  /** An event with consumers, retried by hand before the relay took it, is never delivered to any of
      them, whatever happens afterwards. */
  lemma {:induction false} AnEarlyRetryIsForGood(r: Registry, steps: seq<Step>, e: nat, more: seq<Step>, c: string)
    requires Feasible(r, START, steps) && Feasible(r, START, steps + [Retry(e)] + more)
    requires RetriesTooEarly(r, Exec(r, START, steps).tables, Retry(e))
    ensures var t := Exec(r, START, steps + [Retry(e)] + more).tables;
      Forgotten(t, e) && (e, c) !in t.deliveries && (e, c) !in t.effects
  {
    var run := steps + [Retry(e)] + more;
    EveryRunIsFine(r, run);
    if more == [] {
      assert run == steps + [Retry(e)] && run[..|run| - 1] == steps;
      EveryRunIsFine(r, steps);
      assert EventFine(r, Exec(r, START, steps).tables, e);
    } else {
      var last := |more| - 1;
      assert run[..|run| - 1] == steps + [Retry(e)] + more[..last];
      AnEarlyRetryIsForGood(r, steps, e, more[..last], c);
      EveryRunIsFine(r, run[..|run| - 1]);
      StepForgets(r, Exec(r, START, run[..|run| - 1]), more[last], e);
    }
  }

  /** And it takes no more than an event and a click. */
  lemma AnEventCanBeForgotten(r: Registry, kind: string, c: string) returns (run: seq<Step>)
    requires c in ForEvent(r, kind)
    ensures Feasible(r, START, run) && !Served(r, Exec(r, START, run).tables)
    ensures Forgotten(Exec(r, START, run).tables, 0) && Exec(r, START, run).tables.events[0].kind == kind
  {
    var emitted := [] + [Emit(0, kind)];
    OneMore(r, START, [], Emit(0, kind));
    OneMore(r, START, emitted, Retry(0));
    run := emitted + [Retry(0)];
    assert Exec(r, START, emitted).tables == Tables(map[0 := Event(kind, Pending, 0, Some(0))], map[], {}, []);
    assert Exec(r, START, run).tables == RetryFailed(Exec(r, START, emitted).tables, 0, 0);
    var t := Exec(r, START, run).tables;
    assert Forgotten(t, 0) && t.events[0].kind == kind;
    assert (0, c) !in t.deliveries && c in ForEvent(r, t.events[0].kind);
  }
}
