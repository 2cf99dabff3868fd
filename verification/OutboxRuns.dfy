/** Exactly-once effects over every run of the outbox: tasks that are duplicated, late, lost, failing
    or crashing, relays and claims that overlap, retries by hand. A task's transaction is open between
    its writes and its commit: what it wrote is locked and no one else sees it. */
module OutboxRuns {
  import opened Common
  import opened Outbox

  /** A task is at its handler; or it has written the processed mark and the delivery, and counted, but
      not committed; or it is over. */
  datatype Stage = Working | Written(settles: bool) | Over

  /** A consumer at work: it read the event with this status, and no processed mark. */
  datatype Task = Task(key: Key, seen: OutboxStatus, stage: Stage)

  datatype World = World(
    now: int,
    tables: Tables,
    dispatched: set<Key>,    // every task message ever sent; any of them may run any number of times
    tasks: seq<Task>)

  const START: World := World(0, Tables(map[], map[], {}, []), {}, [])

  datatype Step =
    | Tick(seconds: nat)
    | Emit(event: nat, kind: string)
    | Relay(events: seq<nat>)
    | Claim(keys: seq<Key>)
    | Retry(event: nat)
    | Begin(key: Key)
    | Write(task: nat)       // the handler returned; the writes are made, or the mark exists by now
    | Commit(task: nat)
    | Raise(task: nat)       // the handler raises; the failure is counted
    | Crash(task: nat)

  ghost predicate Distinct<T>(s: seq<T>) {
    forall i, j | 0 <= i < j < |s| :: s[i] != s[j]
  }

  predicate Holds(w: World, i: nat, k: Key) {
    i < |w.tasks| && w.tasks[i].key == k && w.tasks[i].stage.Written?
  }

  /** An open transaction has written this delivery and its processed mark: claims pass it over, and
      whoever else wants to write either of them waits. */
  predicate Locked(w: World, k: Key) {
    exists i: nat | i < |w.tasks| :: Holds(w, i, k)
  }

  predicate AtWork(w: World, i: nat) {
    i < |w.tasks| && w.tasks[i].stage.Working? && w.tasks[i].key.0 in w.tables.events && !Locked(w, w.tasks[i].key)
  }

  ghost predicate Enabled(w: World, step: Step) {
    match step
    case Tick(_) => true
    case Emit(e, _) => e !in w.tables.events
    case Relay(events) => Distinct(events) && forall e | e in events :: e in w.tables.events && DueEvent(w.tables, e, w.now)
    case Claim(keys) => forall k | k in keys :: k in w.tables.deliveries && DueDelivery(w.tables, k, w.now) && !Locked(w, k)
    case Retry(e) =>
      e in w.tables.events
      && forall k | k in w.tables.deliveries && k.0 == e && w.tables.deliveries[k].status.Dead? :: !Locked(w, k)
    case Begin(k) => k in w.dispatched && k.0 in w.tables.events
    case Write(i) => AtWork(w, i)
    case Commit(i) => i < |w.tasks| && w.tasks[i].stage.Written? && w.tasks[i].key.0 in w.tables.events
    case Raise(i) => AtWork(w, i)
    case Crash(i) => i < |w.tasks|
  }

  function MoveTask(w: World, i: nat, stage: Stage): World
    requires i < |w.tasks|
  {
    w.(tasks := w.tasks[i := w.tasks[i].(stage := stage)])
  }

  function Begun(w: World, k: Key): World
    requires k.0 in w.tables.events
  {
    if k in w.tables.processed then w
    else w.(tasks := w.tasks + [Task(k, w.tables.events[k.0].status, Working)])
  }

  ghost function Next(r: Registry, w: World, step: Step): World
    requires Enabled(w, step)
  {
    match step
    case Tick(seconds) => w.(now := w.now + seconds)
    case Emit(e, kind) => w.(tables := w.tables.(events := w.tables.events[e := Event(kind, Pending, 0, Some(w.now))]))
    case Relay(events) =>
      w.(tables := RelayAll(r, w.tables, events, w.now),
         dispatched := w.dispatched + set k | k in ToDispatch(r, w.tables, events))
    case Claim(keys) =>
      w.(tables := ClaimAll(w.tables, keys, w.now), dispatched := w.dispatched + set k | k in keys)
    case Retry(e) => w.(tables := RetryFailed(w.tables, e, w.now))
    case Begin(k) => Begun(w, k)
    case Write(i) =>
      var k := w.tasks[i].key;
      MoveTask(w, i, if k in w.tables.processed then Over else Written(Settles(w.tables, k, w.tasks[i].seen, w.now)))
    case Commit(i) =>
      MoveTask(w, i, Over).(tables := Committed(w.tables, w.tasks[i].key, w.tasks[i].stage.settles, w.now))
    case Raise(i) => MoveTask(w, i, Over).(tables := Failure(w.tables, w.tasks[i].key, w.now))
    case Crash(i) => MoveTask(w, i, Over)
  }

  ghost predicate Feasible(r: Registry, w: World, steps: seq<Step>)
    decreases |steps|, 0
  {
    steps == [] ||
    var last := |steps| - 1;
    Feasible(r, w, steps[..last]) && Enabled(Exec(r, w, steps[..last]), steps[last])
  }

  ghost function Exec(r: Registry, w: World, steps: seq<Step>): World
    requires Feasible(r, w, steps)
    decreases |steps|, 1
  {
    if steps == [] then w else Next(r, Exec(r, w, steps[..|steps| - 1]), steps[|steps| - 1])
  }

  // ---------------------------------------------------------------- what every step keeps

  /** The longest wait there is. */
  const LONGEST := 7200

  ghost predicate EventFine(r: Registry, t: Tables, e: nat)
    requires e in t.events
  {
    && (t.events[e].status.Pending? ==> forall k | k in t.deliveries :: k.0 != e)
    && (t.events[e].status.Done? ==>
          forall c | c in ForEvent(r, t.events[e].kind) :: (e, c) in t.deliveries && (e, c) in t.processed)
  }

  ghost predicate DeliveryFine(r: Registry, t: Tables, k: Key, now: int)
    requires k in t.deliveries
  {
    var d := t.deliveries[k];
    && k.0 in t.events && k.1 in ForEvent(r, t.events[k.0].kind)
    && (d.status.Waiting? ==> d.due.Some? && d.due.value <= now + LONGEST && d.attempts < MAX_ATTEMPTS)
    && (d.status.Dead? ==> d.due.None? && d.attempts >= MAX_ATTEMPTS)
    && (d.status.Finished? ==> k in t.processed)
    && (forall c | c in ForEvent(r, t.events[k.0].kind) :: (k.0, c) in t.deliveries)
  }

  ghost predicate TablesFine(r: Registry, t: Tables, now: int) {
    && (forall e {:trigger EventFine(r, t, e)} | e in t.events :: EventFine(r, t, e))
    && (forall k {:trigger DeliveryFine(r, t, k, now)} | k in t.deliveries :: DeliveryFine(r, t, k, now))
    && t.processed <= t.deliveries.Keys
    && Distinct(t.effects)
    && (forall k :: k in t.effects <==> k in t.processed)
  }

  /** An open transaction has its delivery to itself; and when it is about to mark the event done, all
      other consumers of the event have had their effect. */
  ghost predicate TaskFine(r: Registry, t: Tables, task: Task) {
    && task.key in t.deliveries && task.key.0 in t.events
    && (task.stage.Written? ==> task.key !in t.processed)
    && (task.stage.Written? && task.stage.settles ==>
          forall c | c in ForEvent(r, t.events[task.key.0].kind) && c != task.key.1 :: (task.key.0, c) in t.processed)
  }

  ghost predicate Exclusive(tasks: seq<Task>) {
    forall i, j | 0 <= i < j < |tasks| && tasks[i].key == tasks[j].key ::
      !tasks[i].stage.Written? || !tasks[j].stage.Written?
  }

  ghost predicate Fine(r: Registry, w: World) {
    && TablesFine(r, w.tables, w.now)
    && w.dispatched <= w.tables.deliveries.Keys
    && (forall i {:trigger w.tasks[i]} | 0 <= i < |w.tasks| :: TaskFine(r, w.tables, w.tasks[i]))
    && Exclusive(w.tasks)
  }

  lemma RelayOneKeeps(r: Registry, t: Tables, e: nat, now: int)
    requires TablesFine(r, t, now) && e in t.events && t.events[e].status.Pending?
    ensures TablesFine(r, RelayOne(r, t, e, now), now)
    ensures t.deliveries.Keys <= RelayOne(r, t, e, now).deliveries.Keys
    ensures forall f | f in t.events && f != e :: RelayOne(r, t, e, now).events[f] == t.events[f]
    ensures RelayOne(r, t, e, now).events[e].kind == t.events[e].kind
    ensures forall c | c in ForEvent(r, t.events[e].kind) :: (e, c) in RelayOne(r, t, e, now).deliveries
  {
    var t' := RelayOne(r, t, e, now);
    var names := ForEvent(r, t.events[e].kind);
    WithDeliveriesIs(t.deliveries, e, names, now + LEASE);
    assert EventFine(r, t, e);
    forall f | f in t'.events ensures EventFine(r, t', f) {
      assert EventFine(r, t, f);
    }
    forall k | k in t'.deliveries ensures DeliveryFine(r, t', k, now) {
      if k in t.deliveries {
        assert DeliveryFine(r, t, k, now);
      }
    }
  }

  lemma {:induction false} RelayKeeps(r: Registry, t: Tables, batch: seq<nat>, now: int)
    requires TablesFine(r, t, now) && Distinct(batch)
    requires forall e | e in batch :: e in t.events && t.events[e].status.Pending?
    ensures var t' := RelayAll(r, t, batch, now);
      && TablesFine(r, t', now) && t.deliveries.Keys <= t'.deliveries.Keys && t'.processed == t.processed
      && (forall f | f in t.events :: t'.events[f].kind == t.events[f].kind && (f !in batch ==> t'.events[f] == t.events[f]))
      && (forall k | k in ToDispatch(r, t, batch) :: k in t'.deliveries)
  {
    if batch != [] {
      var last := |batch| - 1;
      var e := batch[last];
      assert e in batch && batch == batch[..last] + [e];
      RelayKeeps(r, t, batch[..last], now);
      var s := RelayAll(r, t, batch[..last], now);
      assert e !in batch[..last];
      RelayOneKeeps(r, s, e, now);
      forall k | k in ToDispatch(r, t, batch) ensures k in RelayAll(r, t, batch, now).deliveries {
        KeysOfAre(e, ForEvent(r, t.events[e].kind), k);
      }
    }
  }

  lemma ClaimKeeps(r: Registry, t: Tables, batch: seq<Key>, now: int)
    requires TablesFine(r, t, now)
    requires forall k | k in batch :: k in t.deliveries && DueDelivery(t, k, now)
    ensures TablesFine(r, ClaimAll(t, batch, now), now)
  {
    var t' := ClaimAll(t, batch, now);
    forall k | k in t'.deliveries
      ensures DeliveryFine(r, t', k, now) && t'.deliveries[k].status == t.deliveries[k].status
    {
      ClaimAllIs(t, batch, now, k);
      assert DeliveryFine(r, t, k, now);
    }
    forall e | e in t'.events ensures EventFine(r, t', e) {
      assert EventFine(r, t, e);
    }
  }

  lemma RetryKeeps(r: Registry, t: Tables, e: nat, now: int)
    requires TablesFine(r, t, now) && e in t.events
    ensures TablesFine(r, RetryFailed(t, e, now), now)
  {
    var t' := RetryFailed(t, e, now);
    forall k | k in t'.deliveries ensures DeliveryFine(r, t', k, now) {
      assert DeliveryFine(r, t, k, now);
    }
    forall f | f in t'.events ensures EventFine(r, t', f) {
      assert EventFine(r, t, f);
    }
  }

  lemma FailureKeeps(r: Registry, t: Tables, k: Key, now: int)
    requires TablesFine(r, t, now) && k in t.deliveries && k.0 in t.events
    ensures TablesFine(r, Failure(t, k, now), now)
  {
    var t' := Failure(t, k, now);
    assert DeliveryFine(r, t, k, now) && EventFine(r, t, k.0);
    if t.deliveries[k].attempts + 1 < MAX_ATTEMPTS {
      BackoffIsBounded(t.deliveries[k].attempts + 1);
    }
    forall j | j in t'.deliveries ensures DeliveryFine(r, t', j, now) {
      assert DeliveryFine(r, t, j, now);
    }
    forall f | f in t'.events ensures EventFine(r, t', f) {
      assert EventFine(r, t, f);
    }
  }

  lemma KeptKeeps(r: Registry, t: Tables, k: Key, now: int)
    requires TablesFine(r, t, now) && k in t.deliveries && k !in t.processed
    ensures TablesFine(r, Kept(t, k, now), now)
  {
    var t' := Kept(t, k, now);
    assert DeliveryFine(r, t, k, now);
    forall j | j in t'.deliveries ensures DeliveryFine(r, t', j, now) {
      assert DeliveryFine(r, t, j, now);
    }
    forall f | f in t'.events ensures EventFine(r, t', f) {
      assert EventFine(r, t, f);
    }
  }

  lemma CommittedKeeps(r: Registry, t: Tables, task: Task, now: int)
    requires TablesFine(r, t, now) && TaskFine(r, t, task) && task.stage.Written?
    ensures TablesFine(r, Committed(t, task.key, task.stage.settles, now), now)
  {
    var kept, t' := Kept(t, task.key, now), Committed(t, task.key, task.stage.settles, now);
    KeptKeeps(r, t, task.key, now);
    assert DeliveryFine(r, t, task.key, now);
    forall j | j in t'.deliveries ensures DeliveryFine(r, t', j, now) {
      assert DeliveryFine(r, kept, j, now);
    }
    forall f | f in t'.events ensures EventFine(r, t', f) {
      assert EventFine(r, kept, f);
    }
  }

  /** What a task relies on survives whatever the others commit. */
  lemma TasksStayFine(r: Registry, t: Tables, t': Tables, task: Task)
    requires TaskFine(r, t, task)
    requires t.deliveries.Keys <= t'.deliveries.Keys && t.processed <= t'.processed
    requires forall e | e in t.events :: e in t'.events && t'.events[e].kind == t.events[e].kind
    requires task.stage.Written? ==> task.key !in t'.processed
    ensures TaskFine(r, t', task)
  {
  }

  lemma EmitAndTickKeep(r: Registry, w: World, step: Step)
    requires Fine(r, w) && Enabled(w, step) && (step.Emit? || step.Tick?)
    ensures Fine(r, Next(r, w, step))
  {
    var w' := Next(r, w, step);
    forall i | 0 <= i < |w'.tasks| ensures TaskFine(r, w'.tables, w'.tasks[i]) {
      TasksStayFine(r, w.tables, w'.tables, w.tasks[i]);
    }
    forall k | k in w'.tables.deliveries ensures DeliveryFine(r, w'.tables, k, w'.now) {
      assert DeliveryFine(r, w.tables, k, w.now);
    }
    forall e | e in w'.tables.events ensures EventFine(r, w'.tables, e) {
      if step.Emit? && e == step.event {
        forall k | k in w.tables.deliveries ensures k.0 != e { assert DeliveryFine(r, w.tables, k, w.now); }
      } else {
        assert EventFine(r, w.tables, e);
      }
    }
  }

  lemma WriteKeeps(r: Registry, w: World, i: nat)
    requires Fine(r, w) && Enabled(w, Write(i))
    ensures Fine(r, Next(r, w, Write(i)))
  {
    var w' := Next(r, w, Write(i));
    var task := w.tasks[i];
    assert TaskFine(r, w.tables, task) && DeliveryFine(r, w.tables, task.key, w.now);
    assert forall j: nat | j < |w.tasks| && w.tasks[j].key == task.key :: !Holds(w, j, task.key);
    var kept := Kept(w.tables, task.key, w.now);
    if Settles(w.tables, task.key, task.seen, w.now) {
      forall c | c in ForEvent(r, w.tables.events[task.key.0].kind) && c != task.key.1
        ensures (task.key.0, c) in w.tables.processed {
        assert (task.key.0, c) in kept.deliveries && kept.deliveries[(task.key.0, c)].status.Finished?;
        assert DeliveryFine(r, w.tables, (task.key.0, c), w.now);
      }
    }
    assert TaskFine(r, w'.tables, w'.tasks[i]);
    forall j | 0 <= j < |w'.tasks| ensures TaskFine(r, w'.tables, w'.tasks[j]) {
      if j != i {
        assert w'.tasks[j] == w.tasks[j];
      }
    }
  }

  lemma CommitKeeps(r: Registry, w: World, i: nat)
    requires Fine(r, w) && Enabled(w, Commit(i))
    ensures Fine(r, Next(r, w, Commit(i)))
  {
    var w' := Next(r, w, Commit(i));
    CommittedKeeps(r, w.tables, w.tasks[i], w.now);
    forall j | 0 <= j < |w'.tasks| ensures TaskFine(r, w'.tables, w'.tasks[j]) {
      assert TaskFine(r, w.tables, w.tasks[j]);
      TasksStayFine(r, w.tables, w'.tables, w'.tasks[j]);
    }
  }

  lemma RaiseKeeps(r: Registry, w: World, i: nat)
    requires Fine(r, w) && Enabled(w, Raise(i))
    ensures Fine(r, Next(r, w, Raise(i)))
  {
    var w' := Next(r, w, Raise(i));
    assert TaskFine(r, w.tables, w.tasks[i]);
    FailureKeeps(r, w.tables, w.tasks[i].key, w.now);
    forall j | 0 <= j < |w'.tasks| ensures TaskFine(r, w'.tables, w'.tasks[j]) {
      assert TaskFine(r, w.tables, w.tasks[j]);
      TasksStayFine(r, w.tables, w'.tables, w'.tasks[j]);
    }
  }

  lemma OthersKeepTasks(r: Registry, w: World, step: Step)
    requires Fine(r, w) && Enabled(w, step) && !step.Write? && !step.Commit? && !step.Raise?
    requires TablesFine(r, Next(r, w, step).tables, Next(r, w, step).now)
    requires var t, t' := w.tables, Next(r, w, step).tables; t.deliveries.Keys <= t'.deliveries.Keys && t'.processed == t.processed
    requires var t, t' := w.tables, Next(r, w, step).tables; forall e | e in t.events :: e in t'.events && t'.events[e].kind == t.events[e].kind
    requires Next(r, w, step).dispatched <= Next(r, w, step).tables.deliveries.Keys
    ensures Fine(r, Next(r, w, step))
  {
    var w' := Next(r, w, step);
    forall j | 0 <= j < |w'.tasks| ensures TaskFine(r, w'.tables, w'.tasks[j]) {
      if j < |w.tasks| {
        assert TaskFine(r, w.tables, w.tasks[j]);
        TasksStayFine(r, w.tables, w'.tables, w'.tasks[j]);
      } else {
        assert DeliveryFine(r, w.tables, w'.tasks[j].key, w.now);
      }
    }
  }

  lemma StepKeeps(r: Registry, w: World, step: Step)
    requires Fine(r, w) && Enabled(w, step)
    ensures Fine(r, Next(r, w, step))
  {
    match step
    case Tick(_) => EmitAndTickKeep(r, w, step);
    case Emit(_, _) => EmitAndTickKeep(r, w, step);
    case Relay(events) =>
      RelayKeeps(r, w.tables, events, w.now);
      OthersKeepTasks(r, w, step);
    case Claim(keys) =>
      ClaimKeeps(r, w.tables, keys, w.now);
      OthersKeepTasks(r, w, step);
    case Retry(e) =>
      RetryKeeps(r, w.tables, e, w.now);
      OthersKeepTasks(r, w, step);
    case Begin(_) => OthersKeepTasks(r, w, step);
    case Write(i) => WriteKeeps(r, w, i);
    case Commit(i) => CommitKeeps(r, w, i);
    case Raise(i) => RaiseKeeps(r, w, i);
    case Crash(_) => OthersKeepTasks(r, w, step);
  }

  lemma {:induction false} EveryRunIsFine(r: Registry, steps: seq<Step>)
    requires Feasible(r, START, steps)
    ensures Fine(r, Exec(r, START, steps))
  {
    if steps != [] {
      EveryRunIsFine(r, steps[..|steps| - 1]);
      StepKeeps(r, Exec(r, START, steps[..|steps| - 1]), steps[|steps| - 1]);
    }
  }

  // ---------------------------------------------------------------- the promises

  /** A consumer's effect is committed exactly when its processed mark is, and never twice. */
  lemma EffectsHappenOnce(r: Registry, steps: seq<Step>, k: Key)
    requires Feasible(r, START, steps)
    ensures var t := Exec(r, START, steps).tables;
      && (k in t.effects <==> k in t.processed)
      && (forall i, j | 0 <= i < |t.effects| && 0 <= j < |t.effects| && t.effects[i] == k && t.effects[j] == k :: i == j)
  {
    EveryRunIsFine(r, steps);
  }

  /** A done event has had its effect on every consumer of its type, once each, although the run that
      marked it done counted before it committed, and the others may have gone on meanwhile. */
  lemma DoneMeansEveryConsumerRan(r: Registry, steps: seq<Step>, e: nat, c: string)
    requires Feasible(r, START, steps)
    requires var t := Exec(r, START, steps).tables; e in t.events && t.events[e].status.Done?
    requires c in ForEvent(r, Exec(r, START, steps).tables.events[e].kind)
    ensures var t := Exec(r, START, steps).tables;
      (e, c) in t.effects && (e, c) in t.processed && (e, c) in t.deliveries
  {
    EveryRunIsFine(r, steps);
    var w := Exec(r, START, steps);
    assert EventFine(r, w.tables, e);
  }

  /** A delivery still to be made always has a due time, at most two hours away, and an attempt left;
      a dead one has used them all up; and no event waiting for the relay has any delivery, so the
      relay never makes one twice. */
  lemma NothingWaitsForever(r: Registry, steps: seq<Step>, k: Key)
    requires Feasible(r, START, steps) && k in Exec(r, START, steps).tables.deliveries
    ensures var w := Exec(r, START, steps); var d := w.tables.deliveries[k];
      && (d.status.Waiting? ==> d.due.Some? && d.due.value <= w.now + LONGEST && d.attempts < MAX_ATTEMPTS)
      && (d.status.Dead? ==> d.due.None? && d.attempts >= MAX_ATTEMPTS)
      && (d.status.Finished? ==> k in w.tables.processed)
      && k.0 in w.tables.events && !w.tables.events[k.0].status.Pending?
  {
    EveryRunIsFine(r, steps);
    var w := Exec(r, START, steps);
    assert DeliveryFine(r, w.tables, k, w.now) && EventFine(r, w.tables, k.0);
  }

  lemma OneMore(r: Registry, w: World, steps: seq<Step>, step: Step)
    requires Feasible(r, w, steps) && Enabled(Exec(r, w, steps), step)
    ensures Feasible(r, w, steps + [step])
    ensures Exec(r, w, steps + [step]) == Next(r, Exec(r, w, steps), step)
  {
    assert (steps + [step])[..|steps + [step]| - 1] == steps;
  }

  /** Open transactions can always be given up: nothing of them is kept. */
  lemma {:induction false} TasksLetGo(r: Registry, steps: seq<Step>, n: nat) returns (more: seq<Step>)
    requires Feasible(r, START, steps) && n <= |Exec(r, START, steps).tasks|
    ensures Feasible(r, START, steps + more)
    ensures var w, w' := Exec(r, START, steps), Exec(r, START, steps + more);
      && w' == w.(tasks := w'.tasks) && |w'.tasks| == |w.tasks|
      && (forall i | 0 <= i < n :: w'.tasks[i].stage.Over?)
  {
    if n == 0 {
      more := [];
      assert steps + more == steps;
    } else {
      var rest := TasksLetGo(r, steps, n - 1);
      OneMore(r, START, steps + rest, Crash(n - 1));
      more := rest + [Crash(n - 1)];
      assert steps + more == steps + rest + [Crash(n - 1)];
    }
  }

  ghost predicate AllOver(w: World) {
    forall i | 0 <= i < |w.tasks| :: w.tasks[i].stage.Over?
  }

  /** From a delivery that is due and that no one is at, claiming it and running it once is enough. */
  lemma ADueDeliveryCanRun(r: Registry, steps: seq<Step>, k: Key) returns (more: seq<Step>)
    requires Feasible(r, START, steps) && AllOver(Exec(r, START, steps))
    requires DueDelivery(Exec(r, START, steps).tables, k, Exec(r, START, steps).now)
    ensures Feasible(r, START, steps + more) && k in Exec(r, START, steps + more).tables.processed
  {
    EveryRunIsFine(r, steps);
    var w := Exec(r, START, steps);
    assert DeliveryFine(r, w.tables, k, w.now);
    OneMore(r, START, steps, Claim([k]));
    var c := steps + [Claim([k])];
    OneMore(r, START, c, Begin(k));
    if k in w.tables.processed {
      more := [Claim([k]), Begin(k)];
      assert steps + more == c + [Begin(k)];
    } else {
      var n := |w.tasks|;
      OneMore(r, START, c + [Begin(k)], Write(n));
      OneMore(r, START, c + [Begin(k)] + [Write(n)], Commit(n));
      more := [Claim([k]), Begin(k), Write(n), Commit(n)];
      assert steps + more == c + [Begin(k)] + [Write(n)] + [Commit(n)];
    }
  }

  /** Whatever was lost, duplicated or given up before, every delivery can still be made: at most a
      retry by hand and two hours' wait away. */
  lemma NoDeliveryIsStranded(r: Registry, steps: seq<Step>, k: Key) returns (more: seq<Step>)
    requires Feasible(r, START, steps) && k in Exec(r, START, steps).tables.deliveries
    ensures Feasible(r, START, steps + more) && k in Exec(r, START, steps + more).tables.processed
  {
    EveryRunIsFine(r, steps);
    var freed := TasksLetGo(r, steps, |Exec(r, START, steps).tasks|);
    var c := steps + freed;
    var w := Exec(r, START, c);
    EveryRunIsFine(r, c);
    assert DeliveryFine(r, w.tables, k, w.now);
    var d := w.tables.deliveries[k];
    if d.status.Finished? {
      more := freed;
    } else {
      var step := if d.status.Dead? then Retry(k.0) else Tick(LONGEST);
      OneMore(r, START, c, step);
      var rest := ADueDeliveryCanRun(r, c + [step], k);
      more := freed + [step] + rest;
      assert steps + more == c + [step] + rest;
    }
  }

  // ---------------------------------------------------------------- late failures

  /** A handler that fails after another run of the same delivery committed, and for the last time
      that is counted. */
  ghost predicate FailsTooLate(w: World, step: Step)
    requires Enabled(w, step)
  {
    step.Raise? &&
    var k := w.tasks[step.task].key;
    k in w.tables.processed && k in w.tables.deliveries && w.tables.deliveries[k].attempts + 1 >= MAX_ATTEMPTS
  }

  ghost predicate NeverFailsTooLate(r: Registry, steps: seq<Step>)
    requires Feasible(r, START, steps)
  {
    steps == [] ||
    var last := |steps| - 1;
    NeverFailsTooLate(r, steps[..last]) && !FailsTooLate(Exec(r, START, steps[..last]), steps[last])
  }

  ghost predicate InStep(t: Tables) {
    forall k | k in t.deliveries :: t.deliveries[k].status.Finished? <==> k in t.processed
  }

  /** The only way for the two tables to part is a failure that comes too late. */
  lemma OnlyALateFailureParts(r: Registry, w: World, step: Step)
    requires Fine(r, w) && InStep(w.tables) && Enabled(w, step)
    ensures InStep(Next(r, w, step).tables) <==> !FailsTooLate(w, step)
  {
    var t := w.tables;
    match step
    case Relay(events) => RelayKeepsInStep(r, t, events, w.now);
    case Claim(keys) =>
      forall k | k in t.deliveries ensures ClaimAll(t, keys, w.now).deliveries[k].status == t.deliveries[k].status {
        ClaimAllIs(t, keys, w.now, k);
      }
    case Raise(i) =>
      assert w.tasks[i].key in Next(r, w, step).tables.deliveries;
    case _ =>
  }

  lemma {:induction false} RelayKeepsInStep(r: Registry, t: Tables, batch: seq<nat>, now: int)
    requires TablesFine(r, t, now) && InStep(t) && Distinct(batch)
    requires forall e | e in batch :: e in t.events && t.events[e].status.Pending?
    ensures InStep(RelayAll(r, t, batch, now)) && RelayAll(r, t, batch, now).processed == t.processed
  {
    if batch != [] {
      var last := |batch| - 1;
      var e := batch[last];
      assert e in batch && batch == batch[..last] + [e];
      RelayKeeps(r, t, batch[..last], now);
      RelayKeepsInStep(r, t, batch[..last], now);
      var s := RelayAll(r, t, batch[..last], now);
      assert EventFine(r, s, e);
      WithDeliveriesIs(s.deliveries, e, ForEvent(r, s.events[e].kind), now + LEASE);
    }
  }

  /** Without such failures, a delivery is done exactly when its effect is committed. */
  lemma {:induction false} DoneMeansProcessed(r: Registry, steps: seq<Step>)
    requires Feasible(r, START, steps) && NeverFailsTooLate(r, steps)
    ensures InStep(Exec(r, START, steps).tables)
  {
    if steps != [] {
      var last := |steps| - 1;
      DoneMeansProcessed(r, steps[..last]);
      EveryRunIsFine(r, steps[..last]);
      OnlyALateFailureParts(r, Exec(r, START, steps[..last]), steps[last]);
    }
  }

  // ---------------------------------------------------------------- done over a failure

  /** Every done event has all its deliveries done. */
  ghost predicate Delivered(t: Tables) {
    forall e | e in t.events && t.events[e].status.Done? :: AllFinished(t, e)
  }

  /** A run that counted its event as done commits when another delivery of it is not done any more. */
  ghost predicate MarksOverAFailure(w: World, step: Step)
    requires Enabled(w, step)
  {
    step.Commit? && w.tasks[step.task].stage.settles
    && !AllFinished(Kept(w.tables, w.tasks[step.task].key, w.now), w.tasks[step.task].key.0)
  }

  lemma {:induction false} RelayDelivers(r: Registry, t: Tables, batch: seq<nat>, now: int)
    requires TablesFine(r, t, now) && Delivered(t) && Distinct(batch)
    requires forall e | e in batch :: e in t.events && t.events[e].status.Pending?
    ensures Delivered(RelayAll(r, t, batch, now))
  {
    if batch != [] {
      var last := |batch| - 1;
      var e := batch[last];
      assert e in batch && batch == batch[..last] + [e];
      RelayKeeps(r, t, batch[..last], now);
      RelayDelivers(r, t, batch[..last], now);
      var s := RelayAll(r, t, batch[..last], now);
      assert EventFine(r, s, e);
      WithDeliveriesIs(s.deliveries, e, ForEvent(r, s.events[e].kind), now + LEASE);
    }
  }

  /** The only way for an event to read done over an unfinished delivery is such a commit. */
  lemma OnlyAStaleCountMarksOverAFailure(r: Registry, w: World, step: Step)
    requires Fine(r, w) && Delivered(w.tables) && Enabled(w, step)
    ensures Delivered(Next(r, w, step).tables) <==> !MarksOverAFailure(w, step)
  {
    var t := w.tables;
    match step
    case Relay(events) => RelayDelivers(r, t, events, w.now);
    case Claim(keys) =>
      forall k | k in t.deliveries ensures ClaimAll(t, keys, w.now).deliveries[k].status == t.deliveries[k].status {
        ClaimAllIs(t, keys, w.now, k);
      }
    case Commit(i) =>
      assert TaskFine(r, t, w.tasks[i]);
      assert AllFinished(Next(r, w, step).tables, w.tasks[i].key.0) <==> AllFinished(Kept(t, w.tasks[i].key, w.now), w.tasks[i].key.0);
    case _ =>
  }

  ghost predicate NeverMarksOverAFailure(r: Registry, steps: seq<Step>)
    requires Feasible(r, START, steps)
  {
    steps == [] ||
    var last := |steps| - 1;
    NeverMarksOverAFailure(r, steps[..last]) && !MarksOverAFailure(Exec(r, START, steps[..last]), steps[last])
  }

  /** Without such commits, a done event has all its deliveries done. */
  lemma {:induction false} DoneMeansDelivered(r: Registry, steps: seq<Step>)
    requires Feasible(r, START, steps) && NeverMarksOverAFailure(r, steps)
    ensures Delivered(Exec(r, START, steps).tables)
  {
    if steps != [] {
      var last := |steps| - 1;
      DoneMeansDelivered(r, steps[..last]);
      EveryRunIsFine(r, steps[..last]);
      OnlyAStaleCountMarksOverAFailure(r, Exec(r, START, steps[..last]), steps[last]);
    }
  }

  // ---------------------------------------------------------------- no consumer is skipped

  /** Every event that left the relay has a delivery for each of its consumers. */
  ghost predicate Served(r: Registry, t: Tables) {
    forall e, c | e in t.events && !t.events[e].status.Pending? && c in ForEvent(r, t.events[e].kind) :: (e, c) in t.deliveries
  }

  /** A retry by hand of an event that still waits for the relay, and has consumers. */
  ghost predicate RetriesTooEarly(r: Registry, t: Tables, step: Step) {
    step.Retry? && step.event in t.events && t.events[step.event].status.Pending?
    && ForEvent(r, t.events[step.event].kind) != []
  }

  lemma {:induction false} RelayServes(r: Registry, t: Tables, batch: seq<nat>, now: int)
    requires TablesFine(r, t, now) && Served(r, t) && Distinct(batch)
    requires forall e | e in batch :: e in t.events && t.events[e].status.Pending?
    ensures Served(r, RelayAll(r, t, batch, now))
  {
    if batch != [] {
      var last := |batch| - 1;
      var e := batch[last];
      assert e in batch && batch == batch[..last] + [e];
      RelayKeeps(r, t, batch[..last], now);
      RelayServes(r, t, batch[..last], now);
      RelayOneKeeps(r, RelayAll(r, t, batch[..last], now), e, now);
    }
  }

  lemma TaskStepServes(r: Registry, w: World, step: Step)
    requires Fine(r, w) && Served(r, w.tables) && Enabled(w, step) && (step.Commit? || step.Raise?)
    ensures Served(r, Next(r, w, step).tables)
  {
    var k := w.tasks[step.task].key;
    assert TaskFine(r, w.tables, w.tasks[step.task]) && EventFine(r, w.tables, k.0);
  }

  /** The only way to skip a consumer is to retry an event by hand before it was relayed. */
  lemma OnlyAnEarlyRetrySkips(r: Registry, w: World, step: Step)
    requires Fine(r, w) && Served(r, w.tables) && Enabled(w, step)
    ensures Served(r, Next(r, w, step).tables) <==> !RetriesTooEarly(r, w.tables, step)
  {
    match step
    case Relay(events) => RelayServes(r, w.tables, events, w.now);
    case Commit(_) => TaskStepServes(r, w, step);
    case Raise(_) => TaskStepServes(r, w, step);
    case Retry(e) =>
      assert EventFine(r, w.tables, e);
      if RetriesTooEarly(r, w.tables, step) {
        var c := ForEvent(r, w.tables.events[e].kind)[0];
        assert c in ForEvent(r, w.tables.events[e].kind) && (e, c) !in w.tables.deliveries;
      }
    case _ =>
  }

  ghost predicate NeverRetriesTooEarly(r: Registry, steps: seq<Step>)
    requires Feasible(r, START, steps)
  {
    steps == [] ||
    var last := |steps| - 1;
    NeverRetriesTooEarly(r, steps[..last]) && !RetriesTooEarly(r, Exec(r, START, steps[..last]).tables, steps[last])
  }

  /** If events are retried only once relayed, no event leaves the relay without a delivery for each
      of its consumers. */
  lemma {:induction false} NoConsumerIsSkipped(r: Registry, steps: seq<Step>)
    requires Feasible(r, START, steps) && NeverRetriesTooEarly(r, steps)
    ensures Served(r, Exec(r, START, steps).tables)
  {
    if steps != [] {
      var last := |steps| - 1;
      NoConsumerIsSkipped(r, steps[..last]);
      EveryRunIsFine(r, steps[..last]);
      OnlyAnEarlyRetrySkips(r, Exec(r, START, steps[..last]), steps[last]);
    }
  }
}
