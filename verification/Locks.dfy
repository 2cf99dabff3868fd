/** Locking balances: every transaction takes the rows it needs one at a time, in ascending id order,
    and holds them to its end. So no two ever wait for each other, directly or around a circle. */
module Locks {
  import opened Common

  /** A transaction that is to lock the rows `wanted`, in that order, and has `got` of them. */
  datatype Txn = Txn(wanted: seq<nat>, got: nat, over: bool)

  datatype Step =
    | Begin(ids: set<nat>)
    | Take(txn: nat)
    | End(txn: nat)

  predicate Sound(t: Txn) {
    t.got <= |t.wanted|
  }

  predicate Holds(t: Txn, row: nat) {
    Sound(t) && !t.over && row in t.wanted[..t.got]
  }

  predicate Waiting(t: Txn) {
    !t.over && t.got < |t.wanted|
  }

  function NextRow(t: Txn): nat
    requires Waiting(t)
  {
    t.wanted[t.got]
  }

  /** Nobody else holds the next row the transaction needs. */
  predicate Free(ts: seq<Txn>, i: nat)
    requires i < |ts| && Waiting(ts[i])
  {
    forall j | 0 <= j < |ts| && j != i :: !Holds(ts[j], NextRow(ts[i]))
  }

  predicate Enabled(ts: seq<Txn>, step: Step) {
    match step
    case Begin(_) => true
    case Take(i) => i < |ts| && Waiting(ts[i]) && Free(ts, i)
    case End(i) => i < |ts| && !ts[i].over && !Waiting(ts[i])
  }

  function Next(ts: seq<Txn>, step: Step): seq<Txn>
    requires Enabled(ts, step)
  {
    match step
    case Begin(ids) => ts + [Txn(SortedIds(ids), 0, false)]
    case Take(i) => ts[i := ts[i].(got := ts[i].got + 1)]
    case End(i) => ts[i := ts[i].(over := true)]
  }

  predicate Feasible(ts: seq<Txn>, steps: seq<Step>)
    decreases |steps|
  {
    steps == [] || (Enabled(ts, steps[0]) && Feasible(Next(ts, steps[0]), steps[1..]))
  }

  function Exec(ts: seq<Txn>, steps: seq<Step>): seq<Txn>
    requires Feasible(ts, steps)
    decreases |steps|
  {
    if steps == [] then ts else Exec(Next(ts, steps[0]), steps[1..])
  }

  // ---------------------------------------------------------------- what always holds

  ghost predicate Both(ts: seq<Txn>, i: int, j: int, row: nat)
    requires 0 <= i < |ts| && 0 <= j < |ts|
  {
    i != j && Holds(ts[i], row) && Holds(ts[j], row)
  }

  /** Everyone locks in ascending order, and no row is held twice. */
  ghost predicate Orderly(ts: seq<Txn>) {
    && (forall i | 0 <= i < |ts| :: Sound(ts[i]) && Ascending(ts[i].wanted))
    && (forall i, j, row | 0 <= i < |ts| && 0 <= j < |ts| :: !Both(ts, i, j, row))
  }

  lemma StepKeepsOrderly(ts: seq<Txn>, step: Step)
    requires Orderly(ts) && Enabled(ts, step)
    ensures Orderly(Next(ts, step))
  {
    var ts' := Next(ts, step);
    forall i, j, row | 0 <= i < |ts'| && 0 <= j < |ts'| ensures !Both(ts', i, j, row) {
      if i < |ts| && j < |ts| {
        assert !Both(ts, i, j, row);
        if step.Take? {
          TakingAdds(ts[step.txn], row);
        }
      }
    }
  }

  lemma TakingAdds(t: Txn, row: nat)
    requires Sound(t) && Waiting(t)
    ensures Holds(t.(got := t.got + 1), row) <==> Holds(t, row) || row == t.wanted[t.got]
  {
    assert t.wanted[..t.got + 1] == t.wanted[..t.got] + [t.wanted[t.got]];
  }

  lemma {:induction false} EveryRunIsOrderly(ts: seq<Txn>, steps: seq<Step>)
    requires Orderly(ts) && Feasible(ts, steps)
    ensures Orderly(Exec(ts, steps))
    decreases |steps|
  {
    if steps != [] {
      StepKeepsOrderly(ts, steps[0]);
      EveryRunIsOrderly(Next(ts, steps[0]), steps[1..]);
    }
  }

  // ---------------------------------------------------------------- nobody waits in a circle

  predicate WaitsFor(ts: seq<Txn>, i: nat, j: nat) {
    i < |ts| && j < |ts| && i != j && Waiting(ts[i]) && Holds(ts[j], NextRow(ts[i]))
  }

  predicate WaitsAt(ts: seq<Txn>, i: nat) {
    i < |ts| && Waiting(ts[i])
  }

  predicate Chain(ts: seq<Txn>, chain: seq<nat>) {
    forall k | 0 <= k < |chain| - 1 :: WaitsFor(ts, chain[k], chain[k + 1])
  }

  /** Whoever is waited for, and waits, waits for a later row. */
  lemma TheOtherWaitsFurther(ts: seq<Txn>, i: nat, j: nat)
    requires Orderly(ts) && WaitsFor(ts, i, j) && Waiting(ts[j])
    ensures NextRow(ts[i]) < NextRow(ts[j])
  {
    var row := NextRow(ts[i]);
    var k: nat :| k < ts[j].got && ts[j].wanted[..ts[j].got][k] == row;
    assert ts[j].wanted[k] == row;
  }

  lemma {:induction false} AlongAChainRowsAscend(ts: seq<Txn>, chain: seq<nat>)
    requires Orderly(ts) && Chain(ts, chain) && 2 <= |chain|
    requires forall k | 0 <= k < |chain| :: WaitsAt(ts, chain[k])
    ensures WaitsAt(ts, chain[0]) && WaitsAt(ts, chain[|chain| - 1])
    ensures NextRow(ts[chain[0]]) < NextRow(ts[chain[|chain| - 1]])
  {
    var last := |chain| - 1;
    assert WaitsFor(ts, chain[last - 1], chain[last]);
    TheOtherWaitsFurther(ts, chain[last - 1], chain[last]);
    if last > 1 {
      AlongAChainRowsAscend(ts, chain[..last]);
    }
  }

  /** No circle of transactions, however long, in which each waits for the next. */
  lemma NoDeadlock(steps: seq<Step>, circle: seq<nat>)
    requires Feasible([], steps) && 2 <= |circle| && circle[0] == circle[|circle| - 1]
    ensures !Chain(Exec([], steps), circle)
  {
    EveryRunIsOrderly([], steps);
    var ts := Exec([], steps);
    if Chain(ts, circle) {
      forall k | 0 <= k < |circle| ensures WaitsAt(ts, circle[k]) {
        assert WaitsFor(ts, circle[if k < |circle| - 1 then k else 0], circle[if k < |circle| - 1 then k + 1 else 1]);
      }
      AlongAChainRowsAscend(ts, circle);
    }
  }

  // ---------------------------------------------------------------- everybody gets through

  function Left(t: Txn): nat {
    if t.over || |t.wanted| < t.got then 0 else |t.wanted| - t.got + 1
  }

  function Work(ts: seq<Txn>): nat {
    if ts == [] then 0 else Left(ts[0]) + Work(ts[1..])
  }

  lemma {:induction false} WorkWith(ts: seq<Txn>, i: nat, t: Txn)
    requires i < |ts|
    ensures Work(ts[i := t]) == Work(ts) - Left(ts[i]) + Left(t)
  {
    if i > 0 {
      assert ts[i := t][1..] == ts[1..][i - 1 := t];
      WorkWith(ts[1..], i - 1, t);
    } else {
      assert ts[i := t][1..] == ts[1..];
    }
  }

  lemma {:induction false} NoWorkLeft(ts: seq<Txn>, i: nat)
    requires i < |ts| && !ts[i].over && Sound(ts[i])
    ensures Work(ts) > 0
  {
    if i > 0 {
      NoWorkLeft(ts[1..], i - 1);
    }
  }

  /** Of the transactions up to `n` that wait, one that waits for the furthest row. */
  lemma {:induction false} FurthestWaiter(ts: seq<Txn>, n: nat) returns (i: nat)
    requires n <= |ts| && exists j :: 0 <= j < n && Waiting(ts[j])
    ensures i < n && Waiting(ts[i])
    ensures forall j | 0 <= j < n && Waiting(ts[j]) :: NextRow(ts[j]) <= NextRow(ts[i])
  {
    if exists j :: 0 <= j < n - 1 && Waiting(ts[j]) {
      i := FurthestWaiter(ts, n - 1);
      if Waiting(ts[n - 1]) && NextRow(ts[i]) < NextRow(ts[n - 1]) {
        i := n - 1;
      }
    } else {
      i := n - 1;
    }
  }

  /** As long as anyone is not done, someone can take a row or end. */
  lemma SomeoneCanAdvance(ts: seq<Txn>, open: nat) returns (step: Step)
    requires Orderly(ts) && open < |ts| && !ts[open].over
    ensures Enabled(ts, step) && !step.Begin? && Work(Next(ts, step)) < Work(ts)
  {
    var i: nat := open;
    if Waiting(ts[open]) {
      i := FurthestWaiter(ts, |ts|);
    }
    if Waiting(ts[i]) && !Free(ts, i) {
      var j: nat :| j < |ts| && j != i && Holds(ts[j], NextRow(ts[i]));
      assert WaitsFor(ts, i, j);
      NotWaitingFurther(ts, i, j);
      i := j;
    }
    step := if Waiting(ts[i]) then Take(i) else End(i);
    WorkWith(ts, i, Next(ts, step)[i]);
  }

  lemma NotWaitingFurther(ts: seq<Txn>, i: nat, j: nat)
    requires Orderly(ts) && WaitsFor(ts, i, j)
    requires forall k | 0 <= k < |ts| && Waiting(ts[k]) :: NextRow(ts[k]) <= NextRow(ts[i])
    ensures !Waiting(ts[j])
  {
    if Waiting(ts[j]) {
      TheOtherWaitsFurther(ts, i, j);
    }
  }

  /** From any reachable state, every transaction can still get all its rows and end. */
  lemma {:induction false} EveryoneCanFinish(ts: seq<Txn>) returns (steps: seq<Step>)
    requires Orderly(ts)
    ensures Feasible(ts, steps) && forall t | t in Exec(ts, steps) :: t.over
    decreases Work(ts)
  {
    if i: nat :| i < |ts| && !ts[i].over {
      var step := SomeoneCanAdvance(ts, i);
      StepKeepsOrderly(ts, step);
      var rest := EveryoneCanFinish(Next(ts, step));
      steps := [step] + rest;
    } else {
      steps := [];
    }
  }
}
