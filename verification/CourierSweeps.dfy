/** When a row is taken up again: no row waits longer than the longest pause, and a row that was once
    settled is never dispatched, however late the request to look at it arrives. */
module CourierSweeps {
  import opened Common
  import opened CourierRow
  import opened CourierProtocol
  import opened CourierInvariant
  import opened CourierLanding
  import opened CourierSafety

  const LONGEST_PAUSE := 600

  predicate DueSoon(row: Row, now: int) {
    row.nextAttemptAt.Some? ==> row.nextAttemptAt.value <= now + LONGEST_PAUSE
  }

  predicate AllDueSoon(s: World) {
    forall r | r in s.rows :: DueSoon(s.rows[r], s.now)
  }

  lemma BackoffIsBounded(attempts: nat)
    ensures 0 < BackoffAfter(attempts) <= LONGEST_PAUSE
  {
    var i := if attempts == 0 then 3 else Min(attempts - 1, 3);
    assert BACKOFF[i] == [30, 60, 180, 600][i];
  }

  lemma TransactionsAreDueSoon(row: Row, attempt: nat, outcome: Outcome, info: Option<Info>, error: Option<CourierError>, now: int)
    requires DueSoon(row, now)
    ensures DueSoon(Recorded(row, attempt, outcome, now), now)
    ensures DueSoon(CancelFinished(row, attempt, info, error, now), now)
    ensures info.Some? ==> DueSoon(Tracked(row, info.value, now), now)
  {
    BackoffIsBounded(row.attempts);
  }

  lemma WriteBackKeepsDueSoon(p: Provider, s: World, step: Step)
    requires AllDueSoon(s) && Enabled(p, s, step) && (step.Record? || step.FinishCancel? || step.FinishTrack?)
    ensures AllDueSoon(Next(p, s, step))
  {
    var k := s.workers[step.worker];
    var row := s.rows[k.row];
    if step.Record? {
      TransactionsAreDueSoon(row, k.attempt, k.phase.outcome, None, None, s.now);
      assert Next(p, s, step).rows == s.rows[k.row := Recorded(row, k.attempt, k.phase.outcome, s.now)];
    } else if step.FinishCancel? {
      TransactionsAreDueSoon(row, k.attempt, TooDear(0), k.phase.cancelInfo, k.phase.cancelError, s.now);
      assert Next(p, s, step).rows
        == s.rows[k.row := CancelFinished(row, k.attempt, k.phase.cancelInfo, k.phase.cancelError, s.now)];
    } else {
      TransactionsAreDueSoon(row, k.attempt, TooDear(0), Some(k.phase.report), None, s.now);
      assert Next(p, s, step).rows == s.rows[k.row := Tracked(row, k.phase.report, s.now)];
    }
  }

  lemma StepKeepsDueSoon(p: Provider, s: World, step: Step)
    requires AllDueSoon(s) && Enabled(p, s, step)
    ensures AllDueSoon(Next(p, s, step))
  {
    if step.Record? || step.FinishCancel? || step.FinishTrack? {
      WriteBackKeepsDueSoon(p, s, step);
    }
  }

  lemma {:induction false} EveryRowIsDueSoon(p: Provider, steps: seq<Step>)
    requires Feasible(p, START, steps)
    ensures AllDueSoon(Exec(p, START, steps))
  {
    if steps != [] {
      EveryRowIsDueSoon(p, steps[..|steps| - 1]);
      StepKeepsDueSoon(p, Exec(p, START, steps[..|steps| - 1]), steps[|steps| - 1]);
    }
  }

  /** The claim a sweep makes on a row someone must act on. */
  function TurnOf(row: Row, r: nat, w: nat): Step {
    if row.status.Cancelling? then ClaimCancel(r, w, false) else Claim(r, w)
  }

  /** Whatever crashed, was lost or was taken over: a row to be dispatched or cancelled can be taken up
      by any idle worker after a wait that never exceeds the longest pause, and not before. */
  lemma EveryRowGetsItsTurn(p: Provider, steps: seq<Step>, r: nat, w: nat) returns (wait: nat)
    requires Feasible(p, START, steps) && r in Exec(p, START, steps).rows && w !in Exec(p, START, steps).workers
    requires var row := Exec(p, START, steps).rows[r]; row.status.Requested? || row.status.Creating? || row.status.Cancelling?
    ensures wait <= LONGEST_PAUSE
    ensures forall m: nat :: Feasible(p, START, steps + [Tick(m)])
    ensures var turn := TurnOf(Exec(p, START, steps).rows[r], r, w);
      forall m: nat :: Enabled(p, Exec(p, START, steps + [Tick(m)]), turn) <==> wait <= m
  {
    EveryRunKeepsBase(p, steps);
    EveryRowIsDueSoon(p, steps);
    var s := Exec(p, START, steps);
    assert RowFine(s, r);
    wait := Max(0, s.rows[r].nextAttemptAt.value - s.now);
    forall m: nat ensures Feasible(p, START, steps + [Tick(m)]) && Exec(p, START, steps + [Tick(m)]) == s.(now := s.now + m) {
      AfterAWait(p, steps, m);
    }
    forall m: nat ensures Enabled(p, Exec(p, START, steps + [Tick(m)]), TurnOf(s.rows[r], r, w)) <==> wait <= m {
      assert Exec(p, START, steps + [Tick(m)]) == s.(now := s.now + m);
    }
  }

  lemma AfterAWait(p: Provider, steps: seq<Step>, m: nat)
    requires Feasible(p, START, steps)
    ensures Feasible(p, START, steps + [Tick(m)])
    ensures var s := Exec(p, START, steps); Exec(p, START, steps + [Tick(m)]) == s.(now := s.now + m)
  {
    assert (steps + [Tick(m)])[..|steps + [Tick(m)]| - 1] == steps;
  }

  /** The operator's refresh reads the row, and the worker acts later, whether or not the row is due.
      A row that was active when it was read is never dispatched by it, nor given up, whatever
      happened in between. */
  lemma ForcingNeverDispatches(p: Provider, steps: seq<Step>, more: seq<Step>, r: nat, w: nat)
    requires Feasible(p, START, steps) && Feasible(p, START, steps + more)
    requires r in Exec(p, START, steps).rows && Exec(p, START, steps).rows[r].status.Active?
    ensures var t := Exec(p, START, steps + more);
      && r in t.rows && PastDispatch(t.rows[r].status)
      && !Enabled(p, t, Claim(r, w)) && !Enabled(p, t, GiveUp(r, true)) && !Enabled(p, t, GiveUp(r, false))
  {
    RowsOnlyEvolve(p, steps, more, r);
  }
}
