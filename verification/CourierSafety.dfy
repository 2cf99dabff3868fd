/** What the dispatch protocol promises with any provider: the cap, coherent rows, and attempts that
    fence each other off. */
module CourierSafety {
  import opened Common
  import opened CourierRow
  import opened CourierProtocol
  import opened CourierInvariant
  import opened CourierLanding

  // ---------------------------------------------------------------- rows and the cap

  lemma StepEvolvesRows(p: Provider, s: World, step: Step)
    requires Base(s) && Enabled(p, s, step)
    ensures forall r | r in s.rows :: r in Next(p, s, step).rows && Evolves(s.rows[r], Next(p, s, step).rows[r])
  {
    forall r | r in s.rows ensures r in Next(p, s, step).rows && Evolves(s.rows[r], Next(p, s, step).rows[r]) {
      assert RowFine(s, r);
      StepEvolvesRow(p, s, step, r);
    }
  }

  lemma StoreStepEvolvesRow(p: Provider, s: World, step: Step, r: nat)
    requires Base(s) && Enabled(p, s, step) && r in s.rows && StoreStep(step)
    ensures r in Next(p, s, step).rows && Evolves(s.rows[r], Next(p, s, step).rows[r])
  {
    assert RowFine(s, r);
    if step.Confirm? {
      assert RowFine(s, step.row);
      ConfirmingRaisesTheCap(s.rows[step.row], s.now);
    } else if step.Cancel? {
      assert RowFine(s, step.row);
      CancelRequestedOk(s.rows[step.row], s.now);
    }
  }

  lemma RecordEvolvesRow(p: Provider, s: World, step: Step, r: nat)
    requires Base(s) && Enabled(p, s, step) && r in s.rows && step.Record?
    ensures r in Next(p, s, step).rows && Evolves(s.rows[r], Next(p, s, step).rows[r])
  {
    var k := s.workers[step.worker];
    assert WorkerFine(s, k) && RowFine(s, k.row) && RowFine(s, r);
    RecordedOk(s.rows[k.row], k.attempt, k.phase.outcome, s.now);
  }

  lemma FinishEvolvesRow(p: Provider, s: World, step: Step, r: nat)
    requires Base(s) && Enabled(p, s, step) && r in s.rows && (step.FinishCancel? || step.FinishTrack?)
    ensures r in Next(p, s, step).rows && Evolves(s.rows[r], Next(p, s, step).rows[r])
  {
    FinishedRow(p, s, step);
    assert r != s.workers[step.worker].row ==> Next(p, s, step).rows[r] == s.rows[r];
  }

  lemma ClaimEvolvesRow(p: Provider, s: World, step: Step, r: nat)
    requires Base(s) && Enabled(p, s, step) && r in s.rows && ClaimStep(step)
    ensures r in Next(p, s, step).rows && Evolves(s.rows[r], Next(p, s, step).rows[r])
  {
    assert RowFine(s, r);
    var row' := if step.Claim? then ClaimedRow(s.rows[step.row], s.now)
                else if step.ClaimCancel? then CancelClaimedRow(s.rows[step.row], s.now)
                else TrackClaimedRow(s.rows[step.row], s.now);
    assert Next(p, s, step).rows == s.rows[step.row := row'];
  }

  lemma RememberEvolvesRow(p: Provider, s: World, step: Step, r: nat)
    requires Base(s) && Enabled(p, s, step) && r in s.rows && step.Remember?
    ensures r in Next(p, s, step).rows && Evolves(s.rows[r], Next(p, s, step).rows[r])
  {
    assert Next(p, s, step) == RememberNext(s, step.worker);
  }

  lemma StepEvolvesRow(p: Provider, s: World, step: Step, r: nat)
    requires Base(s) && Enabled(p, s, step) && r in s.rows
    ensures r in Next(p, s, step).rows && Evolves(s.rows[r], Next(p, s, step).rows[r])
  {
    if StoreStep(step) {
      StoreStepEvolvesRow(p, s, step, r);
    } else if step.Record? {
      RecordEvolvesRow(p, s, step, r);
    } else if step.FinishCancel? || step.FinishTrack? {
      FinishEvolvesRow(p, s, step, r);
    } else if step.Remember? {
      RememberEvolvesRow(p, s, step, r);
    } else if ClaimStep(step) {
      ClaimEvolvesRow(p, s, step, r);
    } else {
      assert Next(p, s, step).rows == s.rows;
    }
  }

  /** Over any stretch of any run: claims only count up, the cap only rises, a settled row is never
      dispatched again, and a closed row is never written again. */
  lemma {:induction false} RowsOnlyEvolve(p: Provider, steps: seq<Step>, more: seq<Step>, r: nat)
    requires Feasible(p, START, steps) && Feasible(p, START, steps + more)
    requires r in Exec(p, START, steps).rows
    ensures r in Exec(p, START, steps + more).rows
    ensures Evolves(Exec(p, START, steps).rows[r], Exec(p, START, steps + more).rows[r])
  {
    if more == [] {
      assert steps + more == steps;
    } else {
      var last := |more| - 1;
      assert (steps + more)[..|steps + more| - 1] == steps + more[..last];
      RowsOnlyEvolve(p, steps, more[..last], r);
      EveryRunKeepsBase(p, steps + more[..last]);
      StepEvolvesRow(p, Exec(p, START, steps + more[..last]), more[last], r);
      EvolvesTransitive(Exec(p, START, steps).rows[r], Exec(p, START, steps + more[..last]).rows[r],
                        Exec(p, START, steps + more).rows[r]);
    }
  }

  /** Every delivery was quoted within the cap its row had at any time since it exists, whoever
      confirms what in between. */
  lemma EveryDeliveryIsWithinTheCap(p: Provider, steps: seq<Step>, more: seq<Step>, d: string)
    requires Feasible(p, START, steps) && Feasible(p, START, steps + more)
    requires d in Exec(p, START, steps).deliveries
    ensures var s := Exec(p, START, steps); var t := Exec(p, START, steps + more); var r := s.deliveries[d].row;
      r in s.rows && r in t.rows && CapAllows(s.rows[r].maxFee, s.deliveries[d].fee)
      && CapAllows(t.rows[r].maxFee, s.deliveries[d].fee)
  {
    EveryRunKeepsBase(p, steps);
    var s := Exec(p, START, steps);
    assert DeliveryFine(s, d);
    RowsOnlyEvolve(p, steps, more, s.deliveries[d].row);
  }

  /** The marker, the due times and the waiting rows, in every reachable state. */
  lemma RowsAreCoherent(p: Provider, steps: seq<Step>, r: nat, q: nat)
    requires Feasible(p, START, steps)
    requires r in Exec(p, START, steps).rows && q in Exec(p, START, steps).rows
    ensures var s := Exec(p, START, steps);
      && RowOk(s.rows[r])
      && (r != q && s.rows[r].order == s.rows[q].order ==> !IsOpen(s.rows[r].status) || !IsOpen(s.rows[q].status))
  {
    EveryRunKeepsBase(p, steps);
    var s := Exec(p, START, steps);
    assert RowFine(s, r) && (r != q ==> !SameOrder(s, r, q));
  }

  // ---------------------------------------------------------------- fencing, whatever the provider does

  /** At most one worker in flight can still write to a row that is being created. */
  lemma OneWorkerHoldsTheRow(p: Provider, steps: seq<Step>, w: nat, v: nat)
    requires Feasible(p, START, steps)
    requires var s := Exec(p, START, steps);
      && w in s.workers && v in s.workers && s.workers[w].row == s.workers[v].row
      && HoldsAttempt(s.workers[w].phase) && HoldsAttempt(s.workers[v].phase)
      && HoldsRow(s, s.workers[w]) && HoldsRow(s, s.workers[v])
    ensures w == v
  {
    EveryRunKeepsBase(p, steps);
    assert w == v || !Rivals(Exec(p, START, steps), w, v);
  }

  /** The worker a step belongs to. */
  function ActorOf(step: Step): Option<nat> {
    match step
    case LookUp(w, _) => Some(w)
    case Price(w, _, _) => Some(w)
    case Remember(w) => Some(w)
    case Send(w) => Some(w)
    case Land(w) => Some(w)
    case Reply(w, _) => Some(w)
    case Duplicate(w, _) => Some(w)
    case Fail(w, _) => Some(w)
    case Record(w) => Some(w)
    case Crash(w) => Some(w)
    case NothingToCancel(w) => Some(w)
    case CancelAtProvider(w, _, _) => Some(w)
    case CancelFails(w, _) => Some(w)
    case FinishCancel(w) => Some(w)
    case Ask(w, _) => Some(w)
    case FinishTrack(w) => Some(w)
    case _ => None
  }

  /** No step touches a worker other than its own. */
  lemma OthersStay(p: Provider, s: World, step: Step, w: nat)
    requires Enabled(p, s, step) && w in s.workers && ActorOf(step) != Some(w)
    ensures w in Next(p, s, step).workers && Next(p, s, step).workers[w] == s.workers[w]
  {
    if StoreStep(step) {
      assert Next(p, s, step).workers == s.workers;
    }
  }

  /** A row never hands out an attempt number twice: these are one worker. */
  predicate SameClaim(k: Worker, k': Worker) {
    k.row == k'.row && k.attempt == k'.attempt
    && HoldsAttempt(k.phase) == HoldsAttempt(k'.phase) && Dispatches(k.phase) == Dispatches(k'.phase)
  }

  /** The row's attempt number moved on, or the row is no longer being created. */
  predicate LostClaim(s: World, k: Worker) {
    && k.row in s.rows && HoldsAttempt(k.phase)
    && (k.attempt < s.rows[k.row].attempts || (Dispatches(k.phase) && !s.rows[k.row].status.Creating?))
  }

  /** A worker that may not write to its row any more; one that only tracks never held it, and may
      write while it is active. */
  predicate Stale(s: World, k: Worker) {
    LostClaim(s, k) || (k.row in s.rows && !HoldsAttempt(k.phase) && !s.rows[k.row].status.Active?)
  }

  /** Nothing changed, but for what the worker that cancels the delivery needs. */
  predicate OnlyHelpsCancel(row: Row, row': Row) {
    || row' == row
    || (row.status.Cancelling?
        && row' == row.(deliveryId := row'.deliveryId, trackingUrl := row'.trackingUrl, nextAttemptAt := row'.nextAttemptAt))
  }

  /** Each step of a stale worker, the write-backs included, leaves all rows as they are, except that
      it may hand its delivery to a row that is being cancelled, and wake it up. */
  lemma AStaleStepOnlyHelpsCancel(p: Provider, s: World, step: Step, w: nat)
    requires Base(s) && Enabled(p, s, step) && ActorOf(step) == Some(w)
    requires w in s.workers && Stale(s, s.workers[w])
    ensures Next(p, s, step).rows.Keys == s.rows.Keys
    ensures forall r | r in s.rows :: OnlyHelpsCancel(s.rows[r], Next(p, s, step).rows[r])
    ensures forall r | r in s.rows && r != s.workers[w].row :: Next(p, s, step).rows[r] == s.rows[r]
  {
    var k := s.workers[w];
    if step.Record? {
      AStaleRecordOnlyHelpsCancel(s.rows[k.row], k.attempt, k.phase.outcome, s.now);
      assert Next(p, s, step).rows == s.rows[k.row := Recorded(s.rows[k.row], k.attempt, k.phase.outcome, s.now)];
    } else if step.Remember? {
      assert Next(p, s, step).rows == s.rows[k.row := QuoteRemembered(s.rows[k.row], k.attempt, k.phase.quote)];
    } else if step.FinishCancel? {
      assert Next(p, s, step).rows
        == s.rows[k.row := CancelFinished(s.rows[k.row], k.attempt, k.phase.cancelInfo, k.phase.cancelError, s.now)];
    } else if step.FinishTrack? {
      assert Next(p, s, step).rows == s.rows[k.row := Tracked(s.rows[k.row], k.phase.report, s.now)];
    } else {
      assert Next(p, s, step).rows == s.rows;
    }
  }

  /** From the moment a claim is lost, in any run and with any provider, its worker never changes
      anything else: whatever happened since, the claim stays lost, and each of its steps only helps a
      cancellation. */
  lemma AStaleWorkerOnlyHelpsCancel(p: Provider, steps: seq<Step>, more: seq<Step>, u: nat, w: nat, step: Step)
    requires Feasible(p, START, steps) && Feasible(p, START, steps + more)
    requires u in Exec(p, START, steps).workers && LostClaim(Exec(p, START, steps), Exec(p, START, steps).workers[u])
    requires var k, t := Exec(p, START, steps).workers[u], Exec(p, START, steps + more);
      && w in t.workers && SameClaim(t.workers[w], k) && Enabled(p, t, step) && ActorOf(step) == Some(w)
    ensures var t := Exec(p, START, steps + more);
      && LostClaim(t, t.workers[w])
      && Next(p, t, step).rows.Keys == t.rows.Keys
      && (forall r | r in t.rows :: OnlyHelpsCancel(t.rows[r], Next(p, t, step).rows[r]))
      && (forall r | r in t.rows && r != t.workers[w].row :: Next(p, t, step).rows[r] == t.rows[r])
  {
    var s, t := Exec(p, START, steps), Exec(p, START, steps + more);
    EveryRunKeepsBase(p, steps);
    assert WorkerFine(s, s.workers[u]);
    RowsOnlyEvolve(p, steps, more, s.workers[u].row);
    EveryRunKeepsBase(p, steps + more);
    assert LostClaim(t, t.workers[w]);
    AStaleStepOnlyHelpsCancel(p, t, step, w);
  }

  /** The attempts of a row whose outcome was put off for a retry, oldest first. */
  ghost function Retries(log: seq<Entry>, r: nat): (attempts: seq<nat>)
    ensures forall a | a in attempts :: Entry(r, a, true) in log
  {
    if log == [] then []
    else
      var e := log[|log| - 1];
      var before := Retries(log[..|log| - 1], r);
      if e.row == r && e.retry then before + [e.attempt] else before
  }

  lemma {:induction false} RetriesAscend(log: seq<Entry>, r: nat)
    requires forall i, j | 0 <= i < j < |log| && log[i].row == log[j].row :: log[i].attempt < log[j].attempt
    ensures Ascending(Retries(log, r))
  {
    if log != [] {
      var last := |log| - 1;
      var before := Retries(log[..last], r);
      RetriesAscend(log[..last], r);
      if log[last].row == r {
        forall n: nat | n < |before| ensures before[n] < log[last].attempt {
          assert before[n] in before;
          var i: nat :| i < last && log[..last][i] == Entry(r, before[n], true);
          assert log[i].row == log[last].row;
        }
      }
    }
  }

  lemma {:induction false} AscendingBelowIsShort(ids: seq<nat>, bound: nat)
    requires Ascending(ids) && forall x | x in ids :: 0 < x < bound
    ensures 0 < bound ==> |ids| <= bound - 1
    ensures bound == 0 ==> ids == []
  {
    if ids != [] {
      var last := |ids| - 1;
      assert ids[last] in ids;
      forall x | x in ids[..last] ensures 0 < x < ids[last] {
        var i :| 0 <= i < last && ids[i] == x;
        assert ids[i] in ids;
      }
      AscendingBelowIsShort(ids[..last], ids[last]);
    }
  }

  /** Each attempt of a row takes effect at most once, in order, and a row is retried at most four
      times: crashes, take-overs and duplicated workers do not add any. */
  lemma AttemptsTakeEffectOnce(p: Provider, steps: seq<Step>, r: nat)
    requires Feasible(p, START, steps)
    ensures var log := Exec(p, START, steps).log;
      && (forall i, j | 0 <= i < j < |log| && log[i].row == log[j].row :: log[i].attempt < log[j].attempt)
      && |Retries(log, r)| <= MAX_ATTEMPTS - 1
  {
    EveryRunKeepsBase(p, steps);
    var s := Exec(p, START, steps);
    RetriesAscend(s.log, r);
    forall a | a in Retries(s.log, r) ensures 0 < a < MAX_ATTEMPTS {
      assert EntryFine(s, Entry(r, a, true));
    }
    AscendingBelowIsShort(Retries(s.log, r), MAX_ATTEMPTS);
  }
}
