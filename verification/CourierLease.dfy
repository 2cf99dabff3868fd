/** The lease: as long as the provider creates nothing after the sender's call returned or its lease
    ended, every request lands well. */
module CourierLease {
  import opened Common
  import opened CourierRow
  import opened CourierProtocol
  import opened CourierInvariant
  import opened CourierLanding
  import opened CourierSafety

  predicate Fresh(s: World, k: Worker) {
    Dispatches(k.phase) && s.now < k.leaseEnd
  }

  /** The row is settled or being cancelled, and what the worker found out about it is still true. */
  predicate LeftBehind(s: World, k: Worker)
    requires k.row in s.rows
  {
    && PastDispatch(s.rows[k.row].status)
    && (k.phase.Claimed? ==> k.previousQuote == s.rows[k.row].quoteId)
    && (BeforeDelivery(k.phase) ==> !HasDelivery(s, k.row))
    && (CarriesQuote(k.phase) ==> s.rows[k.row].quoteId == Some(k.phase.quote))
  }

  /** While a lease runs, the row is this worker's, or past being dispatched by anyone. */
  predicate LeaseFine(s: World, k: Worker) {
    Fresh(s, k) && k.row in s.rows ==>
      (HoldsRow(s, k) && s.rows[k.row].nextAttemptAt == Some(k.leaseEnd)) || LeftBehind(s, k)
  }

  predicate Overlap(s: World, w: nat, v: nat)
    requires w in s.workers && v in s.workers
  {
    w != v && s.workers[w].row == s.workers[v].row && Fresh(s, s.workers[w]) && Fresh(s, s.workers[v])
  }

  ghost predicate Leased(s: World) {
    && Kept(s, true)
    && (forall w {:trigger LeaseFine(s, s.workers[w])} | w in s.workers :: LeaseFine(s, s.workers[w]))
    && (forall w, v {:trigger Overlap(s, w, v)} | w in s.workers && v in s.workers :: !Overlap(s, w, v))
  }

  /** Inside its lease a request is neither overtaken nor doubled. */
  lemma APromptLandingIsFine(s: World, step: Step)
    requires Leased(s) && Enabled(Prompt, s, step)
    ensures LandsWell(s, step, true)
  {
    if step.Land? {
      var w := step.worker;
      var k := s.workers[w];
      assert LeaseFine(s, k) && HolderFine(s, k, true) && WorkerFine(s, k);
      forall v | v in s.workers && v != w && s.workers[v].row == k.row && Dispatches(s.workers[v].phase)
        ensures !HoldsRow(s, s.workers[v])
      {
        assert !Rivals(s, w, v);
      }
    }
  }

  // ---------------------------------------------------------------- the row of a running lease

  /** The worker still holds its row until the end of its lease, or it is past dispatch by now. */
  predicate StaysOrSettles(row: Row, row': Row, k: Worker) {
    || (StillMine(row', k.attempt) && row'.nextAttemptAt == Some(k.leaseEnd) && row'.quoteId == row.quoteId)
    || (PastDispatch(row'.status) && row'.quoteId == row.quoteId)
  }

  /** What a worker of its own may do to the row it holds. */
  predicate OwnWrite(step: Step, w: nat) {
    step == Record(w) || step == Remember(w)
  }

  lemma OthersLeaveTheRow(s: World, step: Step, w: nat)
    requires Base(s) && Enabled(Prompt, s, step) && w in s.workers && Fresh(s, s.workers[w]) && !OwnWrite(step, w)
    requires HoldsRow(s, s.workers[w]) && s.rows[s.workers[w].row].nextAttemptAt == Some(s.workers[w].leaseEnd)
    ensures var k := s.workers[w]; var t := Next(Prompt, s, step);
      k.row in t.rows && StaysOrSettles(s.rows[k.row], t.rows[k.row], k)
  {
    var k := s.workers[w];
    if step.Record? || step.Remember? {
      AnothersWriteIsVoid(s, step, w);
    } else if step.FinishCancel? || step.FinishTrack? {
      assert s.rows[k.row].status.Creating?;
    } else if StoreStep(step) || ClaimStep(step) {
      TheStoreWaits(s, step, w);
    } else {
      assert Next(Prompt, s, step).rows == s.rows;
    }
  }

  lemma TheStoreWaits(s: World, step: Step, w: nat)
    requires Enabled(Prompt, s, step) && (StoreStep(step) || ClaimStep(step)) && w in s.workers && Fresh(s, s.workers[w])
    requires HoldsRow(s, s.workers[w]) && s.rows[s.workers[w].row].nextAttemptAt == Some(s.workers[w].leaseEnd)
    ensures var k := s.workers[w]; var t := Next(Prompt, s, step);
      k.row in t.rows && StaysOrSettles(s.rows[k.row], t.rows[k.row], k)
  {
  }

  lemma AnothersWriteIsVoid(s: World, step: Step, w: nat)
    requires Base(s) && Enabled(Prompt, s, step) && w in s.workers && Fresh(s, s.workers[w])
    requires (step.Record? || step.Remember?) && step.worker != w && HoldsRow(s, s.workers[w])
    ensures var r := s.workers[w].row; r in Next(Prompt, s, step).rows && Next(Prompt, s, step).rows[r] == s.rows[r]
  {
    assert !Rivals(s, w, step.worker) && WorkerFine(s, s.workers[step.worker]);
    if step.Record? {
      assert Next(Prompt, s, step) == RecordNext(s, step.worker);
    } else {
      assert Next(Prompt, s, step) == RememberNext(s, step.worker);
    }
  }

  lemma ARowLeftBehindStays(s: World, step: Step, w: nat)
    requires Base(s) && Enabled(Prompt, s, step) && w in s.workers
    requires s.workers[w].row in s.rows && PastDispatch(s.rows[s.workers[w].row].status)
    ensures var k := s.workers[w]; var t := Next(Prompt, s, step);
      k.row in t.rows && PastDispatch(t.rows[k.row].status) && t.rows[k.row].quoteId == s.rows[k.row].quoteId
  {
    StepEvolvesRow(Prompt, s, step, s.workers[w].row);
  }

  /** With a prompt provider a row gets a delivery only from a worker whose lease runs. */
  lemma OnlyAFreshWorkerDelivers(s: World, step: Step, r: nat)
    requires Base(s) && Enabled(Prompt, s, step) && HasDelivery(Next(Prompt, s, step), r) && !HasDelivery(s, r)
    ensures step.Land? && s.workers[step.worker].row == r && Fresh(s, s.workers[step.worker])
  {
    var t := Next(Prompt, s, step);
    assert !step.Land? ==> t.deliveries == s.deliveries;
  }

  // ---------------------------------------------------------------- each worker's lease

  lemma NoneElseDelivers(s: World, step: Step, w: nat)
    requires Leased(s) && Enabled(Prompt, s, step) && ActorOf(step) != Some(w)
    requires w in s.workers && Fresh(s, s.workers[w]) && HasDelivery(Next(Prompt, s, step), s.workers[w].row)
    ensures HasDelivery(s, s.workers[w].row)
  {
    assert step.Land? ==> !Overlap(s, w, step.worker);
    if !HasDelivery(s, s.workers[w].row) {
      OnlyAFreshWorkerDelivers(s, step, s.workers[w].row);
    }
  }

  /** What it found out stays true of a row it still holds, or has left behind. */
  lemma LeaseCarriesOver(s: World, t: World, k: Worker)
    requires k.row in s.rows && k.row in t.rows && (HasDelivery(t, k.row) ==> HasDelivery(s, k.row))
    requires LeaseFine(s, k) && HolderFine(s, k, true) && Fresh(s, k)
    requires if HoldsRow(s, k) then StaysOrSettles(s.rows[k.row], t.rows[k.row], k)
             else PastDispatch(t.rows[k.row].status) && t.rows[k.row].quoteId == s.rows[k.row].quoteId
    ensures LeaseFine(t, k)
  {
  }

  /** A step of another worker, or of the store. */
  lemma AnotherStepKeepsLease(s: World, step: Step, w: nat)
    requires Leased(s) && Enabled(Prompt, s, step) && ActorOf(step) != Some(w)
    requires w in s.workers && Fresh(s, s.workers[w])
    ensures LeaseFine(Next(Prompt, s, step), s.workers[w])
  {
    var k, t := s.workers[w], Next(Prompt, s, step);
    assert LeaseFine(s, k) && WorkerFine(s, k) && HolderFine(s, k, true);
    if HoldsRow(s, k) {
      OthersLeaveTheRow(s, step, w);
    } else {
      ARowLeftBehindStays(s, step, w);
    }
    if HasDelivery(t, k.row) {
      NoneElseDelivers(s, step, w);
    }
    LeaseCarriesOver(s, t, k);
  }

  /** A step of its own. */
  lemma ItsOwnStepKeepsLease(s: World, step: Step, w: nat)
    requires Leased(s) && Enabled(Prompt, s, step) && ActorOf(step) == Some(w)
    requires w in s.workers && w in Next(Prompt, s, step).workers
    ensures LeaseFine(Next(Prompt, s, step), Next(Prompt, s, step).workers[w])
  {
    var k, t := s.workers[w], Next(Prompt, s, step);
    assert LeaseFine(s, k) && WorkerFine(s, k) && HolderFine(s, k, true);
    if Fresh(t, t.workers[w]) {
      if step.Remember? {
        RememberKeepsItsLease(s, w);
      } else if step.LookUp? {
        LookUpKeepsItsLease(s, step);
      } else {
        assert t.rows == s.rows;
        assert HasDelivery(t, k.row) ==> HasDelivery(s, k.row) || step.Land?;
      }
    }
  }

  lemma RememberKeepsItsLease(s: World, w: nat)
    requires Leased(s) && Enabled(Prompt, s, Remember(w)) && w in s.workers && Fresh(s, s.workers[w])
    ensures LeaseFine(RememberNext(s, w), RememberNext(s, w).workers[w])
  {
    var k := s.workers[w];
    assert LeaseFine(s, k) && HolderFine(s, k, true);
    assert RememberNext(s, w).deliveries == s.deliveries;
  }

  lemma LookUpKeepsItsLease(s: World, step: Step)
    requires Leased(s) && Enabled(Prompt, s, step) && step.LookUp? && Fresh(s, s.workers[step.worker])
    ensures LeaseFine(Next(Prompt, s, step), Next(Prompt, s, step).workers[step.worker])
  {
    var k := s.workers[step.worker];
    assert LeaseFine(s, k) && HolderFine(s, k, true);
    forall d | d in s.deliveries && s.deliveries[d].row == k.row
      ensures k.previousQuote.Some? && Adoptable(s, k.row, k.previousQuote.value)
    {
      assert QuoteKept(s, d) && DeliveryFine(s, d);
    }
  }

  /** A claim waits for the lease to end: no one else's runs on the row. */
  lemma AClaimIsAlone(s: World, r: nat, w: nat, v: nat)
    requires Leased(s) && Enabled(Prompt, s, Claim(r, w)) && v in s.workers && s.workers[v].row == r
    ensures !Fresh(s, s.workers[v])
  {
    assert LeaseFine(s, s.workers[v]);
  }

  lemma ANewLeaseIsFine(s: World, step: Step, w: nat)
    requires Enabled(Prompt, s, step) && w !in s.workers && w in Next(Prompt, s, step).workers
    ensures LeaseFine(Next(Prompt, s, step), Next(Prompt, s, step).workers[w])
  {
    if ClaimStep(step) {
      assert step.worker == w;
    }
  }

  lemma StepKeepsEachLease(s: World, step: Step, w: nat)
    requires Leased(s) && Enabled(Prompt, s, step) && w in Next(Prompt, s, step).workers
    ensures LeaseFine(Next(Prompt, s, step), Next(Prompt, s, step).workers[w])
  {
    if w !in s.workers {
      ANewLeaseIsFine(s, step, w);
    } else if ActorOf(step) == Some(w) {
      ItsOwnStepKeepsLease(s, step, w);
    } else {
      OthersStay(Prompt, s, step, w);
      if Fresh(s, s.workers[w]) {
        AnotherStepKeepsLease(s, step, w);
      }
    }
  }

  lemma FreshOnesWereFresh(s: World, step: Step, w: nat)
    requires Enabled(Prompt, s, step) && w in Next(Prompt, s, step).workers && w in s.workers
    ensures var t := Next(Prompt, s, step);
      t.workers[w].row == s.workers[w].row && (Fresh(t, t.workers[w]) ==> Fresh(s, s.workers[w]))
  {
    if ActorOf(step) != Some(w) {
      OthersStay(Prompt, s, step, w);
    }
  }

  lemma StepKeepsLeasesApart(s: World, step: Step, w: nat, v: nat)
    requires Leased(s) && Enabled(Prompt, s, step) && w in Next(Prompt, s, step).workers && v in Next(Prompt, s, step).workers
    ensures !Overlap(Next(Prompt, s, step), w, v)
  {
    if w in s.workers && v in s.workers {
      FreshOnesWereFresh(s, step, w);
      FreshOnesWereFresh(s, step, v);
      assert !Overlap(s, w, v);
    } else if step.Claim? && w != v {
      var old' := if w in s.workers then w else v;
      if old' in s.workers && s.workers[old'].row == step.row {
        AClaimIsAlone(s, step.row, step.worker, old');
      }
    }
  }

  // ---------------------------------------------------------------- whole runs

  lemma {:induction false} EveryRunKeepsLease(steps: seq<Step>)
    requires Feasible(Prompt, START, steps)
    ensures Leased(Exec(Prompt, START, steps)) && AllLandWell(Prompt, steps, true)
  {
    if steps == [] {
      StartBase();
    } else {
      var last := |steps| - 1;
      EveryRunKeepsLease(steps[..last]);
      var s, t := Exec(Prompt, START, steps[..last]), Exec(Prompt, START, steps);
      APromptLandingIsFine(s, steps[last]);
      StepKeeps(Prompt, s, steps[last], true);
      forall w | w in t.workers ensures LeaseFine(t, t.workers[w]) {
        StepKeepsEachLease(s, steps[last], w);
      }
      forall w, v | w in t.workers && v in t.workers ensures !Overlap(t, w, v) {
        StepKeepsLeasesApart(s, steps[last], w, v);
      }
    }
  }

  /** With a provider that creates nothing after the sender's call returned or its lease ended, every
      request of every run lands well: the courier promises hold. */
  lemma {:induction false} PromptRunsLandWell(steps: seq<Step>)
    requires Feasible(Prompt, START, steps)
    ensures AllLandWell(Prompt, steps, true) && AllLandWell(Prompt, steps, false)
  {
    EveryRunKeepsLease(steps);
    if steps != [] {
      PromptRunsLandWell(steps[..|steps| - 1]);
    }
  }

  /** And a create request sent, or still on its way, within its lease never meets an existing
      delivery, even when its row is not its sender's any more. */
  lemma NoCreateWithinTheLease(steps: seq<Step>, w: nat)
    requires Feasible(Prompt, START, steps)
    requires var s := Exec(Prompt, START, steps);
      w in s.workers && CarriesQuote(s.workers[w].phase) && Fresh(s, s.workers[w])
    ensures var s := Exec(Prompt, START, steps); !HasDelivery(s, s.workers[w].row)
  {
    EveryRunKeepsLease(steps);
    var s := Exec(Prompt, START, steps);
    var k := s.workers[w];
    assert LeaseFine(s, k) && HolderFine(s, k, true) && WorkerFine(s, k);
  }
}
