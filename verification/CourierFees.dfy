/** What a courier may cost: the cap the store gave, or the fee it was shown and confirmed. */
module CourierFees {
  import opened Common
  import opened CourierRow
  import opened CourierProtocol
  import opened CourierInvariant
  import opened CourierSafety

  // ---------------------------------------------------------------- who changes a cap

  /** The worker writes back that its quote was above the cap. */
  predicate WritesFee(s: World, step: Step, r: nat, fee: Option<int>) {
    && step.Record? && InPhase(s, step.worker) && s.workers[step.worker].row == r
    && s.workers[step.worker].phase.Settled? && s.workers[step.worker].phase.outcome.TooDear?
    && fee == Some(s.workers[step.worker].phase.outcome.fee)
  }

  /** The cap stays, and a row that waits for the store now did so before with the same fee, or was just
      told that it is too dear. */
  predicate FeesKept(s: World, step: Step, r: nat, row: Row, row': Row) {
    && row'.maxFee == row.maxFee
    && (row'.status.AwaitingConfirmation? ==>
          (row.status.AwaitingConfirmation? && row'.quotedFee == row.quotedFee) || WritesFee(s, step, r, row'.quotedFee))
  }

  lemma StoreStepKeepsFees(p: Provider, s: World, step: Step, r: nat)
    requires Enabled(p, s, step) && r in s.rows && StoreStep(step) && step != Step.Confirm(r)
    ensures r in Next(p, s, step).rows && FeesKept(s, step, r, s.rows[r], Next(p, s, step).rows[r])
  {
  }

  lemma ClaimStepKeepsFees(p: Provider, s: World, step: Step, r: nat)
    requires Enabled(p, s, step) && r in s.rows && ClaimStep(step)
    ensures r in Next(p, s, step).rows && FeesKept(s, step, r, s.rows[r], Next(p, s, step).rows[r])
  {
    var row' := if step.Claim? then ClaimedRow(s.rows[step.row], s.now)
                else if step.ClaimCancel? then CancelClaimedRow(s.rows[step.row], s.now)
                else TrackClaimedRow(s.rows[step.row], s.now);
    assert Next(p, s, step).rows == s.rows[step.row := row'];
  }

  predicate WriteBack(step: Step) {
    step.Record? || step.FinishCancel? || step.FinishTrack? || step.Remember?
  }

  lemma WritingBackKeepsCaps(row: Row, k: Worker, now: int)
    ensures k.phase.Settled? ==> var row' := Recorded(row, k.attempt, k.phase.outcome, now);
      && row'.maxFee == row.maxFee
      && (row'.status.AwaitingConfirmation? ==> row' == row || (k.phase.outcome.TooDear? && row'.quotedFee == Some(k.phase.outcome.fee)))
    ensures k.phase.Aborted? ==> var row' := CancelFinished(row, k.attempt, k.phase.cancelInfo, k.phase.cancelError, now);
      row'.maxFee == row.maxFee && (row'.status.AwaitingConfirmation? ==> row' == row)
    ensures k.phase.Answered? ==> var row' := Tracked(row, k.phase.report, now);
      row'.maxFee == row.maxFee && (row'.status.AwaitingConfirmation? ==> row' == row)
  {
  }

  lemma WriteBackKeepsFees(p: Provider, s: World, step: Step, r: nat)
    requires Enabled(p, s, step) && r in s.rows && WriteBack(step)
    ensures r in Next(p, s, step).rows && FeesKept(s, step, r, s.rows[r], Next(p, s, step).rows[r])
  {
    var k := s.workers[step.worker];
    var row := s.rows[k.row];
    var row' := if step.Record? then Recorded(row, k.attempt, k.phase.outcome, s.now)
                else if step.FinishCancel? then CancelFinished(row, k.attempt, k.phase.cancelInfo, k.phase.cancelError, s.now)
                else if step.FinishTrack? then Tracked(row, k.phase.report, s.now)
                else QuoteRemembered(row, k.attempt, k.phase.quote);
    assert Next(p, s, step).rows == s.rows[k.row := row'];
    WritingBackKeepsCaps(row, k, s.now);
  }

  lemma OtherStepsKeepRows(p: Provider, s: World, step: Step)
    requires Enabled(p, s, step) && !StoreStep(step) && !ClaimStep(step) && !WriteBack(step)
    ensures Next(p, s, step).rows == s.rows
  {
  }

  /** Only the store's confirmation writes a row's cap. */
  lemma OnlyConfirmingMovesTheCap(p: Provider, s: World, step: Step, r: nat)
    requires Enabled(p, s, step) && r in s.rows && step != Step.Confirm(r)
    ensures r in Next(p, s, step).rows && FeesKept(s, step, r, s.rows[r], Next(p, s, step).rows[r])
  {
    if StoreStep(step) {
      StoreStepKeepsFees(p, s, step, r);
    } else if ClaimStep(step) {
      ClaimStepKeepsFees(p, s, step, r);
    } else if WriteBack(step) {
      WriteBackKeepsFees(p, s, step, r);
    } else {
      OtherStepsKeepRows(p, s, step);
    }
  }

  predicate NoConfirm(steps: seq<Step>, r: nat) {
    forall step | step in steps :: step != Step.Confirm(r)
  }

  lemma {:induction false} TheCapStays(p: Provider, steps: seq<Step>, more: seq<Step>, r: nat)
    requires Feasible(p, START, steps) && Feasible(p, START, steps + more)
    requires r in Exec(p, START, steps).rows && NoConfirm(more, r)
    ensures r in Exec(p, START, steps + more).rows
    ensures Exec(p, START, steps + more).rows[r].maxFee == Exec(p, START, steps).rows[r].maxFee
  {
    if more == [] {
      assert steps + more == steps;
    } else {
      var last := |more| - 1;
      assert (steps + more)[..|steps + more| - 1] == steps + more[..last];
      assert more[last] in more && forall step | step in more[..last] :: step in more;
      TheCapStays(p, steps, more[..last], r);
      OnlyConfirmingMovesTheCap(p, Exec(p, START, steps + more[..last]), more[last], r);
    }
  }

  lemma TheRunSoFar(p: Provider, steps: seq<Step>, step: Step)
    requires Feasible(p, START, steps + [step])
    ensures Feasible(p, START, steps) && Enabled(p, Exec(p, START, steps), step)
    ensures Exec(p, START, steps + [step]) == Next(p, Exec(p, START, steps), step)
  {
    assert (steps + [step])[..|steps + [step]| - 1] == steps;
  }

  lemma {:induction false} APrefixIsFeasible(p: Provider, steps: seq<Step>, more: seq<Step>)
    requires Feasible(p, START, steps + more)
    ensures Feasible(p, START, steps)
  {
    if more == [] {
      assert steps + more == steps;
    } else {
      assert (steps + more)[..|steps + more| - 1] == steps + more[..|more| - 1];
      APrefixIsFeasible(p, steps, more[..|more| - 1]);
    }
  }

  // ---------------------------------------------------------------- the two promises

  /** A row opened under a cap never costs more, in any run and with any provider, unless the store
      confirms a fee for it. */
  lemma TheStoresCapHolds(p: Provider, before: seq<Step>, r: nat, order: nat, cap: int, after: seq<Step>, d: string)
    requires Feasible(p, START, before + [Open(r, order, Some(cap))] + after) && NoConfirm(after, r)
    requires var t := Exec(p, START, before + [Open(r, order, Some(cap))] + after);
      d in t.deliveries && t.deliveries[d].row == r
    ensures Exec(p, START, before + [Open(r, order, Some(cap))] + after).deliveries[d].fee <= cap
  {
    var start := before + [Open(r, order, Some(cap))];
    APrefixIsFeasible(p, start, after);
    TheRunSoFar(p, before, Open(r, order, Some(cap)));
    TheCapStays(p, start, after, r);
    assert start + after + [] == start + after;
    EveryDeliveryIsWithinTheCap(p, start + after, [], d);
  }

  /** After a confirmation it never costs more than the fee the store was shown, until it confirms
      another; and the provider did quote that fee, for this row. */
  lemma TheConfirmedFeeHolds(p: Provider, before: seq<Step>, r: nat, after: seq<Step>, d: string)
    requires Feasible(p, START, before + [Step.Confirm(r)] + after) && NoConfirm(after, r)
    requires var t := Exec(p, START, before + [Step.Confirm(r)] + after); d in t.deliveries && t.deliveries[d].row == r
    ensures Feasible(p, START, before) && r in Exec(p, START, before).rows
    ensures var s := Exec(p, START, before); var t := Exec(p, START, before + [Step.Confirm(r)] + after);
      && s.rows[r].quotedFee.Some? && FeeQuoted(s, r, s.rows[r].quotedFee.value)
      && t.deliveries[d].fee <= s.rows[r].quotedFee.value
  {
    var confirmed := before + [Step.Confirm(r)];
    APrefixIsFeasible(p, confirmed, after);
    TheRunSoFar(p, before, Step.Confirm(r));
    ShownFeesWereQuoted(p, before);
    TheCapStays(p, confirmed, after, r);
    assert confirmed + after + [] == confirmed + after;
    EveryDeliveryIsWithinTheCap(p, confirmed + after, [], d);
  }

  // ---------------------------------------------------------------- what the store is shown

  ghost predicate FeeQuoted(s: World, r: nat, fee: int) {
    exists q :: q in s.quotes && s.quotes[q] == Quote(r, fee)
  }

  /** A row waiting for the store shows a fee the provider quoted for it, and so does the outcome that
      makes it wait. */
  ghost predicate ShowsQuotes(s: World) {
    && (forall r | r in s.rows && s.rows[r].status.AwaitingConfirmation? ::
          s.rows[r].quotedFee.Some? && FeeQuoted(s, r, s.rows[r].quotedFee.value))
    && (forall w | w in s.workers && s.workers[w].phase.Settled? && s.workers[w].phase.outcome.TooDear? ::
          FeeQuoted(s, s.workers[w].row, s.workers[w].phase.outcome.fee))
  }

  lemma QuotesStay(p: Provider, s: World, step: Step, r: nat, fee: int)
    requires Enabled(p, s, step) && FeeQuoted(s, r, fee)
    ensures FeeQuoted(Next(p, s, step), r, fee)
  {
    var q :| q in s.quotes && s.quotes[q] == Quote(r, fee);
    assert q in Next(p, s, step).quotes && Next(p, s, step).quotes[q] == Quote(r, fee);
  }

  lemma RowsAreOpenedRequested(p: Provider, s: World, step: Step, r: nat)
    requires Enabled(p, s, step) && r !in s.rows && r in Next(p, s, step).rows
    ensures !Next(p, s, step).rows[r].status.AwaitingConfirmation?
  {
    if !StoreStep(step) && !ClaimStep(step) && !WriteBack(step) {
      OtherStepsKeepRows(p, s, step);
    }
  }

  predicate OldOrPriced(s: World, t: World, step: Step, w: nat)
    requires w in t.workers
  {
    t.workers[w].phase.Settled? && t.workers[w].phase.outcome.TooDear? ==>
      || (w in s.workers && t.workers[w] == s.workers[w])
      || (step.Price? && step.quote in t.quotes && t.quotes[step.quote] == Quote(t.workers[w].row, t.workers[w].phase.outcome.fee))
  }

  lemma RowStepsLeaveOutcomes(p: Provider, s: World, step: Step, w: nat)
    requires Enabled(p, s, step) && w in Next(p, s, step).workers
    requires StoreStep(step) || ClaimStep(step) || WriteBack(step)
    ensures OldOrPriced(s, Next(p, s, step), step, w)
  {
  }

  lemma OutcomesAreOldOrPriced(p: Provider, s: World, step: Step, w: nat)
    requires Enabled(p, s, step) && w in Next(p, s, step).workers
    ensures OldOrPriced(s, Next(p, s, step), step, w)
  {
    if StoreStep(step) || ClaimStep(step) || WriteBack(step) {
      RowStepsLeaveOutcomes(p, s, step, w);
    }
  }

  lemma RowsShowQuotes(p: Provider, s: World, step: Step, r: nat)
    requires ShowsQuotes(s) && Enabled(p, s, step)
    requires r in Next(p, s, step).rows && Next(p, s, step).rows[r].status.AwaitingConfirmation?
    ensures var t := Next(p, s, step); t.rows[r].quotedFee.Some? && FeeQuoted(t, r, t.rows[r].quotedFee.value)
  {
    var row' := Next(p, s, step).rows[r];
    if r !in s.rows {
      RowsAreOpenedRequested(p, s, step, r);
      assert false;
    } else if step != Step.Confirm(r) {
      OnlyConfirmingMovesTheCap(p, s, step, r);
      QuotesStay(p, s, step, r, row'.quotedFee.value);
    }
  }

  lemma StepKeepsShowsQuotes(p: Provider, s: World, step: Step)
    requires ShowsQuotes(s) && Enabled(p, s, step)
    ensures ShowsQuotes(Next(p, s, step))
  {
    var t := Next(p, s, step);
    forall r | r in t.rows && t.rows[r].status.AwaitingConfirmation?
      ensures t.rows[r].quotedFee.Some? && FeeQuoted(t, r, t.rows[r].quotedFee.value)
    {
      RowsShowQuotes(p, s, step, r);
    }
    forall w | w in t.workers && t.workers[w].phase.Settled? && t.workers[w].phase.outcome.TooDear?
      ensures FeeQuoted(t, t.workers[w].row, t.workers[w].phase.outcome.fee)
    {
      OutcomesAreOldOrPriced(p, s, step, w);
      if w in s.workers && t.workers[w] == s.workers[w] {
        QuotesStay(p, s, step, s.workers[w].row, s.workers[w].phase.outcome.fee);
      }
    }
  }

  lemma {:induction false} ShownFeesWereQuoted(p: Provider, steps: seq<Step>)
    requires Feasible(p, START, steps)
    ensures ShowsQuotes(Exec(p, START, steps))
  {
    if steps != [] {
      var last := |steps| - 1;
      ShownFeesWereQuoted(p, steps[..last]);
      StepKeepsShowsQuotes(p, Exec(p, START, steps[..last]), steps[last]);
    }
  }
}
