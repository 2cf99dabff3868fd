/** What each transaction writes on a courier row, told field by field: `row` before, `row'` after; and that
    the steps of the protocol write nothing else. */
module CourierEffects {
  import opened Common
  import opened CourierRow
  import opened CourierProtocol

  /** A fact the provider may leave out: what it says is kept, and what it leaves out stays. */
  predicate Keeps<T(==)>(told: Option<T>, before: Option<T>, after: Option<T>) {
    (told.Some? ==> after == told) && (told.None? ==> after == before)
  }

  /** A moment is written once. */
  predicate Stamped(happened: bool, before: Option<int>, after: Option<int>, now: int) {
    (happened && before.None? ==> after == Some(now)) && (!happened || before.Some? ==> after == before)
  }

  predicate ClosesAs(row: Row, row': Row, status: Status, now: int) {
    && row'.status == status && !IsOpen(status)
    && row'.activeMarker.None? && row'.closedAt == Some(now) && row'.nextAttemptAt.None?
    && row' == row.(status := row'.status, activeMarker := None, closedAt := row'.closedAt, nextAttemptAt := None)
  }

  /** The facts of a report; the claim, the cap and the quote are not the provider's to change. */
  predicate Noted(row: Row, row': Row, info: Info, now: int) {
    && Keeps(if info.id == "" then None else Some(info.id), row.deliveryId, row'.deliveryId)
    && (info.status.Unstated? ==> row'.providerStatus == row.providerStatus)
    && (!info.status.Unstated? ==> row'.providerStatus == info.status)
    && Keeps(info.fee, row.fee, row'.fee) && Keeps(info.trackingUrl, row.trackingUrl, row'.trackingUrl)
    && Stamped(true, row.dispatchedAt, row'.dispatchedAt, now) && row'.trackedAt == Some(now)
    && Stamped(info.status.PickupComplete? || info.status.Dropoff?, row.pickedUpAt, row'.pickedUpAt, now)
    && Stamped(info.status.DropoffDone?, row.deliveredAt, row'.deliveredAt, now)
    && row'.order == row.order && row'.maxFee == row.maxFee && row'.attempts == row.attempts
    && row'.quoteId == row.quoteId && row'.quotedFee == row.quotedFee
  }

  predicate EndsAs(row': Row, status: Status, now: int) {
    row'.status == status && row'.activeMarker.None? && row'.closedAt == Some(now) && row'.nextAttemptAt.None?
  }

  /** A delivery that is over closes the row: delivered, cancelled if that was asked for, or failed. Any
      other leaves a row being cancelled as it is, and makes every other row active, to be asked about
      again in two minutes. */
  predicate ReportTaken(row: Row, row': Row, info: Info, now: int) {
    && Noted(row, row', info, now)
    && (info.status.DropoffDone? ==> EndsAs(row', Delivered, now))
    && (info.status.Canceled? && row.status.Cancelling? ==> EndsAs(row', Cancelled, now))
    && (info.status.Canceled? && !row.status.Cancelling? ==> EndsAs(row', Failed, now))
    && (info.status.ReturnedToStore? ==> EndsAs(row', Failed, now))
    && (!info.status.DropoffDone? && !info.status.Canceled? && !info.status.ReturnedToStore? ==>
          && row'.activeMarker == row.activeMarker && row'.closedAt == row.closedAt
          && (row.status.Cancelling? ==> row'.status.Cancelling? && row'.nextAttemptAt == row.nextAttemptAt)
          && (!row.status.Cancelling? ==> row'.status.Active? && row'.nextAttemptAt == Some(now + 120)))
  }

  /** The provider cannot know of the row: no quote was remembered for it, it has no delivery, and no
      worker is about to make one. */
  predicate UnknownToProvider(row: Row) {
    row.quoteId.None? && row.deliveryId.None? && (row.status.Requested? || row.status.AwaitingConfirmation?)
  }

  /** A cancellation closes here what the provider cannot know of, and leaves the rest to a worker. */
  predicate CancelTaken(row: Row, row': Row, now: int) {
    && (UnknownToProvider(row) ==> ClosesAs(row, row', Cancelled, now))
    && (!UnknownToProvider(row) && !row.status.Cancelling? ==>
          row' == row.(status := Cancelling, nextAttemptAt := Some(now)))
    && (row.status.Cancelling? ==> row' == row)
  }

  /** The waits between attempts: half a minute, one, three and then ten minutes. */
  predicate Waits(attempts: nat, now: int, due: Option<int>) {
    && (attempts == 1 ==> due == Some(now + 30)) && (attempts == 2 ==> due == Some(now + 60))
    && (attempts == 3 ==> due == Some(now + 180)) && (attempts == 0 || 4 <= attempts ==> due == Some(now + 600))
  }

  /** The provider's no is final, or five attempts were made. */
  predicate NoMoreAttempts(row: Row, error: CourierError) {
    error.definitive || 5 <= row.attempts
  }

  /** The outcome of an attempt, recorded by its worker. */
  predicate OutcomeTaken(row: Row, row': Row, attempt: nat, outcome: Outcome, now: int) {
    var mine := row.status.Creating? && row.attempts == attempt;
    && (row.status.Cancelling? ==>
          && row' == row.(deliveryId := row'.deliveryId, trackingUrl := row'.trackingUrl, nextAttemptAt := Some(now))
          && Keeps(if outcome.Found? && outcome.info.id != "" then Some(outcome.info.id) else None, row.deliveryId, row'.deliveryId)
          && Keeps(if outcome.Found? then outcome.info.trackingUrl else None, row.trackingUrl, row'.trackingUrl))
    && (!row.status.Cancelling? && !mine ==> row' == row)
    && (mine && outcome.Found? ==> ReportTaken(row, row', outcome.info, now))
    && (mine && outcome.TooDear? ==>
          row' == row.(status := AwaitingConfirmation, quotedFee := Some(outcome.fee), nextAttemptAt := None))
    && (mine && outcome.CallFailed? ==>
          if NoMoreAttempts(row, outcome.error) then ClosesAs(row, row', Failed, now)
          else Waits(row.attempts, now, row'.nextAttemptAt)
               && row' == row.(status := Requested, nextAttemptAt := row'.nextAttemptAt))
  }

  /** The outcome of a cancellation: the row closes, or follows the courier that cannot be stopped any
      more, or waits to try again. */
  predicate CancelOutcomeTaken(row: Row, row': Row, attempt: nat, info: Option<Info>, error: Option<CourierError>, now: int) {
    var mine := row.status.Cancelling? && row.attempts == attempt;
    && (!mine ==> row' == row)
    && (mine && error.None? && info.None? ==> ClosesAs(row, row', Cancelled, now))
    && (mine && error.None? && info.Some? ==>
          && Noted(row, row', info.value, now)
          && EndsAs(row', if info.value.status.DropoffDone? then Delivered
                               else if info.value.status.ReturnedToStore? then Failed else Cancelled, now))
    && (mine && error.Some? ==>
          if error.value.code.DeliveryNotFound? then ClosesAs(row, row', Cancelled, now)
          else if NoMoreAttempts(row, error.value) then row' == row.(status := Active, nextAttemptAt := None)
          else Waits(row.attempts, now, row'.nextAttemptAt) && row' == row.(nextAttemptAt := row'.nextAttemptAt))
  }

  /** A row just opened: requested, open, due at once, under the store's cap and with nothing else on it. */
  predicate JustOpened(row: Row, order: nat, cap: Option<int>, now: int) {
    && row.order == order && row.status.Requested? && row.activeMarker == Some(1)
    && row.maxFee == cap && row.attempts == 0 && row.nextAttemptAt == Some(now)
    && row.quoteId.None? && row.quotedFee.None? && row.deliveryId.None? && row.fee.None?
    && row.providerStatus.Unstated? && row.trackingUrl.None? && row.trackedAt.None? && row.closedAt.None?
    && row.dispatchedAt.None? && row.pickedUpAt.None? && row.deliveredAt.None?
  }

  /** The store takes the fee it was shown: that is the cap from now on, and the row is due again. */
  predicate FeeTaken(row: Row, row': Row, now: int) {
    row' == row.(maxFee := row.quotedFee, status := Requested, nextAttemptAt := Some(now))
  }

  /** A worker holds the row for two minutes. */
  predicate Held(row: Row, row': Row, now: int) {
    row' == row.(status := Creating, attempts := row.attempts + 1, nextAttemptAt := Some(now + 120))
  }

  predicate HeldForCancel(row: Row, row': Row, now: int) {
    row' == row.(attempts := row.attempts + 1, nextAttemptAt := Some(now + 120))
  }

  /** The quote is on the row before the provider is asked to create, while the claim holds. */
  predicate QuoteKept(row: Row, row': Row, attempt: nat, quote: string) {
    row' == row.(quoteId := if row.status.Creating? && row.attempts == attempt then Some(quote) else row.quoteId)
  }

  /** The next question is due in two minutes; without a delivery there is none. */
  predicate HeldForTracking(row: Row, row': Row, now: int) {
    row' == row.(nextAttemptAt := if row.deliveryId.None? then None else Some(now + 120))
  }

  predicate TrackTaken(row: Row, row': Row, info: Info, now: int) {
    if row.activeMarker == Some(1) && row.status.Active? then ReportTaken(row, row', info, now) else row' == row
  }

  predicate HintTaken(row: Row, row': Row, now: int) {
    row' == row.(nextAttemptAt := if row.activeMarker == Some(1) && row.status.Active? then Some(now) else row.nextAttemptAt)
  }

  // ---------------------------------------------------------------- every step of a run

  ghost predicate OnlyRow(s: World, t: World, r: nat) {
    && r in t.rows && (forall q :: q in t.rows <==> q in s.rows || q == r)
    && forall q | q in s.rows && q != r :: t.rows[q] == s.rows[q]
  }

  ghost predicate WorkerWrites(s: World, t: World, w: nat) {
    InPhase(s, w) && OnlyRow(s, t, s.workers[w].row)
  }

  /** What a step writes on the rows: one transaction on one row, or nothing. */
  ghost predicate RowsTakeEffect(s: World, t: World, step: Step) {
    match step
    case Open(r, order, cap) => OnlyRow(s, t, r) && JustOpened(t.rows[r], order, cap, s.now)
    case Confirm(r) => r in s.rows && OnlyRow(s, t, r) && FeeTaken(s.rows[r], t.rows[r], s.now)
    case Cancel(r) => r in s.rows && OnlyRow(s, t, r) && CancelTaken(s.rows[r], t.rows[r], s.now)
    case Hint(r) => r in s.rows && OnlyRow(s, t, r) && HintTaken(s.rows[r], t.rows[r], s.now)
    case GiveUp(r, moved) =>
      r in s.rows && OnlyRow(s, t, r) && ClosesAs(s.rows[r], t.rows[r], if moved then Cancelled else Failed, s.now)
    case Claim(r, _) => r in s.rows && OnlyRow(s, t, r) && Held(s.rows[r], t.rows[r], s.now)
    case Remember(w) =>
      WorkerWrites(s, t, w) && var k := s.workers[w];
      k.phase.Quoted? && QuoteKept(s.rows[k.row], t.rows[k.row], k.attempt, k.phase.quote)
    case Record(w) =>
      WorkerWrites(s, t, w) && var k := s.workers[w];
      k.phase.Settled? && OutcomeTaken(s.rows[k.row], t.rows[k.row], k.attempt, k.phase.outcome, s.now)
    case ClaimCancel(r, _, _) => r in s.rows && OnlyRow(s, t, r) && HeldForCancel(s.rows[r], t.rows[r], s.now)
    case FinishCancel(w) =>
      WorkerWrites(s, t, w) && var k := s.workers[w];
      k.phase.Aborted? && CancelOutcomeTaken(s.rows[k.row], t.rows[k.row], k.attempt, k.phase.cancelInfo, k.phase.cancelError, s.now)
    case ClaimTrack(r, _, _) => r in s.rows && OnlyRow(s, t, r) && HeldForTracking(s.rows[r], t.rows[r], s.now)
    case FinishTrack(w) =>
      WorkerWrites(s, t, w) && var k := s.workers[w];
      k.phase.Answered? && TrackTaken(s.rows[k.row], t.rows[k.row], k.phase.report, s.now)
    case _ => t.rows == s.rows
  }

  lemma ReportsTakeEffect(row: Row, info: Info, now: int)
    ensures ReportTaken(row, Applied(row, info, now), info, now)
  {
  }

  lemma OutcomesTakeEffect(row: Row, attempt: nat, outcome: Outcome, now: int)
    ensures OutcomeTaken(row, Recorded(row, attempt, outcome, now), attempt, outcome, now)
  {
    if outcome.Found? {
      ReportsTakeEffect(row, outcome.info, now);
    }
  }

  lemma CancellationsTakeEffect(row: Row, attempt: nat, info: Option<Info>, error: Option<CourierError>, now: int)
    ensures CancelOutcomeTaken(row, CancelFinished(row, attempt, info, error, now), attempt, info, error, now)
  {
    if info.Some? {
      ReportsTakeEffect(row, info.value, now);
    }
  }

  lemma WriteBacksTakeEffect(p: Provider, s: World, step: Step)
    requires Enabled(p, s, step) && (step.Record? || step.FinishCancel? || step.FinishTrack? || step.Remember?)
    ensures RowsTakeEffect(s, Next(p, s, step), step)
  {
    var k := s.workers[step.worker];
    var row := s.rows[k.row];
    if step.Record? {
      OutcomesTakeEffect(row, k.attempt, k.phase.outcome, s.now);
      assert Next(p, s, step).rows == s.rows[k.row := Recorded(row, k.attempt, k.phase.outcome, s.now)];
    } else if step.FinishCancel? {
      CancellationsTakeEffect(row, k.attempt, k.phase.cancelInfo, k.phase.cancelError, s.now);
      assert Next(p, s, step).rows
        == s.rows[k.row := CancelFinished(row, k.attempt, k.phase.cancelInfo, k.phase.cancelError, s.now)];
    } else if step.FinishTrack? {
      ReportsTakeEffect(row, k.phase.report, s.now);
      assert Next(p, s, step).rows == s.rows[k.row := Tracked(row, k.phase.report, s.now)];
    } else {
      assert Next(p, s, step).rows == s.rows[k.row := QuoteRemembered(row, k.attempt, k.phase.quote)];
    }
  }

  lemma OpeningsTakeEffect(p: Provider, s: World, step: Step)
    requires Enabled(p, s, step) && (step.Open? || step.Confirm? || step.Cancel? || step.Hint? || step.GiveUp?)
    ensures RowsTakeEffect(s, Next(p, s, step), step)
  {
  }

  lemma ClaimsTakeEffect(p: Provider, s: World, step: Step)
    requires Enabled(p, s, step) && (step.Claim? || step.ClaimCancel? || step.ClaimTrack?)
    ensures RowsTakeEffect(s, Next(p, s, step), step)
  {
    var row' := if step.Claim? then ClaimedRow(s.rows[step.row], s.now)
                else if step.ClaimCancel? then CancelClaimedRow(s.rows[step.row], s.now)
                else TrackClaimedRow(s.rows[step.row], s.now);
    assert Next(p, s, step).rows == s.rows[step.row := row'];
  }

  /** Every step of every run writes what its transaction is to write, on its row alone. */
  lemma StepsTakeEffect(p: Provider, s: World, step: Step)
    requires Enabled(p, s, step)
    ensures RowsTakeEffect(s, Next(p, s, step), step)
  {
    if step.Record? || step.FinishCancel? || step.FinishTrack? || step.Remember? {
      WriteBacksTakeEffect(p, s, step);
    } else if step.Open? || step.Confirm? || step.Cancel? || step.Hint? || step.GiveUp? {
      OpeningsTakeEffect(p, s, step);
    } else if step.Claim? || step.ClaimCancel? || step.ClaimTrack? {
      ClaimsTakeEffect(p, s, step);
    }
  }
}
