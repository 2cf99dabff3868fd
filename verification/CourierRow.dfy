/** One courier request: the row, what each transaction does to it, and what no transaction undoes. */
module CourierRow {
  import opened Common

  datatype Status =
    | Requested
    | Creating
    | AwaitingConfirmation
    | Active
    | Cancelling
    | Delivered
    | Failed
    | Cancelled

  /** What the provider reports about a delivery; `Unstated` is an empty status. */
  datatype ProviderStatus =
    | Unstated
    | Underway
    | PickupComplete
    | Dropoff
    | DropoffDone
    | Canceled
    | ReturnedToStore

  datatype Info = Info(
    id: string,
    status: ProviderStatus,
    fee: Option<int>,
    trackingUrl: Option<string>,
    externalId: Option<nat>)

  datatype ErrorCode = DuplicateDelivery | DeliveryNotFound | OtherCode
  datatype CourierError = CourierError(definitive: bool, code: ErrorCode)

  datatype Outcome =
    | Found(info: Info)
    | TooDear(fee: int)
    | CallFailed(error: CourierError)

  datatype Row = Row(
    order: nat,
    status: Status,
    activeMarker: Option<int>,
    maxFee: Option<int>,
    attempts: nat,
    nextAttemptAt: Option<int>,
    deliveryId: Option<string>,
    providerStatus: ProviderStatus,
    quoteId: Option<string>,
    fee: Option<int>,
    quotedFee: Option<int>,
    trackingUrl: Option<string>,
    dispatchedAt: Option<int>,
    pickedUpAt: Option<int>,
    deliveredAt: Option<int>,
    trackedAt: Option<int>,
    closedAt: Option<int>)

  // Times are in seconds.
  const LEASE := 120
  const TRACK_EVERY := 120
  const MAX_ATTEMPTS := 5
  const BACKOFF: seq<int> := [30, 60, 180, 600]

  /** The wait before the next attempt; index -1 reads the last entry. */
  function BackoffAfter(attempts: nat): int {
    if attempts == 0 then BACKOFF[|BACKOFF| - 1] else BACKOFF[Min(attempts - 1, |BACKOFF| - 1)]
  }

  predicate IsOpen(status: Status) {
    status.Requested? || status.Creating? || status.AwaitingConfirmation? || status.Active? || status.Cancelling?
  }

  function Or<T>(a: Option<T>, b: Option<T>): Option<T> {
    if a.Some? then a else b
  }

  // ---------------------------------------------------------------- delivery ids

  const QUOTE_PREFIX: string := "dqt_"
  const DELIVERY_PREFIX: string := "del_"

  /** A quote `dqt_X` becomes the delivery `del_X`. */
  function DeliveryIdForQuote(quote: string): Option<string> {
    if QUOTE_PREFIX <= quote && 4 < |quote| then Some(DELIVERY_PREFIX + quote[4..]) else None
  }

  /** Two quotes never stand for the same delivery. */
  lemma DeliveryIdsAreDistinct(q: string, q': string)
    requires DeliveryIdForQuote(q).Some? && DeliveryIdForQuote(q) == DeliveryIdForQuote(q')
    ensures q == q'
  {
    var d := DELIVERY_PREFIX + q[4..];
    assert q[4..] == d[4..] && q'[4..] == d[4..];
    assert q == q[..4] + q[4..] && q' == q'[..4] + q'[4..];
  }

  // ---------------------------------------------------------------- transactions on the row

  function Closed(row: Row, status: Status, now: int): Row {
    row.(status := status, activeMarker := None, closedAt := Some(now), nextAttemptAt := None)
  }

  /** What the provider told about the delivery, noted on the row. */
  function Told(row: Row, info: Info, now: int): Row {
    row.(
      deliveryId := if info.id != "" then Some(info.id) else row.deliveryId,
      providerStatus := if info.status.Unstated? then row.providerStatus else info.status,
      fee := Or(info.fee, row.fee),
      trackingUrl := Or(info.trackingUrl, row.trackingUrl),
      dispatchedAt := Or(row.dispatchedAt, Some(now)),
      trackedAt := Some(now),
      pickedUpAt := if info.status.PickupComplete? || info.status.Dropoff? then Or(row.pickedUpAt, Some(now)) else row.pickedUpAt)
  }

  /** And what it means for the row. */
  function Applied(row: Row, info: Info, now: int): Row {
    var told := Told(row, info, now);
    match info.status
    case DropoffDone => Closed(told.(deliveredAt := Or(row.deliveredAt, Some(now))), Delivered, now)
    case Canceled => Closed(told, if row.status.Cancelling? then Cancelled else Failed, now)
    case ReturnedToStore => Closed(told, Failed, now)
    case _ => if row.status.Cancelling? then told else told.(status := Active, nextAttemptAt := Some(now + TRACK_EVERY))
  }

  function NewRow(order: nat, maxFee: Option<int>, now: int): Row {
    Row(order, Requested, Some(1), maxFee, 0, Some(now), None, Unstated, None, None, None, None, None, None, None, None, None)
  }

  function FeeConfirmed(row: Row, now: int): Row {
    row.(maxFee := row.quotedFee, status := Requested, nextAttemptAt := Some(now))
  }

  /** What the provider never saw closes here; what exists there, or may exist, is cancelled there. */
  function CancelRequested(row: Row, now: int): Row {
    if (row.status.Requested? || row.status.AwaitingConfirmation?) && row.quoteId.None? && row.deliveryId.None?
    then Closed(row, Cancelled, now)
    else if !row.status.Cancelling? then row.(status := Cancelling, nextAttemptAt := Some(now))
    else row
  }

  function ClaimedRow(row: Row, now: int): Row {
    row.(status := Creating, attempts := row.attempts + 1, nextAttemptAt := Some(now + LEASE))
  }

  predicate StillMine(row: Row, attempt: nat) {
    row.status.Creating? && row.attempts == attempt
  }

  function QuoteRemembered(row: Row, attempt: nat, quote: string): Row {
    if StillMine(row, attempt) then row.(quoteId := Some(quote)) else row
  }

  /** Whether a failed attempt gives up: the provider said no for good, or it was the last one. */
  predicate GivesUp(row: Row, error: CourierError) {
    error.definitive || row.attempts >= MAX_ATTEMPTS
  }

  function Recorded(row: Row, attempt: nat, outcome: Outcome, now: int): Row {
    if row.status.Cancelling? then
      var kept := if outcome.Found? then row.(
          deliveryId := if outcome.info.id != "" then Some(outcome.info.id) else row.deliveryId,
          trackingUrl := Or(outcome.info.trackingUrl, row.trackingUrl))
        else row;
      kept.(nextAttemptAt := Some(now))
    else if !StillMine(row, attempt) then row
    else
      match outcome
      case Found(info) => Applied(row, info, now)
      case TooDear(fee) => row.(status := AwaitingConfirmation, quotedFee := Some(fee), nextAttemptAt := None)
      case CallFailed(error) =>
        if GivesUp(row, error) then Closed(row, Failed, now)
        else row.(status := Requested, nextAttemptAt := Some(now + BackoffAfter(row.attempts)))
  }

  function CancelClaimedRow(row: Row, now: int): Row {
    row.(attempts := row.attempts + 1, nextAttemptAt := Some(now + LEASE))
  }

  predicate CancelStillMine(row: Row, attempt: nat) {
    row.status.Cancelling? && row.attempts == attempt
  }

  function CancelFinished(row: Row, attempt: nat, info: Option<Info>, error: Option<CourierError>, now: int): Row {
    if !CancelStillMine(row, attempt) then row
    else if error.None? then
      var told := if info.Some? then Applied(row, info.value, now) else row;
      if told.status.Cancelling? then Closed(told, Cancelled, now) else told
    else if error.value.code.DeliveryNotFound? then Closed(row, Cancelled, now)
    else if GivesUp(row, error.value) then row.(status := Active, nextAttemptAt := None)
    else row.(nextAttemptAt := Some(now + BackoffAfter(row.attempts)))
  }

  /** A row with no delivery id has nothing to ask about, and is not asked about again. */
  function TrackClaimedRow(row: Row, now: int): Row {
    row.(nextAttemptAt := if row.deliveryId.None? then None else Some(now + TRACK_EVERY))
  }

  function Tracked(row: Row, info: Info, now: int): Row {
    if row.activeMarker == Some(1) && row.status.Active? then Applied(row, info, now) else row
  }

  function Hinted(row: Row, now: int): Row {
    if row.activeMarker == Some(1) && row.status.Active? then row.(nextAttemptAt := Some(now)) else row
  }

  // ---------------------------------------------------------------- what a row always satisfies

  /** The marker says the row is open; a row someone must act on has a due time; a row nobody should
      act on has none; a row waiting for confirmation was quoted above its cap. */
  predicate RowOk(row: Row) {
    && (row.activeMarker == if IsOpen(row.status) then Some(1) else None)
    && (row.status.Requested? || row.status.Creating? || row.status.Cancelling? ==> row.nextAttemptAt.Some?)
    && (row.status.AwaitingConfirmation? || !IsOpen(row.status) ==> row.nextAttemptAt.None?)
    && (row.status.AwaitingConfirmation? ==>
          row.maxFee.Some? && row.quotedFee.Some? && row.maxFee.value < row.quotedFee.value)
    && (row.status.Creating? ==> 0 < row.attempts)
    && (row.status.Requested? || row.status.Creating? || row.status.AwaitingConfirmation? ==> row.deliveryId.None?)
  }

  /** The row has been through a dispatch that settled it, or is being cancelled: no new claim. */
  predicate PastDispatch(status: Status) {
    status.Active? || status.Cancelling? || !IsOpen(status)
  }

  /** A missing cap is no limit, and is never given one. */
  predicate CapLe(a: Option<int>, b: Option<int>) {
    (a.None? && b.None?) || (a.Some? && b.Some? && a.value <= b.value)
  }

  /** What no transaction on a row ever undoes. */
  predicate Evolves(row: Row, row': Row) {
    && row'.order == row.order
    && row.attempts <= row'.attempts
    && CapLe(row.maxFee, row'.maxFee)
    && (row'.status.Creating? && row'.attempts == row.attempts ==> row.status.Creating? && row'.maxFee == row.maxFee)
    && (PastDispatch(row.status) ==> PastDispatch(row'.status) && row'.quoteId == row.quoteId)
    && (!IsOpen(row.status) ==> row' == row)
  }

  lemma EvolvesTransitive(a: Row, b: Row, c: Row)
    requires Evolves(a, b) && Evolves(b, c)
    ensures Evolves(a, c)
  {
  }

  lemma AppliedOk(row: Row, info: Info, now: int)
    requires RowOk(row) && (row.status.Creating? || row.status.Active? || row.status.Cancelling?)
    ensures RowOk(Applied(row, info, now)) && Evolves(row, Applied(row, info, now))
    ensures PastDispatch(Applied(row, info, now).status)
    ensures row.status.Cancelling? ==> var s := Applied(row, info, now).status; s.Cancelling? || !IsOpen(s)
    ensures Applied(row, info, now).quoteId == row.quoteId
  {
  }

  /** A confirmation strictly raises the cap. */
  lemma ConfirmingRaisesTheCap(row: Row, now: int)
    requires RowOk(row) && row.status.AwaitingConfirmation?
    ensures var row' := FeeConfirmed(row, now);
      RowOk(row') && Evolves(row, row') && row.maxFee.Some? && row'.maxFee.Some? && row.maxFee.value < row'.maxFee.value
  {
  }

  lemma CancelRequestedOk(row: Row, now: int)
    requires RowOk(row) && IsOpen(row.status)
    ensures var row' := CancelRequested(row, now);
      RowOk(row') && Evolves(row, row') && PastDispatch(row'.status) && row'.quoteId == row.quoteId
  {
  }

  lemma RecordedOk(row: Row, attempt: nat, outcome: Outcome, now: int)
    requires RowOk(row)
    requires StillMine(row, attempt) && outcome.TooDear? ==> row.maxFee.Some? && row.maxFee.value < outcome.fee
    ensures RowOk(Recorded(row, attempt, outcome, now)) && Evolves(row, Recorded(row, attempt, outcome, now))
    ensures Recorded(row, attempt, outcome, now).quoteId == row.quoteId
    ensures Recorded(row, attempt, outcome, now).attempts == row.attempts
    ensures StillMine(row, attempt) ==> !Recorded(row, attempt, outcome, now).status.Creating?
  {
    if StillMine(row, attempt) && outcome.Found? {
      AppliedOk(row, outcome.info, now);
    }
  }

  /** A worker whose claim was lost changes nothing, except that it hands a row being cancelled the
      delivery it should cancel, and wakes it up. */
  lemma AStaleRecordOnlyHelpsCancel(row: Row, attempt: nat, outcome: Outcome, now: int)
    requires !StillMine(row, attempt)
    ensures var row' := Recorded(row, attempt, outcome, now);
      && row' == row.(deliveryId := row'.deliveryId, trackingUrl := row'.trackingUrl, nextAttemptAt := row'.nextAttemptAt)
      && (!row.status.Cancelling? ==> row' == row)
      && (row.deliveryId != row'.deliveryId ==> outcome.Found? && row'.deliveryId == Some(outcome.info.id))
  {
  }

  lemma CancelFinishedOk(row: Row, attempt: nat, info: Option<Info>, error: Option<CourierError>, now: int)
    requires RowOk(row)
    ensures var row' := CancelFinished(row, attempt, info, error, now);
      && RowOk(row') && Evolves(row, row') && row'.quoteId == row.quoteId && row'.attempts == row.attempts
      && (CancelStillMine(row, attempt) ==> PastDispatch(row'.status))
      && (!CancelStillMine(row, attempt) ==> row' == row)
  {
    if CancelStillMine(row, attempt) && error.None? && info.Some? {
      AppliedOk(row, info.value, now);
    }
  }

  lemma TrackingOk(row: Row, info: Info, now: int)
    requires RowOk(row)
    ensures RowOk(Tracked(row, info, now)) && Evolves(row, Tracked(row, info, now))
    ensures Tracked(row, info, now).quoteId == row.quoteId
    ensures RowOk(Hinted(row, now)) && Evolves(row, Hinted(row, now))
    ensures row.status.Active? ==> RowOk(TrackClaimedRow(row, now)) && Evolves(row, TrackClaimedRow(row, now))
  {
    if row.status.Active? {
      AppliedOk(row, info, now);
    }
  }
}
