/** The dispatch protocol: any number of workers, crashing and taking over from each other, against a
    provider whose answers may be late, lost or refused. Every transaction on a row is one step, and
    so is every call to the provider. */
module CourierProtocol {
  import opened Common
  import opened CourierRow

  /** Where a worker is. The first group dispatches, the second cancels, the third tracks. */
  datatype Phase =
    | Claimed                     // holds the row; the previous attempt's delivery is still to be looked up
    | Cleared                     // there is no such delivery
    | Quoted(quote: string)       // the provider's price is within the cap
    | Remembered(quote: string)   // the quote is on the row
    | Sent(quote: string)         // the create request is on its way
    | Landed(quote: string)       // the provider created the delivery; the reply is on its way
    | Settled(outcome: Outcome)   // the calls are over; the outcome is still to be recorded
    | Orphan(quote: string)       // the worker died with its create request on its way
    | Aborting(deliveryId: Option<string>, quoteId: Option<string>)
    | Aborted(cancelInfo: Option<Info>, cancelError: Option<CourierError>)
    | Asking(askedId: string)
    | Answered(report: Info)

  predicate Dispatches(p: Phase) {
    !p.Aborting? && !p.Aborted? && !p.Asking? && !p.Answered?
  }

  predicate HoldsAttempt(p: Phase) {
    !p.Asking? && !p.Answered?
  }

  datatype Worker = Worker(
    row: nat,
    attempt: nat,
    maxFee: Option<int>,
    previousQuote: Option<string>,
    leaseEnd: int,
    phase: Phase)

  datatype Quote = Quote(row: nat, fee: int)
  datatype Delivery = Delivery(row: nat, quote: string, fee: int)

  /** An outcome that took effect: which attempt of which row, and whether it is to be retried. */
  datatype Entry = Entry(row: nat, attempt: nat, retry: bool)

  datatype World = World(
    now: int,
    rows: map<nat, Row>,
    workers: map<nat, Worker>,
    quotes: map<string, Quote>,
    deliveries: map<string, Delivery>,
    lost: set<(nat, string)>,      // create requests whose sender gave up waiting
    log: seq<Entry>)

  const START: World := World(0, map[], map[], map[], map[], {}, [])

  /** What is taken for granted about the provider's create call. A prompt provider creates nothing
      after the sender's call returned or its lease ended; a keyed one refuses a second delivery for the
      same idempotency key, which is the row; a careless one does neither. */
  datatype Provider = Prompt | Keyed | Careless

  datatype Step =
    | Tick(seconds: nat)
    | Open(row: nat, order: nat, cap: Option<int>)
    | Confirm(row: nat)
    | Cancel(row: nat)
    | Hint(row: nat)
    | GiveUp(row: nat, moved: bool)
    | Claim(row: nat, worker: nat)
    | LookUp(worker: nat, report: Info)
    | Price(worker: nat, quote: string, fee: int)
    | Remember(worker: nat)
    | Send(worker: nat)
    | Land(worker: nat)
    | LandLate(row: nat, quote: string)
    | Reply(worker: nat, report: Info)
    | Duplicate(worker: nat, report: Info)
    | Fail(worker: nat, error: CourierError)
    | Record(worker: nat)
    | Crash(worker: nat)
    | ClaimCancel(row: nat, worker: nat, force: bool)
    | NothingToCancel(worker: nat)
    | CancelAtProvider(worker: nat, target: string, report: Info)
    | CancelFails(worker: nat, error: CourierError)
    | FinishCancel(worker: nat)
    | ClaimTrack(row: nat, worker: nat, force: bool)
    | Ask(worker: nat, report: Info)
    | FinishTrack(worker: nat)

  // ---------------------------------------------------------------- helpers of the steps

  predicate Due(s: World, r: nat) {
    r in s.rows && s.rows[r].nextAttemptAt.Some? && s.rows[r].nextAttemptAt.value <= s.now
  }

  predicate HasDelivery(s: World, r: nat) {
    exists d | d in s.deliveries :: s.deliveries[d].row == r
  }

  /** The delivery of a quote, if it exists and is this row's: what adoption finds. */
  predicate Adoptable(s: World, r: nat, quote: string) {
    var id := DeliveryIdForQuote(quote);
    id.Some? && id.value in s.deliveries && s.deliveries[id.value].row == r
  }

  /** The provider answers about the delivery it was asked about. */
  predicate ReportsOn(report: Info, r: nat, id: string) {
    report.id == id && report.externalId == Some(r)
  }

  predicate InPhase(s: World, w: nat) {
    w in s.workers && s.workers[w].row in s.rows
  }

  predicate MayLand(p: Provider, s: World, r: nat, leaseEnd: int) {
    match p
    case Prompt => s.now < leaseEnd
    case Keyed => !HasDelivery(s, r)
    case Careless => true
  }

  function SetPhase(s: World, w: nat, p: Phase): World
    requires w in s.workers
  {
    s.(workers := s.workers[w := s.workers[w].(phase := p)])
  }

  function Drop(s: World, w: nat): World {
    s.(workers := s.workers - {w})
  }

  function SetRow(s: World, r: nat, row: Row): World {
    s.(rows := s.rows[r := row])
  }

  function Create(s: World, r: nat, quote: string): World
    requires quote in s.quotes && DeliveryIdForQuote(quote).Some?
  {
    s.(deliveries := s.deliveries[DeliveryIdForQuote(quote).value := Delivery(r, quote, s.quotes[quote].fee)])
  }

  predicate KnownQuote(s: World, r: nat, quote: string) {
    quote in s.quotes && s.quotes[quote].row == r && DeliveryIdForQuote(quote).Some?
  }

  // ---------------------------------------------------------------- the steps

  predicate Enabled(p: Provider, s: World, step: Step) {
    match step
    case Tick(_) => true
    case Open(r, order, _) => r !in s.rows && forall q | q in s.rows :: s.rows[q].order == order ==> !IsOpen(s.rows[q].status)
    case Confirm(r) => r in s.rows && s.rows[r].status.AwaitingConfirmation?
    case Cancel(r) => r in s.rows && s.rows[r].activeMarker == Some(1)
    case Hint(r) => r in s.rows
    case GiveUp(r, _) => Due(s, r) && (s.rows[r].status.Requested? || s.rows[r].status.Creating?)
    case Claim(r, w) => w !in s.workers && Due(s, r) && (s.rows[r].status.Requested? || s.rows[r].status.Creating?)
    case LookUp(w, report) =>
      && InPhase(s, w) && s.workers[w].phase.Claimed?
      && var k := s.workers[w];
         k.previousQuote.Some? && Adoptable(s, k.row, k.previousQuote.value) ==>
           ReportsOn(report, k.row, DeliveryIdForQuote(k.previousQuote.value).value)
    case Price(w, quote, fee) =>
      && InPhase(s, w) && s.workers[w].phase.Cleared?
      && DeliveryIdForQuote(quote).Some?
      && (quote in s.quotes ==> s.quotes[quote] == Quote(s.workers[w].row, fee))
    case Remember(w) => InPhase(s, w) && s.workers[w].phase.Quoted?
    case Send(w) => InPhase(s, w) && s.workers[w].phase.Remembered?
    case Land(w) =>
      && InPhase(s, w) && (s.workers[w].phase.Sent? || s.workers[w].phase.Orphan?)
      && KnownQuote(s, s.workers[w].row, s.workers[w].phase.quote)
      && MayLand(p, s, s.workers[w].row, s.workers[w].leaseEnd)
    case LandLate(r, quote) =>
      && (r, quote) in s.lost && r in s.rows && KnownQuote(s, r, quote)
      && (p.Careless? || (p.Keyed? && !HasDelivery(s, r)))
    case Reply(w, report) =>
      && InPhase(s, w) && s.workers[w].phase.Landed?
      && Adoptable(s, s.workers[w].row, s.workers[w].phase.quote)
      && ReportsOn(report, s.workers[w].row, DeliveryIdForQuote(s.workers[w].phase.quote).value)
    case Duplicate(w, report) =>
      && InPhase(s, w) && (s.workers[w].phase.Sent? || s.workers[w].phase.Landed?)
      && var k := s.workers[w];
         Adoptable(s, k.row, k.phase.quote) ==> ReportsOn(report, k.row, DeliveryIdForQuote(k.phase.quote).value)
    case Fail(w, _) =>
      && InPhase(s, w) && Dispatches(s.workers[w].phase)
      && !s.workers[w].phase.Settled? && !s.workers[w].phase.Orphan?
    case Record(w) => InPhase(s, w) && s.workers[w].phase.Settled?
    case Crash(w) => InPhase(s, w) && !s.workers[w].phase.Orphan?
    case ClaimCancel(r, w, force) =>
      w !in s.workers && r in s.rows && s.rows[r].status.Cancelling? && (force || Due(s, r))
    case NothingToCancel(w) => InPhase(s, w) && s.workers[w].phase.Aborting?
    case CancelAtProvider(w, target, report) =>
      && InPhase(s, w) && s.workers[w].phase.Aborting?
      && var k := s.workers[w];
         && target in s.deliveries && ReportsOn(report, s.deliveries[target].row, target)
         && (k.phase.deliveryId == Some(target)
             || (k.phase.deliveryId.None? && k.phase.quoteId.Some? && Adoptable(s, k.row, k.phase.quoteId.value)
                 && DeliveryIdForQuote(k.phase.quoteId.value) == Some(target)))
    case CancelFails(w, _) => InPhase(s, w) && s.workers[w].phase.Aborting?
    case FinishCancel(w) => InPhase(s, w) && s.workers[w].phase.Aborted?
    case ClaimTrack(r, w, force) =>
      w !in s.workers && r in s.rows && s.rows[r].status.Active? && (force || Due(s, r))
    case Ask(w, report) =>
      && InPhase(s, w) && s.workers[w].phase.Asking?
      && s.workers[w].phase.askedId in s.deliveries
      && ReportsOn(report, s.deliveries[s.workers[w].phase.askedId].row, s.workers[w].phase.askedId)
    case FinishTrack(w) => InPhase(s, w) && s.workers[w].phase.Answered?
  }

  /** A worker's write-back; it is logged when it is still the row's own attempt. */
  function RecordNext(s: World, w: nat): World
    requires InPhase(s, w) && s.workers[w].phase.Settled?
  {
    var k := s.workers[w];
    var row := s.rows[k.row];
    var row' := Recorded(row, k.attempt, k.phase.outcome, s.now);
    var s' := Drop(SetRow(s, k.row, row'), w);
    if StillMine(row, k.attempt) then s'.(log := s.log + [Entry(k.row, k.attempt, row'.status.Requested?)]) else s'
  }

  function FinishCancelNext(s: World, w: nat): World
    requires InPhase(s, w) && s.workers[w].phase.Aborted?
  {
    var k := s.workers[w];
    var row := s.rows[k.row];
    var row' := CancelFinished(row, k.attempt, k.phase.cancelInfo, k.phase.cancelError, s.now);
    var s' := Drop(SetRow(s, k.row, row'), w);
    if CancelStillMine(row, k.attempt) then s'.(log := s.log + [Entry(k.row, k.attempt, row'.status.Cancelling?)]) else s'
  }

  function ClaimNext(s: World, r: nat, w: nat): World
    requires r in s.rows
  {
    var row := s.rows[r];
    SetRow(s, r, ClaimedRow(row, s.now)).(workers := s.workers[w :=
      Worker(r, row.attempts + 1, row.maxFee, row.quoteId, s.now + LEASE, Claimed)])
  }

  function ClaimCancelNext(s: World, r: nat, w: nat): World
    requires r in s.rows
  {
    var row := s.rows[r];
    SetRow(s, r, CancelClaimedRow(row, s.now)).(workers := s.workers[w :=
      Worker(r, row.attempts + 1, row.maxFee, None, s.now + LEASE, Aborting(row.deliveryId, row.quoteId))])
  }

  function ClaimTrackNext(s: World, r: nat, w: nat): World
    requires r in s.rows
  {
    var row := s.rows[r];
    var s' := SetRow(s, r, TrackClaimedRow(row, s.now));
    if row.deliveryId.None? then s'
    else s'.(workers := s.workers[w := Worker(r, 0, None, None, s.now, Asking(row.deliveryId.value))])
  }

  function PriceNext(s: World, w: nat, quote: string, fee: int): World
    requires InPhase(s, w)
  {
    var k := s.workers[w];
    var s' := s.(quotes := s.quotes[quote := Quote(k.row, fee)]);
    SetPhase(s', w, if k.maxFee.Some? && fee > k.maxFee.value then Settled(TooDear(fee)) else Quoted(quote))
  }

  /** The quote goes on the row only while the claim is still this worker's. */
  function RememberNext(s: World, w: nat): World
    requires InPhase(s, w) && s.workers[w].phase.Quoted?
  {
    var k := s.workers[w];
    var row := s.rows[k.row];
    SetPhase(SetRow(s, k.row, QuoteRemembered(row, k.attempt, k.phase.quote)), w,
             if StillMine(row, k.attempt) then Remembered(k.phase.quote)
             else Settled(CallFailed(CourierError(false, OtherCode))))
  }

  function Next(p: Provider, s: World, step: Step): World
    requires Enabled(p, s, step)
  {
    match step
    case Tick(seconds) => s.(now := s.now + seconds)
    case Open(r, order, cap) => SetRow(s, r, NewRow(order, cap, s.now))
    case Confirm(r) => SetRow(s, r, FeeConfirmed(s.rows[r], s.now))
    case Cancel(r) => SetRow(s, r, CancelRequested(s.rows[r], s.now))
    case Hint(r) => SetRow(s, r, Hinted(s.rows[r], s.now))
    case GiveUp(r, moved) => SetRow(s, r, Closed(s.rows[r], if moved then Cancelled else Failed, s.now))
    case Claim(r, w) => ClaimNext(s, r, w)
    case LookUp(w, report) =>
      var k := s.workers[w];
      SetPhase(s, w, if k.previousQuote.Some? && Adoptable(s, k.row, k.previousQuote.value)
                     then Settled(Found(report)) else Cleared)
    case Price(w, quote, fee) => PriceNext(s, w, quote, fee)
    case Remember(w) => RememberNext(s, w)
    case Send(w) => SetPhase(s, w, Sent(s.workers[w].phase.quote))
    case Land(w) =>
      var k := s.workers[w];
      var s' := Create(s, k.row, k.phase.quote);
      if k.phase.Sent? then SetPhase(s', w, Landed(k.phase.quote)) else Drop(s', w)
    case LandLate(r, quote) => Create(s, r, quote)
    case Reply(w, report) => SetPhase(s, w, Settled(Found(report)))
    case Duplicate(w, report) =>
      var k := s.workers[w];
      SetPhase(s, w, Settled(if Adoptable(s, k.row, k.phase.quote) then Found(report)
                             else CallFailed(CourierError(true, DuplicateDelivery))))
    case Fail(w, error) =>
      var k := s.workers[w];
      var s' := if k.phase.Sent? then s.(lost := s.lost + {(k.row, k.phase.quote)}) else s;
      SetPhase(s', w, Settled(CallFailed(error)))
    case Record(w) => RecordNext(s, w)
    case Crash(w) =>
      if s.workers[w].phase.Sent? then SetPhase(s, w, Orphan(s.workers[w].phase.quote)) else Drop(s, w)
    case ClaimCancel(r, w, _) => ClaimCancelNext(s, r, w)
    case NothingToCancel(w) => SetPhase(s, w, Aborted(None, None))
    case CancelAtProvider(w, _, report) => SetPhase(s, w, Aborted(Some(report), None))
    case CancelFails(w, error) => SetPhase(s, w, Aborted(None, Some(error)))
    case FinishCancel(w) => FinishCancelNext(s, w)
    case ClaimTrack(r, w, _) => ClaimTrackNext(s, r, w)
    case Ask(w, report) => SetPhase(s, w, Answered(report))
    case FinishTrack(w) =>
      var k := s.workers[w];
      Drop(SetRow(s, k.row, Tracked(s.rows[k.row], k.phase.report, s.now)), w)
  }

  predicate Feasible(p: Provider, s: World, steps: seq<Step>)
    decreases |steps|, 0
  {
    steps == [] ||
    var last := |steps| - 1;
    Feasible(p, s, steps[..last]) && Enabled(p, Exec(p, s, steps[..last]), steps[last])
  }

  function Exec(p: Provider, s: World, steps: seq<Step>): World
    requires Feasible(p, s, steps)
    decreases |steps|, 1
  {
    if steps == [] then s else Next(p, Exec(p, s, steps[..|steps| - 1]), steps[|steps| - 1])
  }
}
