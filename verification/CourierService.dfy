/** The courier service: each method is one transaction on a locked row, proved to leave the row
    exactly as CourierRow says. The calls to the provider happen between these transactions. */
module CourierService {
  import opened Common
  import opened CourierRow
  import opened CourierProtocol
  import opened CourierEffects

  datatype OrderFacts = OrderFacts(id: nat, isDelivery: bool, zoneIsUber: bool, ready: bool)
  datatype Settings = Settings(autoDispatch: bool, maxFee: Option<int>)

  datatype ReserveResult = NotApplicable | Existing | Reserved | NotDelivery | NotReady | InProgress
  datatype RecordResult = RecordedCancelling | Superseded | NowActive | NowAwaiting | GaveUp | WillRetry
  datatype CancelResult = CancelSuperseded | CancelDone | CancelRefused | CancelRetry
  datatype Branch = NotDue | CancelIt | Dispatch | Track

  class CourierDelivery {
    var order: nat
    var status: Status
    var activeMarker: Option<int>
    var maxFee: Option<int>
    var attempts: nat
    var nextAttemptAt: Option<int>
    var deliveryId: Option<string>
    var providerStatus: ProviderStatus
    var quoteId: Option<string>
    var fee: Option<int>
    var quotedFee: Option<int>
    var trackingUrl: Option<string>
    var dispatchedAt: Option<int>
    var pickedUpAt: Option<int>
    var deliveredAt: Option<int>
    var trackedAt: Option<int>
    var closedAt: Option<int>

    function View(): Row
      reads this
    {
      Row(order, status, activeMarker, maxFee, attempts, nextAttemptAt, deliveryId, providerStatus, quoteId,
          fee, quotedFee, trackingUrl, dispatchedAt, pickedUpAt, deliveredAt, trackedAt, closedAt)
    }

    constructor (order: nat, maxFee: Option<int>, now: int)
      ensures View() == NewRow(order, maxFee, now)
      ensures JustOpened(View(), order, maxFee, now)
    {
      this.order, this.status, this.activeMarker := order, Requested, Some(1);
      this.maxFee, this.attempts, this.nextAttemptAt := maxFee, 0, Some(now);
      this.deliveryId, this.providerStatus, this.quoteId := None, Unstated, None;
      this.fee, this.quotedFee, this.trackingUrl := None, None, None;
      this.dispatchedAt, this.pickedUpAt, this.deliveredAt := None, None, None;
      this.trackedAt, this.closedAt := None, None;
    }

    method Close(to: Status, now: int)
      modifies this
      ensures View() == Closed(old(View()), to, now)
      ensures !IsOpen(to) ==> ClosesAs(old(View()), View(), to, now)
    {
      status := to;
      activeMarker := None;
      closedAt := Some(now);
      nextAttemptAt := None;
    }

    method Note(info: Info, now: int)
      modifies this`deliveryId, this`providerStatus, this`fee, this`trackingUrl
      modifies this`dispatchedAt, this`trackedAt, this`pickedUpAt
      ensures View() == Told(old(View()), info, now)
    {
      deliveryId := if info.id != "" then Some(info.id) else deliveryId;
      providerStatus := if info.status.Unstated? then providerStatus else info.status;
      fee := Or(info.fee, fee);
      trackingUrl := Or(info.trackingUrl, trackingUrl);
      dispatchedAt := Or(dispatchedAt, Some(now));
      trackedAt := Some(now);
      if (info.status.PickupComplete? || info.status.Dropoff?) && pickedUpAt.None? {
        pickedUpAt := Some(now);
      }
    }

    method Apply(info: Info, now: int)
      modifies this
      ensures View() == Applied(old(View()), info, now)
      ensures ReportTaken(old(View()), View(), info, now)
    {
      Note(info, now);
      if info.status.DropoffDone? {
        deliveredAt := Or(deliveredAt, Some(now));
        Close(Delivered, now);
      } else if info.status.Canceled? {
        if status.Cancelling? {
          Close(Cancelled, now);
        } else {
          Close(Failed, now);
        }
      } else if info.status.ReturnedToStore? {
        Close(Failed, now);
      } else if !status.Cancelling? {
        status := Active;
        nextAttemptAt := Some(now + TRACK_EVERY);
      }
    }

    // -------------------------------------------------------------- the store

    method ConfirmFee(now: int) returns (confirmed: bool)
      modifies this
      ensures confirmed <==> old(status).AwaitingConfirmation?
      ensures View() == if confirmed then FeeConfirmed(old(View()), now) else old(View())
      ensures if confirmed then FeeTaken(old(View()), View(), now) else View() == old(View())
    {
      if !status.AwaitingConfirmation? {
        return false;
      }
      maxFee := quotedFee;
      status := Requested;
      nextAttemptAt := Some(now);
      confirmed := true;
    }

    method RequestCancel(now: int)
      modifies this
      ensures View() == CancelRequested(old(View()), now)
      ensures CancelTaken(old(View()), View(), now)
    {
      if (status.Requested? || status.AwaitingConfirmation?) && quoteId.None? && deliveryId.None? {
        Close(Cancelled, now);
      } else if !status.Cancelling? {
        status := Cancelling;
        nextAttemptAt := Some(now);
      }
    }

    // -------------------------------------------------------------- the worker

    /** Marks the row as this worker's until the lease ends, and says which attempt it is. */
    method Claim(now: int) returns (attempt: nat)
      modifies this
      ensures View() == ClaimedRow(old(View()), now)
      ensures StillMine(View(), attempt) && old(attempts) < attempt
      ensures Held(old(View()), View(), now) && attempt == attempts
    {
      status := Creating;
      attempts := attempts + 1;
      nextAttemptAt := Some(now + LEASE);
      attempt := attempts;
    }

    method RememberQuote(attempt: nat, quote: string) returns (kept: bool)
      modifies this
      ensures View() == QuoteRemembered(old(View()), attempt, quote)
      ensures kept <==> old(status).Creating? && old(attempts) == attempt
      ensures QuoteKept(old(View()), View(), attempt, quote)
    {
      if attempts != attempt || !status.Creating? {
        return false;
      }
      quoteId := Some(quote);
      kept := true;
    }

    method Record(attempt: nat, outcome: Outcome, now: int) returns (result: RecordResult)
      modifies this
      ensures View() == Recorded(old(View()), attempt, outcome, now)
      ensures OutcomeTaken(old(View()), View(), attempt, outcome, now)
      ensures result.RecordedCancelling? <==> old(status).Cancelling?
      ensures result.Superseded? <==> !old(status).Cancelling? && !StillMine(old(View()), attempt)
      ensures result.NowAwaiting? <==> StillMine(old(View()), attempt) && outcome.TooDear?
      ensures result.GaveUp? <==>
        StillMine(old(View()), attempt) && outcome.CallFailed? && NoMoreAttempts(old(View()), outcome.error)
      ensures result.WillRetry? <==>
        StillMine(old(View()), attempt) && outcome.CallFailed? && !NoMoreAttempts(old(View()), outcome.error)
      ensures result.NowActive? <==> StillMine(old(View()), attempt) && outcome.Found?
    {
      if status.Cancelling? {
        if outcome.Found? {
          if outcome.info.id != "" {
            deliveryId := Some(outcome.info.id);
          }
          trackingUrl := Or(outcome.info.trackingUrl, trackingUrl);
        }
        nextAttemptAt := Some(now);
        return RecordedCancelling;
      }
      if !status.Creating? || attempts != attempt {
        return Superseded;
      }
      match outcome
      case Found(info) =>
        Apply(info, now);
        result := NowActive;
      case TooDear(quoted) =>
        status := AwaitingConfirmation;
        quotedFee := Some(quoted);
        nextAttemptAt := None;
        result := NowAwaiting;
      case CallFailed(error) =>
        if error.definitive || attempts >= MAX_ATTEMPTS {
          Close(Failed, now);
          result := GaveUp;
        } else {
          status := Requested;
          nextAttemptAt := Some(now + BackoffAfter(attempts));
          result := WillRetry;
        }
    }

    method ClaimCancel(now: int) returns (attempt: nat)
      modifies this
      ensures View() == CancelClaimedRow(old(View()), now)
      ensures HeldForCancel(old(View()), View(), now) && attempt == attempts
    {
      attempts := attempts + 1;
      attempt := attempts;
      nextAttemptAt := Some(now + LEASE);
    }

    method FinishCancel(attempt: nat, info: Option<Info>, error: Option<CourierError>, now: int)
      returns (result: CancelResult)
      modifies this
      ensures View() == CancelFinished(old(View()), attempt, info, error, now)
      ensures CancelOutcomeTaken(old(View()), View(), attempt, info, error, now)
      ensures result.CancelSuperseded? <==> !(old(status).Cancelling? && old(attempts) == attempt)
      ensures !result.CancelSuperseded? ==>
        && (result.CancelDone? <==> error.None? || error.value.code.DeliveryNotFound?)
        && (result.CancelRefused? <==> status.Active?)
        && (result.CancelRetry? <==> status.Cancelling?)
    {
      if !status.Cancelling? || attempts != attempt {
        return CancelSuperseded;
      }
      if error.None? {
        if info.Some? {
          Apply(info.value, now);
        }
        if status.Cancelling? {
          Close(Cancelled, now);
        }
        result := CancelDone;
      } else if error.value.code.DeliveryNotFound? {
        Close(Cancelled, now);
        result := CancelDone;
      } else if error.value.definitive || attempts >= MAX_ATTEMPTS {
        status := Active;
        nextAttemptAt := None;
        result := CancelRefused;
      } else {
        nextAttemptAt := Some(now + BackoffAfter(attempts));
        result := CancelRetry;
      }
    }

    /** The delivery to ask about, with the next question already due. */
    method ClaimTrack(now: int) returns (delivery: Option<string>)
      modifies this`nextAttemptAt
      ensures View() == TrackClaimedRow(old(View()), now)
      ensures HeldForTracking(old(View()), View(), now)
      ensures delivery == deliveryId
    {
      delivery := deliveryId;
      if deliveryId.None? {
        nextAttemptAt := None;
        return;
      }
      nextAttemptAt := Some(now + TRACK_EVERY);
    }

    method RecordTrack(info: Info, now: int) returns (applied: bool)
      modifies this
      ensures View() == Tracked(old(View()), info, now)
      ensures applied <==> old(activeMarker) == Some(1) && old(status).Active?
      ensures TrackTaken(old(View()), View(), info, now)
    {
      if activeMarker != Some(1) || !status.Active? {
        return false;
      }
      Apply(info, now);
      applied := true;
    }

    method Hint(now: int)
      modifies this`nextAttemptAt
      ensures View() == Hinted(old(View()), now)
      ensures HintTaken(old(View()), View(), now)
    {
      if activeMarker != Some(1) || !status.Active? {
        return;
      }
      nextAttemptAt := Some(now);
    }

    /** Which transaction a sweep, or an operator's refresh, starts on this row: the one whose step the
        protocol allows. Only a row that was active is ever forced, and such a row is past dispatch
        from then on. `s` is the world, `r` this row in it, `w` the worker that takes it up. */
    method Process(ghost s: World, ghost r: nat, ghost w: nat, now: int, force: bool) returns (branch: Branch)
      requires r in s.rows && s.rows[r] == View() && s.now == now && w !in s.workers
      requires force ==> PastDispatch(status)
      ensures branch.Dispatch? <==> Enabled(Careless, s, Step.Claim(r, w))
      ensures branch.Dispatch? <==> Enabled(Careless, s, Step.GiveUp(r, true)) && Enabled(Careless, s, Step.GiveUp(r, false))
      ensures branch.CancelIt? <==> Enabled(Careless, s, Step.ClaimCancel(r, w, force))
      ensures branch.Track? <==> Enabled(Careless, s, Step.ClaimTrack(r, w, force))
    {
      var due := force || (nextAttemptAt.Some? && nextAttemptAt.value <= now);
      if !due {
        return NotDue;
      }
      if status.Cancelling? {
        return CancelIt;
      }
      if status.Requested? || status.Creating? {
        return Dispatch;
      }
      if status.Active? {
        return Track;
      }
      branch := NotDue;
    }
  }

  ghost predicate IsOpenFor(row: Row, order: nat) {
    row.order == order && row.activeMarker == Some(1)
  }

  ghost predicate HasOpen(rows: map<nat, Row>, order: nat) {
    exists r :: r in rows && IsOpenFor(rows[r], order)
  }

  /** The unique key of the table: order and marker. */
  ghost predicate OneOpenPerOrder(rows: map<nat, Row>) {
    forall r, q | r in rows && q in rows && IsOpenFor(rows[r], rows[q].order) && IsOpenFor(rows[q], rows[q].order) :: r == q
  }

  ghost predicate OnlyOpenRow(rows: map<nat, Row>, id: nat, order: nat) {
    id in rows && forall r | r in rows :: IsOpenFor(rows[r], order) <==> r == id
  }

  /** A row opened for an order that has no open row is its only one. */
  lemma TheNewRowIsTheOnlyOne(rows: map<nat, Row>, id: nat, row: Row, rows': map<nat, Row>)
    requires OneOpenPerOrder(rows) && id !in rows && IsOpenFor(row, row.order) && !HasOpen(rows, row.order)
    requires rows' == rows[id := row]
    ensures OneOpenPerOrder(rows') && OnlyOpenRow(rows', id, row.order)
  {
    assert forall r | r in rows :: !IsOpenFor(rows[r], row.order);
  }

  /** All courier rows of a store. */
  class CourierTable {
    var rows: map<nat, CourierDelivery>
    var nextId: nat

    ghost function Views(): map<nat, Row>
      reads this, set r | r in rows :: rows[r]
    {
      map r | r in rows :: rows[r].View()
    }

    ghost predicate Valid()
      reads this, set r | r in rows :: rows[r]
    {
      OneOpenPerOrder(Views()) && forall r | r in rows :: r < nextId
    }

    constructor ()
      ensures Valid() && Views() == map[]
    {
      rows, nextId := map[], 0;
    }

    method OpenFor(order: nat) returns (open: Option<nat>)
      ensures open.Some? ==> open.value in rows && IsOpenFor(rows[open.value].View(), order)
      ensures open.None? ==> !HasOpen(Views(), order)
    {
      var found := set r | r in rows && rows[r].order == order && rows[r].activeMarker == Some(1);
      if r :| r in found {
        return Some(r);
      }
      assert forall r | r in rows && IsOpenFor(rows[r].View(), order) :: r in found;
      open := None;
    }

    method Add(order: nat, maxFee: Option<int>, now: int) returns (id: nat)
      requires Valid() && !HasOpen(Views(), order)
      modifies this
      ensures Valid() && id !in old(rows) && id in rows && fresh(rows[id])
      ensures Views() == old(Views())[id := NewRow(order, maxFee, now)] && OnlyOpenRow(Views(), id, order)
      ensures JustOpened(Views()[id], order, maxFee, now)
    {
      ghost var before := Views();
      var row := new CourierDelivery(order, maxFee, now);
      id := nextId;
      rows := rows[id := row];
      nextId := nextId + 1;
      assert Views() == before[id := NewRow(order, maxFee, now)];
      TheNewRowIsTheOnlyOne(before, id, NewRow(order, maxFee, now), Views());
    }

    /** Asks for a courier for an order: exactly when the order can have one and has none, a new row is
        added, and it is then the order's only open row; otherwise no row changes, and the reply says
        why. */
    method Reserve(order: OrderFacts, settings: Settings, auto: bool, now: int)
      returns (result: ReserveResult, id: nat)
      requires Valid()
      modifies this
      ensures Valid()
      ensures result.Reserved? <==>
        && order.isDelivery && order.ready && (auto ==> order.zoneIsUber && settings.autoDispatch)
        && !HasOpen(old(Views()), order.id)
      ensures result.Reserved? ==>
        && id !in old(rows) && id in rows && fresh(rows[id])
        && Views() == old(Views())[id := rows[id].View()]
        && JustOpened(rows[id].View(), order.id, settings.maxFee, now)
        && OnlyOpenRow(Views(), id, order.id)
      ensures !result.Reserved? ==> rows == old(rows) && Views() == old(Views())
      ensures result.Existing? || result.InProgress? ==> HasOpen(old(Views()), order.id)
      ensures result.Existing? ==> auto && id in rows && IsOpenFor(Views()[id], order.id)
      ensures result.InProgress? || result.NotDelivery? || result.NotReady? ==> !auto
      ensures result.NotDelivery? ==> !order.isDelivery
      ensures result.NotReady? ==> order.isDelivery && !order.ready
      ensures result.NotApplicable? ==>
        auto && !(order.isDelivery && order.ready && order.zoneIsUber && settings.autoDispatch)
    {
      id := 0;
      if !order.isDelivery {
        result := if auto then NotApplicable else NotDelivery;
        return;
      }
      if auto && (!order.zoneIsUber || !settings.autoDispatch) {
        return NotApplicable, 0;
      }
      if !order.ready {
        result := if auto then NotApplicable else NotReady;
        return;
      }
      var open := OpenFor(order.id);
      if open.Some? {
        assert IsOpenFor(Views()[open.value], order.id);
        if auto {
          return Existing, open.value;
        }
        return InProgress, 0;
      }
      id := Add(order.id, settings.maxFee, now);
      result := Reserved;
    }
  }
}
