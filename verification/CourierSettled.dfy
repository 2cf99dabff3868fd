/** A row that is past dispatch: it gets no new attempts, so only requests already made can still land. */
module CourierSettled {
  import opened Common
  import opened CourierRow
  import opened CourierProtocol
  import opened CourierInvariant
  import opened CourierLanding
  import opened CourierSafety

  predicate Carries(k: Worker, r: nat, quote: string) {
    k.row == r && CarriesQuote(k.phase) && k.phase.quote == quote
  }

  predicate OnItsWay(s: World, r: nat, quote: string) {
    (r, quote) in s.lost || exists w | w in s.workers :: Carries(s.workers[w], r, quote)
  }

  /** A request for the row's own quote is on its way, or about to be sent. */
  predicate StillComing(s: World, r: nat) {
    r in s.rows && s.rows[r].quoteId.Some? && OnItsWay(s, r, s.rows[r].quoteId.value)
  }

  /** The landing gives the row a second courier, now or later: it is overtaken, and the row can still
      get an attempt, or has a delivery already, or its own request still comes. */
  predicate Doubles(s: World, r: nat, quote: string) {
    Overtaken(s, r, quote) && (!PastDispatch(s.rows[r].status) || HasDelivery(s, r) || StillComing(s, r))
  }

  ghost predicate Alone(s: World, r: nat, d: string) {
    && r in s.rows && PastDispatch(s.rows[r].status) && !StillComing(s, r)
    && forall e | KnownDelivery(s, r, e) :: e == d
  }

  lemma RowStays(p: Provider, s: World, step: Step, r: nat)
    requires Base(s) && Enabled(p, s, step) && r in s.rows && PastDispatch(s.rows[r].status)
    ensures var t := Next(p, s, step);
      r in t.rows && PastDispatch(t.rows[r].status) && t.rows[r].quoteId == s.rows[r].quoteId
  {
    StepEvolvesRow(p, s, step, r);
  }

  /** Only a worker that holds a row being created makes a new request for it. */
  lemma NoNewCarrier(p: Provider, s: World, step: Step, r: nat, quote: string, w: nat)
    requires Enabled(p, s, step) && r in s.rows && PastDispatch(s.rows[r].status)
    requires w in Next(p, s, step).workers && (w in s.workers ==> !Carries(s.workers[w], r, quote))
    ensures !Carries(Next(p, s, step).workers[w], r, quote)
  {
    if w in s.workers && ActorOf(step) != Some(w) {
      OthersStay(p, s, step, w);
    } else if step.Remember? {
      assert Next(p, s, step) == RememberNext(s, w);
    }
  }

  lemma NoNewRequest(p: Provider, s: World, step: Step, r: nat, quote: string)
    requires Enabled(p, s, step) && r in s.rows && PastDispatch(s.rows[r].status) && !OnItsWay(s, r, quote)
    ensures !OnItsWay(Next(p, s, step), r, quote)
  {
    var t := Next(p, s, step);
    forall w | w in t.workers ensures !Carries(t.workers[w], r, quote) {
      NoNewCarrier(p, s, step, r, quote, w);
    }
    assert step.Fail? ==> !Carries(s.workers[step.worker], r, quote);
    assert (r, quote) in t.lost ==> step.Fail?;
  }

  lemma ALandingElsewhere(s: World, q: nat, quote: string, r: nat, d: string)
    requires Base(s) && Alone(s, r, d) && KnownQuote(s, q, quote) && OnItsWay(s, q, quote) && !Overtaken(s, q, quote)
    requires q in s.rows
    ensures forall e | KnownDelivery(Create(s, q, quote), r, e) :: e == d
  {
    if DeliveryIdForQuote(quote).value in s.deliveries {
      LandingAgainIsNothing(s, q, quote);
    } else {
      assert q != r;
      forall e | KnownDelivery(Create(s, q, quote), r, e) ensures e == d {
        assert KnownDelivery(s, r, e);
      }
    }
  }

  lemma NoOtherLands(p: Provider, s: World, step: Step, r: nat, d: string)
    requires Base(s) && Enabled(p, s, step) && LandsWell(s, step, false) && Alone(s, r, d)
    ensures forall e | KnownDelivery(Next(p, s, step), r, e) :: e == d
  {
    var t := Next(p, s, step);
    if step.Land? || step.LandLate? {
      var q := if step.Land? then s.workers[step.worker].row else step.row;
      var quote := if step.Land? then s.workers[step.worker].phase.quote else step.quote;
      assert step.Land? ==> Carries(s.workers[step.worker], q, quote);
      ALandingElsewhere(s, q, quote, r, d);
      assert t.deliveries == Create(s, q, quote).deliveries;
      assert forall e :: KnownDelivery(t, r, e) <==> KnownDelivery(Create(s, q, quote), r, e);
    } else {
      assert forall e :: KnownDelivery(t, r, e) <==> KnownDelivery(s, r, e);
    }
  }

  lemma StepKeepsAlone(p: Provider, s: World, step: Step, r: nat, d: string)
    requires Base(s) && Enabled(p, s, step) && LandsWell(s, step, false) && Alone(s, r, d)
    ensures Alone(Next(p, s, step), r, d)
  {
    RowStays(p, s, step, r);
    NoOtherLands(p, s, step, r, d);
    if s.rows[r].quoteId.Some? {
      NoNewRequest(p, s, step, r, s.rows[r].quoteId.value);
    }
  }

  /** A settled row with one delivery, and no request for its own quote on the way, stays with that one
      as long as nothing lands overtaken. */
  lemma {:induction false} AloneStays(p: Provider, first: seq<Step>, run: seq<Step>, r: nat, d: string)
    requires Feasible(p, START, run) && LandWellFrom(p, run, |first|, false)
    requires first <= run && Feasible(p, START, first) && Alone(Exec(p, START, first), r, d)
    ensures Alone(Exec(p, START, run), r, d)
  {
    if first != run {
      var last := |run| - 1;
      assert first <= run[..last];
      AloneStays(p, first, run[..last], r, d);
      EveryRunKeepsBase(p, run[..last]);
      StepKeepsAlone(p, Exec(p, START, run[..last]), run[last], r, d);
    }
  }
}
