/** What the dispatch protocol does not give: what comes of a request that lands overtaken, and runs
    in which one does. */
module CourierLimits {
  import opened Common
  import opened CourierRow
  import opened CourierProtocol
  import opened CourierInvariant
  import opened CourierLanding
  import opened CourierSettled

  /** Whatever landed well before still did, and nothing else has landed, or not overtaken. */
  ghost predicate Onwards(p: Provider, c: seq<Step>, c': seq<Step>) {
    && Feasible(p, START, c) && Feasible(p, START, c') && c <= c'
    && forall n: nat | n <= |c| && LandWellFrom(p, c, n, false) :: LandWellFrom(p, c', n, false)
  }

  lemma OneMore(p: Provider, steps: seq<Step>, step: Step)
    requires Feasible(p, START, steps) && Enabled(p, Exec(p, START, steps), step)
    ensures Feasible(p, START, steps + [step]) && steps <= steps + [step]
    ensures Exec(p, START, steps + [step]) == Next(p, Exec(p, START, steps), step)
    ensures LandsWell(Exec(p, START, steps), step, false) ==> Onwards(p, steps, steps + [step])
  {
    assert (steps + [step])[..|steps + [step]| - 1] == steps;
  }

  const ANY_INFO: Info := Info("", Unstated, None, None, None)
  const TIMED_OUT: CourierError := CourierError(false, OtherCode)

  // ---------------------------------------------------------------- fresh names

  lemma {:induction false} LongerThanAll(names: set<string>) returns (bound: nat)
    ensures forall name | name in names :: |name| < bound
  {
    if names == {} {
      bound := 0;
    } else {
      var x :| x in names;
      bound := LongerThanAll(names - {x});
      bound := if bound <= |x| then |x| + 1 else bound;
      assert forall name | name in names :: name == x || name in names - {x};
    }
  }

  lemma AFreshWorker(s: World) returns (w: nat)
    ensures w !in s.workers
  {
    var ids := s.workers.Keys;
    w := AboveAll(ids);
    assert w !in ids;
  }

  lemma AFreshQuote(s: World) returns (quote: string)
    ensures quote !in s.quotes && DeliveryIdForQuote(quote).Some?
  {
    var names := s.quotes.Keys;
    var n := LongerThanAll(names);
    quote := QUOTE_PREFIX + seq(n + 1, i => 'x');
    assert quote[..4] == QUOTE_PREFIX;
    assert quote !in names;
  }

  // ---------------------------------------------------------------- a worker on its way to a delivery

  /** The worker holds row `r` in the given phase, in the world the run leads to. */
  predicate HoldsIn(s: World, v: nat, r: nat, phase: Phase) {
    v in s.workers && s.workers[v].row == r && s.workers[v].phase == phase && HoldsRow(s, s.workers[v])
  }

  /** Only rows, workers and quotes differ. */
  predicate Aside(s: World, t: World) {
    t == s.(rows := t.rows, workers := t.workers, quotes := t.quotes)
  }

  lemma ItIsQuoted(p: Provider, c: seq<Step>, v: nat, r: nat) returns (c': seq<Step>, quote: string)
    requires Feasible(p, START, c) && HoldsIn(Exec(p, START, c), v, r, Cleared)
    ensures Feasible(p, START, c') && Onwards(p, c, c') && HoldsIn(Exec(p, START, c'), v, r, Quoted(quote))
    ensures quote !in Exec(p, START, c).quotes && KnownQuote(Exec(p, START, c'), r, quote)
    ensures Aside(Exec(p, START, c), Exec(p, START, c')) && Exec(p, START, c').rows == Exec(p, START, c).rows
    ensures forall q | q in Exec(p, START, c).quotes :: q in Exec(p, START, c').quotes && Exec(p, START, c').quotes[q] == Exec(p, START, c).quotes[q]
  {
    var s := Exec(p, START, c);
    quote := AFreshQuote(s);
    var fee := if s.workers[v].maxFee.Some? then s.workers[v].maxFee.value else 0;
    OneMore(p, c, Price(v, quote, fee));
    c' := c + [Price(v, quote, fee)];
  }

  lemma ItRemembers(p: Provider, c: seq<Step>, v: nat, r: nat, quote: string) returns (c': seq<Step>)
    requires Feasible(p, START, c) && HoldsIn(Exec(p, START, c), v, r, Quoted(quote))
    ensures Feasible(p, START, c') && Onwards(p, c, c') && HoldsIn(Exec(p, START, c'), v, r, Remembered(quote))
    ensures Exec(p, START, c').rows[r] == Exec(p, START, c).rows[r].(quoteId := Some(quote))
    ensures Aside(Exec(p, START, c), Exec(p, START, c')) && Exec(p, START, c').quotes == Exec(p, START, c).quotes
  {
    OneMore(p, c, Remember(v));
    c' := c + [Remember(v)];
  }

  lemma ItSends(p: Provider, c: seq<Step>, v: nat, r: nat, quote: string) returns (c': seq<Step>)
    requires Feasible(p, START, c) && HoldsIn(Exec(p, START, c), v, r, Remembered(quote))
    ensures Feasible(p, START, c') && Onwards(p, c, c') && HoldsIn(Exec(p, START, c'), v, r, Sent(quote))
    ensures Exec(p, START, c') == SetPhase(Exec(p, START, c), v, Sent(quote))
  {
    OneMore(p, c, Send(v));
    c' := c + [Send(v)];
  }

  /** A request that its worker just sent is not overtaken. */
  lemma ASentRequestLandsWell(s: World, v: nat, r: nat, quote: string)
    requires Base(s) && HoldsIn(s, v, r, Sent(quote)) && s.rows[r].quoteId == Some(quote)
    ensures LandsWell(s, Land(v), false)
  {
    forall u | u in s.workers ensures !IsPast(s, s.workers[u], r, quote) {
      assert u != v ==> !Rivals(s, u, v);
    }
  }

  /** With a careless provider a worker that got a price can get its delivery. */
  lemma ItDelivers(c: seq<Step>, v: nat, r: nat, quote: string) returns (c': seq<Step>)
    requires Feasible(Careless, START, c) && HoldsIn(Exec(Careless, START, c), v, r, Quoted(quote))
    requires KnownQuote(Exec(Careless, START, c), r, quote)
    ensures Feasible(Careless, START, c') && Onwards(Careless, c, c') && KnownDelivery(Exec(Careless, START, c'), r, DeliveryIdForQuote(quote).value)
    ensures forall d | KnownDelivery(Exec(Careless, START, c), r, d) :: KnownDelivery(Exec(Careless, START, c'), r, d)
  {
    var c1 := ItRemembers(Careless, c, v, r, quote);
    var c2 := ItSends(Careless, c1, v, r, quote);
    EveryRunKeepsBase(Careless, c2);
    ASentRequestLandsWell(Exec(Careless, START, c2), v, r, quote);
    OneMore(Careless, c2, Land(v));
    c' := c2 + [Land(v)];
  }

  /** A row nobody settled can be made due for dispatch. */
  lemma ItComesDue(p: Provider, c: seq<Step>, r: nat) returns (c': seq<Step>)
    requires Feasible(p, START, c) && r in Exec(p, START, c).rows && !PastDispatch(Exec(p, START, c).rows[r].status)
    ensures Feasible(p, START, c') && Onwards(p, c, c') && Due(Exec(p, START, c'), r)
    ensures var row := Exec(p, START, c').rows[r];
      (row.status.Requested? || row.status.Creating?) && row.quoteId == Exec(p, START, c).rows[r].quoteId
    ensures Exec(p, START, c').deliveries == Exec(p, START, c).deliveries && Exec(p, START, c').quotes == Exec(p, START, c).quotes
  {
    EveryRunKeepsBase(p, c);
    var s := Exec(p, START, c);
    assert RowFine(s, r);
    if s.rows[r].status.AwaitingConfirmation? {
      OneMore(p, c, Confirm(r));
      c' := c + [Confirm(r)];
    } else {
      var wait: nat := Max(0, s.rows[r].nextAttemptAt.value - s.now);
      OneMore(p, c, Tick(wait));
      c' := c + [Tick(wait)];
    }
  }

  /** A new attempt that finds nothing under the quote on the row. */
  lemma ANewAttemptLooks(p: Provider, c: seq<Step>, r: nat) returns (c': seq<Step>, v: nat)
    requires Feasible(p, START, c) && Due(Exec(p, START, c), r)
    requires var s := Exec(p, START, c); s.rows[r].status.Requested? || s.rows[r].status.Creating?
    requires var s := Exec(p, START, c); s.rows[r].quoteId.Some? ==> !Adoptable(s, r, s.rows[r].quoteId.value)
    ensures Feasible(p, START, c') && Onwards(p, c, c') && HoldsIn(Exec(p, START, c'), v, r, Cleared)
    ensures Aside(Exec(p, START, c), Exec(p, START, c')) && Exec(p, START, c').quotes == Exec(p, START, c).quotes
    ensures Exec(p, START, c').rows[r] == ClaimedRow(Exec(p, START, c).rows[r], Exec(p, START, c).now)
  {
    c', v := ANewAttemptStarts(p, c, r);
    OneMore(p, c', LookUp(v, ANY_INFO));
    c' := c' + [LookUp(v, ANY_INFO)];
  }

  lemma ANewAttemptStarts(p: Provider, c: seq<Step>, r: nat) returns (c': seq<Step>, v: nat)
    requires Feasible(p, START, c) && Due(Exec(p, START, c), r)
    requires var s := Exec(p, START, c); s.rows[r].status.Requested? || s.rows[r].status.Creating?
    ensures Feasible(p, START, c') && Onwards(p, c, c') && v !in Exec(p, START, c).workers
    ensures Exec(p, START, c') == ClaimNext(Exec(p, START, c), r, v)
  {
    v := AFreshWorker(Exec(p, START, c));
    OneMore(p, c, Claim(r, v));
    c' := c + [Claim(r, v)];
  }

  // ---------------------------------------------------------------- what comes of an overtaken request

  /** The row neither carries the delivery's id nor remembers the quote it is derived from. */
  predicate OutOfReach(s: World, d: string) {
    && d in s.deliveries && s.deliveries[d].row in s.rows
    && var row := s.rows[s.deliveries[d].row];
       row.deliveryId != Some(d) && (row.quoteId.Some? ==> DeliveryIdForQuote(row.quoteId.value) != Some(d))
  }

  predicate LandingOf(s: World, step: Step, r: nat, quote: string) {
    || (step.Land? && step.worker in s.workers && s.workers[step.worker].row == r
        && (s.workers[step.worker].phase.Sent? || s.workers[step.worker].phase.Orphan?) && s.workers[step.worker].phase.quote == quote)
    || (step.LandLate? && step.row == r && step.quote == quote)
  }

  /** A landing adds the delivery; rows, and workers in other phases, are as they were. */
  lemma TheLanding(p: Provider, s: World, step: Step, r: nat, quote: string, v: nat)
    requires Base(s) && Enabled(p, s, step) && LandingOf(s, step, r, quote) && Overtaken(s, r, quote)
    ensures var t := Next(p, s, step); var d := DeliveryIdForQuote(quote).value;
      && t.rows == s.rows && t.quotes == s.quotes && KnownDelivery(t, r, d) && KnownQuote(t, r, quote)
      && (v in s.workers && IsPast(s, s.workers[v], r, quote) ==> v in t.workers && t.workers[v] == s.workers[v])
      && (forall e | KnownDelivery(s, r, e) :: KnownDelivery(t, r, e))
      && (forall e | KnownDelivery(t, r, e) && e != d :: KnownDelivery(s, r, e))
      && s.rows[r].deliveryId != Some(d)
  {
    assert RowFine(s, r);
  }

  lemma AnotherQuoteIsOutOfReach(s: World, r: nat, quote: string)
    requires r in s.rows && DeliveryIdForQuote(quote).Some? && KnownDelivery(s, r, DeliveryIdForQuote(quote).value)
    requires s.rows[r].deliveryId != Some(DeliveryIdForQuote(quote).value) && s.rows[r].quoteId != Some(quote)
    ensures OutOfReach(s, DeliveryIdForQuote(quote).value)
  {
    if s.rows[r].quoteId.Some? && DeliveryIdForQuote(s.rows[r].quoteId.value) == DeliveryIdForQuote(quote) {
      DeliveryIdsAreDistinct(s.rows[r].quoteId.value, quote);
    }
  }

  /** With any provider, also one that honours the idempotency key: from an overtaken landing some
      continuation, often the landing itself, leaves its delivery out of reach. */
  lemma AnOvertakenDeliveryIsLost(p: Provider, steps: seq<Step>, step: Step, r: nat, quote: string) returns (run: seq<Step>)
    requires Feasible(p, START, steps) && Enabled(p, Exec(p, START, steps), step)
    requires LandingOf(Exec(p, START, steps), step, r, quote) && Overtaken(Exec(p, START, steps), r, quote)
    ensures Feasible(p, START, run) && Onwards(p, steps + [step], run)
    ensures OutOfReach(Exec(p, START, run), DeliveryIdForQuote(quote).value)
  {
    EveryRunKeepsBase(p, steps);
    var s := Exec(p, START, steps);
    OneMore(p, steps, step);
    run := steps + [step];
    if s.rows[r].quoteId != Some(quote) {
      TheLanding(p, s, step, r, quote, 0);
    } else {
      var v :| v in s.workers && IsPast(s, s.workers[v], r, quote);
      TheLanding(p, s, step, r, quote, v);
      var other: string;
      if s.workers[v].phase.Cleared? {
        run, other := ItIsQuoted(p, run, v, r);
      } else {
        other := s.workers[v].phase.quote;
      }
      run := ItRemembers(p, run, v, r, other);
    }
    AnotherQuoteIsOutOfReach(Exec(p, START, run), r, quote);
  }

  ghost predicate TwoCouriers(s: World, r: nat) {
    exists d, e :: d != e && KnownDelivery(s, r, d) && KnownDelivery(s, r, e)
  }

  /** With a provider that takes no care, some continuation of such a landing ends with two deliveries
      for the row: the new one, and one the row already had, or gets from a request still coming, or
      from another attempt. */
  lemma ADoublingRequestMakesTwo(steps: seq<Step>, step: Step, r: nat, quote: string) returns (run: seq<Step>)
    requires Feasible(Careless, START, steps) && Enabled(Careless, Exec(Careless, START, steps), step)
    requires LandingOf(Exec(Careless, START, steps), step, r, quote) && Doubles(Exec(Careless, START, steps), r, quote)
    ensures Feasible(Careless, START, run) && Onwards(Careless, steps + [step], run) && TwoCouriers(Exec(Careless, START, run), r)
  {
    var s := Exec(Careless, START, steps);
    if HasDelivery(s, r) {
      run := TheRowHadOne(steps, step, r, quote);
    } else if PastDispatch(s.rows[r].status) {
      run := TheRowsOwnComes(steps, step, r, quote);
    } else if exists v :: v in s.workers && IsPast(s, s.workers[v], r, quote) {
      var v :| v in s.workers && IsPast(s, s.workers[v], r, quote);
      run := TheLaterAttemptDelivers(steps, step, r, quote, v);
    } else {
      run := AnotherAttemptDelivers(steps, step, r, quote);
    }
  }

  lemma TheRowHadOne(steps: seq<Step>, step: Step, r: nat, quote: string) returns (run: seq<Step>)
    requires Feasible(Careless, START, steps) && Enabled(Careless, Exec(Careless, START, steps), step)
    requires LandingOf(Exec(Careless, START, steps), step, r, quote) && Overtaken(Exec(Careless, START, steps), r, quote)
    requires HasDelivery(Exec(Careless, START, steps), r)
    ensures Feasible(Careless, START, run) && Onwards(Careless, steps + [step], run) && TwoCouriers(Exec(Careless, START, run), r)
  {
    EveryRunKeepsBase(Careless, steps);
    var s := Exec(Careless, START, steps);
    OneMore(Careless, steps, step);
    run := steps + [step];
    TheLanding(Careless, s, step, r, quote, 0);
    var e :| e in s.deliveries && s.deliveries[e].row == r;
    assert KnownDelivery(s, r, e) && KnownDelivery(Exec(Careless, START, run), r, e);
  }

  /** The request for the row's own quote, sent or still to be sent, lands as well. */
  lemma TheRowsOwnComes(steps: seq<Step>, step: Step, r: nat, quote: string) returns (run: seq<Step>)
    requires Feasible(Careless, START, steps) && Enabled(Careless, Exec(Careless, START, steps), step)
    requires LandingOf(Exec(Careless, START, steps), step, r, quote) && Overtaken(Exec(Careless, START, steps), r, quote)
    requires PastDispatch(Exec(Careless, START, steps).rows[r].status) && StillComing(Exec(Careless, START, steps), r)
    ensures Feasible(Careless, START, run) && Onwards(Careless, steps + [step], run) && TwoCouriers(Exec(Careless, START, run), r)
  {
    EveryRunKeepsBase(Careless, steps);
    var s := Exec(Careless, START, steps);
    var own := s.rows[r].quoteId.value;
    var d := DeliveryIdForQuote(quote).value;
    assert RowFine(s, r);
    if DeliveryIdForQuote(own) == Some(d) {
      DeliveryIdsAreDistinct(own, quote);
    }
    OneMore(Careless, steps, step);
    TheLanding(Careless, s, step, r, quote, 0);
    AnotherRequestStays(s, step, r, quote, own);
    run := ItLandsToo(steps + [step], r, own);
    assert KnownDelivery(Exec(Careless, START, run), r, d);
  }

  lemma AnotherRequestStays(s: World, step: Step, r: nat, quote: string, own: string)
    requires Enabled(Careless, s, step) && LandingOf(s, step, r, quote) && own != quote && OnItsWay(s, r, own)
    ensures OnItsWay(Next(Careless, s, step), r, own)
  {
    var t := Next(Careless, s, step);
    if (r, own) !in s.lost {
      var v :| v in s.workers && Carries(s.workers[v], r, own);
      assert v in t.workers && Carries(t.workers[v], r, own);
    }
  }

  lemma ItLandsToo(c: seq<Step>, r: nat, own: string) returns (run: seq<Step>)
    requires Feasible(Careless, START, c) && r in Exec(Careless, START, c).rows
    requires var s := Exec(Careless, START, c);
      PastDispatch(s.rows[r].status) && s.rows[r].quoteId == Some(own) && OnItsWay(s, r, own) && KnownQuote(s, r, own)
    ensures Feasible(Careless, START, run) && Onwards(Careless, c, run)
    ensures KnownDelivery(Exec(Careless, START, run), r, DeliveryIdForQuote(own).value)
    ensures forall d | KnownDelivery(Exec(Careless, START, c), r, d) :: KnownDelivery(Exec(Careless, START, run), r, d)
  {
    var s := Exec(Careless, START, c);
    run := c;
    var step := LandLate(r, own);
    if (r, own) !in s.lost {
      var v :| v in s.workers && Carries(s.workers[v], r, own);
      if s.workers[v].phase.Remembered? {
        OneMore(Careless, c, Send(v));
        run := c + [Send(v)];
      }
      step := Land(v);
    }
    TheOwnRequestLands(Exec(Careless, START, run), step, r, own);
    OneMore(Careless, run, step);
    run := run + [step];
  }

  lemma TheOwnRequestLands(s: World, step: Step, r: nat, own: string)
    requires r in s.rows && PastDispatch(s.rows[r].status) && s.rows[r].quoteId == Some(own) && KnownQuote(s, r, own)
    requires LandingOf(s, step, r, own) && (step.LandLate? ==> (r, own) in s.lost)
    ensures Enabled(Careless, s, step) && LandsWell(s, step, false)
    ensures KnownDelivery(Next(Careless, s, step), r, DeliveryIdForQuote(own).value)
    ensures forall d | KnownDelivery(s, r, d) :: KnownDelivery(Next(Careless, s, step), r, d)
  {
  }

  lemma TheLaterAttemptDelivers(steps: seq<Step>, step: Step, r: nat, quote: string, v: nat) returns (run: seq<Step>)
    requires Feasible(Careless, START, steps) && Enabled(Careless, Exec(Careless, START, steps), step)
    requires LandingOf(Exec(Careless, START, steps), step, r, quote) && Overtaken(Exec(Careless, START, steps), r, quote)
    requires v in Exec(Careless, START, steps).workers
      && IsPast(Exec(Careless, START, steps), Exec(Careless, START, steps).workers[v], r, quote)
    ensures Feasible(Careless, START, run) && Onwards(Careless, steps + [step], run) && TwoCouriers(Exec(Careless, START, run), r)
  {
    EveryRunKeepsBase(Careless, steps);
    var s := Exec(Careless, START, steps);
    assert WorkerFine(s, s.workers[v]);
    OneMore(Careless, steps, step);
    run := steps + [step];
    TheLanding(Careless, s, step, r, quote, v);
    if s.workers[v].phase.Cleared? {
      run := AWorkerPast(run, v, r, quote);
    } else {
      run := AQuotedWorkerPast(run, v, r, quote, s.workers[v].phase.quote);
    }
  }

  /** The only delivery of an unsettled row is out of reach: the next attempt does not find it. */
  lemma ANewAttemptDelivers(c: seq<Step>, r: nat, quote: string) returns (run: seq<Step>)
    requires Feasible(Careless, START, c) && KnownQuote(Exec(Careless, START, c), r, quote)
    requires var s := Exec(Careless, START, c); var d := DeliveryIdForQuote(quote).value;
      && r in s.rows && !PastDispatch(s.rows[r].status)
      && KnownDelivery(s, r, d) && OutOfReach(s, d) && forall e | KnownDelivery(s, r, e) :: e == d
    ensures Feasible(Careless, START, run) && Onwards(Careless, c, run) && TwoCouriers(Exec(Careless, START, run), r)
  {
    var d := DeliveryIdForQuote(quote).value;
    var s := Exec(Careless, START, c);
    run := ItComesDue(Careless, c, r);
    var due := Exec(Careless, START, run);
    assert due.rows[r].quoteId.Some? && Adoptable(due, r, due.rows[r].quoteId.value) ==>
      KnownDelivery(s, r, DeliveryIdForQuote(due.rows[r].quoteId.value).value);
    var v: nat;
    run, v := ANewAttemptLooks(Careless, run, r);
    run := AWorkerPast(run, v, r, quote);
  }

  lemma AWorkerPast(c: seq<Step>, v: nat, r: nat, quote: string) returns (run: seq<Step>)
    requires Feasible(Careless, START, c) && HoldsIn(Exec(Careless, START, c), v, r, Cleared)
    requires KnownQuote(Exec(Careless, START, c), r, quote)
    requires KnownDelivery(Exec(Careless, START, c), r, DeliveryIdForQuote(quote).value)
    ensures Feasible(Careless, START, run) && Onwards(Careless, c, run) && TwoCouriers(Exec(Careless, START, run), r)
  {
    var other: string;
    run, other := ItIsQuoted(Careless, c, v, r);
    run := AQuotedWorkerPast(run, v, r, quote, other);
  }

  lemma AQuotedWorkerPast(c: seq<Step>, v: nat, r: nat, quote: string, other: string) returns (run: seq<Step>)
    requires Feasible(Careless, START, c) && HoldsIn(Exec(Careless, START, c), v, r, Quoted(other)) && other != quote
    requires KnownQuote(Exec(Careless, START, c), r, other) && DeliveryIdForQuote(quote).Some?
    requires KnownDelivery(Exec(Careless, START, c), r, DeliveryIdForQuote(quote).value)
    ensures Feasible(Careless, START, run) && Onwards(Careless, c, run) && TwoCouriers(Exec(Careless, START, run), r)
  {
    if DeliveryIdForQuote(other) == DeliveryIdForQuote(quote) {
      DeliveryIdsAreDistinct(other, quote);
    }
    run := ItDelivers(c, v, r, other);
    assert KnownDelivery(Exec(Careless, START, run), r, DeliveryIdForQuote(quote).value);
  }

  lemma AnotherAttemptDelivers(steps: seq<Step>, step: Step, r: nat, quote: string) returns (run: seq<Step>)
    requires Feasible(Careless, START, steps) && Enabled(Careless, Exec(Careless, START, steps), step)
    requires LandingOf(Exec(Careless, START, steps), step, r, quote) && Overtaken(Exec(Careless, START, steps), r, quote)
    requires Exec(Careless, START, steps).rows[r].quoteId != Some(quote) && !PastDispatch(Exec(Careless, START, steps).rows[r].status)
    ensures Feasible(Careless, START, run) && Onwards(Careless, steps + [step], run) && TwoCouriers(Exec(Careless, START, run), r)
  {
    EveryRunKeepsBase(Careless, steps);
    var d := DeliveryIdForQuote(quote).value;
    OneMore(Careless, steps, step);
    run := steps + [step];
    TheLanding(Careless, Exec(Careless, START, steps), step, r, quote, 0);
    var t := Exec(Careless, START, run);
    if e :| e != d && KnownDelivery(t, r, e) {
      assert KnownDelivery(t, r, d);
    } else {
      AnotherQuoteIsOutOfReach(t, r, quote);
      run := ANewAttemptDelivers(run, r, quote);
    }
  }

  // ---------------------------------------------------------------- the exact condition

  /** Whatever comes after the landing, as long as no later one is overtaken, the delivery stays within
      reach of its row. */
  ghost predicate StaysInReach(p: Provider, steps: seq<Step>, step: Step, d: string) {
    forall run | steps + [step] <= run && Feasible(p, START, run) && LandWellFrom(p, run, |steps| + 1, false) ::
      !OutOfReach(Exec(p, START, run), d)
  }

  /** And it stays the row's only one. */
  ghost predicate StaysAlone(p: Provider, steps: seq<Step>, step: Step, r: nat) {
    forall run | steps + [step] <= run && Feasible(p, START, run) && LandWellFrom(p, run, |steps| + 1, false) ::
      !TwoCouriers(Exec(p, START, run), r)
  }

  lemma OneMoreLandsWell(p: Provider, steps: seq<Step>, step: Step)
    requires Feasible(p, START, steps) && AllLandWell(p, steps, false) && Enabled(p, Exec(p, START, steps), step)
    requires LandsWell(Exec(p, START, steps), step, false)
    ensures Feasible(p, START, steps + [step]) && AllLandWell(p, steps + [step], false)
  {
    assert (steps + [step])[..|steps + [step]| - 1] == steps;
  }

  lemma AGoodLandingIsFollowedWell(p: Provider, steps: seq<Step>, step: Step, run: seq<Step>)
    requires Feasible(p, START, steps) && AllLandWell(p, steps, false) && Enabled(p, Exec(p, START, steps), step)
    requires LandsWell(Exec(p, START, steps), step, false)
    requires steps + [step] <= run && Feasible(p, START, run) && LandWellFrom(p, run, |steps| + 1, false)
    ensures AllLandWell(p, run, false)
  {
    OneMoreLandsWell(p, steps, step);
    GoodThroughout(p, steps + [step], run, false);
  }

  /** With any provider, a landing keeps its delivery within reach exactly when it is not overtaken. */
  lemma ALandingStaysInReachExactly(p: Provider, steps: seq<Step>, step: Step, r: nat, quote: string)
    requires Feasible(p, START, steps) && AllLandWell(p, steps, false) && Enabled(p, Exec(p, START, steps), step)
    requires LandingOf(Exec(p, START, steps), step, r, quote) && DeliveryIdForQuote(quote).Some?
    ensures StaysInReach(p, steps, step, DeliveryIdForQuote(quote).value) <==> !Overtaken(Exec(p, START, steps), r, quote)
  {
    var d := DeliveryIdForQuote(quote).value;
    if Overtaken(Exec(p, START, steps), r, quote) {
      var run := AnOvertakenDeliveryIsLost(p, steps, step, r, quote);
      assert LandWellFrom(p, steps + [step], |steps| + 1, false);
    } else {
      forall run | steps + [step] <= run && Feasible(p, START, run) && LandWellFrom(p, run, |steps| + 1, false)
        ensures !OutOfReach(Exec(p, START, run), d) {
        AGoodLandingIsFollowedWell(p, steps, step, run);
        if d in Exec(p, START, run).deliveries {
          EveryDeliveryIsReachable(p, run, d);
        }
      }
    }
  }

  /** With a provider that takes no care, a landing leaves its row with one courier exactly when it is
      not overtaken, or the row is settled, had none, and waits for none. */
  lemma ALandingStaysAloneExactly(steps: seq<Step>, step: Step, r: nat, quote: string)
    requires Feasible(Careless, START, steps) && AllLandWell(Careless, steps, false)
    requires Enabled(Careless, Exec(Careless, START, steps), step) && LandingOf(Exec(Careless, START, steps), step, r, quote)
    ensures StaysAlone(Careless, steps, step, r) <==> !Doubles(Exec(Careless, START, steps), r, quote)
  {
    if Doubles(Exec(Careless, START, steps), r, quote) {
      var run := ADoublingRequestMakesTwo(steps, step, r, quote);
      assert LandWellFrom(Careless, steps + [step], |steps| + 1, false);
    } else {
      forall run | steps + [step] <= run && Feasible(Careless, START, run) && LandWellFrom(Careless, run, |steps| + 1, false)
        ensures !TwoCouriers(Exec(Careless, START, run), r) {
        if Overtaken(Exec(Careless, START, steps), r, quote) {
          TheOnlyOneStays(steps, step, r, quote, run);
        } else {
          AGoodLandingIsFollowedWell(Careless, steps, step, run);
          if d, e :| d != e && KnownDelivery(Exec(Careless, START, run), r, d) && KnownDelivery(Exec(Careless, START, run), r, e) {
            NeverTwoCouriers(Careless, run, d, e);
          }
        }
      }
    }
  }

  lemma TheOnlyOneStays(steps: seq<Step>, step: Step, r: nat, quote: string, run: seq<Step>)
    requires Feasible(Careless, START, steps) && Enabled(Careless, Exec(Careless, START, steps), step)
    requires LandingOf(Exec(Careless, START, steps), step, r, quote)
    requires Overtaken(Exec(Careless, START, steps), r, quote) && !Doubles(Exec(Careless, START, steps), r, quote)
    requires steps + [step] <= run && Feasible(Careless, START, run) && LandWellFrom(Careless, run, |steps| + 1, false)
    ensures Alone(Exec(Careless, START, run), r, DeliveryIdForQuote(quote).value)
  {
    EveryRunKeepsBase(Careless, steps);
    OneMore(Careless, steps, step);
    ItIsAlone(Exec(Careless, START, steps), step, r, quote);
    AloneStays(Careless, steps + [step], run, r, DeliveryIdForQuote(quote).value);
  }

  lemma ItIsAlone(s: World, step: Step, r: nat, quote: string)
    requires Base(s) && Enabled(Careless, s, step) && LandingOf(s, step, r, quote)
    requires Overtaken(s, r, quote) && !Doubles(s, r, quote)
    ensures Alone(Next(Careless, s, step), r, DeliveryIdForQuote(quote).value)
  {
    TheLanding(Careless, s, step, r, quote, 0);
    if s.rows[r].quoteId.Some? {
      NoNewRequest(Careless, s, step, r, s.rows[r].quoteId.value);
    }
    assert forall e | KnownDelivery(s, r, e) :: HasDelivery(s, r);
  }

  // ---------------------------------------------------------------- such runs exist

  /** From a due row with nothing under its quote, a request is sent for a new quote. */
  lemma ARequestIsSent(p: Provider, c: seq<Step>, r: nat) returns (c': seq<Step>, v: nat, quote: string)
    requires Feasible(p, START, c) && Due(Exec(p, START, c), r) && Exec(p, START, c).rows[r].status.Requested?
    requires Exec(p, START, c).deliveries == map[]
    ensures Feasible(p, START, c') && HoldsIn(Exec(p, START, c'), v, r, Sent(quote))
    ensures Aside(Exec(p, START, c), Exec(p, START, c'))
    ensures quote !in Exec(p, START, c).quotes && KnownQuote(Exec(p, START, c'), r, quote)
    ensures forall q | KnownQuote(Exec(p, START, c), r, q) :: KnownQuote(Exec(p, START, c'), r, q)
    ensures var s := Exec(p, START, c);
      Exec(p, START, c').rows[r] == ClaimedRow(s.rows[r], s.now).(quoteId := Some(quote))
  {
    c', v := ANewAttemptLooks(p, c, r);
    c', quote := ItIsQuoted(p, c', v, r);
    c' := ItRemembers(p, c', v, r, quote);
    c' := ItSends(p, c', v, r, quote);
  }

  /** The first request times out and is still on its way; the second one is, too. */
  predicate TwoOnTheirWay(s: World, v: nat, first: string, second: string) {
    && first != second && KnownQuote(s, 0, first) && KnownQuote(s, 0, second)
    && HoldsIn(s, v, 0, Sent(second)) && s.rows[0].quoteId == Some(second) && s.rows[0].attempts == 2
    && (0, first) in s.lost && s.deliveries == map[] && s.now == 30
  }

  lemma TheFirstRequest(p: Provider) returns (c: seq<Step>, v: nat, first: string)
    ensures Feasible(p, START, c)
    ensures var s := Exec(p, START, c);
      && HoldsIn(s, v, 0, Sent(first)) && s.rows[0].attempts == 1
      && KnownQuote(s, 0, first) && s.deliveries == map[] && s.now == 0
  {
    OneMore(p, [], Open(0, 7, None));
    c, v, first := ARequestIsSent(p, [] + [Open(0, 7, None)], 0);
  }

  lemma ARequestTimesOut(p: Provider) returns (c: seq<Step>, first: string)
    ensures Feasible(p, START, c)
    ensures var s := Exec(p, START, c);
      && Due(s, 0) && s.rows[0].status.Requested? && s.rows[0].attempts == 1
      && (0, first) in s.lost && KnownQuote(s, 0, first) && s.deliveries == map[] && s.now == 30
  {
    var v;
    c, v, first := TheFirstRequest(p);
    OneMore(p, c, Fail(v, TIMED_OUT));
    c := c + [Fail(v, TIMED_OUT)];
    OneMore(p, c, Record(v));
    c := c + [Record(v)];
    OneMore(p, c, Tick(30));
    c := c + [Tick(30)];
  }

  lemma TwoRequests(p: Provider) returns (c: seq<Step>, v: nat, first: string, second: string)
    ensures Feasible(p, START, c) && TwoOnTheirWay(Exec(p, START, c), v, first, second)
  {
    c, first := ARequestTimesOut(p);
    c, v, second := ARequestIsSent(p, c, 0);
  }

  /** The first request lands after all, and the row has two couriers: the second is the one it knows. */
  predicate ASecondCourier(s: World) {
    && 0 in s.rows && s.rows[0].status.Active? && s.rows[0].deliveryId.Some? && s.now < LEASE
    && KnownDelivery(s, 0, s.rows[0].deliveryId.value)
    && exists d :: d in s.deliveries && s.deliveries[d].row == 0 && d != s.rows[0].deliveryId.value
  }

  /** With a provider that takes no care: the first request times out, the second one gets its courier
      and is recorded, and then the first one lands, all within the first lease. */
  lemma ALateCreateMakesTwoCouriers() returns (run: seq<Step>)
    ensures Feasible(Careless, START, run) && ASecondCourier(Exec(Careless, START, run))
  {
    var c, v, first, second := TwoRequests(Careless);
    run := TheSecondIsRecorded(c, v, first, second);
    var s := Exec(Careless, START, run);
    OneMore(Careless, run, LandLate(0, first));
    run := run + [LandLate(0, first)];
    assert KnownDelivery(Exec(Careless, START, run), 0, DeliveryIdForQuote(first).value);
  }

  lemma TheSecondIsRecorded(c: seq<Step>, v: nat, first: string, second: string) returns (run: seq<Step>)
    requires Feasible(Careless, START, c) && TwoOnTheirWay(Exec(Careless, START, c), v, first, second)
    ensures Feasible(Careless, START, run)
    ensures var s, d := Exec(Careless, START, run), DeliveryIdForQuote(second).value;
      && 0 in s.rows && s.rows[0].status.Active? && s.rows[0].deliveryId == Some(d) && KnownDelivery(s, 0, d)
      && (0, first) in s.lost && KnownQuote(s, 0, first) && d != DeliveryIdForQuote(first).value && s.now < LEASE
  {
    if DeliveryIdForQuote(first) == DeliveryIdForQuote(second) {
      DeliveryIdsAreDistinct(first, second);
    }
    run := ItIsToldSo(c, v, 0, second, Underway);
    OneMore(Careless, run, Record(v));
    run := run + [Record(v)];
  }

  lemma ItIsToldSo(c: seq<Step>, v: nat, r: nat, quote: string, status: ProviderStatus) returns (run: seq<Step>)
    requires Feasible(Careless, START, c) && HoldsIn(Exec(Careless, START, c), v, r, Sent(quote))
    requires KnownQuote(Exec(Careless, START, c), r, quote)
    ensures Feasible(Careless, START, run)
    ensures var s, t, d := Exec(Careless, START, c), Exec(Careless, START, run), DeliveryIdForQuote(quote).value;
      && HoldsIn(t, v, r, Settled(Found(Info(d, status, None, None, Some(r))))) && KnownDelivery(t, r, d)
      && t.rows == s.rows && t.quotes == s.quotes && t.lost == s.lost && t.now == s.now
  {
    var report := Info(DeliveryIdForQuote(quote).value, status, None, None, Some(r));
    OneMore(Careless, c, Land(v));
    OneMore(Careless, c + [Land(v)], Reply(v, report));
    run := c + [Land(v)] + [Reply(v, report)];
  }

  /** The row has one delivery, and it is out of its reach. */
  predicate LostBy(s: World, r: nat, d: string) {
    r in s.rows && KnownDelivery(s, r, d) && OutOfReach(s, d)
  }

  /** With a provider that honours the idempotency key: the first request lands while the second one
      is on its way. Its delivery is the only one, but out of reach at once, and when the second
      attempt is told it is a duplicate the row closes as failed with a courier under way. */
  lemma AKeyedDeliveryIsLost() returns (early: seq<Step>, run: seq<Step>, d: string)
    ensures Feasible(Keyed, START, early) && LostBy(Exec(Keyed, START, early), 0, d)
    ensures Feasible(Keyed, START, run) && early <= run && LostBy(Exec(Keyed, START, run), 0, d)
    ensures OpenThenFailed(Exec(Keyed, START, early), Exec(Keyed, START, run), 0)
  {
    var c, v, first, second := TwoRequests(Keyed);
    d := DeliveryIdForQuote(first).value;
    EveryRunKeepsBase(Keyed, c);
    assert RowFine(Exec(Keyed, START, c), 0);
    OneMore(Keyed, c, LandLate(0, first));
    early := c + [LandLate(0, first)];
    AnotherQuoteIsOutOfReach(Exec(Keyed, START, early), 0, first);
    run := ADuplicateIsGivenUp(early, v, first, second);
    AnotherQuoteIsOutOfReach(Exec(Keyed, START, run), 0, first);
  }

  predicate OpenThenFailed(s: World, t: World, r: nat) {
    r in s.rows && IsOpen(s.rows[r].status) && r in t.rows && t.rows[r].status.Failed? && t.now < LEASE
  }

  lemma ADuplicateIsGivenUp(c: seq<Step>, v: nat, first: string, second: string) returns (run: seq<Step>)
    requires Feasible(Keyed, START, c) && HoldsIn(Exec(Keyed, START, c), v, 0, Sent(second))
    requires DeliveryIdForQuote(first).Some? && first != second
    requires Exec(Keyed, START, c).deliveries.Keys == {DeliveryIdForQuote(first).value}
    ensures Feasible(Keyed, START, run) && c <= run
    ensures var s, t := Exec(Keyed, START, c), Exec(Keyed, START, run);
      && t.deliveries == s.deliveries && t.now == s.now && 0 in t.rows && t.rows[0] == Closed(s.rows[0], Failed, s.now)
  {
    if DeliveryIdForQuote(first) == DeliveryIdForQuote(second) {
      DeliveryIdsAreDistinct(first, second);
    }
    OneMore(Keyed, c, Duplicate(v, ANY_INFO));
    run := c + [Duplicate(v, ANY_INFO)];
    OneMore(Keyed, run, Record(v));
    run := run + [Record(v)];
  }
}
