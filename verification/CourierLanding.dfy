/** When a create request may land: what has to be true of the row at that moment for its delivery to
    stay the only one, and within reach. Nothing is assumed about the provider. */
module CourierLanding {
  import opened Common
  import opened CourierRow
  import opened CourierProtocol
  import opened CourierInvariant

  predicate HoldsRow(s: World, k: Worker) {
    k.row in s.rows && StillMine(s.rows[k.row], k.attempt)
  }

  /** The phases in which this worker's own delivery does not exist yet. */
  predicate BeforeDelivery(p: Phase) {
    p.Cleared? || p.Quoted? || p.Remembered? || p.Sent? || p.Orphan?
  }

  predicate CarriesQuote(p: Phase) {
    p.Remembered? || p.Sent? || p.Orphan?
  }

  /** The row remembers the quote its delivery was made from. */
  predicate QuoteKept(s: World, id: string)
    requires id in s.deliveries
  {
    s.deliveries[id].row in s.rows && s.rows[s.deliveries[id].row].quoteId == Some(s.deliveries[id].quote)
  }

  // ---------------------------------------------------------------- the landing

  /** The worker holds the row, has looked for an earlier delivery and found none, and is to put
      another quote on the row. */
  predicate IsPast(s: World, k: Worker, r: nat, quote: string) {
    k.row == r && HoldsRow(s, k) && (k.phase.Cleared? || (k.phase.Quoted? && k.phase.quote != quote))
  }

  /** The request comes too late: its quote is no longer the row's, or is about to be replaced. */
  predicate Overtaken(s: World, r: nat, quote: string) {
    && r in s.rows && DeliveryIdForQuote(quote).Some? && DeliveryIdForQuote(quote).value !in s.deliveries
    && (s.rows[r].quoteId != Some(quote) || exists v :: v in s.workers && IsPast(s, s.workers[v], r, quote))
  }

  /** Another worker that holds the row was given the very same quote, and will ask for it too. */
  predicate Doubled(s: World, r: nat, quote: string, sender: Option<nat>) {
    exists v :: v in s.workers && sender != Some(v) && s.workers[v].row == r && HoldsRow(s, s.workers[v])
      && (s.workers[v].phase.Quoted? || CarriesQuote(s.workers[v].phase)) && s.workers[v].phase.quote == quote
  }

  predicate LandsWell(s: World, step: Step, alone: bool) {
    match step
    case Land(w) =>
      w in s.workers && (s.workers[w].phase.Sent? || s.workers[w].phase.Orphan?) ==>
        && !Overtaken(s, s.workers[w].row, s.workers[w].phase.quote)
        && (alone ==> !Doubled(s, s.workers[w].row, s.workers[w].phase.quote, Some(w)))
    case LandLate(r, quote) => !Overtaken(s, r, quote) && (alone ==> !Doubled(s, r, quote, None))
    case _ => true
  }

  /** Whenever a request lands in the run it is not overtaken, and with `alone` not doubled either. */
  ghost predicate AllLandWell(p: Provider, steps: seq<Step>, alone: bool)
    requires Feasible(p, START, steps)
  {
    steps == [] ||
    var last := |steps| - 1;
    AllLandWell(p, steps[..last], alone) && LandsWell(Exec(p, START, steps[..last]), steps[last], alone)
  }

  /** The same from step `n` of the run on. */
  ghost predicate LandWellFrom(p: Provider, run: seq<Step>, n: nat, alone: bool)
    requires Feasible(p, START, run)
  {
    |run| <= n ||
    var last := |run| - 1;
    LandWellFrom(p, run[..last], n, alone) && LandsWell(Exec(p, START, run[..last]), run[last], alone)
  }

  lemma {:induction false} GoodThroughout(p: Provider, first: seq<Step>, run: seq<Step>, alone: bool)
    requires Feasible(p, START, run) && LandWellFrom(p, run, |first|, alone)
    requires first <= run && Feasible(p, START, first) && AllLandWell(p, first, alone)
    ensures AllLandWell(p, run, alone)
  {
    if first != run {
      assert first <= run[..|run| - 1];
      GoodThroughout(p, first, run[..|run| - 1], alone);
    }
  }

  // ---------------------------------------------------------------- what then holds

  predicate OnlyFrom(s: World, r: nat, quote: string) {
    forall d | d in s.deliveries && s.deliveries[d].row == r :: s.deliveries[d].quote == quote
  }

  /** What a worker that holds the row believes about it is true. */
  predicate HolderFine(s: World, k: Worker, alone: bool) {
    Dispatches(k.phase) && HoldsRow(s, k) ==>
      && (k.phase.Claimed? ==> k.previousQuote == s.rows[k.row].quoteId)
      && (k.phase.Cleared? ==> !HasDelivery(s, k.row))
      && (k.phase.Quoted? ==> OnlyFrom(s, k.row, k.phase.quote))
      && (CarriesQuote(k.phase) ==> s.rows[k.row].quoteId == Some(k.phase.quote))
      && (alone && BeforeDelivery(k.phase) ==> !HasDelivery(s, k.row))
  }

  ghost predicate Kept(s: World, alone: bool) {
    && Base(s)
    && (forall w {:trigger HolderFine(s, s.workers[w], alone)} | w in s.workers :: HolderFine(s, s.workers[w], alone))
    && (forall id {:trigger QuoteKept(s, id)} | id in s.deliveries :: QuoteKept(s, id))
  }

  // ---------------------------------------------------------------- the kinds of change

  /** No transaction gives a worker back a row it does not hold. */
  lemma HoldingIsNotRegained(s: World, k: Worker, row: Row)
    requires WorkerFine(s, k) && HoldsAttempt(k.phase) && Evolves(s.rows[k.row], row) && StillMine(row, k.attempt)
    ensures StillMine(s.rows[k.row], k.attempt)
  {
  }

  lemma RowChangeKeeps(s: World, r: nat, row: Row, alone: bool)
    requires Kept(s, alone) && r in s.rows && Base(SetRow(s, r, row))
    requires Evolves(s.rows[r], row) && row.quoteId == s.rows[r].quoteId
    ensures Kept(SetRow(s, r, row), alone)
  {
    var t := SetRow(s, r, row);
    forall w | w in t.workers ensures HolderFine(t, t.workers[w], alone) {
      var k := s.workers[w];
      assert HolderFine(s, k, alone) && WorkerFine(s, k);
      if k.row == r && Dispatches(k.phase) && HoldsRow(t, k) {
        HoldingIsNotRegained(s, k, row);
      }
    }
    forall id | id in t.deliveries ensures QuoteKept(t, id) { assert QuoteKept(s, id); }
  }

  lemma NewRowKeeps(s: World, r: nat, row: Row, alone: bool)
    requires Kept(s, alone) && r !in s.rows && Base(SetRow(s, r, row))
    ensures Kept(SetRow(s, r, row), alone)
  {
    var t := SetRow(s, r, row);
    forall w | w in t.workers ensures HolderFine(t, t.workers[w], alone) {
      assert HolderFine(s, s.workers[w], alone) && WorkerFine(s, s.workers[w]);
    }
    forall id | id in t.deliveries ensures QuoteKept(t, id) { assert QuoteKept(s, id); }
  }

  /** A worker joins or moves on, in agreement with the row. */
  lemma WorkerChangeKeeps(s: World, w: nat, k: Worker, alone: bool)
    requires Kept(s, alone) && Base(s.(workers := s.workers[w := k])) && HolderFine(s, k, alone)
    ensures Kept(s.(workers := s.workers[w := k]), alone)
  {
    var t := s.(workers := s.workers[w := k]);
    forall v | v in t.workers ensures HolderFine(t, t.workers[v], alone) {
      assert v == w || HolderFine(s, s.workers[v], alone);
    }
    forall id | id in t.deliveries ensures QuoteKept(t, id) { assert QuoteKept(s, id); }
  }

  lemma DropKeeps(s: World, w: nat, alone: bool)
    requires Kept(s, alone)
    ensures Kept(Drop(s, w), alone)
  {
    DropKeepsBase(s, w);
    var t := Drop(s, w);
    forall v | v in t.workers ensures HolderFine(t, t.workers[v], alone) { assert HolderFine(s, s.workers[v], alone); }
    forall id | id in t.deliveries ensures QuoteKept(t, id) { assert QuoteKept(s, id); }
  }

  /** Time passes, prices are quoted, requests are lost, outcomes are logged. */
  lemma QuietChangeKeeps(s: World, t: World, alone: bool)
    requires Kept(s, alone) && Base(t) && t == s.(now := t.now, quotes := t.quotes, lost := t.lost, log := t.log)
    ensures Kept(t, alone)
  {
    forall v | v in t.workers ensures HolderFine(t, t.workers[v], alone) { assert HolderFine(s, s.workers[v], alone); }
    forall id | id in t.deliveries ensures QuoteKept(t, id) { assert QuoteKept(s, id); }
  }

  // ---------------------------------------------------------------- the steps that matter

  /** Looking up the previous quote settles whether the row has any delivery at all. */
  lemma LookUpIsDecisive(s: World, w: nat, alone: bool)
    requires Kept(s, alone) && InPhase(s, w) && s.workers[w].phase.Claimed? && HoldsRow(s, s.workers[w])
    ensures var k := s.workers[w];
      HasDelivery(s, k.row) <==> k.previousQuote.Some? && Adoptable(s, k.row, k.previousQuote.value)
  {
    var k := s.workers[w];
    assert HolderFine(s, k, alone);
    forall d | d in s.deliveries && s.deliveries[d].row == k.row
      ensures k.previousQuote.Some? && Adoptable(s, k.row, k.previousQuote.value)
    {
      assert QuoteKept(s, d) && DeliveryFine(s, d);
    }
  }

  lemma LookUpKeeps(p: Provider, s: World, step: Step, alone: bool)
    requires Kept(s, alone) && Enabled(p, s, step) && step.LookUp?
    ensures Kept(Next(p, s, step), alone)
  {
    var w := step.worker;
    DispatchCallKeepsBase(p, s, step);
    if HoldsRow(s, s.workers[w]) {
      LookUpIsDecisive(s, w, alone);
    }
    WorkerChangeKeeps(s, w, Next(p, s, step).workers[w], alone);
  }

  lemma PriceKeeps(p: Provider, s: World, step: Step, alone: bool)
    requires Kept(s, alone) && Enabled(p, s, step) && step.Price?
    ensures Kept(Next(p, s, step), alone)
  {
    var w := step.worker;
    var t := s.(quotes := s.quotes[step.quote := Quote(s.workers[w].row, step.fee)]);
    QuotesGrow(s, step.quote, Quote(s.workers[w].row, step.fee));
    PriceKeepsBase(p, s, step);
    QuietChangeKeeps(s, t, alone);
    assert HolderFine(t, t.workers[w], alone);
    WorkerChangeKeeps(t, w, Next(p, s, step).workers[w], alone);
  }

  lemma QuotesGrow(s: World, quote: string, q: Quote)
    requires Base(s) && (quote in s.quotes ==> s.quotes[quote] == q)
    ensures Base(s.(quotes := s.quotes[quote := q]))
  {
    var t := s.(quotes := s.quotes[quote := q]);
    forall id | id in t.deliveries ensures DeliveryFine(t, id) { assert DeliveryFine(s, id); }
    forall x | x in t.lost ensures LostFine(t, x.0, x.1) { assert LostFine(s, x.0, x.1); }
    ProviderGrowthKeepsBase(s, t);
  }

  /** The quote of a row changes only when the row has no delivery of another one. */
  lemma RememberKeeps(p: Provider, s: World, step: Step, alone: bool)
    requires Kept(s, alone) && Enabled(p, s, step) && step.Remember?
    ensures Kept(Next(p, s, step), alone)
  {
    var w := step.worker;
    var k := s.workers[w];
    RememberKeepsBase(p, s, step);
    assert WorkerFine(s, k) && HolderFine(s, k, alone);
    if StillMine(s.rows[k.row], k.attempt) {
      RememberedKeeps(s, w, alone);
    } else {
      assert SetRow(s, k.row, s.rows[k.row]) == s;
      WorkerChangeKeeps(s, w, k.(phase := Settled(CallFailed(CourierError(false, OtherCode)))), alone);
    }
  }

  lemma RememberedKeeps(s: World, w: nat, alone: bool)
    requires Kept(s, alone) && InPhase(s, w) && s.workers[w].phase.Quoted? && HoldsRow(s, s.workers[w])
    requires Base(RememberNext(s, w))
    ensures Kept(RememberNext(s, w), alone)
  {
    var t := RememberNext(s, w);
    var k := s.workers[w];
    assert HolderFine(s, k, alone);
    forall v | v in t.workers ensures HolderFine(t, t.workers[v], alone) {
      assert HolderFine(s, s.workers[v], alone);
      assert v == w || !Rivals(s, w, v);
      assert HasDelivery(t, k.row) == HasDelivery(s, k.row);
    }
    forall id | id in t.deliveries ensures QuoteKept(t, id) { assert QuoteKept(s, id); }
  }

  /** A request that asks again for a delivery that exists changes nothing. */
  lemma LandingAgainIsNothing(s: World, r: nat, quote: string)
    requires Base(s) && KnownQuote(s, r, quote) && DeliveryIdForQuote(quote).value in s.deliveries
    ensures Create(s, r, quote) == s
  {
    var id := DeliveryIdForQuote(quote).value;
    assert DeliveryFine(s, id);
    DeliveryIdsAreDistinct(quote, s.deliveries[id].quote);
    assert s.deliveries[id] == Delivery(r, quote, s.quotes[quote].fee);
  }

  /** The one step that adds a delivery. The sender itself is put aside: it is not before its delivery
      any more. */
  lemma CreateKeeps(s: World, r: nat, quote: string, sender: Option<nat>, alone: bool)
    requires Kept(s, alone) && r in s.rows && KnownQuote(s, r, quote) && Base(Create(s, r, quote))
    requires !Overtaken(s, r, quote) && (alone ==> !Doubled(s, r, quote, sender))
    requires sender.Some? ==> sender.value !in s.workers
    ensures Kept(Create(s, r, quote), alone)
  {
    var t := Create(s, r, quote);
    if DeliveryIdForQuote(quote).value in s.deliveries {
      LandingAgainIsNothing(s, r, quote);
    } else {
      forall w | w in t.workers ensures HolderFine(t, t.workers[w], alone) {
        var k := s.workers[w];
        assert HolderFine(s, k, alone);
        assert !IsPast(s, k, r, quote);
      }
      forall id | id in t.deliveries ensures QuoteKept(t, id) {
        assert id in s.deliveries ==> QuoteKept(s, id);
      }
    }
  }

  /** The delivery is there, and its sender is put aside. */
  lemma TheDeliveryKeeps(s: World, w: nat, alone: bool)
    requires Kept(s, alone) && InPhase(s, w) && (s.workers[w].phase.Sent? || s.workers[w].phase.Orphan?)
    requires KnownQuote(s, s.workers[w].row, s.workers[w].phase.quote) && LandsWell(s, Land(w), alone)
    ensures Kept(Create(Drop(s, w), s.workers[w].row, s.workers[w].phase.quote), alone)
  {
    var k := s.workers[w];
    assert WorkerFine(s, k);
    DropKeeps(s, w, alone);
    CreateKeepsBase(Drop(s, w), k.row, k.phase.quote);
    CreateKeeps(Drop(s, w), k.row, k.phase.quote, Some(w), alone);
  }

  lemma LandKeeps(p: Provider, s: World, step: Step, alone: bool)
    requires Kept(s, alone) && Enabled(p, s, step) && step.Land? && LandsWell(s, step, alone)
    ensures Kept(Next(p, s, step), alone)
  {
    var w := step.worker;
    var k := s.workers[w];
    LandKeepsBase(p, s, step);
    TheDeliveryKeeps(s, w, alone);
    var c := Create(Drop(s, w), k.row, k.phase.quote);
    if k.phase.Sent? {
      var landed := k.(phase := Landed(k.phase.quote));
      assert c.(workers := c.workers[w := landed]) == Next(p, s, step);
      WorkerChangeKeeps(c, w, landed, alone);
    } else {
      assert c == Next(p, s, step);
    }
  }

  lemma LandLateKeeps(p: Provider, s: World, step: Step, alone: bool)
    requires Kept(s, alone) && Enabled(p, s, step) && step.LandLate? && LandsWell(s, step, alone)
    ensures Kept(Next(p, s, step), alone)
  {
    LandKeepsBase(p, s, step);
    CreateKeeps(s, step.row, step.quote, None, alone);
  }

  lemma StoreStepKeeps(p: Provider, s: World, step: Step, alone: bool)
    requires Kept(s, alone) && Enabled(p, s, step) && StoreStep(step)
    ensures Kept(Next(p, s, step), alone)
  {
    StoreStepKeepsBase(p, s, step);
    match step
    case Tick(_) => QuietChangeKeeps(s, Next(p, s, step), alone);
    case Open(r, order, cap) => NewRowKeeps(s, r, NewRow(order, cap, s.now), alone);
    case Confirm(r) =>
      assert RowFine(s, r);
      ConfirmingRaisesTheCap(s.rows[r], s.now);
      RowChangeKeeps(s, r, FeeConfirmed(s.rows[r], s.now), alone);
    case Cancel(r) =>
      assert RowFine(s, r);
      CancelRequestedOk(s.rows[r], s.now);
      RowChangeKeeps(s, r, CancelRequested(s.rows[r], s.now), alone);
    case Hint(r) => RowChangeKeeps(s, r, Hinted(s.rows[r], s.now), alone);
    case GiveUp(r, moved) => RowChangeKeeps(s, r, Closed(s.rows[r], if moved then Cancelled else Failed, s.now), alone);
  }

  /** A claim takes the row from whoever held it, and reads the quote it remembers. */
  lemma ClaimKeeps(s: World, r: nat, w: nat, alone: bool)
    requires Kept(s, alone) && Due(s, r) && w !in s.workers && (s.rows[r].status.Requested? || s.rows[r].status.Creating?)
    ensures Kept(ClaimNext(s, r, w), alone)
  {
    var row := s.rows[r];
    ClaimRowKeepsBase(s, r, w);
    assert RowFine(s, r);
    RowChangeKeepsBase(s, r, ClaimedRow(row, s.now));
    RowChangeKeeps(s, r, ClaimedRow(row, s.now), alone);
    var t := SetRow(s, r, ClaimedRow(row, s.now));
    WorkerChangeKeeps(t, w, Worker(r, row.attempts + 1, row.maxFee, row.quoteId, s.now + LEASE, Claimed), alone);
  }

  lemma OtherClaimKeeps(p: Provider, s: World, step: Step, alone: bool)
    requires Kept(s, alone) && Enabled(p, s, step) && (step.ClaimCancel? || step.ClaimTrack?)
    ensures Kept(Next(p, s, step), alone)
  {
    ClaimStepKeepsBase(p, s, step);
    var r, w := step.row, step.worker;
    var row := s.rows[r];
    var row' := if step.ClaimCancel? then CancelClaimedRow(row, s.now) else TrackClaimedRow(row, s.now);
    assert RowFine(s, r);
    TrackingOk(row, Info("", Unstated, None, None, None), s.now);
    RowChangeKeepsBase(s, r, row');
    RowChangeKeeps(s, r, row', alone);
    if w in Next(p, s, step).workers {
      WorkerChangeKeeps(SetRow(s, r, row'), w, Next(p, s, step).workers[w], alone);
    }
  }

  /** A worker writes back and leaves; the row evolves and keeps its quote. */
  lemma WriteBackKeeps(s: World, w: nat, row: Row, t: World, alone: bool)
    requires Kept(s, alone) && InPhase(s, w) && Base(t)
    requires Evolves(s.rows[s.workers[w].row], row) && row.quoteId == s.rows[s.workers[w].row].quoteId
    requires RowOk(row) && RefsOk(s, s.workers[w].row, row)
    requires t == Drop(SetRow(s, s.workers[w].row, row), w).(log := t.log)
    ensures Kept(t, alone)
  {
    var r := s.workers[w].row;
    RowChangeKeepsBase(s, r, row);
    RowChangeKeeps(s, r, row, alone);
    DropKeeps(SetRow(s, r, row), w, alone);
    QuietChangeKeeps(Drop(SetRow(s, r, row), w), t, alone);
  }

  lemma RecordKeeps(p: Provider, s: World, step: Step, alone: bool)
    requires Kept(s, alone) && Enabled(p, s, step) && step.Record?
    ensures Kept(Next(p, s, step), alone)
  {
    var k := s.workers[step.worker];
    assert WorkerFine(s, k) && RowFine(s, k.row);
    RecordedOk(s.rows[k.row], k.attempt, k.phase.outcome, s.now);
    RecordKeepsBase(p, s, step);
    WriteBackKeeps(s, step.worker, Recorded(s.rows[k.row], k.attempt, k.phase.outcome, s.now), Next(p, s, step), alone);
  }

  lemma FinishKeeps(p: Provider, s: World, step: Step, alone: bool)
    requires Kept(s, alone) && Enabled(p, s, step) && (step.FinishCancel? || step.FinishTrack?)
    ensures Kept(Next(p, s, step), alone)
  {
    StepKeepsBase(p, s, step);
    FinishedRow(p, s, step);
    WriteBackKeeps(s, step.worker, Next(p, s, step).rows[s.workers[step.worker].row], Next(p, s, step), alone);
  }

  lemma CallKeeps(p: Provider, s: World, step: Step, alone: bool)
    requires Kept(s, alone) && Enabled(p, s, step)
    requires step.Send? || step.Reply? || step.Duplicate? || step.NothingToCancel? || step.CancelFails? || step.Ask?
    ensures Kept(Next(p, s, step), alone)
  {
    StepKeepsBase(p, s, step);
    var w := step.worker;
    assert HolderFine(s, s.workers[w], alone);
    WorkerChangeKeeps(s, w, Next(p, s, step).workers[w], alone);
  }

  lemma CancelCallKeeps(p: Provider, s: World, step: Step, alone: bool)
    requires Kept(s, alone) && Enabled(p, s, step) && step.CancelAtProvider?
    ensures Kept(Next(p, s, step), alone)
  {
    CancelAtProviderKeepsBase(p, s, step);
    WorkerChangeKeeps(s, step.worker, s.workers[step.worker].(phase := Aborted(Some(step.report), None)), alone);
  }

  lemma FailKeeps(p: Provider, s: World, step: Step, alone: bool)
    requires Kept(s, alone) && Enabled(p, s, step) && step.Fail?
    ensures Kept(Next(p, s, step), alone)
  {
    var w := step.worker;
    var k := s.workers[w];
    FailKeepsBase(p, s, step);
    var t := if k.phase.Sent? then s.(lost := s.lost + {(k.row, k.phase.quote)}) else s;
    GivingUpKeepsBase(s, w, t);
    QuietChangeKeeps(s, t, alone);
    WorkerChangeKeeps(t, w, k.(phase := Settled(CallFailed(step.error))), alone);
  }

  lemma CrashKeeps(p: Provider, s: World, step: Step, alone: bool)
    requires Kept(s, alone) && Enabled(p, s, step) && step.Crash?
    ensures Kept(Next(p, s, step), alone)
  {
    var w := step.worker;
    CrashKeepsBase(p, s, step);
    if s.workers[w].phase.Sent? {
      assert HolderFine(s, s.workers[w], alone);
      WorkerChangeKeeps(s, w, s.workers[w].(phase := Orphan(s.workers[w].phase.quote)), alone);
    } else {
      DropKeeps(s, w, alone);
    }
  }

  lemma StepKeeps(p: Provider, s: World, step: Step, alone: bool)
    requires Kept(s, alone) && Enabled(p, s, step) && LandsWell(s, step, alone)
    ensures Kept(Next(p, s, step), alone)
  {
    if StoreStep(step) {
      StoreStepKeeps(p, s, step, alone);
    } else if step.Claim? {
      ClaimKeeps(s, step.row, step.worker, alone);
    } else if step.ClaimCancel? || step.ClaimTrack? {
      OtherClaimKeeps(p, s, step, alone);
    } else if step.LookUp? {
      LookUpKeeps(p, s, step, alone);
    } else if step.Price? {
      PriceKeeps(p, s, step, alone);
    } else if step.Remember? {
      RememberKeeps(p, s, step, alone);
    } else if step.Land? {
      LandKeeps(p, s, step, alone);
    } else if step.LandLate? {
      LandLateKeeps(p, s, step, alone);
    } else if step.Record? {
      RecordKeeps(p, s, step, alone);
    } else if step.FinishCancel? || step.FinishTrack? {
      FinishKeeps(p, s, step, alone);
    } else if step.CancelAtProvider? {
      CancelCallKeeps(p, s, step, alone);
    } else if step.Fail? {
      FailKeeps(p, s, step, alone);
    } else if step.Crash? {
      CrashKeeps(p, s, step, alone);
    } else {
      CallKeeps(p, s, step, alone);
    }
  }

  lemma {:induction false} EveryGoodRunKeeps(p: Provider, steps: seq<Step>, alone: bool)
    requires Feasible(p, START, steps) && AllLandWell(p, steps, alone)
    ensures Kept(Exec(p, START, steps), alone)
  {
    if steps == [] {
      StartBase();
    } else {
      var last := |steps| - 1;
      EveryGoodRunKeeps(p, steps[..last], alone);
      StepKeeps(p, Exec(p, START, steps[..last]), steps[last], alone);
    }
  }

  // ---------------------------------------------------------------- the promises

  /** Never two couriers: with any provider, as long as no request lands overtaken, at most one
      delivery is ever created for a row, whatever crashes, gets lost or is taken over. */
  lemma NeverTwoCouriers(p: Provider, steps: seq<Step>, d: string, e: string)
    requires Feasible(p, START, steps) && AllLandWell(p, steps, false)
    requires var s := Exec(p, START, steps);
      d in s.deliveries && e in s.deliveries && s.deliveries[d].row == s.deliveries[e].row
    ensures d == e
  {
    EveryGoodRunKeeps(p, steps, false);
    var s := Exec(p, START, steps);
    assert QuoteKept(s, d) && QuoteKept(s, e) && DeliveryFine(s, d) && DeliveryFine(s, e);
  }

  /** A delivery is never out of reach: the row holds the quote its id is derived from, and an id on
      the row is that same one. */
  lemma EveryDeliveryIsReachable(p: Provider, steps: seq<Step>, d: string)
    requires Feasible(p, START, steps) && AllLandWell(p, steps, false) && d in Exec(p, START, steps).deliveries
    ensures var s := Exec(p, START, steps); var r := s.deliveries[d].row;
      && r in s.rows && s.rows[r].quoteId.Some?
      && DeliveryIdForQuote(s.rows[r].quoteId.value) == Some(d)
      && (s.rows[r].deliveryId.Some? ==> s.rows[r].deliveryId == Some(d))
  {
    EveryGoodRunKeeps(p, steps, false);
    var s := Exec(p, START, steps);
    var r := s.deliveries[d].row;
    assert QuoteKept(s, d) && DeliveryFine(s, d) && RowFine(s, r);
    if s.rows[r].deliveryId.Some? {
      NeverTwoCouriers(p, steps, d, s.rows[r].deliveryId.value);
    }
  }

  /** A worker that holds its row asks for a delivery only while the row has none; if requests were
      doubled, then none but the very one it asks for. */
  lemma NoCreateForAnExistingDelivery(p: Provider, steps: seq<Step>, alone: bool, w: nat)
    requires Feasible(p, START, steps) && AllLandWell(p, steps, alone)
    requires var s := Exec(p, START, steps);
      w in s.workers && CarriesQuote(s.workers[w].phase) && HoldsRow(s, s.workers[w])
    ensures var s := Exec(p, START, steps);
      && OnlyFrom(s, s.workers[w].row, s.workers[w].phase.quote)
      && (alone ==> !HasDelivery(s, s.workers[w].row))
  {
    EveryGoodRunKeeps(p, steps, alone);
    var s := Exec(p, START, steps);
    var k := s.workers[w];
    assert HolderFine(s, k, alone);
    forall d | d in s.deliveries && s.deliveries[d].row == k.row ensures s.deliveries[d].quote == k.phase.quote {
      assert QuoteKept(s, d);
    }
  }
}
