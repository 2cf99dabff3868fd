/** What every step of the protocol keeps, whatever the provider does: rows are coherent, prices are
    within the cap, attempts are unique and each takes effect at most once. */
module CourierInvariant {
  import opened Common
  import opened CourierRow
  import opened CourierProtocol

  predicate CapAllows(cap: Option<int>, fee: int) {
    cap.Some? ==> fee <= cap.value
  }

  predicate KnownDelivery(s: World, r: nat, id: string) {
    id in s.deliveries && s.deliveries[id].row == r
  }

  predicate RefsOk(s: World, r: nat, row: Row) {
    && (row.quoteId.Some? ==> KnownQuote(s, r, row.quoteId.value))
    && (row.deliveryId.Some? ==> KnownDelivery(s, r, row.deliveryId.value))
  }

  predicate RowFine(s: World, r: nat)
    requires r in s.rows
  {
    RowOk(s.rows[r]) && RefsOk(s, r, s.rows[r])
  }

  predicate SameOrder(s: World, r: nat, q: nat)
    requires r in s.rows && q in s.rows
  {
    s.rows[r].order == s.rows[q].order && IsOpen(s.rows[r].status) && IsOpen(s.rows[q].status)
  }

  predicate DeliveryFine(s: World, id: string)
    requires id in s.deliveries
  {
    var d := s.deliveries[id];
    && d.row in s.rows && KnownQuote(s, d.row, d.quote)
    && DeliveryIdForQuote(d.quote) == Some(id)
    && d.fee == s.quotes[d.quote].fee
    && CapAllows(s.rows[d.row].maxFee, d.fee)
  }

  predicate PricedQuote(s: World, k: Worker, quote: string) {
    KnownQuote(s, k.row, quote) && CapAllows(k.maxFee, s.quotes[quote].fee)
  }

  predicate PhaseFine(s: World, k: Worker) {
    match k.phase
    case Claimed => k.previousQuote.Some? ==> KnownQuote(s, k.row, k.previousQuote.value)
    case Cleared => true
    case Quoted(quote) => PricedQuote(s, k, quote)
    case Remembered(quote) => PricedQuote(s, k, quote)
    case Sent(quote) => PricedQuote(s, k, quote)
    case Landed(quote) => PricedQuote(s, k, quote)
    case Orphan(quote) => PricedQuote(s, k, quote)
    case Settled(Found(info)) => KnownDelivery(s, k.row, info.id)
    case Settled(TooDear(fee)) => k.maxFee.Some? && k.maxFee.value < fee
    case Settled(CallFailed(_)) => true
    case Aborting(id, _) => id.Some? ==> KnownDelivery(s, k.row, id.value)
    case Aborted(info, _) => info.Some? ==> KnownDelivery(s, k.row, info.value.id)
    case Asking(id) => KnownDelivery(s, k.row, id)
    case Answered(info) => KnownDelivery(s, k.row, info.id)
  }

  predicate ClaimFine(s: World, k: Worker)
    requires k.row in s.rows
  {
    var row := s.rows[k.row];
    && (HoldsAttempt(k.phase) ==> 0 < k.attempt <= row.attempts)
    && (Dispatches(k.phase) ==> CapLe(k.maxFee, row.maxFee) && (StillMine(row, k.attempt) ==> k.maxFee == row.maxFee))
  }

  predicate WorkerFine(s: World, k: Worker) {
    k.row in s.rows && ClaimFine(s, k) && PhaseFine(s, k)
  }

  predicate Rivals(s: World, w: nat, v: nat)
    requires w in s.workers && v in s.workers
  {
    && w != v && HoldsAttempt(s.workers[w].phase) && HoldsAttempt(s.workers[v].phase)
    && s.workers[w].row == s.workers[v].row && s.workers[w].attempt == s.workers[v].attempt
  }

  predicate LostFine(s: World, r: nat, quote: string) {
    r in s.rows && KnownQuote(s, r, quote) && CapAllows(s.rows[r].maxFee, s.quotes[quote].fee)
  }

  predicate EntryFine(s: World, e: Entry) {
    && e.row in s.rows && e.attempt <= s.rows[e.row].attempts
    && (e.retry ==> 0 < e.attempt < MAX_ATTEMPTS)
  }

  predicate Unlogged(k: Worker, e: Entry) {
    HoldsAttempt(k.phase) && k.row == e.row ==> k.attempt != e.attempt
  }

  ghost predicate LogFine(s: World) {
    && (forall e {:trigger EntryFine(s, e)} | e in s.log :: EntryFine(s, e))
    && (forall e, w {:trigger Unlogged(s.workers[w], e)} | e in s.log && w in s.workers :: Unlogged(s.workers[w], e))
    && (forall i, j | 0 <= i < j < |s.log| && s.log[i].row == s.log[j].row :: s.log[i].attempt < s.log[j].attempt)
  }

  ghost predicate Base(s: World) {
    && (forall r {:trigger RowFine(s, r)} | r in s.rows :: RowFine(s, r))
    && (forall r, q {:trigger SameOrder(s, r, q)} | r in s.rows && q in s.rows && r != q :: !SameOrder(s, r, q))
    && (forall id {:trigger DeliveryFine(s, id)} | id in s.deliveries :: DeliveryFine(s, id))
    && (forall w {:trigger WorkerFine(s, s.workers[w])} | w in s.workers :: WorkerFine(s, s.workers[w]))
    && (forall w, v {:trigger Rivals(s, w, v)} | w in s.workers && v in s.workers :: !Rivals(s, w, v))
    && (forall x {:trigger LostFine(s, x.0, x.1)} | x in s.lost :: LostFine(s, x.0, x.1))
    && LogFine(s)
  }

  lemma StartBase()
    ensures Base(START)
  {
  }

  // ---------------------------------------------------------------- the kinds of change a step makes

  /** A row changes, and nothing else. */
  lemma RowChangeKeepsBase(s: World, r: nat, row: Row)
    requires Base(s) && r in s.rows
    requires RowOk(row) && RefsOk(s, r, row) && Evolves(s.rows[r], row)
    ensures Base(SetRow(s, r, row))
  {
    var t := SetRow(s, r, row);
    forall q | q in t.rows ensures RowFine(t, q) {
      assert RowFine(s, q) || q == r;
    }
    forall a, b | a in t.rows && b in t.rows && a != b ensures !SameOrder(t, a, b) {
      assert !SameOrder(s, a, b);
    }
    forall id | id in t.deliveries ensures DeliveryFine(t, id) {
      assert DeliveryFine(s, id);
    }
    forall w | w in t.workers ensures WorkerFine(t, t.workers[w]) {
      assert WorkerFine(s, s.workers[w]);
    }
    forall w, v | w in t.workers && v in t.workers ensures !Rivals(t, w, v) {
      assert !Rivals(s, w, v);
    }
    forall x | x in t.lost ensures LostFine(t, x.0, x.1) {
      assert LostFine(s, x.0, x.1);
    }
    forall e | e in t.log ensures EntryFine(t, e) {
      assert EntryFine(s, e);
    }
  }

  /** A new row for an order that has no open one. */
  lemma NewRowKeepsBase(s: World, r: nat, row: Row)
    requires Base(s) && r !in s.rows
    requires RowOk(row) && row.quoteId.None? && row.deliveryId.None?
    requires forall q | q in s.rows && s.rows[q].order == row.order :: !IsOpen(s.rows[q].status)
    ensures Base(SetRow(s, r, row))
  {
    var t := SetRow(s, r, row);
    forall q | q in t.rows ensures RowFine(t, q) {
      assert q == r || RowFine(s, q);
    }
    forall a, b | a in t.rows && b in t.rows && a != b ensures !SameOrder(t, a, b) {
      if a in s.rows && b in s.rows {
        assert !SameOrder(s, a, b);
      }
    }
    forall id | id in t.deliveries ensures DeliveryFine(t, id) {
      assert DeliveryFine(s, id);
    }
    forall w | w in t.workers ensures WorkerFine(t, t.workers[w]) {
      assert WorkerFine(s, s.workers[w]);
    }
    forall w, v | w in t.workers && v in t.workers ensures !Rivals(t, w, v) {
      assert !Rivals(s, w, v);
    }
    forall x | x in t.lost ensures LostFine(t, x.0, x.1) {
      assert LostFine(s, x.0, x.1);
    }
    forall e | e in t.log ensures EntryFine(t, e) {
      assert EntryFine(s, e);
    }
  }

  /** A worker appears or moves on; the rest of the world stays. */
  lemma WorkerChangeKeepsBase(s: World, w: nat, k: Worker)
    requires Base(s) && WorkerFine(s, k)
    requires forall v | v in s.workers && v != w ::
      HoldsAttempt(k.phase) && HoldsAttempt(s.workers[v].phase) && s.workers[v].row == k.row ==> s.workers[v].attempt != k.attempt
    requires forall e | e in s.log :: Unlogged(k, e)
    ensures Base(s.(workers := s.workers[w := k]))
  {
    var t := s.(workers := s.workers[w := k]);
    RestStays(s, t);
    forall v | v in t.workers ensures WorkerFine(t, t.workers[v]) {
      assert v == w || WorkerFine(s, s.workers[v]);
    }
    forall a, b | a in t.workers && b in t.workers ensures !Rivals(t, a, b) {
      if a != w && b != w {
        assert !Rivals(s, a, b);
      }
    }
  }

  /** Nothing but the workers changed. */
  lemma RestStays(s: World, t: World)
    requires Base(s) && t == s.(workers := t.workers)
    ensures forall r | r in t.rows :: RowFine(t, r)
    ensures forall r, q | r in t.rows && q in t.rows && r != q :: !SameOrder(t, r, q)
    ensures forall id | id in t.deliveries :: DeliveryFine(t, id)
    ensures forall x | x in t.lost :: LostFine(t, x.0, x.1)
    ensures forall e | e in t.log :: EntryFine(t, e)
  {
    forall r | r in t.rows ensures RowFine(t, r) { assert RowFine(s, r); }
    forall r, q | r in t.rows && q in t.rows && r != q ensures !SameOrder(t, r, q) { assert !SameOrder(s, r, q); }
    forall id | id in t.deliveries ensures DeliveryFine(t, id) { assert DeliveryFine(s, id); }
    forall x | x in t.lost ensures LostFine(t, x.0, x.1) { assert LostFine(s, x.0, x.1); }
    forall e | e in t.log ensures EntryFine(t, e) { assert EntryFine(s, e); }
  }

  /** A worker moves to a phase that fits what is known. */
  lemma PhaseChangeKeepsBase(s: World, w: nat, p: Phase)
    requires Base(s) && w in s.workers
    requires HoldsAttempt(p) == HoldsAttempt(s.workers[w].phase) && Dispatches(p) == Dispatches(s.workers[w].phase)
    requires PhaseFine(s, s.workers[w].(phase := p))
    ensures Base(SetPhase(s, w, p))
  {
    assert WorkerFine(s, s.workers[w]);
    forall v | v in s.workers && v != w
      ensures HoldsAttempt(p) && HoldsAttempt(s.workers[v].phase) && s.workers[v].row == s.workers[w].row
          ==> s.workers[v].attempt != s.workers[w].attempt
    {
      assert !Rivals(s, w, v);
    }
    forall e | e in s.log ensures Unlogged(s.workers[w].(phase := p), e) {
      assert Unlogged(s.workers[w], e);
    }
    WorkerChangeKeepsBase(s, w, s.workers[w].(phase := p));
  }

  lemma DropKeepsBase(s: World, w: nat)
    requires Base(s)
    ensures Base(Drop(s, w))
  {
    var t := Drop(s, w);
    RestStays(s, t);
    forall v | v in t.workers ensures WorkerFine(t, t.workers[v]) {
      assert WorkerFine(s, s.workers[v]);
    }
    forall a, b | a in t.workers && b in t.workers ensures !Rivals(t, a, b) {
      assert !Rivals(s, a, b);
    }
  }

  /** The provider learns of a quote or a delivery: what was known stays known. */
  lemma ProviderGrowthKeepsBase(s: World, t: World)
    requires Base(s)
    requires t == s.(quotes := t.quotes, deliveries := t.deliveries, lost := t.lost)
    requires forall q | q in s.quotes :: q in t.quotes && t.quotes[q] == s.quotes[q]
    requires forall id | id in s.deliveries :: id in t.deliveries && t.deliveries[id].row == s.deliveries[id].row
    requires forall id | id in t.deliveries :: DeliveryFine(t, id)
    requires forall x | x in t.lost :: LostFine(t, x.0, x.1)
    ensures Base(t)
  {
    forall r | r in t.rows ensures RowFine(t, r) { assert RowFine(s, r); }
    forall r, q | r in t.rows && q in t.rows && r != q ensures !SameOrder(t, r, q) { assert !SameOrder(s, r, q); }
    forall w | w in t.workers ensures WorkerFine(t, t.workers[w]) { assert WorkerFine(s, s.workers[w]); }
    forall w, v | w in t.workers && v in t.workers ensures !Rivals(t, w, v) { assert !Rivals(s, w, v); }
    forall e | e in t.log ensures EntryFine(t, e) { assert EntryFine(s, e); }
  }

  /** An outcome takes effect once: its worker is gone, and no other holds its attempt. */
  lemma LogKeepsBase(s: World, w: nat, e: Entry)
    requires Base(s) && w in s.workers
    requires HoldsAttempt(s.workers[w].phase) && e.row == s.workers[w].row && e.attempt == s.workers[w].attempt
    requires EntryFine(s, e) && e.attempt == s.rows[e.row].attempts
    ensures Base(Drop(s, w).(log := s.log + [e]))
  {
    DropKeepsBase(s, w);
    var d := Drop(s, w);
    var t := d.(log := s.log + [e]);
    forall r | r in t.rows ensures RowFine(t, r) { assert RowFine(d, r); }
    forall r, q | r in t.rows && q in t.rows && r != q ensures !SameOrder(t, r, q) { assert !SameOrder(d, r, q); }
    forall id | id in t.deliveries ensures DeliveryFine(t, id) { assert DeliveryFine(d, id); }
    forall v | v in t.workers ensures WorkerFine(t, t.workers[v]) { assert WorkerFine(d, d.workers[v]); }
    forall a, b | a in t.workers && b in t.workers ensures !Rivals(t, a, b) { assert !Rivals(d, a, b); }
    forall x | x in t.lost ensures LostFine(t, x.0, x.1) { assert LostFine(d, x.0, x.1); }
    LogGrows(s, w, e);
  }

  lemma LogGrows(s: World, w: nat, e: Entry)
    requires Base(s) && w in s.workers
    requires HoldsAttempt(s.workers[w].phase) && e.row == s.workers[w].row && e.attempt == s.workers[w].attempt
    requires EntryFine(s, e) && e.attempt == s.rows[e.row].attempts
    ensures LogFine(Drop(s, w).(log := s.log + [e]))
  {
    var t := Drop(s, w).(log := s.log + [e]);
    forall f | f in t.log ensures EntryFine(t, f) {
      assert f == e || (f in s.log && EntryFine(s, f));
    }
    forall f, v | f in t.log && v in t.workers ensures Unlogged(t.workers[v], f) {
      if f in s.log {
        assert Unlogged(s.workers[v], f);
      } else {
        assert !Rivals(s, w, v);
      }
    }
    forall i, j | 0 <= i < j < |t.log| && t.log[i].row == t.log[j].row ensures t.log[i].attempt < t.log[j].attempt {
      if j == |s.log| {
        assert t.log[i] in s.log;
        assert EntryFine(s, t.log[i]) && Unlogged(s.workers[w], t.log[i]);
      }
    }
  }

  // ---------------------------------------------------------------- the steps, one group at a time

  lemma StoreStepKeepsBase(p: Provider, s: World, step: Step)
    requires Base(s) && Enabled(p, s, step)
    requires step.Tick? || step.Open? || step.Confirm? || step.Cancel? || step.Hint? || step.GiveUp?
    ensures Base(Next(p, s, step))
  {
    match step
    case Tick(_) => TickKeepsBase(s, Next(p, s, step));
    case Open(r, order, cap) => NewRowKeepsBase(s, r, NewRow(order, cap, s.now));
    case Confirm(r) =>
      assert RowFine(s, r);
      ConfirmingRaisesTheCap(s.rows[r], s.now);
      RowChangeKeepsBase(s, r, FeeConfirmed(s.rows[r], s.now));
    case Cancel(r) =>
      assert RowFine(s, r);
      CancelRequestedOk(s.rows[r], s.now);
      RowChangeKeepsBase(s, r, CancelRequested(s.rows[r], s.now));
    case Hint(r) =>
      assert RowFine(s, r);
      TrackingOk(s.rows[r], Info("", Unstated, None, None, None), s.now);
      RowChangeKeepsBase(s, r, Hinted(s.rows[r], s.now));
    case GiveUp(r, moved) =>
      assert RowFine(s, r);
      RowChangeKeepsBase(s, r, Closed(s.rows[r], if moved then Cancelled else Failed, s.now));
  }

  lemma TickKeepsBase(s: World, t: World)
    requires Base(s) && t == s.(now := t.now)
    ensures Base(t)
  {
    forall r | r in t.rows ensures RowFine(t, r) { assert RowFine(s, r); }
    forall r, q | r in t.rows && q in t.rows && r != q ensures !SameOrder(t, r, q) { assert !SameOrder(s, r, q); }
    forall id | id in t.deliveries ensures DeliveryFine(t, id) { assert DeliveryFine(s, id); }
    forall w | w in t.workers ensures WorkerFine(t, t.workers[w]) { assert WorkerFine(s, s.workers[w]); }
    forall w, v | w in t.workers && v in t.workers ensures !Rivals(t, w, v) { assert !Rivals(s, w, v); }
    forall x | x in t.lost ensures LostFine(t, x.0, x.1) { assert LostFine(s, x.0, x.1); }
    forall e | e in t.log ensures EntryFine(t, e) { assert EntryFine(s, e); }
  }

  /** A claim: the row's attempt number moves past every number in flight or on the log. */
  lemma ClaimKeepsBase(s: World, r: nat, w: nat, row: Row, k: Worker)
    requires Base(s) && r in s.rows && w !in s.workers
    requires RowOk(row) && RefsOk(s, r, row) && Evolves(s.rows[r], row)
    requires row.attempts == s.rows[r].attempts + 1 == k.attempt && k.row == r
    requires HoldsAttempt(k.phase) && WorkerFine(SetRow(s, r, row), k)
    ensures Base(SetRow(s, r, row).(workers := s.workers[w := k]))
  {
    var t := SetRow(s, r, row);
    RowChangeKeepsBase(s, r, row);
    forall v | v in t.workers && v != w
      ensures HoldsAttempt(t.workers[v].phase) && t.workers[v].row == r ==> t.workers[v].attempt != k.attempt
    {
      assert WorkerFine(s, s.workers[v]);
    }
    forall e | e in t.log ensures Unlogged(k, e) {
      assert EntryFine(s, e);
    }
    WorkerChangeKeepsBase(t, w, k);
  }

  lemma ClaimRowKeepsBase(s: World, r: nat, w: nat)
    requires Base(s) && r in s.rows && w !in s.workers
    requires s.rows[r].status.Requested? || s.rows[r].status.Creating?
    ensures Base(ClaimNext(s, r, w))
  {
    assert RowFine(s, r);
    var row := s.rows[r];
    ClaimKeepsBase(s, r, w, ClaimedRow(row, s.now),
                   Worker(r, row.attempts + 1, row.maxFee, row.quoteId, s.now + LEASE, Claimed));
  }

  lemma ClaimCancelKeepsBase(s: World, r: nat, w: nat)
    requires Base(s) && r in s.rows && w !in s.workers && s.rows[r].status.Cancelling?
    ensures Base(ClaimCancelNext(s, r, w))
  {
    assert RowFine(s, r);
    var row := s.rows[r];
    ClaimKeepsBase(s, r, w, CancelClaimedRow(row, s.now),
                   Worker(r, row.attempts + 1, row.maxFee, None, s.now + LEASE, Aborting(row.deliveryId, row.quoteId)));
  }

  lemma ClaimTrackKeepsBase(s: World, r: nat, w: nat)
    requires Base(s) && r in s.rows && w !in s.workers && s.rows[r].status.Active?
    ensures Base(ClaimTrackNext(s, r, w))
  {
    assert RowFine(s, r);
    var row := s.rows[r];
    TrackingOk(row, Info("", Unstated, None, None, None), s.now);
    RowChangeKeepsBase(s, r, TrackClaimedRow(row, s.now));
    if row.deliveryId.Some? {
      WorkerChangeKeepsBase(SetRow(s, r, TrackClaimedRow(row, s.now)), w,
                            Worker(r, 0, None, None, s.now, Asking(row.deliveryId.value)));
    }
  }

  lemma ClaimStepKeepsBase(p: Provider, s: World, step: Step)
    requires Base(s) && Enabled(p, s, step)
    requires step.Claim? || step.ClaimCancel? || step.ClaimTrack?
    ensures Base(Next(p, s, step))
  {
    match step
    case Claim(r, w) => ClaimRowKeepsBase(s, r, w);
    case ClaimCancel(r, w, _) => ClaimCancelKeepsBase(s, r, w);
    case ClaimTrack(r, w, _) => ClaimTrackKeepsBase(s, r, w);
  }

  lemma DispatchCallKeepsBase(p: Provider, s: World, step: Step)
    requires Base(s) && Enabled(p, s, step)
    requires step.LookUp? || step.Send? || step.Reply? || step.Duplicate?
    ensures Base(Next(p, s, step))
  {
    var w := step.worker;
    assert WorkerFine(s, s.workers[w]);
    PhaseChangeKeepsBase(s, w, Next(p, s, step).workers[w].phase);
  }

  lemma OtherCallKeepsBase(p: Provider, s: World, step: Step)
    requires Base(s) && Enabled(p, s, step)
    requires step.NothingToCancel? || step.CancelFails? || step.Ask?
    ensures Base(Next(p, s, step))
  {
    var w := step.worker;
    assert WorkerFine(s, s.workers[w]);
    PhaseChangeKeepsBase(s, w, Next(p, s, step).workers[w].phase);
  }

  lemma CancelAtProviderKeepsBase(p: Provider, s: World, step: Step)
    requires Base(s) && Enabled(p, s, step) && step.CancelAtProvider?
    ensures Base(Next(p, s, step))
  {
    var w := step.worker;
    assert WorkerFine(s, s.workers[w]);
    PhaseChangeKeepsBase(s, w, Aborted(Some(step.report), None));
  }

  lemma PriceKeepsBase(p: Provider, s: World, step: Step)
    requires Base(s) && Enabled(p, s, step) && step.Price?
    ensures Base(Next(p, s, step))
  {
    var w := step.worker;
    var k := s.workers[w];
    var t := s.(quotes := s.quotes[step.quote := Quote(k.row, step.fee)]);
    forall id | id in t.deliveries ensures DeliveryFine(t, id) { assert DeliveryFine(s, id); }
    forall x | x in t.lost ensures LostFine(t, x.0, x.1) { assert LostFine(s, x.0, x.1); }
    ProviderGrowthKeepsBase(s, t);
    PhaseChangeKeepsBase(t, w, PriceNext(s, w, step.quote, step.fee).workers[w].phase);
  }

  lemma RememberKeepsBase(p: Provider, s: World, step: Step)
    requires Base(s) && Enabled(p, s, step) && step.Remember?
    ensures Base(Next(p, s, step))
  {
    var w := step.worker;
    var k := s.workers[w];
    assert WorkerFine(s, k) && RowFine(s, k.row);
    var row := QuoteRemembered(s.rows[k.row], k.attempt, k.phase.quote);
    RowChangeKeepsBase(s, k.row, row);
    PhaseChangeKeepsBase(SetRow(s, k.row, row), w, RememberNext(s, w).workers[w].phase);
  }

  /** A delivery is created at a price the row's cap allows, then and from then on. */
  lemma CreateKeepsBase(s: World, r: nat, quote: string)
    requires Base(s) && r in s.rows && KnownQuote(s, r, quote)
    requires CapAllows(s.rows[r].maxFee, s.quotes[quote].fee)
    ensures Base(Create(s, r, quote))
  {
    var t := Create(s, r, quote);
    var id := DeliveryIdForQuote(quote).value;
    forall d | d in t.deliveries ensures DeliveryFine(t, d) {
      if d != id {
        assert DeliveryFine(s, d);
      }
    }
    if id in s.deliveries {
      assert DeliveryFine(s, id);
      DeliveryIdsAreDistinct(quote, s.deliveries[id].quote);
    }
    forall x | x in t.lost ensures LostFine(t, x.0, x.1) { assert LostFine(s, x.0, x.1); }
    ProviderGrowthKeepsBase(s, t);
  }

  lemma LandKeepsBase(p: Provider, s: World, step: Step)
    requires Base(s) && Enabled(p, s, step) && (step.Land? || step.LandLate?)
    ensures Base(Next(p, s, step))
  {
    match step
    case LandLate(r, quote) =>
      assert (r, quote) in s.lost;
      assert LostFine(s, (r, quote).0, (r, quote).1);
      CreateKeepsBase(s, r, quote);
    case Land(w) =>
      var k := s.workers[w];
      assert WorkerFine(s, k);
      CreateKeepsBase(s, k.row, k.phase.quote);
      var t := Create(s, k.row, k.phase.quote);
      if k.phase.Sent? {
        PhaseChangeKeepsBase(t, w, Landed(k.phase.quote));
      } else {
        DropKeepsBase(t, w);
      }
  }

  lemma FailKeepsBase(p: Provider, s: World, step: Step)
    requires Base(s) && Enabled(p, s, step) && step.Fail?
    ensures Base(Next(p, s, step))
  {
    var w := step.worker;
    var k := s.workers[w];
    assert WorkerFine(s, k);
    var t := if k.phase.Sent? then s.(lost := s.lost + {(k.row, k.phase.quote)}) else s;
    GivingUpKeepsBase(s, w, t);
    PhaseChangeKeepsBase(t, w, Settled(CallFailed(step.error)));
  }

  lemma GivingUpKeepsBase(s: World, w: nat, t: World)
    requires Base(s) && w in s.workers
    requires t == if s.workers[w].phase.Sent? then s.(lost := s.lost + {(s.workers[w].row, s.workers[w].phase.quote)}) else s
    ensures Base(t)
  {
    assert WorkerFine(s, s.workers[w]);
    forall id | id in t.deliveries ensures DeliveryFine(t, id) { assert DeliveryFine(s, id); }
    forall x | x in t.lost ensures LostFine(t, x.0, x.1) {
      assert x in s.lost ==> LostFine(s, x.0, x.1);
    }
    ProviderGrowthKeepsBase(s, t);
  }

  lemma CrashKeepsBase(p: Provider, s: World, step: Step)
    requires Base(s) && Enabled(p, s, step) && step.Crash?
    ensures Base(Next(p, s, step))
  {
    var w := step.worker;
    assert WorkerFine(s, s.workers[w]);
    if s.workers[w].phase.Sent? {
      PhaseChangeKeepsBase(s, w, Orphan(s.workers[w].phase.quote));
    } else {
      DropKeepsBase(s, w);
    }
  }

  lemma RecordKeepsBase(p: Provider, s: World, step: Step)
    requires Base(s) && Enabled(p, s, step) && step.Record?
    ensures Base(Next(p, s, step))
  {
    var w := step.worker;
    var k := s.workers[w];
    assert WorkerFine(s, k) && RowFine(s, k.row);
    var row := s.rows[k.row];
    var row' := Recorded(row, k.attempt, k.phase.outcome, s.now);
    RecordedOk(row, k.attempt, k.phase.outcome, s.now);
    RowChangeKeepsBase(s, k.row, row');
    var t := SetRow(s, k.row, row');
    if StillMine(row, k.attempt) {
      LogKeepsBase(t, w, Entry(k.row, k.attempt, row'.status.Requested?));
    } else {
      DropKeepsBase(t, w);
    }
  }

  lemma FinishCancelKeepsBase(p: Provider, s: World, step: Step)
    requires Base(s) && Enabled(p, s, step) && step.FinishCancel?
    ensures Base(Next(p, s, step))
  {
    var w := step.worker;
    var k := s.workers[w];
    assert WorkerFine(s, k) && RowFine(s, k.row);
    var row := s.rows[k.row];
    var row' := CancelFinished(row, k.attempt, k.phase.cancelInfo, k.phase.cancelError, s.now);
    CancelFinishedOk(row, k.attempt, k.phase.cancelInfo, k.phase.cancelError, s.now);
    CancelFinishedRefs(s, k, row');
    RowChangeKeepsBase(s, k.row, row');
    var t := SetRow(s, k.row, row');
    if CancelStillMine(row, k.attempt) {
      LogKeepsBase(t, w, Entry(k.row, k.attempt, row'.status.Cancelling?));
    } else {
      DropKeepsBase(t, w);
    }
  }

  lemma CancelFinishedRefs(s: World, k: Worker, row': Row)
    requires k.row in s.rows && RefsOk(s, k.row, s.rows[k.row]) && k.phase.Aborted?
    requires k.phase.cancelInfo.Some? ==> KnownDelivery(s, k.row, k.phase.cancelInfo.value.id)
    requires row' == CancelFinished(s.rows[k.row], k.attempt, k.phase.cancelInfo, k.phase.cancelError, s.now)
    ensures RefsOk(s, k.row, row')
  {
  }

  lemma FinishTrackKeepsBase(p: Provider, s: World, step: Step)
    requires Base(s) && Enabled(p, s, step) && step.FinishTrack?
    ensures Base(Next(p, s, step))
  {
    var w := step.worker;
    var k := s.workers[w];
    assert WorkerFine(s, k) && RowFine(s, k.row);
    var row := s.rows[k.row];
    TrackingOk(row, k.phase.report, s.now);
    RowChangeKeepsBase(s, k.row, Tracked(row, k.phase.report, s.now));
    DropKeepsBase(SetRow(s, k.row, Tracked(row, k.phase.report, s.now)), w);
  }

  lemma FinishedCancelRow(s: World, k: Worker)
    requires Base(s) && k.row in s.rows && WorkerFine(s, k) && k.phase.Aborted?
    ensures var row := s.rows[k.row];
      var row' := CancelFinished(row, k.attempt, k.phase.cancelInfo, k.phase.cancelError, s.now);
      && RowOk(row') && RefsOk(s, k.row, row') && Evolves(row, row') && row'.quoteId == row.quoteId
      && (row' == row || PastDispatch(row'.status))
  {
    assert RowFine(s, k.row);
    CancelFinishedOk(s.rows[k.row], k.attempt, k.phase.cancelInfo, k.phase.cancelError, s.now);
    CancelFinishedRefs(s, k, CancelFinished(s.rows[k.row], k.attempt, k.phase.cancelInfo, k.phase.cancelError, s.now));
  }

  lemma FinishedTrackRow(s: World, k: Worker)
    requires Base(s) && k.row in s.rows && WorkerFine(s, k) && k.phase.Answered?
    ensures var row := s.rows[k.row]; var row' := Tracked(row, k.phase.report, s.now);
      && RowOk(row') && RefsOk(s, k.row, row') && Evolves(row, row') && row'.quoteId == row.quoteId
      && (row' == row || PastDispatch(row'.status))
  {
    assert RowFine(s, k.row);
    TrackingOk(s.rows[k.row], k.phase.report, s.now);
  }

  lemma FinishedRow(p: Provider, s: World, step: Step)
    requires Base(s) && Enabled(p, s, step) && (step.FinishCancel? || step.FinishTrack?)
    ensures var r := s.workers[step.worker].row; var row' := Next(p, s, step).rows[r];
      && RowOk(row') && RefsOk(s, r, row') && Evolves(s.rows[r], row') && row'.quoteId == s.rows[r].quoteId
      && (row' == s.rows[r] || PastDispatch(row'.status))
  {
    var k := s.workers[step.worker];
    assert WorkerFine(s, k);
    if step.FinishCancel? {
      FinishedCancelRow(s, k);
    } else {
      FinishedTrackRow(s, k);
    }
  }

  predicate StoreStep(step: Step) {
    step.Tick? || step.Open? || step.Confirm? || step.Cancel? || step.Hint? || step.GiveUp?
  }

  predicate ClaimStep(step: Step) {
    step.Claim? || step.ClaimCancel? || step.ClaimTrack?
  }

  predicate DispatchCall(step: Step) {
    step.LookUp? || step.Send? || step.Reply? || step.Duplicate?
  }

  lemma WorkStepKeepsBase(p: Provider, s: World, step: Step)
    requires Base(s) && Enabled(p, s, step)
    requires step.Price? || step.Remember? || step.Land? || step.LandLate? || step.Fail? || step.Crash? || step.Record?
    ensures Base(Next(p, s, step))
  {
    if step.Price? {
      PriceKeepsBase(p, s, step);
    } else if step.Remember? {
      RememberKeepsBase(p, s, step);
    } else if step.Land? || step.LandLate? {
      LandKeepsBase(p, s, step);
    } else if step.Fail? {
      FailKeepsBase(p, s, step);
    } else if step.Crash? {
      CrashKeepsBase(p, s, step);
    } else {
      RecordKeepsBase(p, s, step);
    }
  }

  lemma StepKeepsBase(p: Provider, s: World, step: Step)
    requires Base(s) && Enabled(p, s, step)
    ensures Base(Next(p, s, step))
  {
    if StoreStep(step) {
      StoreStepKeepsBase(p, s, step);
    } else if ClaimStep(step) {
      ClaimStepKeepsBase(p, s, step);
    } else if DispatchCall(step) {
      DispatchCallKeepsBase(p, s, step);
    } else if step.CancelAtProvider? {
      CancelAtProviderKeepsBase(p, s, step);
    } else if step.FinishCancel? {
      FinishCancelKeepsBase(p, s, step);
    } else if step.FinishTrack? {
      FinishTrackKeepsBase(p, s, step);
    } else if step.NothingToCancel? || step.CancelFails? || step.Ask? {
      OtherCallKeepsBase(p, s, step);
    } else {
      WorkStepKeepsBase(p, s, step);
    }
  }

  lemma {:induction false} EveryRunKeepsBase(p: Provider, steps: seq<Step>)
    requires Feasible(p, START, steps)
    ensures Base(Exec(p, START, steps))
  {
    if steps == [] {
      StartBase();
    } else {
      EveryRunKeepsBase(p, steps[..|steps| - 1]);
      StepKeepsBase(p, Exec(p, START, steps[..|steps| - 1]), steps[|steps| - 1]);
    }
  }
}
