/** Sales, restocks and the consumers of sold-out events, interleaved in any way. The consumer decides
    after the sale committed, from balances no one has locked. */
module PromotionRuns {
  import opened Common
  import opened Promotions
  import opened Stock
  import opened StockBooks
  import opened StockRuns
  import opened StockSafety

  // ---------------------------------------------------------------- interleavings

  /** A consumer at work on one event: it has read the balances and will commit what it decided. */
  datatype Task = Task(event: nat, ends: bool)

  datatype Shop = Shop(
    stock: Stock,
    soldOutAt: Option<int>,
    tasks: map<nat, Task>,
    consumed: set<nat>)

  /** One transaction of the stock, or one point of a consumer: its reading, its commit, its loss. */
  datatype ShopStep =
    | Move(op: StockOp)
    | Start(task: nat, event: nat, now: int)
    | Finish(task: nat, now: int)
    | Abort(task: nat)

  /** The promotion and its variants, which stay as they are throughout. */
  datatype Offer = Offer(product: Product, variants: map<nat, Variant>)

  predicate Running(o: Offer) {
    o.product.endsOnSellout && !o.product.archived
  }

  function Counted(o: Offer): set<nat> {
    PromoVariants(o.product, o.variants)
  }

  predicate Enabled(o: Offer, w: Shop, step: ShopStep) {
    match step
    case Move(op) => Allowed(w.stock, op)
    case Start(task, event, now) =>
      && task !in w.tasks
      && event < |w.stock.events| && w.stock.events[event].SoldOut?
    case Finish(task, _) => task in w.tasks
    case Abort(task) => task in w.tasks
  }

  function ShopNext(o: Offer, w: Shop, step: ShopStep): Shop
    requires Enabled(o, w, step)
  {
    match step
    case Move(op) => w.(stock := Step(w.stock, op))
    case Start(task, event, now) =>
      var ends := Ends(o.product, w.soldOutAt.Some?, o.variants, w.stock.balances, w.stock.events[event].variant, now);
      w.(tasks := w.tasks[task := Task(event, ends)])
    case Finish(task, now) =>
      var t := w.tasks[task];
      var left := w.(tasks := w.tasks - {task});
      // The event can be consumed once: a second consumer's work is rolled back.
      if t.event in w.consumed then left
      else left.(consumed := left.consumed + {t.event}, soldOutAt := if t.ends then Some(now) else left.soldOutAt)
    case Abort(task) => w.(tasks := w.tasks - {task})
  }

  predicate ShopFeasible(o: Offer, w: Shop, steps: seq<ShopStep>)
    decreases |steps|, 0
  {
    steps == [] ||
    var last := |steps| - 1;
    ShopFeasible(o, w, steps[..last]) && Enabled(o, ShopExec(o, w, steps[..last]), steps[last])
  }

  function ShopExec(o: Offer, w: Shop, steps: seq<ShopStep>): Shop
    requires ShopFeasible(o, w, steps)
    decreases |steps|, 1
  {
    if steps == [] then w else ShopNext(o, ShopExec(o, w, steps[..|steps| - 1]), steps[|steps| - 1])
  }

  lemma OneMore(o: Offer, w: Shop, steps: seq<ShopStep>, step: ShopStep)
    requires ShopFeasible(o, w, steps) && Enabled(o, ShopExec(o, w, steps), step)
    ensures (steps + [step])[..|steps + [step]| - 1] == steps && ShopFeasible(o, w, steps + [step])
    ensures ShopExec(o, w, steps + [step]) == ShopNext(o, ShopExec(o, w, steps), step)
  {
    assert (steps + [step])[..|steps + [step]| - 1] == steps;
  }

  // ---------------------------------------------------------------- no missed sell-out

  ghost predicate InStock(o: Offer, w: Shop) {
    exists v :: v in Counted(o) && !NothingOnShelf(w.stock.balances, v)
  }

  /** A committed sold-out event of a counted variant that no consumer has finished with. */
  ghost predicate Pending(o: Offer, w: Shop, i: nat) {
    && i < |w.stock.events| && w.stock.events[i].SoldOut? && w.stock.events[i].variant in Counted(o)
    && i !in w.consumed
  }

  /** A pending event that no consumer is about to throw away on a stale reading. */
  ghost predicate Decisive(o: Offer, w: Shop, i: nat) {
    Pending(o, w, i) && forall t | t in w.tasks && w.tasks[t].event == i :: w.tasks[t].ends
  }

  ghost predicate ShopOk(w: Shop) {
    && Books(w.stock)
    && (forall t | t in w.tasks :: w.tasks[t].event < |w.stock.events|)
    && (forall i | i in w.consumed :: i < |w.stock.events|)
  }

  /** Consumers take the event on while the promotion is running. */
  predicate InTime(o: Offer, steps: seq<ShopStep>, i: nat) {
    forall step | step in steps && step.Start? && step.event == i :: PromoIsActive(o.product, step.now)
  }

  predicate AllInTime(o: Offer, steps: seq<ShopStep>) {
    forall step | step in steps && step.Start? :: PromoIsActive(o.product, step.now)
  }

  ghost predicate Watched(o: Offer, w: Shop) {
    InStock(o, w) || w.soldOutAt.Some? || exists i :: Decisive(o, w, i)
  }

  lemma StockStepsGrow(s: Stock, op: StockOp)
    requires Allowed(s, op)
    ensures s.balances.Keys <= Step(s, op).balances.Keys
    ensures s.events <= Step(s, op).events
  {
  }

  /** The operation that empties the last counted shelf leaves a fresh event behind. */
  lemma TheLastSaleIsWatched(o: Offer, w: Shop, op: StockOp, v: nat) returns (i: nat)
    requires ShopOk(w) && Allowed(w.stock, op)
    requires v in Counted(o) && Emptied(w.stock, Step(w.stock, op), v)
    ensures |w.stock.events| <= i && Decisive(o, w.(stock := Step(w.stock, op)), i)
  {
    var w' := w.(stock := Step(w.stock, op));
    SelloutsAreAnnouncedExactly(w.stock, op, v);
    i :| |w.stock.events| <= i < |w'.stock.events| && w'.stock.events[i] == SoldOut(v);
  }

  lemma DecisiveStays(o: Offer, w: Shop, op: StockOp, i: nat)
    requires Allowed(w.stock, op) && Decisive(o, w, i)
    ensures Decisive(o, w.(stock := Step(w.stock, op)), i)
  {
    StockStepsGrow(w.stock, op);
  }

  lemma MoveKeepsWatch(o: Offer, w: Shop, op: StockOp)
    requires ShopOk(w) && Watched(o, w) && Allowed(w.stock, op)
    ensures ShopOk(w.(stock := Step(w.stock, op))) && Watched(o, w.(stock := Step(w.stock, op)))
  {
    var w' := w.(stock := Step(w.stock, op));
    StepKeepsBooks(w.stock, op);
    StockStepsGrow(w.stock, op);
    if InStock(o, w) {
      var v :| v in Counted(o) && !NothingOnShelf(w.stock.balances, v);
      if NothingOnShelf(w'.stock.balances, v) {
        var i := TheLastSaleIsWatched(o, w, op, v);
      } else {
        assert InStock(o, w');
      }
    } else if w.soldOutAt.None? {
      var i: nat :| Decisive(o, w, i);
      DecisiveStays(o, w, op, i);
    }
  }

  lemma StartKeepsWatch(o: Offer, w: Shop, step: ShopStep)
    requires Running(o) && ShopOk(w) && Watched(o, w) && Enabled(o, w, step) && step.Start?
    requires PromoIsActive(o.product, step.now)
    ensures ShopOk(ShopNext(o, w, step)) && Watched(o, ShopNext(o, w, step))
  {
    var w' := ShopNext(o, w, step);
    if !InStock(o, w) && w.soldOutAt.None? {
      var i: nat :| Decisive(o, w, i);
      var v := w.stock.events[i].variant;
      assert forall u | u in Counted(o) :: NothingOnShelf(w.stock.balances, u);
      assert AllSoldOut(w.stock.balances, Counted(o));
      assert Decisive(o, w', i);
    } else if InStock(o, w) {
      var v :| v in Counted(o) && !NothingOnShelf(w.stock.balances, v);
      assert InStock(o, w');
    }
  }

  lemma EndKeepsWatch(o: Offer, w: Shop, step: ShopStep)
    requires ShopOk(w) && Watched(o, w) && Enabled(o, w, step) && (step.Finish? || step.Abort?)
    ensures ShopOk(ShopNext(o, w, step)) && Watched(o, ShopNext(o, w, step))
  {
    var w' := ShopNext(o, w, step);
    if InStock(o, w) {
      var v :| v in Counted(o) && !NothingOnShelf(w.stock.balances, v);
      assert InStock(o, w');
    } else if w'.soldOutAt.None? {
      var i: nat :| Decisive(o, w, i);
      assert Decisive(o, w', i);
    }
  }

  lemma {:induction false} EveryRunKeepsWatch(o: Offer, w: Shop, steps: seq<ShopStep>)
    requires Running(o) && ShopOk(w) && Watched(o, w) && ShopFeasible(o, w, steps) && AllInTime(o, steps)
    ensures ShopOk(ShopExec(o, w, steps)) && Watched(o, ShopExec(o, w, steps))
  {
    if steps != [] {
      var last := |steps| - 1;
      var mid := ShopExec(o, w, steps[..last]);
      EveryRunKeepsWatch(o, w, steps[..last]);
      match steps[last]
      case Move(op) => MoveKeepsWatch(o, mid, op);
      case Start(_, _, _) => StartKeepsWatch(o, mid, steps[last]);
      case _ => EndKeepsWatch(o, mid, steps[last]);
    }
  }

  // ---------------------------------------------------------------- the last consumer

  /** Nothing is put back on a shelf of `counted`, from `w` on. */
  predicate EmptyThroughout(o: Offer, w: Shop, steps: seq<ShopStep>, counted: set<nat>)
    requires ShopFeasible(o, w, steps)
  {
    && AllSoldOut(ShopExec(o, w, steps).stock.balances, counted)
    && (steps == [] || EmptyThroughout(o, w, steps[..|steps| - 1], counted))
  }

  /** Whatever sales, restocks of other variants, duplicates, losses and other consumers come in
      between: once a consumer has finished with event `i`, the promotion has ended. */
  ghost predicate WillEnd(o: Offer, w: Shop, i: nat) {
    forall steps | ShopFeasible(o, w, steps) && EmptyThroughout(o, w, steps, Counted(o)) && InTime(o, steps, i)
      && i in ShopExec(o, w, steps).consumed :: ShopExec(o, w, steps).soldOutAt.Some?
  }

  lemma {:induction false} ADecisiveEventEndsIt(o: Offer, w: Shop, i: nat, steps: seq<ShopStep>)
    requires Running(o) && Decisive(o, w, i)
    requires ShopFeasible(o, w, steps) && EmptyThroughout(o, w, steps, Counted(o)) && InTime(o, steps, i)
    ensures ShopExec(o, w, steps).soldOutAt.Some? || Decisive(o, ShopExec(o, w, steps), i)
  {
    if steps != [] {
      var last := |steps| - 1;
      ADecisiveEventEndsIt(o, w, i, steps[..last]);
      var mid := ShopExec(o, w, steps[..last]);
      assert steps[last] in steps;
      if steps[last].Move? {
        StockStepsGrow(mid.stock, steps[last].op);
      }
    }
  }

  /** A consumer that read the shelves before they were empty takes the event with it. */
  lemma AnEarlierReadingTakesTheEvent(o: Offer, w: Shop, i: nat, task: nat)
    requires task in w.tasks && w.tasks[task].event == i && !w.tasks[task].ends
    requires Pending(o, w, i) && w.soldOutAt.None? && AllSoldOut(w.stock.balances, Counted(o))
    ensures !WillEnd(o, w, i)
  {
    OneMore(o, w, [], Finish(task, 0));
    var steps := [] + [Finish(task, 0)];
    assert EmptyThroughout(o, w, steps, Counted(o)) && InTime(o, steps, i);
    assert i in ShopExec(o, w, steps).consumed && ShopExec(o, w, steps).soldOutAt.None?;
  }

  /** The last consumer ends the promotion, exactly when no consumer still at work on the event read
      the shelves before they were empty. */
  lemma TheLastConsumerEndsIt(o: Offer, w: Shop, i: nat)
    requires Running(o) && Pending(o, w, i)
    requires AllSoldOut(w.stock.balances, Counted(o)) && w.soldOutAt.None?
    ensures WillEnd(o, w, i) <==> Decisive(o, w, i)
  {
    if Decisive(o, w, i) {
      forall steps | ShopFeasible(o, w, steps) && EmptyThroughout(o, w, steps, Counted(o)) && InTime(o, steps, i)
        && i in ShopExec(o, w, steps).consumed ensures ShopExec(o, w, steps).soldOutAt.Some? {
        ADecisiveEventEndsIt(o, w, i, steps);
      }
    } else {
      var task :| task in w.tasks && w.tasks[task].event == i && !w.tasks[task].ends;
      AnEarlierReadingTakesTheEvent(o, w, i, task);
    }
  }

  /** The sale that empties the last counted shelf leaves such an event, which no one has read yet. */
  lemma TheLastSaleEndsIt(o: Offer, w: Shop, op: StockOp, v: nat) returns (i: nat)
    requires Running(o) && ShopOk(w) && Allowed(w.stock, op) && v in Counted(o)
    requires Emptied(w.stock, Step(w.stock, op), v)
    ensures |w.stock.events| <= i && Pending(o, w.(stock := Step(w.stock, op)), i)
    ensures WillEnd(o, w.(stock := Step(w.stock, op)), i)
  {
    var w' := w.(stock := Step(w.stock, op));
    i := TheLastSaleIsWatched(o, w, op, v);
    forall steps | ShopFeasible(o, w', steps) && EmptyThroughout(o, w', steps, Counted(o)) && InTime(o, steps, i)
      && i in ShopExec(o, w', steps).consumed ensures ShopExec(o, w', steps).soldOutAt.Some? {
      ADecisiveEventEndsIt(o, w', i, steps);
    }
  }

  /** If some counted variant had stock and now none has, then either the promotion has ended, or an
      event is waiting that will end it, whoever consumes it. */
  lemma NoSelloutIsMissed(o: Offer, w: Shop, steps: seq<ShopStep>)
    requires Running(o) && ShopOk(w) && InStock(o, w) && ShopFeasible(o, w, steps) && AllInTime(o, steps)
    requires AllSoldOut(ShopExec(o, w, steps).stock.balances, Counted(o))
    requires ShopExec(o, w, steps).soldOutAt.None?
    ensures exists i :: Pending(o, ShopExec(o, w, steps), i) && WillEnd(o, ShopExec(o, w, steps), i)
  {
    EveryRunKeepsWatch(o, w, steps);
    var end := ShopExec(o, w, steps);
    var i: nat :| Decisive(o, end, i);
    TheLastConsumerEndsIt(o, end, i);
    assert Pending(o, end, i) && WillEnd(o, end, i);
  }

  // ---------------------------------------------------------------- a promotion armed on empty shelves

  /** Every variant whose events make a consumer look at the promotion. */
  function Eligible(o: Offer): set<nat> {
    set v | v in o.variants && o.variants[v].price.None?
  }

  /** An event no consumer has finished with: one a consumer could still take on, or one whose consumer
      has already decided to end the promotion. */
  ghost predicate Waiting(o: Offer, w: Shop, i: nat) {
    && i < |w.stock.events| && i !in w.consumed
    && ((w.stock.events[i].SoldOut? && w.stock.events[i].variant in Eligible(o))
        || exists t :: t in w.tasks && w.tasks[t] == Task(i, true))
  }

  /** The promotion can still end without any restock. */
  ghost predicate CanEnd(o: Offer, w: Shop) {
    exists steps :: ShopFeasible(o, w, steps) && EmptyThroughout(o, w, steps, Eligible(o))
      && ShopExec(o, w, steps).soldOutAt.Some?
  }

  ghost predicate Quiet(o: Offer, w: Shop) {
    && w.soldOutAt.None? && (forall t | t in w.tasks :: w.tasks[t].event < |w.stock.events|)
    && forall i: nat :: !Waiting(o, w, i)
  }

  lemma AMoveKeepsQuiet(o: Offer, w: Shop, op: StockOp)
    requires Quiet(o, w) && Allowed(w.stock, op) && AllSoldOut(w.stock.balances, Eligible(o))
    ensures Quiet(o, w.(stock := Step(w.stock, op)))
  {
    var w' := w.(stock := Step(w.stock, op));
    StockStepsGrow(w.stock, op);
    forall i: nat ensures !Waiting(o, w', i) {
      if i < |w.stock.events| {
        assert w'.stock.events[i] == w.stock.events[i];
        assert !Waiting(o, w, i);
      } else if i < |w'.stock.events| && w'.stock.events[i].SoldOut? {
        var v := w'.stock.events[i].variant;
        assert w'.stock.events[|w.stock.events|..][i - |w.stock.events|] == SoldOut(v);
        OnlySelloutsAreAnnounced(w.stock, op, v);
      }
    }
  }

  lemma AConsumerKeepsQuiet(o: Offer, w: Shop, step: ShopStep)
    requires Quiet(o, w) && Enabled(o, w, step) && !step.Move?
    ensures Quiet(o, ShopNext(o, w, step))
  {
    var w' := ShopNext(o, w, step);
    if step.Finish? {
      assert !Waiting(o, w, w.tasks[step.task].event);
    }
    forall i: nat ensures !Waiting(o, w', i) {
      assert !Waiting(o, w, i);
      if exists t :: t in w'.tasks && w'.tasks[t] == Task(i, true) && i !in w'.consumed {
        var t :| t in w'.tasks && w'.tasks[t] == Task(i, true);
        assert t in w.tasks ==> w.tasks[t] == Task(i, true);
      }
    }
  }

  /** With nothing waiting, a promotion whose shelves stay empty never ends. */
  lemma {:induction false} QuietStaysQuiet(o: Offer, w: Shop, steps: seq<ShopStep>)
    requires Quiet(o, w) && ShopFeasible(o, w, steps) && EmptyThroughout(o, w, steps, Eligible(o))
    ensures Quiet(o, ShopExec(o, w, steps))
  {
    if steps != [] {
      var last := |steps| - 1;
      QuietStaysQuiet(o, w, steps[..last]);
      var mid := ShopExec(o, w, steps[..last]);
      if steps[last].Move? {
        assert EmptyThroughout(o, w, steps[..last], Eligible(o));
        AMoveKeepsQuiet(o, mid, steps[last].op);
      } else {
        AConsumerKeepsQuiet(o, mid, steps[last]);
      }
    }
  }

  lemma ADecisionCanBeCommitted(o: Offer, w: Shop, task: nat)
    requires task in w.tasks && w.tasks[task].ends && w.tasks[task].event !in w.consumed
    requires AllSoldOut(w.stock.balances, Eligible(o))
    ensures CanEnd(o, w)
  {
    OneMore(o, w, [], Finish(task, 0));
    var steps := [] + [Finish(task, 0)];
    var end := ShopNext(o, w, Finish(task, 0));
    assert ShopFeasible(o, w, steps) && ShopExec(o, w, steps) == end && end.stock == w.stock && end.soldOutAt.Some?;
    assert EmptyThroughout(o, w, [], Eligible(o)) && EmptyThroughout(o, w, steps, Eligible(o));
  }

  lemma AnEventCanBeTakenOn(o: Offer, w: Shop, i: nat, now: int)
    requires Running(o) && PromoIsActive(o.product, now) && Counted(o) != {}
    requires i < |w.stock.events| && i !in w.consumed && w.stock.events[i].SoldOut? && w.stock.events[i].variant in Eligible(o)
    requires AllSoldOut(w.stock.balances, Eligible(o)) && w.soldOutAt.None?
    ensures CanEnd(o, w)
  {
    var bound := AboveAll(w.tasks.Keys);
    assert bound !in w.tasks.Keys;
    OneMore(o, w, [], Start(bound, i, now));
    var begun := [] + [Start(bound, i, now)];
    assert Counted(o) <= Eligible(o) && EmptyThroughout(o, w, begun, Eligible(o));
    OneMore(o, w, begun, Finish(bound, now));
    assert EmptyThroughout(o, w, begun + [Finish(bound, now)], Eligible(o));
  }

  /** A promotion armed, or armed again, over empty shelves can end without a restock exactly if some
      event is still waiting: if the sell-out was consumed before, nothing will end it. */
  lemma OnEmptyShelvesItEndsOnlyIfSomethingWaits(o: Offer, w: Shop, now: int)
    requires Running(o) && ShopOk(w) && PromoIsActive(o.product, now) && Counted(o) != {}
    requires AllSoldOut(w.stock.balances, Eligible(o)) && w.soldOutAt.None?
    ensures CanEnd(o, w) <==> exists i: nat :: Waiting(o, w, i)
  {
    if exists i: nat :: Waiting(o, w, i) {
      var i: nat :| Waiting(o, w, i);
      if t :| t in w.tasks && w.tasks[t] == Task(i, true) {
        ADecisionCanBeCommitted(o, w, t);
      } else {
        AnEventCanBeTakenOn(o, w, i, now);
      }
    } else {
      forall steps | ShopFeasible(o, w, steps) && EmptyThroughout(o, w, steps, Eligible(o))
        ensures ShopExec(o, w, steps).soldOutAt.None? {
        QuietStaysQuiet(o, w, steps);
      }
    }
  }

  lemma OutOfTimeItIsUsedUp(o: Offer, w: Shop, i: nat, task: nat, now: int, later: int)
    requires Pending(o, w, i) && task !in w.tasks && w.soldOutAt.None? && !PromoIsActive(o.product, now)
    ensures ShopFeasible(o, w, [Start(task, i, now), Finish(task, later)])
    ensures ShopExec(o, w, [Start(task, i, now), Finish(task, later)]) == w.(consumed := w.consumed + {i})
  {
    OneMore(o, w, [], Start(task, i, now));
    OneMore(o, w, [] + [Start(task, i, now)], Finish(task, later));
    assert [] + [Start(task, i, now)] + [Finish(task, later)] == [Start(task, i, now), Finish(task, later)];
    assert w.tasks[task := Task(i, false)] - {task} == w.tasks;
  }

  /** A consumer that takes the last waiting event on before the promotion starts, or after it ended for
      now, uses it up: what could have ended the promotion before cannot do so any more. */
  lemma AnEventOutOfTimeIsTheLastChance(o: Offer, w: Shop, i: nat, task: nat, now: int, later: int, active: int)
    requires Running(o) && ShopOk(w) && Counted(o) != {} && AllSoldOut(w.stock.balances, Eligible(o)) && w.soldOutAt.None?
    requires Pending(o, w, i) && w.tasks == map[] && forall j: nat | Waiting(o, w, j) :: j == i
    requires !PromoIsActive(o.product, now) && PromoIsActive(o.product, active)
    ensures CanEnd(o, w)
    ensures ShopFeasible(o, w, [Start(task, i, now), Finish(task, later)])
    ensures !CanEnd(o, ShopExec(o, w, [Start(task, i, now), Finish(task, later)]))
  {
    OutOfTimeItIsUsedUp(o, w, i, task, now, later);
    var end := w.(consumed := w.consumed + {i});
    assert Waiting(o, w, i);
    OnEmptyShelvesItEndsOnlyIfSomethingWaits(o, w, active);
    forall j: nat ensures !Waiting(o, end, j) {
      assert j != i ==> !Waiting(o, w, j);
    }
    OnEmptyShelvesItEndsOnlyIfSomethingWaits(o, end, active);
  }

  // ---------------------------------------------------------------- no early end

  ghost predicate WasSoldOut(o: Offer, w: Shop, steps: seq<ShopStep>)
    requires ShopFeasible(o, w, steps)
  {
    exists k: nat :: k <= |steps| && ShopFeasible(o, w, steps[..k])
      && AllSoldOut(ShopExec(o, w, steps[..k]).stock.balances, Counted(o))
  }

  lemma SoldOutEarlier(o: Offer, w: Shop, steps: seq<ShopStep>)
    requires steps != [] && ShopFeasible(o, w, steps)
    requires WasSoldOut(o, w, steps[..|steps| - 1])
    ensures WasSoldOut(o, w, steps)
  {
    var rest := steps[..|steps| - 1];
    var k: nat :| k <= |rest| && ShopFeasible(o, w, rest[..k])
      && AllSoldOut(ShopExec(o, w, rest[..k]).stock.balances, Counted(o));
    assert rest[..k] == steps[..k];
  }

  /** A promotion is stamped only if at some moment of the run every counted shelf was empty. */
  lemma {:induction false} EndsOnlyWhenSoldOut(o: Offer, w: Shop, steps: seq<ShopStep>)
    requires ShopFeasible(o, w, steps)
    requires w.soldOutAt.None? && w.tasks == map[]
    ensures var end := ShopExec(o, w, steps);
      (end.soldOutAt.Some? || exists t :: t in end.tasks && end.tasks[t].ends) ==> WasSoldOut(o, w, steps)
  {
    if steps != [] {
      var last := |steps| - 1;
      EndsOnlyWhenSoldOut(o, w, steps[..last]);
      var mid, end := ShopExec(o, w, steps[..last]), ShopExec(o, w, steps);
      if WasSoldOut(o, w, steps[..last]) {
        SoldOutEarlier(o, w, steps);
      } else if end.soldOutAt.Some? || exists t :: t in end.tasks && end.tasks[t].ends {
        assert AllSoldOut(mid.stock.balances, Counted(o));
        assert ShopFeasible(o, w, steps[..last]);
      }
    }
  }
}
