/** Identity over time: a product's live variants are its matrix, no two variants ever carry the same
    combination, and a combination that comes back comes back as the variant it was. */
module VariantRuns {
  import opened Common
  import opened VariantMatrix
  import opened VariantPlan

  // ---------------------------------------------------------------- what always holds

  ghost predicate SameCombination(fold: Fold, vs: Variants, a: nat, b: nat)
    requires a in vs && b in vs
  {
    && a != b && vs[a].options != [] && vs[b].options != []
    && KeyOf(fold, vs[a].options) == KeyOf(fold, vs[b].options)
  }

  /** At most one variant, live or archived, per combination. */
  ghost predicate OnePerCombination(fold: Fold, vs: Variants) {
    forall a, b | a in vs && b in vs :: !SameCombination(fold, vs, a, b)
  }

  ghost predicate StandsAt(vs: Variants, v: nat, rows: seq<Combo>, i: nat) {
    && v in vs && vs[v].archivedAt.None? && vs[v].position == i
    && i < |rows| && vs[v].options == rows[i]
  }

  ghost predicate Taken(vs: Variants, rows: seq<Combo>, i: nat) {
    exists v :: StandsAt(vs, v, rows, i)
  }

  /** The live variants, one at each position, are the rows of the matrix. */
  ghost predicate LiveAre(vs: Variants, rows: seq<Combo>) {
    && (forall v | v in vs && vs[v].archivedAt.None? :: StandsAt(vs, v, rows, vs[v].position))
    && (forall i: nat | i < |rows| :: Taken(vs, rows, i))
    && (forall a, b | a in vs && b in vs && vs[a].archivedAt.None? && vs[b].archivedAt.None?
                      && vs[a].position == vs[b].position :: a == b)
  }

  ghost predicate Coherent(fold: Fold, p: Product) {
    && OnePerCombination(fold, p.variants)
    && LiveAre(p.variants, Matrix(p.options))
    && DistinctOptions(fold, p.options)
    && |Matrix(p.options)| <= MAX_VARIANTS
    && (p.hasVariants <==> p.options != [])
    && forall v | v in p.variants :: v < p.nextId
  }

  // ---------------------------------------------------------------- what passes the checks

  lemma {:induction false} FirstRepeatedIs(fold: Fold, options: seq<Choice>)
    ensures FirstRepeated(fold, options).None? <==> forall i | 0 <= i < |options| :: Unlike(fold, options[i].values)
  {
    if options != [] {
      FirstRepeatedIs(fold, options[1..]);
      assert forall i | 0 < i < |options| :: options[i] == options[1..][i - 1];
    }
  }

  /** Options are taken exactly when names and values differ case-insensitively and the matrix they
      make has at most a hundred rows. */
  lemma OptionsAreCheckedExactly(fold: Fold, options: seq<Choice>)
    ensures OptionsProblem(fold, options).None? <==>
      DistinctOptions(fold, options) && |Matrix(options)| <= MAX_VARIANTS
  {
    FirstRepeatedIs(fold, options);
    MatrixSize(options);
  }

  // ---------------------------------------------------------------- the plan

  ghost predicate Twice(chosen: seq<Option<nat>>, i: int, j: int)
    requires 0 <= i < |chosen| && 0 <= j < |chosen|
  {
    i != j && chosen[i].Some? && chosen[i] == chosen[j]
  }

  /** Where an entry of the plan comes from: the variant of that combination, or else the default, or,
      going back to no options, the first. */
  ghost predicate ComesFrom(fold: Fold, pool: Pool, combo: Combo, entry: Option<nat>) {
    if combo == [] then entry == if pool.default.Some? then pool.default else pool.first
    else if KeyOf(fold, combo) in pool.byKey then entry == Some(pool.byKey[KeyOf(fold, combo)])
    else entry.None? || entry == pool.default
  }

  lemma {:induction false} PlanComesFrom(fold: Fold, pool: Pool, combos: seq<Combo>)
    ensures var plan := PlanOf(fold, pool, combos);
      && (forall i | 0 <= i < |combos| :: ComesFrom(fold, pool, combos[i], plan.chosen[i]))
      && (forall v :: v in plan.used <==> Some(v) in plan.chosen)
  {
    if combos != [] {
      var last := |combos| - 1;
      PlanComesFrom(fold, pool, combos[..last]);
      var before, after := PlanOf(fold, pool, combos[..last]), PlanOf(fold, pool, combos);
      assert after.chosen == before.chosen + [after.chosen[last]];
      forall v ensures v in after.used <==> Some(v) in after.chosen {
        assert Some(v) in after.chosen <==> Some(v) in before.chosen || after.chosen[last] == Some(v);
      }
    }
  }

  /** The plan never uses a variant twice; in particular the default is absorbed at most once. */
  lemma {:induction false} PlanUsesEachOnce(fold: Fold, vs: Variants, pool: Pool, combos: seq<Combo>)
    requires PoolFine(fold, vs, pool) && KeysDiffer(fold, combos)
    requires |combos| <= 1 || forall i | 0 <= i < |combos| :: combos[i] != []
    ensures forall i, j | 0 <= i < j < |combos| :: !Twice(PlanOf(fold, pool, combos).chosen, i, j)
  {
    if |combos| > 1 {
      var last := |combos| - 1;
      PlanUsesEachOnce(fold, vs, pool, combos[..last]);
      PlanComesFrom(fold, pool, combos[..last]);
      var before, after := PlanOf(fold, pool, combos[..last]), PlanOf(fold, pool, combos);
      forall i, j | 0 <= i < j < |combos| ensures !Twice(after.chosen, i, j) {
        if j < last {
          assert !Twice(before.chosen, i, j);
        } else {
          LastIsNew(fold, vs, pool, combos, i);
        }
      }
    }
  }

  lemma EntriesDiffer(fold: Fold, vs: Variants, pool: Pool, a: Combo, entry: Option<nat>, used: set<nat>, b: Combo)
    requires PoolFine(fold, vs, pool) && a != [] && b != [] && KeyOf(fold, a) != KeyOf(fold, b)
    requires ComesFrom(fold, pool, a, entry) && entry.Some? && entry.value in used
    ensures entry != ChosenFor(fold, pool, used, b)
  {
    if KeyOf(fold, b) in pool.byKey {
      assert Finds(fold, vs, KeyOf(fold, b), pool.byKey[KeyOf(fold, b)]);
    }
    if KeyOf(fold, a) in pool.byKey {
      assert Finds(fold, vs, KeyOf(fold, a), pool.byKey[KeyOf(fold, a)]);
    }
  }

  lemma LastIsNew(fold: Fold, vs: Variants, pool: Pool, combos: seq<Combo>, i: nat)
    requires PoolFine(fold, vs, pool) && KeysDiffer(fold, combos) && i < |combos| - 1
    requires forall j | 0 <= j < |combos| :: combos[j] != []
    ensures !Twice(PlanOf(fold, pool, combos).chosen, i, |combos| - 1)
  {
    var last := |combos| - 1;
    PlanComesFrom(fold, pool, combos[..last]);
    var before := PlanOf(fold, pool, combos[..last]);
    var entry := before.chosen[i];
    assert PlanOf(fold, pool, combos).chosen == before.chosen + [ChosenFor(fold, pool, before.used, combos[last])];
    if entry.Some? {
      assert entry in before.chosen && combos[..last][i] == combos[i];
      assert Some(entry.value) in before.chosen;
      EntriesDiffer(fold, vs, pool, combos[i], entry, before.used, combos[last]);
    }
  }

  // ---------------------------------------------------------------- laying out

  ghost predicate LaidOut(vs: Variants, nextId: nat, combos: seq<Combo>, chosen: seq<Option<nat>>, laid: Laid)
    requires |combos| == |chosen| && Chosen(vs, chosen)
  {
    && |laid.ids| == |combos| && nextId <= laid.nextId
    && (forall i | 0 <= i < |combos| :: StandsAt(laid.variants, laid.ids[i], combos, i))
    && (forall i | 0 <= i < |combos| ::
          if chosen[i].Some? then laid.ids[i] == chosen[i].value else nextId <= laid.ids[i] < laid.nextId)
    && (forall v :: v in laid.variants <==> v in vs || v in laid.ids)
    && (forall v | v in vs && v !in laid.ids :: laid.variants[v] == vs[v])
    && (forall v | v in laid.variants :: v < laid.nextId)
  }

  lemma {:induction false} LayOutIs(vs: Variants, nextId: nat, combos: seq<Combo>, chosen: seq<Option<nat>>)
    requires |combos| == |chosen| && Chosen(vs, chosen) && forall v | v in vs :: v < nextId
    requires forall i, j | 0 <= i < j < |chosen| :: !Twice(chosen, i, j)
    ensures LaidOut(vs, nextId, combos, chosen, LayOut(vs, nextId, combos, chosen))
  {
    if combos != [] {
      var last := |combos| - 1;
      var c := chosen[..last];
      assert forall i, j | 0 <= i < j < |c| :: Twice(c, i, j) == Twice(chosen, i, j);
      LayOutIs(vs, nextId, combos[..last], c);
      LaidOneMore(vs, nextId, combos, chosen, LayOut(vs, nextId, combos[..last], c), LayOut(vs, nextId, combos, chosen));
    }
  }

  lemma LaidOneMore(vs: Variants, nextId: nat, combos: seq<Combo>, chosen: seq<Option<nat>>, before: Laid, laid: Laid)
    requires |combos| == |chosen| && combos != [] && Chosen(vs, chosen) && forall v | v in vs :: v < nextId
    requires forall i, j | 0 <= i < j < |chosen| :: !Twice(chosen, i, j)
    requires var last := |combos| - 1;
      && LaidOut(vs, nextId, combos[..last], chosen[..last], before)
      && (chosen[last].Some? ==> chosen[last].value in before.variants)
      && laid == LayOne(before, combos[last], last, chosen[last])
    ensures LaidOut(vs, nextId, combos, chosen, laid)
  {
    var last := |combos| - 1;
    var v := laid.ids[last];
    assert laid.ids == before.ids + [v];
    forall i | 0 <= i < last ensures before.ids[i] != v && StandsAt(before.variants, before.ids[i], combos[..last], i) {
      assert !Twice(chosen, i, last) && chosen[..last][i] == chosen[i];
      assert StandsAt(before.variants, before.ids[i], combos[..last], i);
    }
    StandingStays(combos, before, laid);
    assert forall u :: u in laid.ids <==> u in before.ids || u == v;
  }

  lemma StandingStays(combos: seq<Combo>, before: Laid, laid: Laid)
    requires combos != [] && |before.ids| == |combos| - 1 && |laid.ids| == |combos|
    requires forall i | 0 <= i < |before.ids| ::
      laid.ids[i] == before.ids[i] && StandsAt(before.variants, before.ids[i], combos[..|combos| - 1], i)
    requires forall i | 0 <= i < |before.ids| :: laid.ids[|combos| - 1] != before.ids[i]
    requires StandsAt(laid.variants, laid.ids[|combos| - 1], combos, |combos| - 1)
    requires forall u | u in before.variants && u != laid.ids[|combos| - 1] ::
      u in laid.variants && laid.variants[u] == before.variants[u]
    ensures forall i | 0 <= i < |combos| :: StandsAt(laid.variants, laid.ids[i], combos, i)
  {
    forall i | 0 <= i < |combos| - 1 ensures StandsAt(laid.variants, laid.ids[i], combos, i) {
      assert StandsAt(before.variants, before.ids[i], combos[..|combos| - 1], i);
    }
  }

  lemma {:induction false} RetireUnusedIs(vs: Variants, live: seq<nat>, used: set<nat>, now: int)
    ensures var after := RetireUnused(vs, live, used, now);
      && after.Keys == vs.Keys
      && forall v | v in vs ::
           if v in live && v !in used then after[v].archivedAt.Some? && after[v].options == vs[v].options
           else after[v] == vs[v]
  {
    if live != [] {
      RetireUnusedIs(vs, live[..|live| - 1], used, now);
      assert live == live[..|live| - 1] + [live[|live| - 1]];
    }
  }

  // ---------------------------------------------------------------- one change of options

  lemma RowsHaveOptions(options: seq<Choice>)
    ensures |Matrix(options)| <= 1 || forall i | 0 <= i < |Matrix(options)| :: Matrix(options)[i] != []
    ensures options != [] ==> forall i | 0 <= i < |Matrix(options)| :: Matrix(options)[i] != []
  {
    forall i | options != [] && 0 <= i < |Matrix(options)| ensures Matrix(options)[i] != [] {
      MatrixIsComplete(options, Matrix(options)[i]);
    }
  }

  /** What a change of options does to the variants: `ids` stand where the matrix puts them, the
      others keep their combination in the archive. */
  ghost predicate Outcome(fold: Fold, p: Product, rows: seq<Combo>, p': Product, ids: seq<nat>) {
    && |ids| == |rows|
    && (forall i | 0 <= i < |rows| :: StandsAt(p'.variants, ids[i], rows, i))
    && (forall v :: v in p'.variants <==> v in p.variants || v in ids)
    && (forall v | v in p'.variants :: v < p'.nextId && (p'.variants[v].archivedAt.None? <==> v in ids))
    && (forall v | v in p.variants && v !in ids :: p'.variants[v].options == p.variants[v].options)
    && (forall i | 0 <= i < |rows| ::
          var entry := PlanFor(fold, p.variants, rows).chosen[i];
          if entry.Some? then ids[i] == entry.value else ids[i] !in p.variants)
  }

  lemma APlanIsLaidOut(fold: Fold, vs: Variants, nextId: nat, options: seq<Choice>, chosen: seq<Option<nat>>)
    requires DistinctOptions(fold, options) && forall v | v in vs :: v < nextId
    requires chosen == PlanFor(fold, vs, Matrix(options)).chosen
    ensures LaidOut(vs, nextId, Matrix(options), chosen, LayOut(vs, nextId, Matrix(options), chosen))
  {
    PoolIsFine(fold, vs);
    MatrixRowsDiffer(fold, options);
    RowsHaveOptions(options);
    PlanUsesEachOnce(fold, vs, PoolOf(fold, vs), Matrix(options));
    LayOutIs(vs, nextId, Matrix(options), chosen);
  }

  lemma LaidStand(p: Product, rows: seq<Combo>, plan: Plan, laid: Laid, live: seq<nat>, p': Product)
    requires |plan.chosen| == |rows| && Chosen(p.variants, plan.chosen) && LaidOut(p.variants, p.nextId, rows, plan.chosen, laid)
    requires forall v | v in laid.ids :: !(v in live && v !in plan.used)
    requires p'.variants.Keys == laid.variants.Keys
    requires forall v | v in laid.variants && !(v in live && v !in plan.used) :: p'.variants[v] == laid.variants[v]
    ensures forall i | 0 <= i < |rows| :: StandsAt(p'.variants, laid.ids[i], rows, i)
    ensures forall v | v in laid.ids :: v in p'.variants && p'.variants[v].archivedAt.None?
  {
    forall i | 0 <= i < |rows| ensures StandsAt(p'.variants, laid.ids[i], rows, i) {
      assert StandsAt(laid.variants, laid.ids[i], rows, i);
    }
    forall v | v in laid.ids ensures v in p'.variants && p'.variants[v].archivedAt.None? {
      var i: nat :| i < |laid.ids| && laid.ids[i] == v;
      assert StandsAt(p'.variants, laid.ids[i], rows, i);
    }
  }

  lemma Retiring(fold: Fold, p: Product, rows: seq<Combo>, plan: Plan, laid: Laid, live: seq<nat>, p': Product, now: int)
    requires plan == PlanFor(fold, p.variants, rows)
    requires |plan.chosen| == |rows| && Chosen(p.variants, plan.chosen) && forall v | v in p.variants :: v < p.nextId
    requires LaidOut(p.variants, p.nextId, rows, plan.chosen, laid)
    requires forall v :: v in live <==> v in p.variants && p.variants[v].archivedAt.None?
    requires forall v :: v in plan.used <==> Some(v) in plan.chosen
    requires p'.variants == RetireUnused(laid.variants, live, plan.used, now) && p'.nextId == laid.nextId
    ensures Outcome(fold, p, rows, p', laid.ids)
  {
    RetireUnusedIs(laid.variants, live, plan.used, now);
    LaidIdsStay(p.variants, p.nextId, rows, plan, laid, live);
    UnlaidGo(p.variants, p.nextId, rows, plan, laid, live);
    LaidStand(p, rows, plan, laid, live, p');
  }

  lemma LaidIdsStay(vs: Variants, nextId: nat, rows: seq<Combo>, plan: Plan, laid: Laid, live: seq<nat>)
    requires |plan.chosen| == |rows| && Chosen(vs, plan.chosen)
    requires LaidOut(vs, nextId, rows, plan.chosen, laid) && forall v | v in vs :: v < nextId
    requires (forall v :: v in plan.used <==> Some(v) in plan.chosen) && forall v | v in live :: v in vs
    ensures forall v | v in laid.ids :: !(v in live && v !in plan.used)
  {
    forall v | v in laid.ids ensures !(v in live && v !in plan.used) {
      var i :| 0 <= i < |rows| && laid.ids[i] == v;
      if plan.chosen[i].Some? {
        assert plan.chosen[i] in plan.chosen;
      }
    }
  }

  lemma UnlaidGo(vs: Variants, nextId: nat, rows: seq<Combo>, plan: Plan, laid: Laid, live: seq<nat>)
    requires |plan.chosen| == |rows| && Chosen(vs, plan.chosen)
    requires LaidOut(vs, nextId, rows, plan.chosen, laid)
    requires (forall v :: v in plan.used <==> Some(v) in plan.chosen)
    ensures forall v | v in plan.used :: v in laid.ids
  {
    forall v | v in plan.used ensures v in laid.ids {
      var i: nat :| i < |plan.chosen| && plan.chosen[i] == Some(v);
      assert laid.ids[i] == v;
    }
  }

  lemma TheLiveAreListed(vs: Variants)
    ensures forall v :: v in LiveOf(vs, Listing(vs)) <==> v in vs && vs[v].archivedAt.None?
  {
    forall v ensures v in LiveOf(vs, Listing(vs)) <==> v in vs && vs[v].archivedAt.None? {
      VariantPlan.LiveAre(vs, Listing(vs), v);
    }
  }

  lemma CarriedOut(fold: Fold, p: Product, options: seq<Choice>, now: int) returns (ids: seq<nat>)
    requires DistinctOptions(fold, options) && forall v | v in p.variants :: v < p.nextId
    ensures Outcome(fold, p, Matrix(options), CarryOut(fold, p, options, now), ids)
  {
    var plan := PlanFor(fold, p.variants, Matrix(options));
    APlanIsLaidOut(fold, p.variants, p.nextId, options, plan.chosen);
    PlanComesFrom(fold, PoolOf(fold, p.variants), Matrix(options));
    TheLiveAreListed(p.variants);
    var laid := LayOut(p.variants, p.nextId, Matrix(options), plan.chosen);
    ids := laid.ids;
    Retiring(fold, p, Matrix(options), plan, laid, LiveOf(p.variants, Listing(p.variants)),
             CarryOut(fold, p, options, now), now);
  }

  /** A combination that some variant carries goes to that variant. */
  lemma TheOwnerIsChosen(fold: Fold, vs: Variants, rows: seq<Combo>, i: nat, v: nat)
    requires OnePerCombination(fold, vs) && i < |rows| && rows[i] != []
    requires v in vs && vs[v].options != [] && KeyOf(fold, vs[v].options) == KeyOf(fold, rows[i])
    ensures PlanFor(fold, vs, rows).chosen[i] == Some(v)
  {
    var pool := PoolOf(fold, vs);
    PoolIsFine(fold, vs);
    PlanComesFrom(fold, pool, rows);
    assert ComesFrom(fold, pool, rows[i], PlanOf(fold, pool, rows).chosen[i]);
    assert Finds(fold, vs, KeyOf(fold, rows[i]), pool.byKey[KeyOf(fold, rows[i])]);
    assert !SameCombination(fold, vs, v, pool.byKey[KeyOf(fold, rows[i])]);
  }

  lemma OutcomeIsOnePerCombination(fold: Fold, p: Product, rows: seq<Combo>, p': Product, ids: seq<nat>)
    requires OnePerCombination(fold, p.variants) && KeysDiffer(fold, rows) && Outcome(fold, p, rows, p', ids)
    ensures OnePerCombination(fold, p'.variants)
  {
    forall a, b | a in p'.variants && b in p'.variants ensures !SameCombination(fold, p'.variants, a, b) {
      if SameCombination(fold, p'.variants, a, b) {
        if a in ids {
          NoTwin(fold, p, rows, p', ids, a, b);
        } else if b in ids {
          NoTwin(fold, p, rows, p', ids, b, a);
        } else {
          assert SameCombination(fold, p.variants, a, b);
        }
      }
    }
  }

  lemma NoTwin(fold: Fold, p: Product, rows: seq<Combo>, p': Product, ids: seq<nat>, a: nat, b: nat)
    requires OnePerCombination(fold, p.variants) && KeysDiffer(fold, rows) && Outcome(fold, p, rows, p', ids)
    requires a in ids && b in p'.variants
    ensures !SameCombination(fold, p'.variants, a, b)
  {
    var i: nat :| i < |ids| && ids[i] == a;
    assert StandsAt(p'.variants, ids[i], rows, i);
    if b in ids {
      var j: nat :| j < |ids| && ids[j] == b;
      assert StandsAt(p'.variants, ids[j], rows, j);
      assert i != j ==> KeyOf(fold, rows[i]) != KeyOf(fold, rows[j]);
    } else if SameCombination(fold, p'.variants, a, b) {
      TheOwnerIsChosen(fold, p.variants, rows, i, b);
    }
  }

  lemma OutcomeIsLive(fold: Fold, p: Product, rows: seq<Combo>, p': Product, ids: seq<nat>)
    requires Outcome(fold, p, rows, p', ids)
    ensures LiveAre(p'.variants, rows)
  {
    forall v | v in p'.variants && p'.variants[v].archivedAt.None?
      ensures StandsAt(p'.variants, v, rows, p'.variants[v].position) && v == ids[p'.variants[v].position]
    {
      var i: nat :| i < |ids| && ids[i] == v;
      assert StandsAt(p'.variants, ids[i], rows, i);
    }
    forall i: nat | i < |rows| ensures Taken(p'.variants, rows, i) {
      assert StandsAt(p'.variants, ids[i], rows, i);
    }
  }

  lemma SetOptionsKeepsCoherent(fold: Fold, p: Product, options: seq<Choice>, now: int)
    requires Coherent(fold, p)
    ensures Coherent(fold, SetOptionsStep(fold, p, options, now))
  {
    if Answer(fold, p, options).Saved? {
      OptionsAreCheckedExactly(fold, options);
      MatrixRowsDiffer(fold, options);
      var p' := CarryOut(fold, p, options, now);
      var ids := CarriedOut(fold, p, options, now);
      OutcomeIsOnePerCombination(fold, p, Matrix(options), p', ids);
      OutcomeIsLive(fold, p, Matrix(options), p', ids);
    }
  }

  // ---------------------------------------------------------------- runs

  /** Whatever else is edited about the product leaves combinations, positions and archive alone. */
  datatype Change =
    | SetOptions(options: seq<Choice>, now: int)
    | EditVariant(variant: nat, status: VariantStatus, pausedAt: Option<int>)
    | SetStatus(productStatus: ProductStatus)

  function Apply(fold: Fold, p: Product, change: Change): Product {
    match change
    case SetOptions(options, now) => SetOptionsStep(fold, p, options, now)
    case EditVariant(v, status, pausedAt) =>
      if v !in p.variants then p
      else p.(variants := p.variants[v := p.variants[v].(status := status, pausedAt := pausedAt)])
    case SetStatus(status) => p.(status := status)
  }

  function Exec(fold: Fold, p: Product, changes: seq<Change>): Product {
    if changes == [] then p else Apply(fold, Exec(fold, p, changes[..|changes| - 1]), changes[|changes| - 1])
  }

  lemma EditKeepsCoherent(fold: Fold, p: Product, change: Change)
    requires Coherent(fold, p) && change.EditVariant?
    ensures Coherent(fold, Apply(fold, p, change))
  {
    var p' := Apply(fold, p, change);
    var rows := Matrix(p.options);
    forall a, b | a in p'.variants && b in p'.variants ensures !SameCombination(fold, p'.variants, a, b) {
      assert !SameCombination(fold, p.variants, a, b);
    }
    forall v | v in p'.variants && p'.variants[v].archivedAt.None?
      ensures StandsAt(p'.variants, v, rows, p'.variants[v].position)
    {
      assert StandsAt(p.variants, v, rows, p.variants[v].position);
    }
    forall i: nat | i < |rows| ensures Taken(p'.variants, rows, i) {
      assert Taken(p.variants, rows, i);
      var v :| StandsAt(p.variants, v, rows, i);
      assert StandsAt(p'.variants, v, rows, i);
    }
  }

  lemma NewProductIsCoherent(fold: Fold, ticket: bool)
    ensures Coherent(fold, NewProduct(ticket))
  {
    var p := NewProduct(ticket);
    assert StandsAt(p.variants, 0, Matrix(p.options), 0);
  }

  lemma {:induction false} EveryRunIsCoherent(fold: Fold, ticket: bool, changes: seq<Change>)
    ensures Coherent(fold, Exec(fold, NewProduct(ticket), changes))
  {
    if changes == [] {
      NewProductIsCoherent(fold, ticket);
    } else {
      var last := |changes| - 1;
      EveryRunIsCoherent(fold, ticket, changes[..last]);
      var p := Exec(fold, NewProduct(ticket), changes[..last]);
      match changes[last]
      case SetOptions(options, now) => SetOptionsKeepsCoherent(fold, p, options, now);
      case EditVariant(_, _, _) => EditKeepsCoherent(fold, p, changes[last]);
      case SetStatus(_) =>
    }
  }

  /** After any run, every combination of the current options has exactly one live variant, standing
      where the matrix has it. */
  lemma EveryCombinationHasItsVariant(fold: Fold, ticket: bool, changes: seq<Change>, combo: Combo) returns (v: nat)
    requires Chooses(Exec(fold, NewProduct(ticket), changes).options, combo)
    ensures var p := Exec(fold, NewProduct(ticket), changes);
      && v in p.variants && StandsAt(p.variants, v, Matrix(p.options), p.variants[v].position) && p.variants[v].options == combo
      && forall u | u in p.variants && p.variants[u].archivedAt.None? && p.variants[u].options == combo :: u == v
  {
    EveryRunIsCoherent(fold, ticket, changes);
    var p := Exec(fold, NewProduct(ticket), changes);
    MatrixIsComplete(p.options, combo);
    MatrixRowsDiffer(fold, p.options);
    var i: nat :| i < |Matrix(p.options)| && Matrix(p.options)[i] == combo;
    assert Taken(p.variants, Matrix(p.options), i);
    v :| StandsAt(p.variants, v, Matrix(p.options), i);
    forall u | u in p.variants && p.variants[u].archivedAt.None? && p.variants[u].options == combo ensures u == v {
      assert StandsAt(p.variants, u, Matrix(p.options), p.variants[u].position);
    }
  }

  /** And every live variant stands for one of them. */
  lemma EveryLiveVariantHasItsCombination(fold: Fold, ticket: bool, changes: seq<Change>, v: nat)
    requires var p := Exec(fold, NewProduct(ticket), changes); v in p.variants && p.variants[v].archivedAt.None?
    ensures var p := Exec(fold, NewProduct(ticket), changes);
      StandsAt(p.variants, v, Matrix(p.options), p.variants[v].position) && Chooses(p.options, p.variants[v].options)
  {
    EveryRunIsCoherent(fold, ticket, changes);
    var p := Exec(fold, NewProduct(ticket), changes);
    assert StandsAt(p.variants, v, Matrix(p.options), p.variants[v].position);
    MatrixIsComplete(p.options, p.variants[v].options);
  }

  /** No two variants, live or archived, ever carry the same combination. */
  lemma NoTwoVariantsAreAlike(fold: Fold, ticket: bool, changes: seq<Change>, a: nat, b: nat)
    requires var vs := Exec(fold, NewProduct(ticket), changes).variants;
      a in vs && b in vs && a != b && vs[a].options != [] && vs[b].options != []
    ensures var vs := Exec(fold, NewProduct(ticket), changes).variants;
      KeyOf(fold, vs[a].options) != KeyOf(fold, vs[b].options)
  {
    EveryRunIsCoherent(fold, ticket, changes);
    assert !SameCombination(fold, Exec(fold, NewProduct(ticket), changes).variants, a, b);
  }

  // ---------------------------------------------------------------- identity

  predicate Carries(fold: Fold, p: Product, v: nat, key: Key) {
    v in p.variants && p.variants[v].options != [] && KeyOf(fold, p.variants[v].options) == key
  }

  /** A variant chosen again is chosen for the combination it carries. */
  lemma ChosenForItsOwn(fold: Fold, p: Product, rows: seq<Combo>, i: nat, v: nat, key: Key)
    requires Carries(fold, p, v, key) && i < |rows| && rows[i] != []
    requires PlanFor(fold, p.variants, rows).chosen[i] == Some(v)
    ensures KeyOf(fold, rows[i]) == key
  {
    var pool := PoolOf(fold, p.variants);
    PoolIsFine(fold, p.variants);
    PlanComesFrom(fold, pool, rows);
    assert ComesFrom(fold, pool, rows[i], Some(v));
    if KeyOf(fold, rows[i]) in pool.byKey {
      assert Finds(fold, p.variants, KeyOf(fold, rows[i]), pool.byKey[KeyOf(fold, rows[i])]);
    }
  }

  lemma OutcomeKeepsKeys(fold: Fold, p: Product, rows: seq<Combo>, p': Product, ids: seq<nat>, v: nat, key: Key)
    requires Carries(fold, p, v, key) && Outcome(fold, p, rows, p', ids)
    requires forall i | 0 <= i < |rows| :: rows[i] != []
    ensures Carries(fold, p', v, key)
  {
    if v in ids {
      var i: nat :| i < |ids| && ids[i] == v;
      assert StandsAt(p'.variants, ids[i], rows, i);
      ChosenForItsOwn(fold, p, rows, i, v, key);
    }
  }

  lemma ChangeKeepsKeys(fold: Fold, p: Product, change: Change, v: nat, key: Key)
    requires Coherent(fold, p) && Carries(fold, p, v, key)
    requires !change.SetOptions? || change.options != []
    ensures Carries(fold, Apply(fold, p, change), v, key)
  {
    if change.SetOptions? && Answer(fold, p, change.options).Saved? {
      OptionsAreCheckedExactly(fold, change.options);
      var ids := CarriedOut(fold, p, change.options, change.now);
      RowsHaveOptions(change.options);
      OutcomeKeepsKeys(fold, p, Matrix(change.options), CarryOut(fold, p, change.options, change.now), ids, v, key);
    }
  }

  ghost predicate NeverReset(changes: seq<Change>) {
    forall i | 0 <= i < |changes| && changes[i].SetOptions? :: changes[i].options != []
  }

  /** Between returns to the empty option list, a variant keeps the combination it carries. */
  lemma {:induction false} KeysOnlyGrow(fold: Fold, p: Product, more: seq<Change>, v: nat, key: Key)
    requires Coherent(fold, p) && Carries(fold, p, v, key) && NeverReset(more)
    ensures Coherent(fold, Exec(fold, p, more)) && Carries(fold, Exec(fold, p, more), v, key)
  {
    if more != [] {
      var last := |more| - 1;
      KeysOnlyGrow(fold, p, more[..last], v, key);
      var q := Exec(fold, p, more[..last]);
      ChangeKeepsKeys(fold, q, more[last], v, key);
      match more[last]
      case SetOptions(options, now) => SetOptionsKeepsCoherent(fold, q, options, now);
      case EditVariant(_, _, _) => EditKeepsCoherent(fold, q, more[last]);
      case SetStatus(_) =>
    }
  }

  /** A combination that comes back, in whatever case or order of options, comes back as the variant
      that carried it, with its stock and its sales. */
  lemma OldOptionsReviveTheSameVariants(fold: Fold, ticket: bool, changes: seq<Change>, more: seq<Change>, v: nat, u: nat, key: Key)
    requires NeverReset(more)
    requires var p := Exec(fold, NewProduct(ticket), changes);
      Carries(fold, p, v, key) && Carries(fold, Exec(fold, p, more), u, key)
    ensures u == v
  {
    EveryRunIsCoherent(fold, ticket, changes);
    var p := Exec(fold, NewProduct(ticket), changes);
    KeysOnlyGrow(fold, p, more, v, key);
    assert !SameCombination(fold, Exec(fold, p, more).variants, u, v);
  }

  lemma {:induction false} LiveStayInOrder(vs: Variants, ids: seq<nat>)
    requires (forall v | v in ids :: v in vs) && forall i, j | 0 <= i < j < |ids| :: Before(vs, ids[i], ids[j])
    ensures forall v | v in LiveOf(vs, ids) :: v in ids
    ensures forall i, j | 0 <= i < j < |LiveOf(vs, ids)| :: Before(vs, LiveOf(vs, ids)[i], LiveOf(vs, ids)[j])
  {
    if ids != [] {
      LiveStayInOrder(vs, ids[..|ids| - 1]);
      var before := LiveOf(vs, ids[..|ids| - 1]);
      forall i | 0 <= i < |before| ensures Before(vs, before[i], ids[|ids| - 1]) {
        assert before[i] in before;
        var j: nat :| j < |ids| - 1 && ids[..|ids| - 1][j] == before[i];
      }
    }
  }

  lemma NoDefaultWithOptions(fold: Fold, p: Product)
    requires Coherent(fold, p) && p.options != []
    ensures PoolOf(fold, p.variants).default.None?
  {
    var vs := p.variants;
    PoolIsFine(fold, vs);
    RowsHaveOptions(p.options);
    forall u | u in vs && vs[u].archivedAt.None? ensures vs[u].options != [] {
      assert StandsAt(vs, u, Matrix(p.options), vs[u].position);
    }
  }

  lemma TheFirstIsBeforeAll(vs: Variants, ids: seq<nat>, v: nat)
    requires (forall u | u in ids :: u in vs) && forall i, j | 0 <= i < j < |ids| :: Before(vs, ids[i], ids[j])
    requires v in ids
    ensures ids[0] == v || Before(vs, ids[0], v)
  {
    var j: nat :| j < |ids| && ids[j] == v;
    assert ids[0] in ids;
  }

  lemma TheFirstIsAtZero(fold: Fold, p: Product, v: nat)
    requires Coherent(fold, p) && StandsAt(p.variants, v, Matrix(p.options), 0)
    ensures PoolOf(fold, p.variants).first == Some(v)
  {
    var vs := p.variants;
    var live := LiveOf(vs, Listing(vs));
    TheLiveAreListed(vs);
    LiveStayInOrder(vs, Listing(vs));
    assert v in live;
    assert live[0] in live;
    TheFirstIsBeforeAll(vs, live, v);
    assert vs[live[0]].position == 0;
  }

  /** Going back to no options forgets one combination only: the first variant's. Every other variant
      keeps its own in the archive. */
  lemma AResetForgetsOnlyTheFirst(fold: Fold, p: Product, now: int, first: nat, v: nat)
    requires Coherent(fold, p) && p.options != [] && StandsAt(p.variants, first, Matrix(p.options), 0)
    requires Answer(fold, p, []).Saved? && v in p.variants
    ensures var p' := SetOptionsStep(fold, p, [], now);
      && p'.variants.Keys == p.variants.Keys
      && p'.variants[first].options == [] && p'.variants[first].archivedAt.None?
      && (v != first ==> p'.variants[v].options == p.variants[v].options && p'.variants[v].archivedAt.Some?)
  {
    OptionsAreCheckedExactly(fold, []);
    var p' := CarryOut(fold, p, [], now);
    var ids := CarriedOut(fold, p, [], now);
    NoDefaultWithOptions(fold, p);
    TheFirstIsAtZero(fold, p, first);
    PlanComesFrom(fold, PoolOf(fold, p.variants), Matrix([]));
    assert ComesFrom(fold, PoolOf(fold, p.variants), [], PlanFor(fold, p.variants, Matrix([])).chosen[0]);
    assert ids == [first] && StandsAt(p'.variants, ids[0], Matrix([]), 0);
    assert p'.variants.Keys == p.variants.Keys;
  }
}
