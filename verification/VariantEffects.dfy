/** What a change of options is accepted for, and what becomes of each variant, told on the product's
    fields. */
module VariantEffects {
  import opened Common
  import opened VariantMatrix
  import opened VariantPlan
  import opened VariantRuns

  // ---------------------------------------------------------------- when it is accepted

  /** The options name something twice, or are too many. */
  predicate Acceptable(fold: Fold, options: seq<Choice>) {
    DistinctOptions(fold, options) && |Matrix(options)| <= 100
  }

  /** The first thing wrong with the options. */
  ghost predicate WrongWith(fold: Fold, options: seq<Choice>, problem: Problem) {
    match problem
    case SameNames => !Unlike(fold, NamesOf(options))
    case RepeatedValues(name) =>
      && Unlike(fold, NamesOf(options))
      && exists i :: 0 <= i < |options| && options[i].name == name && !Unlike(fold, options[i].values)
                     && forall j | 0 <= j < i :: Unlike(fold, options[j].values)
    case TooMany(n) => DistinctOptions(fold, options) && n == |Matrix(options)| > 100
    case _ => false
  }

  predicate IsLive(p: Product, v: nat) {
    v in p.variants && p.variants[v].archivedAt.None?
  }

  predicate OffSale(p: Product, v: nat) {
    v in p.variants && p.variants[v].status.Inactive?
  }

  /** The row would go to a variant that is not archived and not for sale. */
  ghost predicate GoesToOffSale(fold: Fold, p: Product, row: Combo) {
    exists v: nat :: IsLive(p, v) && OffSale(p, v) && Carries(fold, p, v, KeyOf(fold, row))
  }

  ghost predicate HasCarrier(fold: Fold, p: Product, row: Combo) {
    exists v :: Carries(fold, p, v, KeyOf(fold, row))
  }

  ghost predicate AllCarried(fold: Fold, p: Product, rows: seq<Combo>, n: nat)
    requires n <= |rows|
  {
    forall i | 0 <= i < n :: HasCarrier(fold, p, rows[i])
  }

  predicate NoneOffSale(p: Product) {
    forall v | v in p.variants && IsLive(p, v) :: !OffSale(p, v)
  }

  predicate TheFirstSells(p: Product) {
    forall v | v in p.variants && IsLive(p, v) && p.variants[v].position == 0 :: !OffSale(p, v)
  }

  /** A new or revived variant is for sale, a live one is if its status says so. Going back to no options
      keeps the first variant; the first options are given to the only variant there is, unless an
      archived one had them. */
  ghost predicate LeavesOneForSale(fold: Fold, p: Product, options: seq<Choice>) {
    var rows := Matrix(options);
    if options == [] then TheFirstSells(p)
    else if p.options == [] then 1 < |rows| || (|rows| == 1 && (HasCarrier(fold, p, rows[0]) || NoneOffSale(p)))
    else exists i :: 0 <= i < |rows| && !GoesToOffSale(fold, p, rows[i])
  }

  /** The reply, from the product as it is and the options asked for. */
  ghost predicate Answers(fold: Fold, p: Product, options: seq<Choice>, reply: Reply) {
    match reply
    case Saved =>
      && !p.status.Archived? && !p.ticket && Acceptable(fold, options) && options != p.options
      && (p.status.OnSale? || p.status.OnHold? ==> LeavesOneForSale(fold, p, options))
    case Unchanged => !p.status.Archived? && !p.ticket && Acceptable(fold, options) && options == p.options
    case Refused(ArchivedProduct) => p.status.Archived?
    case Refused(UsesLots) => !p.status.Archived? && p.ticket
    case Refused(NeedsLiveVariant) =>
      && !p.status.Archived? && !p.ticket && Acceptable(fold, options) && options != p.options
      && (p.status.OnSale? || p.status.OnHold?) && !LeavesOneForSale(fold, p, options)
    case Refused(problem) => !p.status.Archived? && !p.ticket && WrongWith(fold, options, problem)
  }

  // ---------------------------------------------------------------- what becomes of a variant

  /** Revived variants are for sale; those that stay keep status and pause; new ones are for sale; those
      no longer wanted are archived now, off sale and without a pause; those archived before stay. */
  predicate Becomes(vs: Variants, v: nat, after: Variant, now: int) {
    && (v !in vs ==> after.archivedAt.None? && after.status.Active? && after.pausedAt.None?)
    && (v in vs && vs[v].archivedAt.Some? && after.archivedAt.None? ==>
          after.status.Active? && after.pausedAt == vs[v].pausedAt)
    && (v in vs && vs[v].archivedAt.None? && after.archivedAt.None? ==>
          after.status == vs[v].status && after.pausedAt == vs[v].pausedAt)
    && (v in vs && vs[v].archivedAt.None? && after.archivedAt.Some? ==>
          && after.archivedAt == Some(now) && after.status.Inactive? && after.pausedAt.None?
          && after.options == vs[v].options && after.position == vs[v].position)
    && (v in vs && vs[v].archivedAt.Some? && after.archivedAt.Some? ==> after == vs[v])
  }

  /** Which variant may stand for row `i`: the one that carries it, live or archived. Without such a one
      the only variant of a product that had no options takes the first row there is, and going back to no
      options the first variant stays; every other row gets a new variant. */
  ghost predicate Fills(fold: Fold, p: Product, rows: seq<Combo>, i: nat, v: nat)
    requires i < |rows|
  {
    if rows[i] == [] then if exists u :: IsLive(p, u) then IsLive(p, v) && p.variants[v].position == 0 else v !in p.variants
    else if HasCarrier(fold, p, rows[i]) then Carries(fold, p, v, KeyOf(fold, rows[i]))
    else if p.options == [] && AllCarried(fold, p, rows, i) then IsLive(p, v)
    else v !in p.variants
  }

  /** The row has its variant at its place. */
  ghost predicate Filled(fold: Fold, p: Product, p': Product, rows: seq<Combo>, i: nat) {
    i < |rows| && exists v :: StandsAt(p'.variants, v, rows, i) && Fills(fold, p, rows, i, v)
  }

  /** The options are taken over, every row of their matrix is filled, and every variant becomes what it
      should; no variant is live but those that stand for a row. */
  ghost predicate OptionsTaken(fold: Fold, p: Product, p': Product, options: seq<Choice>, now: int) {
    && p'.status == p.status && p'.ticket == p.ticket
    && p'.options == options && (p'.hasVariants <==> options != [])
    && p.variants.Keys <= p'.variants.Keys
    && (forall i: nat | i < |Matrix(options)| :: Filled(fold, p, p', Matrix(options), i))
    && (forall v | IsLive(p', v) :: StandsAt(p'.variants, v, Matrix(options), p'.variants[v].position))
    && forall v | v in p'.variants :: Becomes(p.variants, v, p'.variants[v], now)
  }

  // ---------------------------------------------------------------- the reply

  lemma {:induction false} TheFirstRepeated(fold: Fold, options: seq<Choice>)
    ensures FirstRepeated(fold, options).Some? ==>
      exists i :: 0 <= i < |options| && options[i].name == FirstRepeated(fold, options).value
                  && !Unlike(fold, options[i].values) && forall j | 0 <= j < i :: Unlike(fold, options[j].values)
  {
    if options != [] && Unlike(fold, options[0].values) {
      var rest := options[1..];
      TheFirstRepeated(fold, rest);
      assert forall j | 0 < j < |options| :: options[j] == rest[j - 1];
      if FirstRepeated(fold, rest).Some? {
        var i :| 0 <= i < |rest| && rest[i].name == FirstRepeated(fold, rest).value
                 && !Unlike(fold, rest[i].values) && forall j | 0 <= j < i :: Unlike(fold, rest[j].values);
        assert options[i + 1] == rest[i];
      }
    }
  }

  lemma ProblemsAreNamed(fold: Fold, options: seq<Choice>)
    ensures match OptionsProblem(fold, options)
      case None => Acceptable(fold, options)
      case Some(problem) => !Acceptable(fold, options) && WrongWith(fold, options, problem)
  {
    OptionsAreCheckedExactly(fold, options);
    FirstRepeatedIs(fold, options);
    TheFirstRepeated(fold, options);
    MatrixSize(options);
  }

  /** An entry of the plan that leaves something for sale. */
  predicate EntrySells(vs: Variants, entry: Option<nat>)
    requires entry.Some? ==> entry.value in vs
  {
    entry.None? || vs[entry.value].archivedAt.Some? || !vs[entry.value].status.Inactive?
  }

  lemma KeepsOneMeansAnEntrySells(vs: Variants, chosen: seq<Option<nat>>)
    requires Chosen(vs, chosen)
    ensures KeepsOneForSale(vs, chosen) <==> exists i :: 0 <= i < |chosen| && EntrySells(vs, chosen[i])
  {
    forall i | 0 <= i < |chosen|
      ensures EntrySells(vs, chosen[i]) <==>
        chosen[i].None? || vs[chosen[i].value].archivedAt.Some? || ForSale(vs[chosen[i].value].status)
    {
    }
  }

  lemma GoingBackTakesTheFirst(fold: Fold, p: Product)
    requires Coherent(fold, p) && p.options != []
    ensures PlanFor(fold, p.variants, Matrix([])).chosen == [PoolOf(fold, p.variants).first]
  {
    var pool := PoolOf(fold, p.variants);
    NoDefaultWithOptions(fold, p);
    PlanComesFrom(fold, pool, Matrix([]));
    assert ComesFrom(fold, pool, [], PlanFor(fold, p.variants, Matrix([])).chosen[0]);
  }

  lemma AtZeroDecides(fold: Fold, p: Product, v: nat)
    requires Coherent(fold, p) && StandsAt(p.variants, v, Matrix(p.options), 0)
    ensures TheFirstSells(p) <==> !OffSale(p, v)
  {
    assert forall u | u in p.variants && IsLive(p, u) && p.variants[u].position == 0 :: u == v;
  }

  lemma TheFirstDecides(fold: Fold, p: Product, first: Option<nat>)
    requires Coherent(fold, p) && first == PoolOf(fold, p.variants).first
    ensures first.Some? ==> first.value in p.variants
    ensures EntrySells(p.variants, first) <==> TheFirstSells(p)
  {
    var rows := Matrix(p.options);
    PoolIsFine(fold, p.variants);
    if rows == [] {
      assert forall v | v in p.variants && IsLive(p, v) :: StandsAt(p.variants, v, rows, p.variants[v].position);
    } else {
      assert Taken(p.variants, rows, 0);
      var v :| StandsAt(p.variants, v, rows, 0);
      TheFirstIsAtZero(fold, p, v);
      AtZeroDecides(fold, p, v);
    }
  }

  lemma BackToNone(fold: Fold, p: Product)
    requires Coherent(fold, p) && p.options != []
    ensures KeepsOneForSale(p.variants, PlanFor(fold, p.variants, Matrix([])).chosen) <==> LeavesOneForSale(fold, p, [])
  {
    var chosen := PlanFor(fold, p.variants, Matrix([])).chosen;
    GoingBackTakesTheFirst(fold, p);
    TheFirstDecides(fold, p, chosen[0]);
    KeepsOneMeansAnEntrySells(p.variants, chosen);
  }

  lemma TheOnlyVariant(fold: Fold, p: Product) returns (d: nat)
    requires Coherent(fold, p) && p.options == []
    ensures IsLive(p, d) && PoolOf(fold, p.variants).default == Some(d)
    ensures forall v: nat | IsLive(p, v) :: v == d
  {
    var vs := p.variants;
    assert Taken(vs, Matrix(p.options), 0);
    d :| StandsAt(vs, d, Matrix(p.options), 0);
    forall v: nat | IsLive(p, v) ensures v == d {
      assert StandsAt(vs, v, Matrix(p.options), vs[v].position);
    }
    PoolIsFine(fold, vs);
  }

  /** Where a row of new options goes when the product had none. */
  lemma FirstOptionsGoTo(fold: Fold, p: Product, rows: seq<Combo>, d: nat, i: nat)
    requires Coherent(fold, p) && p.options == [] && i < |rows| && rows[i] != []
    requires IsLive(p, d) && PoolOf(fold, p.variants).default == Some(d) && forall v: nat | IsLive(p, v) :: v == d
    ensures var entry := PlanFor(fold, p.variants, rows).chosen[i];
      if HasCarrier(fold, p, rows[i]) then EntrySells(p.variants, entry)
      else entry.None? || entry == Some(d)
  {
    var vs, pool := p.variants, PoolOf(fold, p.variants);
    PoolIsFine(fold, vs);
    PlanComesFrom(fold, pool, rows);
    assert ComesFrom(fold, pool, rows[i], PlanFor(fold, vs, rows).chosen[i]);
    var key := KeyOf(fold, rows[i]);
    if key in pool.byKey {
      var v := pool.byKey[key];
      assert Finds(fold, vs, key, v) && Carries(fold, p, v, key);
      OnlyOptionlessAreLive(fold, p, v);
    }
    assert forall v: nat | Carries(fold, p, v, key) :: KeyOf(fold, vs[v].options) in pool.byKey;
  }

  lemma OnlyOptionlessAreLive(fold: Fold, p: Product, v: nat)
    requires Coherent(fold, p) && p.options == [] && v in p.variants && p.variants[v].options != []
    ensures p.variants[v].archivedAt.Some?
  {
    assert IsLive(p, v) ==> StandsAt(p.variants, v, Matrix(p.options), p.variants[v].position);
  }

  lemma FirstOptions(fold: Fold, p: Product, options: seq<Choice>)
    requires Coherent(fold, p) && p.options == [] && options != [] && DistinctOptions(fold, options)
    ensures KeepsOneForSale(p.variants, PlanFor(fold, p.variants, Matrix(options)).chosen) <==> LeavesOneForSale(fold, p, options)
  {
    var chosen := PlanFor(fold, p.variants, Matrix(options)).chosen;
    RowsHaveOptions(options);
    KeepsOneMeansAnEntrySells(p.variants, chosen);
    if |Matrix(options)| == 1 {
      TheRowSells(fold, p, Matrix(options));
    } else if 1 < |Matrix(options)| {
      MatrixRowsDiffer(fold, options);
      OneOfTwoSells(fold, p, Matrix(options));
    }
  }

  lemma TheRowSells(fold: Fold, p: Product, rows: seq<Combo>)
    requires Coherent(fold, p) && p.options == [] && |rows| == 1 && rows[0] != []
    ensures EntrySells(p.variants, PlanFor(fold, p.variants, rows).chosen[0]) <==>
      HasCarrier(fold, p, rows[0]) || NoneOffSale(p)
  {
    var d := TheOnlyVariant(fold, p);
    assert NoneOffSale(p) <==> !OffSale(p, d);
    FirstOptionsGoTo(fold, p, rows, d, 0);
    SingleRowGoesTo(fold, p, rows, d);
  }

  /** The default is given to one row at most; a row that does not get it gets a new variant. */
  lemma OneOfTwoSells(fold: Fold, p: Product, rows: seq<Combo>)
    requires Coherent(fold, p) && p.options == [] && 1 < |rows| && KeysDiffer(fold, rows)
    requires forall i | 0 <= i < |rows| :: rows[i] != []
    ensures var chosen := PlanFor(fold, p.variants, rows).chosen;
      EntrySells(p.variants, chosen[0]) || EntrySells(p.variants, chosen[1])
  {
    var d := TheOnlyVariant(fold, p);
    FirstOptionsGoTo(fold, p, rows, d, 0);
    FirstOptionsGoTo(fold, p, rows, d, 1);
    PoolIsFine(fold, p.variants);
    PlanUsesEachOnce(fold, p.variants, PoolOf(fold, p.variants), rows);
    assert !Twice(PlanFor(fold, p.variants, rows).chosen, 0, 1);
  }

  lemma SingleRowGoesTo(fold: Fold, p: Product, rows: seq<Combo>, d: nat)
    requires Coherent(fold, p) && |rows| == 1 && rows[0] != [] && PoolOf(fold, p.variants).default == Some(d)
    ensures !HasCarrier(fold, p, rows[0]) ==> PlanFor(fold, p.variants, rows).chosen[0] == Some(d)
  {
    var pool := PoolOf(fold, p.variants);
    PoolIsFine(fold, p.variants);
    if !HasCarrier(fold, p, rows[0]) {
      var key := KeyOf(fold, rows[0]);
      assert key in pool.byKey ==> Finds(fold, p.variants, key, pool.byKey[key]) && Carries(fold, p, pool.byKey[key], key);
      assert PlanOf(fold, pool, rows[..0]) == Plan([], {});
      assert PlanOf(fold, pool, rows).chosen == [ChosenFor(fold, pool, {}, rows[0])];
    }
  }

  /** Where a row goes when the product has options already: to the variant that carries it, or to a new one. */
  lemma OtherOptionsGoTo(fold: Fold, p: Product, rows: seq<Combo>, i: nat)
    requires Coherent(fold, p) && p.options != [] && i < |rows| && rows[i] != []
    ensures EntrySells(p.variants, PlanFor(fold, p.variants, rows).chosen[i]) <==> !GoesToOffSale(fold, p, rows[i])
  {
    var vs, pool, key := p.variants, PoolOf(fold, p.variants), KeyOf(fold, rows[i]);
    var entry := PlanFor(fold, vs, rows).chosen[i];
    NoDefaultWithOptions(fold, p);
    if exists v: nat :: Carries(fold, p, v, key) {
      var v :| Carries(fold, p, v, key);
      TheOwnerIsChosen(fold, vs, rows, i, v);
      forall u | Carries(fold, p, u, key) ensures u == v {
        assert !SameCombination(fold, vs, u, v);
      }
    } else {
      PoolIsFine(fold, vs);
      PlanComesFrom(fold, pool, rows);
      assert ComesFrom(fold, pool, rows[i], entry);
      assert key in pool.byKey ==> Finds(fold, vs, key, pool.byKey[key]) && Carries(fold, p, pool.byKey[key], key);
    }
  }

  lemma OtherOptions(fold: Fold, p: Product, options: seq<Choice>)
    requires Coherent(fold, p) && p.options != [] && options != []
    ensures KeepsOneForSale(p.variants, PlanFor(fold, p.variants, Matrix(options)).chosen) <==> LeavesOneForSale(fold, p, options)
  {
    var rows := Matrix(options);
    var chosen := PlanFor(fold, p.variants, rows).chosen;
    RowsHaveOptions(options);
    KeepsOneMeansAnEntrySells(p.variants, chosen);
    forall i: nat | i < |rows| ensures EntrySells(p.variants, chosen[i]) <==> !GoesToOffSale(fold, p, rows[i]) {
      OtherOptionsGoTo(fold, p, rows, i);
    }
  }

  /** A call is saved, changes nothing or is refused for one reason exactly when product status, options
      and the statuses of the variants say so. */
  lemma OptionsAreSavedExactly(fold: Fold, p: Product, options: seq<Choice>)
    requires Coherent(fold, p)
    ensures Answers(fold, p, options, Answer(fold, p, options))
  {
    ProblemsAreNamed(fold, options);
    if Acceptable(fold, options) && options != p.options {
      if options == [] {
        BackToNone(fold, p);
      } else if p.options == [] {
        FirstOptions(fold, p, options);
      } else {
        OtherOptions(fold, p, options);
      }
    }
  }

  // ---------------------------------------------------------------- the variants

  ghost predicate LaidAs(vs: Variants, nextId: nat, chosen: seq<Option<nat>>, laid: Laid) {
    && nextId <= laid.nextId && (forall v | v in laid.variants :: v < laid.nextId)
    && forall v | v in laid.variants ::
         if v !in vs || Some(v) in chosen then laid.variants[v].archivedAt.None? && Becomes(vs, v, laid.variants[v], 0)
         else laid.variants[v] == vs[v]
  }

  lemma OneMoreIsLaid(vs: Variants, nextId: nat, chosen: seq<Option<nat>>, before: Laid, combo: Combo, position: nat)
    requires chosen != [] && LaidAs(vs, nextId, chosen[..|chosen| - 1], before)
    requires vs.Keys <= before.variants.Keys && forall v | v in vs :: v < nextId
    requires chosen[|chosen| - 1].Some? ==> chosen[|chosen| - 1].value in vs
    ensures LaidAs(vs, nextId, chosen, LayOne(before, combo, position, chosen[|chosen| - 1]))
  {
    var last := |chosen| - 1;
    assert forall v :: Some(v) in chosen <==> Some(v) in chosen[..last] || chosen[last] == Some(v) by {
      assert chosen == chosen[..last] + [chosen[last]];
    }
  }

  lemma {:induction false} LayingOutKeeps(vs: Variants, nextId: nat, combos: seq<Combo>, chosen: seq<Option<nat>>)
    requires |combos| == |chosen| && Chosen(vs, chosen) && forall v | v in vs :: v < nextId
    ensures LaidAs(vs, nextId, chosen, LayOut(vs, nextId, combos, chosen))
  {
    if combos != [] {
      var last := |combos| - 1;
      LayingOutKeeps(vs, nextId, combos[..last], chosen[..last]);
      OneMoreIsLaid(vs, nextId, chosen, LayOut(vs, nextId, combos[..last], chosen[..last]), combos[last], last);
    }
  }

  lemma {:induction false} RetiringWrites(vs: Variants, live: seq<nat>, used: set<nat>, now: int)
    ensures var after := RetireUnused(vs, live, used, now);
      && after.Keys == vs.Keys
      && forall v | v in vs ::
           if v in live && v !in used
           then after[v] == Variant(vs[v].options, vs[v].position, Inactive, Some(now), None)
           else after[v] == vs[v]
  {
    if live != [] {
      RetiringWrites(vs, live[..|live| - 1], used, now);
      assert live == live[..|live| - 1] + [live[|live| - 1]];
    }
  }

  lemma OneVariantBecomes(vs: Variants, v: nat, chosen: bool, laid: Variant, after: Variant, now: int)
    requires if v !in vs || chosen then laid.archivedAt.None? && Becomes(vs, v, laid, 0) else laid == vs[v]
    requires if v in vs && vs[v].archivedAt.None? && !chosen
             then after == Variant(laid.options, laid.position, Inactive, Some(now), None)
             else after == laid
    ensures Becomes(vs, v, after, now)
  {
  }

  // ---------------------------------------------------------------- the rows

  /** The default goes to the first row that no variant carries, and to no other. */
  ghost predicate DefaultTakenOnce(fold: Fold, p: Product, rows: seq<Combo>, plan: Plan, d: nat) {
    && |plan.chosen| == |rows| && (d in plan.used <==> !AllCarried(fold, p, rows, |rows|))
    && forall i | 0 <= i < |rows| && !HasCarrier(fold, p, rows[i]) ::
         plan.chosen[i] == if AllCarried(fold, p, rows, i) then Some(d) else None
  }

  lemma OneMoreRow(fold: Fold, p: Product, rows: seq<Combo>, before: Plan, entry: Option<nat>, d: nat)
    requires rows != [] && DefaultTakenOnce(fold, p, rows[..|rows| - 1], before, d)
    requires HasCarrier(fold, p, rows[|rows| - 1]) ==> entry != Some(d)
    requires !HasCarrier(fold, p, rows[|rows| - 1]) ==> entry == if d in before.used then None else Some(d)
    ensures DefaultTakenOnce(fold, p, rows,
                             Plan(before.chosen + [entry], if entry.Some? then before.used + {entry.value} else before.used), d)
  {
    var last := |rows| - 1;
    var front := rows[..last];
    assert forall i | 0 <= i < last :: front[i] == rows[i];
    assert forall i: nat | i <= last :: AllCarried(fold, p, rows, i) <==> AllCarried(fold, p, front, i);
    forall i | 0 <= i < |rows| && !HasCarrier(fold, p, rows[i])
      ensures (before.chosen + [entry])[i] == if AllCarried(fold, p, rows, i) then Some(d) else None
    {
      assert i < last ==> !HasCarrier(fold, p, front[i]);
    }
    assert AllCarried(fold, p, rows, |rows|) <==> AllCarried(fold, p, rows, last) && HasCarrier(fold, p, rows[last]);
  }

  lemma {:induction false} TheDefaultIsTakenOnce(fold: Fold, p: Product, pool: Pool, rows: seq<Combo>, d: nat)
    requires pool == PoolOf(fold, p.variants) && pool.default == Some(d) && forall i | 0 <= i < |rows| :: rows[i] != []
    ensures DefaultTakenOnce(fold, p, rows, PlanOf(fold, pool, rows), d)
  {
    if rows != [] {
      var last := |rows| - 1;
      TheDefaultIsTakenOnce(fold, p, pool, rows[..last], d);
      KeysFindCarriers(fold, p, pool, rows[last], d);
      var before := PlanOf(fold, pool, rows[..last]);
      OneMoreRow(fold, p, rows, before, ChosenFor(fold, pool, before.used, rows[last]), d);
    }
  }

  /** The pool finds a variant for a row exactly when one carries it, and never the default. */
  lemma KeysFindCarriers(fold: Fold, p: Product, pool: Pool, row: Combo, d: nat)
    requires pool == PoolOf(fold, p.variants) && pool.default == Some(d) && row != []
    ensures KeyOf(fold, row) in pool.byKey <==> HasCarrier(fold, p, row)
    ensures KeyOf(fold, row) in pool.byKey ==> pool.byKey[KeyOf(fold, row)] != d
  {
    PoolIsFine(fold, p.variants);
    var key := KeyOf(fold, row);
    assert key in pool.byKey ==> Finds(fold, p.variants, key, pool.byKey[key]) && Carries(fold, p, pool.byKey[key], key);
    assert forall v: nat | Carries(fold, p, v, key) :: KeyOf(fold, p.variants[v].options) in pool.byKey;
  }

  lemma CarriersFill(fold: Fold, p: Product, rows: seq<Combo>, i: nat)
    requires Coherent(fold, p) && i < |rows| && rows[i] != [] && HasCarrier(fold, p, rows[i])
    ensures var entry := PlanFor(fold, p.variants, rows).chosen[i];
      entry.Some? && Carries(fold, p, entry.value, KeyOf(fold, rows[i]))
  {
    var v :| Carries(fold, p, v, KeyOf(fold, rows[i]));
    TheOwnerIsChosen(fold, p.variants, rows, i, v);
  }

  lemma OthersAreNew(fold: Fold, p: Product, rows: seq<Combo>, i: nat)
    requires Coherent(fold, p) && p.options != [] && i < |rows| && rows[i] != [] && !HasCarrier(fold, p, rows[i])
    ensures PlanFor(fold, p.variants, rows).chosen[i].None?
  {
    var pool := PoolOf(fold, p.variants);
    NoDefaultWithOptions(fold, p);
    PoolIsFine(fold, p.variants);
    PlanComesFrom(fold, pool, rows);
    assert ComesFrom(fold, pool, rows[i], PlanFor(fold, p.variants, rows).chosen[i]);
    var key := KeyOf(fold, rows[i]);
    assert key in pool.byKey ==> Finds(fold, p.variants, key, pool.byKey[key]) && Carries(fold, p, pool.byKey[key], key);
  }

  /** Each entry of the plan is what may stand for its row; an empty one stands for a new variant. */
  lemma EntriesFill(fold: Fold, p: Product, options: seq<Choice>, i: nat, v: nat)
    requires Coherent(fold, p) && options != p.options && i < |Matrix(options)|
    requires var entry := PlanFor(fold, p.variants, Matrix(options)).chosen[i];
      if entry.Some? then v == entry.value else v !in p.variants
    ensures Fills(fold, p, Matrix(options), i, v)
  {
    var rows := Matrix(options);
    RowsHaveOptions(options);
    if options == [] {
      GoingBackFills(fold, p, v);
    } else if HasCarrier(fold, p, rows[i]) {
      CarriersFill(fold, p, rows, i);
    } else if p.options == [] {
      var d := TheOnlyVariant(fold, p);
      TheDefaultIsTakenOnce(fold, p, PoolOf(fold, p.variants), rows, d);
    } else {
      OthersAreNew(fold, p, rows, i);
    }
  }

  lemma GoingBackFills(fold: Fold, p: Product, v: nat)
    requires Coherent(fold, p) && p.options != []
    requires var entry := PlanFor(fold, p.variants, Matrix([])).chosen[0];
      if entry.Some? then v == entry.value else v !in p.variants
    ensures Fills(fold, p, Matrix([]), 0, v)
  {
    var rows := Matrix(p.options);
    GoingBackTakesTheFirst(fold, p);
    PoolIsFine(fold, p.variants);
    assert forall u: nat | IsLive(p, u) :: StandsAt(p.variants, u, rows, p.variants[u].position);
    if rows != [] {
      assert Taken(p.variants, rows, 0);
      var u :| StandsAt(p.variants, u, rows, 0);
      TheFirstIsAtZero(fold, p, u);
      assert IsLive(p, u);
    }
  }

  lemma RowsAreFilled(fold: Fold, p: Product, options: seq<Choice>, now: int)
    requires Coherent(fold, p) && Answer(fold, p, options).Saved?
    ensures var p' := SetOptionsStep(fold, p, options, now);
      && (forall i: nat | i < |Matrix(options)| :: Filled(fold, p, p', Matrix(options), i))
      && forall v | IsLive(p', v) :: StandsAt(p'.variants, v, Matrix(options), p'.variants[v].position)
  {
    var rows, p' := Matrix(options), CarryOut(fold, p, options, now);
    OptionsAreCheckedExactly(fold, options);
    var ids := CarriedOut(fold, p, options, now);
    OutcomeIsLive(fold, p, rows, p', ids);
    forall i: nat | i < |rows| ensures Filled(fold, p, p', rows, i) {
      EntriesFill(fold, p, options, i, ids[i]);
      assert StandsAt(p'.variants, ids[i], rows, i);
    }
  }

  /** When options are saved, every row gets its variant, and every variant becomes what its past and the
      new options make of it. */
  lemma SavingTakesOptions(fold: Fold, p: Product, options: seq<Choice>, now: int)
    requires Coherent(fold, p) && Answer(fold, p, options).Saved?
    ensures OptionsTaken(fold, p, SetOptionsStep(fold, p, options, now), options, now)
  {
    RowsAreFilled(fold, p, options, now);
    VariantsBecome(fold, p, options, now);
  }

  lemma VariantsBecome(fold: Fold, p: Product, options: seq<Choice>, now: int)
    requires Coherent(fold, p) && Answer(fold, p, options).Saved?
    ensures var p' := SetOptionsStep(fold, p, options, now);
      p.variants.Keys <= p'.variants.Keys && forall v | v in p'.variants :: Becomes(p.variants, v, p'.variants[v], now)
  {
    var rows, live := Matrix(options), LiveOf(p.variants, Listing(p.variants));
    var plan := PlanFor(fold, p.variants, rows);
    var laid := LayOut(p.variants, p.nextId, rows, plan.chosen);
    var p' := SetOptionsStep(fold, p, options, now);
    LayingOutKeeps(p.variants, p.nextId, rows, plan.chosen);
    RetiringWrites(laid.variants, live, plan.used, now);
    PlanComesFrom(fold, PoolOf(fold, p.variants), rows);
    TheLiveAreListed(p.variants);
    forall v | v in p'.variants ensures Becomes(p.variants, v, p'.variants[v], now) {
      OneVariantBecomes(p.variants, v, Some(v) in plan.chosen, laid.variants[v], p'.variants[v], now);
    }
  }
}
