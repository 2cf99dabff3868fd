/** Setting a product's options: which variant each combination of the new matrix gets, and what
    becomes of the variants that no combination wants. */
module VariantPlan {
  import opened Common
  import opened VariantMatrix

  datatype ProductStatus = Draft | OnSale | OnHold | Unpublished | Archived
  datatype VariantStatus = Active | Paused | Inactive

  datatype Variant = Variant(
    options: Combo,
    position: nat,
    status: VariantStatus,
    archivedAt: Option<int>,
    pausedAt: Option<int>)

  /** Variant ids are handed out in ascending order. */
  datatype Product = Product(
    status: ProductStatus,
    ticket: bool,
    options: seq<Choice>,
    hasVariants: bool,
    variants: map<nat, Variant>,
    nextId: nat)

  type Variants = map<nat, Variant>

  predicate Published(status: ProductStatus) {
    status.OnSale? || status.OnHold?
  }

  predicate ForSale(status: VariantStatus) {
    status.Active? || status.Paused?
  }

  function NewProduct(ticket: bool): Product {
    Product(Draft, ticket, [], false, map[0 := Variant([], 0, Active, None, None)], 1)
  }

  // ---------------------------------------------------------------- the options as asked for

  function FirstRepeated(fold: Fold, options: seq<Choice>): Option<string> {
    if options == [] then None
    else if !Unlike(fold, options[0].values) then Some(options[0].name)
    else FirstRepeated(fold, options[1..])
  }

  function OptionsProblem(fold: Fold, options: seq<Choice>): Option<Problem> {
    if !Unlike(fold, NamesOf(options)) then Some(SameNames)
    else
      var repeated := FirstRepeated(fold, options);
      if repeated.Some? then Some(RepeatedValues(repeated.value))
      else if Combinations(options) > MAX_VARIANTS then Some(TooMany(Combinations(options)))
      else None
  }

  // ---------------------------------------------------------------- the variants as they are listed

  predicate Before(vs: Variants, a: nat, b: nat)
    requires a in vs && b in vs
  {
    vs[a].position < vs[b].position || (vs[a].position == vs[b].position && a < b)
  }

  ghost predicate Listed(vs: Variants, ids: seq<nat>) {
    && (forall v :: v in ids <==> v in vs)
    && (forall i, j | 0 <= i < j < |ids| :: Before(vs, ids[i], ids[j]))
  }

  ghost predicate IsFirst(vs: Variants, v: nat) {
    v in vs && forall u | u in vs && u != v :: Before(vs, v, u)
  }

  lemma FirstOfTwo(vs: Variants, x: nat, z: nat)
    requires x in vs && IsFirst(vs - {x}, z)
    ensures IsFirst(vs, if Before(vs, x, z) then x else z)
  {
    var rest := vs - {x};
    forall u | u in vs && u != x && u != z ensures Before(vs, z, u) {
      assert u in rest && Before(rest, z, u);
    }
  }

  lemma {:induction false} HasFirst(vs: Variants)
    requires vs != map[]
    ensures exists v :: IsFirst(vs, v)
    decreases vs.Keys
  {
    var x :| x in vs;
    var rest := vs - {x};
    if rest == map[] {
      assert forall u | u in vs :: u == x || u in rest;
      assert IsFirst(vs, x);
    } else {
      HasFirst(rest);
      var z :| IsFirst(rest, z);
      FirstOfTwo(vs, x, z);
    }
  }

  lemma ListedFrom(vs: Variants, v: nat, rest: seq<nat>)
    requires IsFirst(vs, v) && Listed(vs - {v}, rest)
    ensures Listed(vs, [v] + rest)
  {
    var ids := [v] + rest;
    forall u ensures u in ids <==> u in vs {
      assert u in rest <==> u in vs - {v};
    }
    forall i, j | 0 <= i < j < |ids| ensures Before(vs, ids[i], ids[j]) {
      assert ids[j] in rest;
      if i > 0 {
        assert Before(vs - {v}, rest[i - 1], rest[j - 1]);
      }
    }
  }

  /** By position, then by id. */
  function Listing(vs: Variants): (ids: seq<nat>)
    ensures Listed(vs, ids)
    decreases vs.Keys
  {
    if vs == map[] then []
    else
      HasFirst(vs);
      var v :| v in vs && forall u | u in vs && u != v :: Before(vs, v, u);
      assert IsFirst(vs, v);
      var rest := Listing(vs - {v});
      ListedFrom(vs, v, rest);
      [v] + rest
  }

  function LiveOf(vs: Variants, ids: seq<nat>): seq<nat> {
    if ids == [] then []
    else
      var v := ids[|ids| - 1];
      var before := LiveOf(vs, ids[..|ids| - 1]);
      if v in vs && vs[v].archivedAt.None? then before + [v] else before
  }

  function ArchivedOf(vs: Variants, ids: seq<nat>): seq<nat> {
    if ids == [] then []
    else
      var v := ids[|ids| - 1];
      var before := ArchivedOf(vs, ids[..|ids| - 1]);
      if v in vs && vs[v].archivedAt.Some? then before + [v] else before
  }

  /** A later variant with the same key replaces an earlier one. */
  function ByKey(fold: Fold, vs: Variants, ids: seq<nat>): map<Key, nat> {
    if ids == [] then map[]
    else
      var v := ids[|ids| - 1];
      var before := ByKey(fold, vs, ids[..|ids| - 1]);
      if v in vs && vs[v].options != [] then before[KeyOf(fold, vs[v].options) := v] else before
  }

  function FirstDefault(vs: Variants, ids: seq<nat>): Option<nat> {
    if ids == [] then None
    else if ids[0] in vs && vs[ids[0]].options == [] then Some(ids[0])
    else FirstDefault(vs, ids[1..])
  }

  function First(ids: seq<nat>): Option<nat> {
    if ids == [] then None else Some(ids[0])
  }

  // ---------------------------------------------------------------- the plan

  datatype Plan = Plan(chosen: seq<Option<nat>>, used: set<nat>)

  /** What is there to choose from: variants by key, the default, and the first live variant. */
  datatype Pool = Pool(byKey: map<Key, nat>, default: Option<nat>, first: Option<nat>)

  function PoolOf(fold: Fold, vs: Variants): Pool {
    var ids := Listing(vs);
    var live := LiveOf(vs, ids);
    Pool(ByKey(fold, vs, ArchivedOf(vs, ids) + live), FirstDefault(vs, live), First(live))
  }

  function ChosenFor(fold: Fold, pool: Pool, used: set<nat>, combo: Combo): Option<nat> {
    if combo == [] then (if pool.default.Some? then pool.default else pool.first)
    else if KeyOf(fold, combo) in pool.byKey then Some(pool.byKey[KeyOf(fold, combo)])
    else if pool.default.Some? && pool.default.value !in used then pool.default
    else None
  }

  function PlanOf(fold: Fold, pool: Pool, combos: seq<Combo>): (plan: Plan)
    ensures |plan.chosen| == |combos|
  {
    if combos == [] then Plan([], {})
    else
      var before := PlanOf(fold, pool, combos[..|combos| - 1]);
      var v := ChosenFor(fold, pool, before.used, combos[|combos| - 1]);
      Plan(before.chosen + [v], if v.Some? then before.used + {v.value} else before.used)
  }

  predicate Chosen(vs: Variants, chosen: seq<Option<nat>>) {
    forall i | 0 <= i < |chosen| && chosen[i].Some? :: chosen[i].value in vs
  }

  predicate KeepsOneForSale(vs: Variants, chosen: seq<Option<nat>>)
    requires Chosen(vs, chosen)
  {
    exists i | 0 <= i < |chosen| ::
      chosen[i].None? || vs[chosen[i].value].archivedAt.Some? || ForSale(vs[chosen[i].value].status)
  }

  // ---------------------------------------------------------------- where the chosen ones come from

  lemma {:induction false} LiveAre(vs: Variants, ids: seq<nat>, v: nat)
    ensures v in LiveOf(vs, ids) <==> v in ids && v in vs && vs[v].archivedAt.None?
    ensures v in ArchivedOf(vs, ids) <==> v in ids && v in vs && vs[v].archivedAt.Some?
  {
    if ids != [] {
      LiveAre(vs, ids[..|ids| - 1], v);
      assert ids == ids[..|ids| - 1] + [ids[|ids| - 1]];
    }
  }

  predicate Finds(fold: Fold, vs: Variants, key: Key, v: nat) {
    v in vs && vs[v].options != [] && KeyOf(fold, vs[v].options) == key
  }

  lemma {:induction false} ByKeyFinds(fold: Fold, vs: Variants, ids: seq<nat>)
    ensures forall key | key in ByKey(fold, vs, ids) :: Finds(fold, vs, key, ByKey(fold, vs, ids)[key])
    ensures forall v | v in ids && v in vs && vs[v].options != [] :: KeyOf(fold, vs[v].options) in ByKey(fold, vs, ids)
  {
    if ids != [] {
      ByKeyFinds(fold, vs, ids[..|ids| - 1]);
      assert ids == ids[..|ids| - 1] + [ids[|ids| - 1]];
    }
  }

  lemma {:induction false} FirstDefaultIs(vs: Variants, ids: seq<nat>)
    ensures FirstDefault(vs, ids).Some? ==>
      var v := FirstDefault(vs, ids).value; v in ids && v in vs && vs[v].options == []
    ensures FirstDefault(vs, ids).None? ==> forall v | v in ids && v in vs :: vs[v].options != []
  {
    if ids != [] {
      FirstDefaultIs(vs, ids[1..]);
      assert ids == [ids[0]] + ids[1..];
    }
  }

  /** Every variant with options is found by its key, live or archived; the default and the first are
      live. */
  ghost predicate PoolFine(fold: Fold, vs: Variants, pool: Pool) {
    && (forall key | key in pool.byKey :: Finds(fold, vs, key, pool.byKey[key]))
    && (forall v | v in vs && vs[v].options != [] :: KeyOf(fold, vs[v].options) in pool.byKey)
    && (pool.default.Some? ==>
          pool.default.value in vs && vs[pool.default.value].options == [] && vs[pool.default.value].archivedAt.None?)
    && (pool.default.None? ==> forall v | v in vs && vs[v].archivedAt.None? :: vs[v].options != [])
    && (pool.first.Some? ==> pool.first.value in vs && vs[pool.first.value].archivedAt.None?)
  }

  lemma PoolIsFine(fold: Fold, vs: Variants)
    ensures PoolFine(fold, vs, PoolOf(fold, vs))
  {
    var ids := Listing(vs);
    var live, gone := LiveOf(vs, ids), ArchivedOf(vs, ids);
    forall v ensures v in live <==> v in vs && vs[v].archivedAt.None? { LiveAre(vs, ids, v); }
    forall v ensures v in gone <==> v in vs && vs[v].archivedAt.Some? { LiveAre(vs, ids, v); }
    ByKeyFinds(fold, vs, gone + live);
    FirstDefaultIs(vs, live);
    forall v | v in vs && vs[v].options != [] ensures v in gone + live {
      assert v in gone || v in live;
    }
    if live != [] {
      assert live[0] in live;
    }
  }

  lemma {:induction false} PlanChooses(fold: Fold, vs: Variants, pool: Pool, combos: seq<Combo>)
    requires PoolFine(fold, vs, pool)
    ensures Chosen(vs, PlanOf(fold, pool, combos).chosen)
  {
    if combos != [] {
      PlanChooses(fold, vs, pool, combos[..|combos| - 1]);
    }
  }

  function PlanFor(fold: Fold, vs: Variants, combos: seq<Combo>): (plan: Plan)
    ensures |plan.chosen| == |combos| && Chosen(vs, plan.chosen)
  {
    PoolIsFine(fold, vs);
    PlanChooses(fold, vs, PoolOf(fold, vs), combos);
    PlanOf(fold, PoolOf(fold, vs), combos)
  }

  // ---------------------------------------------------------------- carrying it out

  /** The variants so far, and which of them stands at each position. */
  datatype Laid = Laid(variants: Variants, nextId: nat, ids: seq<nat>)

  function Placed(v: Variant, combo: Combo, position: nat): Variant {
    v.(options := combo, position := position, archivedAt := None,
       status := if v.archivedAt.Some? then Active else v.status)
  }

  function LayOne(before: Laid, combo: Combo, position: nat, entry: Option<nat>): Laid
    requires entry.Some? ==> entry.value in before.variants
  {
    match entry
    case Some(v) =>
      before.(variants := before.variants[v := Placed(before.variants[v], combo, position)], ids := before.ids + [v])
    case None =>
      Laid(before.variants[before.nextId := Variant(combo, position, Active, None, None)],
           before.nextId + 1, before.ids + [before.nextId])
  }

  function LayOut(vs: Variants, nextId: nat, combos: seq<Combo>, chosen: seq<Option<nat>>): (laid: Laid)
    requires |combos| == |chosen| && Chosen(vs, chosen)
    ensures vs.Keys <= laid.variants.Keys
  {
    if combos == [] then Laid(vs, nextId, [])
    else
      var last := |combos| - 1;
      LayOne(LayOut(vs, nextId, combos[..last], chosen[..last]), combos[last], last, chosen[last])
  }

  function Retired(v: Variant, now: int): Variant {
    v.(archivedAt := Some(now), status := Inactive, pausedAt := None)
  }

  function RetireUnused(vs: Variants, live: seq<nat>, used: set<nat>, now: int): Variants {
    if live == [] then vs
    else
      var v := live[|live| - 1];
      var before := RetireUnused(vs, live[..|live| - 1], used, now);
      if v !in used && v in before then before[v := Retired(before[v], now)] else before
  }

  datatype Reply = Saved | Unchanged | Refused(problem: Problem)

  function CarryOut(fold: Fold, p: Product, options: seq<Choice>, now: int): Product {
    var plan := PlanFor(fold, p.variants, Matrix(options));
    var laid := LayOut(p.variants, p.nextId, Matrix(options), plan.chosen);
    p.(variants := RetireUnused(laid.variants, LiveOf(p.variants, Listing(p.variants)), plan.used, now),
       nextId := laid.nextId,
       options := options,
       hasVariants := options != [])
  }

  function Answer(fold: Fold, p: Product, options: seq<Choice>): Reply {
    if p.status.Archived? then Refused(ArchivedProduct)
    else if p.ticket then Refused(UsesLots)
    else
      var problem := OptionsProblem(fold, options);
      if problem.Some? then Refused(problem.value)
      else if options == p.options then Unchanged
      else if Published(p.status) && !KeepsOneForSale(p.variants, PlanFor(fold, p.variants, Matrix(options)).chosen)
      then Refused(NeedsLiveVariant)
      else Saved
  }

  function SetOptionsStep(fold: Fold, p: Product, options: seq<Choice>, now: int): Product {
    if Answer(fold, p, options).Saved? then CarryOut(fold, p, options, now) else p
  }
}
