/** Setting options as it runs: the checks, the plan, and the variants rewritten in place. */
module VariantService {
  import opened Common
  import opened VariantMatrix
  import opened VariantPlan
  import opened VariantRuns
  import opened VariantEffects

  function Folded(fold: Fold, labels: seq<string>): set<string> {
    set l | l in labels :: fold(l)
  }

  lemma UnlikeOneMore(fold: Fold, front: seq<string>, word: string)
    ensures Unlike(fold, front + [word]) <==> Unlike(fold, front) && fold(word) !in Folded(fold, front)
  {
    var labels := front + [word];
    if Unlike(fold, labels) {
      forall i, j | 0 <= i < j < |front| ensures fold(front[i]) != fold(front[j]) {
        assert fold(labels[i]) != fold(labels[j]);
      }
      forall l | l in front ensures fold(l) != fold(word) {
        var i: nat :| i < |front| && front[i] == l;
        assert labels[i] == l && fold(labels[i]) != fold(labels[|front|]);
      }
    } else {
      var i, j :| 0 <= i < j < |labels| && fold(labels[i]) == fold(labels[j]);
      assert labels[i] in front;
      assert j < |front| ==> fold(front[i]) == fold(front[j]);
    }
  }

  /** Labels are distinct when folding them makes no two fall together. */
  lemma {:induction false} DistinctByCount(fold: Fold, labels: seq<string>)
    ensures |Folded(fold, labels)| <= |labels|
    ensures |Folded(fold, labels)| == |labels| <==> Unlike(fold, labels)
  {
    if labels == [] {
      assert Folded(fold, labels) == {};
    } else {
      var front, word := labels[..|labels| - 1], labels[|labels| - 1];
      assert labels == front + [word];
      DistinctByCount(fold, front);
      UnlikeOneMore(fold, front, word);
      assert Folded(fold, labels) == Folded(fold, front) + {fold(word)};
    }
  }

  class ProductRow {
    const fold: Fold
    var status: ProductStatus
    var ticket: bool
    var options: seq<Choice>
    var hasVariants: bool
    var variants: Variants
    var nextId: nat

    constructor (fold: Fold, ticket: bool)
      ensures Valid() && this.fold == fold && State() == NewProduct(ticket)
    {
      this.fold := fold;
      this.ticket := ticket;
      status, options, hasVariants := Draft, [], false;
      variants := map[0 := Variant([], 0, Active, None, None)];
      nextId := 1;
      new;
      NewProductIsCoherent(fold, ticket);
    }

    /** What every product keeps from its creation on, whatever is edited about it. */
    ghost predicate Valid()
      reads this
    {
      Coherent(fold, State())
    }

    function State(): Product
      reads this
    {
      Product(status, ticket, options, hasVariants, variants, nextId)
    }

    method Distinct(labels: seq<string>) returns (distinct: bool)
      ensures distinct <==> Unlike(fold, labels)
    {
      var folded := set l | l in labels :: fold(l);
      assert folded == Folded(fold, labels);
      DistinctByCount(fold, labels);
      distinct := |folded| == |labels|;
    }

    method CheckedOptions(requested: seq<Choice>) returns (problem: Option<Problem>)
      ensures problem == OptionsProblem(fold, requested)
      ensures if problem.None? then Acceptable(fold, requested) else WrongWith(fold, requested, problem.value)
    {
      ProblemsAreNamed(fold, requested);
      var distinct := Distinct(NamesOf(requested));
      if !distinct {
        return Some(SameNames);
      }
      var combinations := 1;
      var i := 0;
      while i < |requested|
        invariant 0 <= i <= |requested|
        invariant combinations == Combinations(requested[..i])
        invariant FirstRepeated(fold, requested) == FirstRepeated(fold, requested[i..])
      {
        distinct := Distinct(requested[i].values);
        if !distinct {
          return Some(RepeatedValues(requested[i].name));
        }
        assert requested[..i + 1][..i] == requested[..i] && requested[i..][1..] == requested[i + 1..];
        combinations := combinations * |requested[i].values|;
        i := i + 1;
      }
      assert requested[..i] == requested;
      problem := if combinations > MAX_VARIANTS then Some(TooMany(combinations)) else None;
    }

    method LiveVariants(ids: seq<nat>) returns (live: seq<nat>, archived: seq<nat>)
      ensures live == LiveOf(variants, ids) && archived == ArchivedOf(variants, ids)
    {
      live, archived := [], [];
      var i := 0;
      while i < |ids|
        invariant 0 <= i <= |ids|
        invariant live == LiveOf(variants, ids[..i]) && archived == ArchivedOf(variants, ids[..i])
      {
        assert ids[..i + 1][..i] == ids[..i];
        if ids[i] in variants {
          if variants[ids[i]].archivedAt.None? {
            live := live + [ids[i]];
          } else {
            archived := archived + [ids[i]];
          }
        }
        i := i + 1;
      }
      assert ids[..i] == ids;
    }

    method VariantsByKey(ids: seq<nat>) returns (byKey: map<Key, nat>)
      ensures byKey == ByKey(fold, variants, ids)
    {
      byKey := map[];
      var i := 0;
      while i < |ids|
        invariant 0 <= i <= |ids|
        invariant byKey == ByKey(fold, variants, ids[..i])
      {
        assert ids[..i + 1][..i] == ids[..i];
        if ids[i] in variants && variants[ids[i]].options != [] {
          byKey := byKey[KeyOf(fold, variants[ids[i]].options) := ids[i]];
        }
        i := i + 1;
      }
      assert ids[..i] == ids;
    }

    method Default(live: seq<nat>) returns (default: Option<nat>)
      ensures default == FirstDefault(variants, live)
    {
      var i := 0;
      while i < |live|
        invariant 0 <= i <= |live|
        invariant FirstDefault(variants, live) == FirstDefault(variants, live[i..])
      {
        if live[i] in variants && variants[live[i]].options == [] {
          return Some(live[i]);
        }
        assert live[i..][1..] == live[i + 1..];
        i := i + 1;
      }
      default := None;
    }

    method MakePlan(combos: seq<Combo>) returns (plan: Plan, live: seq<nat>)
      ensures plan == PlanFor(fold, variants, combos) && live == LiveOf(variants, Listing(variants))
    {
      var ids := Listing(variants);
      var archived;
      live, archived := LiveVariants(ids);
      var byKey := VariantsByKey(archived + live);
      var default := Default(live);
      var pool := Pool(byKey, default, First(live));
      var chosen: seq<Option<nat>>, used: set<nat> := [], {};
      var i := 0;
      while i < |combos|
        invariant 0 <= i <= |combos|
        invariant Plan(chosen, used) == PlanOf(fold, pool, combos[..i])
      {
        assert combos[..i + 1][..i] == combos[..i];
        var v: Option<nat>;
        if combos[i] == [] {
          v := if default.Some? then default else First(live);
        } else if KeyOf(fold, combos[i]) in byKey {
          v := Some(byKey[KeyOf(fold, combos[i])]);
        } else if default.Some? && default.value !in used {
          v := default;
        } else {
          v := None;
        }
        if v.Some? {
          used := used + {v.value};
        }
        chosen := chosen + [v];
        i := i + 1;
      }
      assert combos[..i] == combos;
      plan := Plan(chosen, used);
    }

    method CarryOutPlan(combos: seq<Combo>, chosen: seq<Option<nat>>)
      requires |combos| == |chosen| && Chosen(variants, chosen)
      modifies this`variants, this`nextId
      ensures var laid := LayOut(old(variants), old(nextId), combos, chosen);
        variants == laid.variants && nextId == laid.nextId
    {
      ghost var vs, next := variants, nextId;
      var i := 0;
      while i < |combos|
        invariant 0 <= i <= |combos|
        invariant var laid := LayOut(vs, next, combos[..i], chosen[..i]); variants == laid.variants && nextId == laid.nextId
      {
        assert combos[..i + 1][..i] == combos[..i] && chosen[..i + 1][..i] == chosen[..i];
        if chosen[i].Some? {
          var v := variants[chosen[i].value];
          if v.archivedAt.Some? {
            v := v.(archivedAt := None, status := Active);
          }
          variants := variants[chosen[i].value := v.(options := combos[i], position := i)];
        } else {
          variants := variants[nextId := Variant(combos[i], i, Active, None, None)];
          nextId := nextId + 1;
        }
        i := i + 1;
      }
      assert combos[..i] == combos && chosen[..i] == chosen;
    }

    method ArchiveUnused(live: seq<nat>, used: set<nat>, now: int)
      modifies this`variants
      ensures variants == RetireUnused(old(variants), live, used, now)
    {
      var i := 0;
      while i < |live|
        invariant 0 <= i <= |live|
        invariant variants == RetireUnused(old(variants), live[..i], used, now)
      {
        assert live[..i + 1][..i] == live[..i];
        if live[i] !in used && live[i] in variants {
          variants := variants[live[i] := variants[live[i]].(archivedAt := Some(now), status := Inactive, pausedAt := None)];
        }
        i := i + 1;
      }
      assert live[..i] == live;
    }

    method Rearrange(requested: seq<Choice>, plan: Plan, live: seq<nat>, now: int)
      requires plan == PlanFor(fold, variants, Matrix(requested)) && live == LiveOf(variants, Listing(variants))
      modifies this`options, this`hasVariants, this`variants, this`nextId
      ensures State() == CarryOut(fold, old(State()), requested, now)
    {
      CarryOutPlan(Matrix(requested), plan.chosen);
      ArchiveUnused(live, plan.used, now);
      options, hasVariants := requested, requested != [];
    }

    method SetOptions(requested: seq<Choice>, now: int) returns (reply: Reply)
      requires Valid()
      modifies this`options, this`hasVariants, this`variants, this`nextId
      ensures Valid() && State() == Apply(fold, old(State()), Change.SetOptions(requested, now))
      ensures Answers(fold, old(State()), requested, reply)
      ensures if reply.Saved? then OptionsTaken(fold, old(State()), State(), requested, now) else State() == old(State())
    {
      OptionsAreSavedExactly(fold, State(), requested);
      SetOptionsKeepsCoherent(fold, State(), requested, now);
      if Answer(fold, State(), requested).Saved? {
        SavingTakesOptions(fold, State(), requested, now);
      }
      if status.Archived? {
        return Refused(ArchivedProduct);
      }
      if ticket {
        return Refused(UsesLots);
      }
      var problem := CheckedOptions(requested);
      if problem.Some? {
        return Refused(problem.value);
      }
      if requested == options {
        return Unchanged;
      }
      var plan, live := MakePlan(Matrix(requested));
      if Published(status) && !KeepsOneForSale(variants, plan.chosen) {
        return Refused(NeedsLiveVariant);
      }
      Rearrange(requested, plan, live, now);
      reply := Saved;
    }
  }
}
