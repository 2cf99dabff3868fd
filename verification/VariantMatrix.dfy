/** The variant matrix: every combination of a product's option values, and the case-insensitive key
    by which a combination finds the variant that carried it before. */
module VariantMatrix {
  import opened Common

  datatype Choice = Choice(name: string, values: seq<string>)

  /** One value per option, in the options' order; a variant without options has the empty one. */
  type Combo = seq<(string, string)>

  /** The sorted tuple of case-folded pairs, as the bag it is. */
  type Key = multiset<(string, string)>

  type Fold = string -> string

  const MAX_VARIANTS := 100

  function KeyOf(fold: Fold, combo: Combo): Key {
    if combo == [] then multiset{}
    else
      var last := combo[|combo| - 1];
      KeyOf(fold, combo[..|combo| - 1]) + multiset{(fold(last.0), fold(last.1))}
  }

  /** A row, once with each value. */
  function Rows(row: Combo, name: string, values: seq<string>): seq<Combo> {
    if values == [] then []
    else Rows(row, name, values[..|values| - 1]) + [row + [(name, values[|values| - 1])]]
  }

  function Extend(rows: seq<Combo>, name: string, values: seq<string>): seq<Combo> {
    if rows == [] then []
    else Extend(rows[..|rows| - 1], name, values) + Rows(rows[|rows| - 1], name, values)
  }

  /** The Cartesian product, the last option varying fastest. */
  function Matrix(options: seq<Choice>): seq<Combo> {
    if options == [] then [[]]
    else
      var last := options[|options| - 1];
      Extend(Matrix(options[..|options| - 1]), last.name, last.values)
  }

  function Combinations(options: seq<Choice>): nat {
    if options == [] then 1
    else Combinations(options[..|options| - 1]) * |options[|options| - 1].values|
  }

  // ---------------------------------------------------------------- what is asked of the options

  datatype Problem =
    | ArchivedProduct
    | UsesLots
    | SameNames
    | RepeatedValues(option: string)
    | TooMany(combinations: nat)
    | NeedsLiveVariant

  predicate Unlike(fold: Fold, labels: seq<string>) {
    forall i, j | 0 <= i < j < |labels| :: fold(labels[i]) != fold(labels[j])
  }

  function NamesOf(options: seq<Choice>): (names: seq<string>)
    ensures |names| == |options| && forall i | 0 <= i < |options| :: names[i] == options[i].name
  {
    if options == [] then [] else NamesOf(options[..|options| - 1]) + [options[|options| - 1].name]
  }

  predicate DistinctOptions(fold: Fold, options: seq<Choice>) {
    && Unlike(fold, NamesOf(options))
    && forall i | 0 <= i < |options| :: Unlike(fold, options[i].values)
  }

  // ---------------------------------------------------------------- the order of the matrix

  lemma {:induction false} RowAt(row: Combo, name: string, values: seq<string>, k: nat)
    requires k < |values|
    ensures |Rows(row, name, values)| == |values| && Rows(row, name, values)[k] == row + [(name, values[k])]
  {
    var last := |values| - 1;
    RowsAre(row, name, values, []);
    RowsAre(row, name, values[..last], []);
    if k < last {
      RowAt(row, name, values[..last], k);
    }
  }

  lemma {:induction false} ExtendedAt(rows: seq<Combo>, name: string, values: seq<string>, i: nat, k: nat)
    requires i < |rows| && k < |values|
    ensures i * |values| + k < |Extend(rows, name, values)|
    ensures Extend(rows, name, values)[i * |values| + k] == rows[i] + [(name, values[k])]
  {
    var last, n := |rows| - 1, |values|;
    ExtendSize(rows[..last], name, values);
    RowAt(rows[last], name, values, k);
    var before, after := Extend(rows[..last], name, values), Rows(rows[last], name, values);
    assert Extend(rows, name, values) == before + after;
    if i < last {
      ExtendedAt(rows[..last], name, values, i, k);
    } else {
      assert (before + after)[|before| + k] == after[k];
    }
  }

  /** The rows are in the order of the values, the last option varying fastest. */
  lemma TheLastOptionVariesFastest(options: seq<Choice>, i: nat, k: nat)
    requires options != [] && i < |Matrix(options[..|options| - 1])| && k < |options[|options| - 1].values|
    ensures var last := options[|options| - 1]; var at := i * |last.values| + k;
      at < |Matrix(options)|
      && Matrix(options)[at] == Matrix(options[..|options| - 1])[i] + [(last.name, last.values[k])]
  {
    var last := options[|options| - 1];
    ExtendedAt(Matrix(options[..|options| - 1]), last.name, last.values, i, k);
  }

  // ---------------------------------------------------------------- the matrix is complete

  predicate Chooses(options: seq<Choice>, combo: Combo) {
    && |combo| == |options|
    && forall i | 0 <= i < |options| :: combo[i].0 == options[i].name && combo[i].1 in options[i].values
  }

  lemma {:induction false} RowsAre(row: Combo, name: string, values: seq<string>, combo: Combo)
    ensures combo in Rows(row, name, values) <==>
      |combo| == |row| + 1 && combo[..|row|] == row && combo[|row|].0 == name && combo[|row|].1 in values
    ensures |Rows(row, name, values)| == |values|
  {
    if values != [] {
      var last := |values| - 1;
      RowsAre(row, name, values[..last], combo);
      assert values == values[..last] + [values[last]];
      if |combo| == |row| + 1 {
        assert combo == combo[..|row|] + [combo[|row|]];
      }
      assert combo == row + [(name, values[last])] ==> combo[..|row|] == row;
    }
  }

  lemma {:induction false} ExtendIs(rows: seq<Combo>, name: string, values: seq<string>, combo: Combo)
    ensures combo in Extend(rows, name, values) <==>
      combo != [] && combo[..|combo| - 1] in rows && combo[|combo| - 1].0 == name && combo[|combo| - 1].1 in values
  {
    if rows != [] {
      var last := |rows| - 1;
      ExtendIs(rows[..last], name, values, combo);
      RowsAre(rows[last], name, values, combo);
      assert rows == rows[..last] + [rows[last]];
    }
  }

  lemma {:induction false} ExtendSize(rows: seq<Combo>, name: string, values: seq<string>)
    ensures |Extend(rows, name, values)| == |rows| * |values|
  {
    if rows != [] {
      var last := |rows| - 1;
      ExtendSize(rows[..last], name, values);
      RowsAre(rows[last], name, values, []);
      assert |rows| * |values| == last * |values| + |values|;
    }
  }

  /** As many rows as the options' sizes multiply to. */
  lemma {:induction false} MatrixSize(options: seq<Choice>)
    ensures |Matrix(options)| == Combinations(options)
  {
    if options != [] {
      var last := |options| - 1;
      MatrixSize(options[..last]);
      ExtendSize(Matrix(options[..last]), options[last].name, options[last].values);
    }
  }

  /** Choosing one more: a choice for the options before it, and a value of the last. */
  lemma ChoosesOneMore(options: seq<Choice>, combo: Combo)
    requires options != [] && combo != []
    ensures Chooses(options, combo) <==>
      && Chooses(options[..|options| - 1], combo[..|combo| - 1])
      && combo[|combo| - 1].0 == options[|options| - 1].name && combo[|combo| - 1].1 in options[|options| - 1].values
  {
    var front, chosen := options[..|options| - 1], combo[..|combo| - 1];
    if Chooses(front, chosen) && combo[|combo| - 1].0 == options[|options| - 1].name
       && combo[|combo| - 1].1 in options[|options| - 1].values {
      forall i | 0 <= i < |options| ensures combo[i].0 == options[i].name && combo[i].1 in options[i].values {
        assert i < |front| ==> front[i] == options[i] && chosen[i] == combo[i];
      }
    } else if Chooses(options, combo) {
      assert forall i | 0 <= i < |front| :: front[i] == options[i] && chosen[i] == combo[i];
    }
  }

  /** The matrix holds exactly the ways to choose one value per option. */
  lemma {:induction false} MatrixIsComplete(options: seq<Choice>, combo: Combo)
    ensures combo in Matrix(options) <==> Chooses(options, combo)
  {
    if options != [] {
      var last := options[|options| - 1];
      ExtendIs(Matrix(options[..|options| - 1]), last.name, last.values, combo);
      if combo != [] {
        MatrixIsComplete(options[..|options| - 1], combo[..|combo| - 1]);
        ChoosesOneMore(options, combo);
      }
    }
  }

  // ---------------------------------------------------------------- and no two rows look alike

  ghost predicate KeysDiffer(fold: Fold, rows: seq<Combo>) {
    forall i, j | 0 <= i < j < |rows| :: KeyOf(fold, rows[i]) != KeyOf(fold, rows[j])
  }

  ghost predicate WithoutName(key: Key, name: string) {
    forall v: string {:trigger (name, v)} :: (name, v) !in key
  }

  lemma LongerKeysDiffer(a: Key, b: Key, name: string, u: string, v: string)
    requires WithoutName(a, name) && WithoutName(b, name)
    requires a != b || u != v
    ensures a + multiset{(name, u)} != b + multiset{(name, v)}
  {
    var x, y := a + multiset{(name, u)}, b + multiset{(name, v)};
    assert (name, u) !in a && (name, u) !in b && (name, v) !in b;
    if u != v {
      assert x[(name, u)] == 1 && y[(name, u)] == 0;
    } else {
      assert a == x - multiset{(name, u)} && b == y - multiset{(name, u)};
    }
  }

  /** Two rows made from rows with different keys, or with different values. */
  lemma MadeRowsDiffer(fold: Fold, a: Combo, b: Combo, name: string)
    requires a != [] && b != [] && a[|a| - 1].0 == name == b[|b| - 1].0
    requires WithoutName(KeyOf(fold, a[..|a| - 1]), fold(name)) && WithoutName(KeyOf(fold, b[..|b| - 1]), fold(name))
    requires KeyOf(fold, a[..|a| - 1]) != KeyOf(fold, b[..|b| - 1]) || fold(a[|a| - 1].1) != fold(b[|b| - 1].1)
    ensures KeyOf(fold, a) != KeyOf(fold, b)
  {
    LongerKeysDiffer(KeyOf(fold, a[..|a| - 1]), KeyOf(fold, b[..|b| - 1]), fold(name), fold(a[|a| - 1].1), fold(b[|b| - 1].1));
  }

  lemma {:induction false} RowsDiffer(fold: Fold, row: Combo, name: string, values: seq<string>)
    requires WithoutName(KeyOf(fold, row), fold(name)) && Unlike(fold, values)
    ensures KeysDiffer(fold, Rows(row, name, values))
  {
    if values != [] {
      var last := |values| - 1;
      RowsDiffer(fold, row, name, values[..last]);
      var rows, made := Rows(row, name, values[..last]), row + [(name, values[last])];
      assert made[..|made| - 1] == row;
      forall i | 0 <= i < |rows| ensures KeyOf(fold, rows[i]) != KeyOf(fold, made) {
        assert rows[i] in rows;
        RowsAre(row, name, values[..last], rows[i]);
        MadeRowsDiffer(fold, rows[i], made, name);
      }
    }
  }

  /** Rows grown from different rows differ. */
  lemma GrownRowsDiffer(fold: Fold, rows: seq<Combo>, row: Combo, name: string, values: seq<string>, a: Combo, b: Combo)
    requires a in Extend(rows, name, values) && b in Rows(row, name, values)
    requires forall r | r in rows :: WithoutName(KeyOf(fold, r), fold(name)) && KeyOf(fold, r) != KeyOf(fold, row)
    requires WithoutName(KeyOf(fold, row), fold(name))
    ensures KeyOf(fold, a) != KeyOf(fold, b)
  {
    ExtendIs(rows, name, values, a);
    RowsAre(row, name, values, b);
    MadeRowsDiffer(fold, a, b, name);
  }

  lemma {:induction false} ExtensionsDiffer(fold: Fold, rows: seq<Combo>, name: string, values: seq<string>)
    requires KeysDiffer(fold, rows) && Unlike(fold, values)
    requires forall row | row in rows :: WithoutName(KeyOf(fold, row), fold(name))
    ensures KeysDiffer(fold, Extend(rows, name, values))
  {
    if rows != [] {
      var last := |rows| - 1;
      assert rows[last] in rows;
      ExtensionsDiffer(fold, rows[..last], name, values);
      RowsDiffer(fold, rows[last], name, values);
      var before, after := Extend(rows[..last], name, values), Rows(rows[last], name, values);
      forall i, j | 0 <= i < |before| && 0 <= j < |after| ensures KeyOf(fold, before[i]) != KeyOf(fold, after[j]) {
        assert before[i] in before && after[j] in after;
        GrownRowsDiffer(fold, rows[..last], rows[last], name, values, before[i], after[j]);
      }
    }
  }

  lemma {:induction false} OnlyTheOptionsNames(fold: Fold, options: seq<Choice>, combo: Combo, name: string)
    requires Chooses(options, combo) && forall i | 0 <= i < |options| :: fold(options[i].name) != name
    ensures WithoutName(KeyOf(fold, combo), name)
  {
    if combo != [] {
      var last := |combo| - 1;
      OnlyTheOptionsNames(fold, options[..last], combo[..last], name);
    }
  }

  /** With options that differ case-insensitively, so do the rows of their matrix. */
  lemma {:induction false} MatrixRowsDiffer(fold: Fold, options: seq<Choice>)
    requires DistinctOptions(fold, options)
    ensures KeysDiffer(fold, Matrix(options))
  {
    if options != [] {
      var last := |options| - 1;
      var front := options[..last];
      assert forall i | 0 <= i < last :: NamesOf(front)[i] == NamesOf(options)[i];
      MatrixRowsDiffer(fold, front);
      forall row | row in Matrix(front) ensures WithoutName(KeyOf(fold, row), fold(options[last].name)) {
        MatrixIsComplete(front, row);
        forall i | 0 <= i < |front| ensures fold(front[i].name) != fold(options[last].name) {
          assert fold(NamesOf(options)[i]) != fold(NamesOf(options)[last]);
        }
        OnlyTheOptionsNames(fold, front, row, fold(options[last].name));
      }
      ExtensionsDiffer(fold, Matrix(front), options[last].name, options[last].values);
    }
  }
}
