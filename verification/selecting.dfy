/**
 Which response keys a projection has, said without the walk: a document is a
 list of fields, each under the type conditions around it.
 */
module Selecting {
  import opened Common
  import opened CacheOnly
  import opened Projections
  import opened Inlining

  datatype Chosen = Chosen(scope: string, name: string, key: string, sub: seq<Selection>)

  /** A field as written, the type conditions around it from the outside in. */
  datatype Guarded = Guarded(conditions: seq<string>, marked: bool, field: Chosen)

  function Within(condition: string, fields: seq<Guarded>): (r: seq<Guarded>)
    ensures |r| == |fields|
  {
    seq(|fields|, k requires 0 <= k < |fields| => fields[k].(conditions := [condition] + fields[k].conditions))
  }

  /** The fields of a selection set in order, through inline fragments and at
      most `n` spreads inside of each other, whatever they repeat. */
  function Written(fragments: Fragments, scope: string, selections: seq<Selection>, n: nat): seq<Guarded>
    decreases n, selections
  {
    if selections == [] then []
    else WrittenOne(fragments, scope, selections[0], n) + Written(fragments, scope, selections[1..], n)
  }

  function WrittenOne(fragments: Fragments, scope: string, selection: Selection, n: nat): seq<Guarded>
    decreases n, selection
  {
    match selection
    case Field(name, alias, cacheOnly, sub) => [Guarded([], cacheOnly, Chosen(scope, name, alias.UnwrapOr(name), sub))]
    case Inline(condition, selections) =>
      if condition.None? then Written(fragments, scope, selections, n)
      else Within(condition.value, Written(fragments, condition.value, selections, n))
    case Spread(name) =>
      if name !in fragments || n == 0 then []
      else Within(fragments[name].condition, Written(fragments, fragments[name].condition, fragments[name].selections, n - 1))
  }

  /** Section 6.3.2 of the GraphQL specification: an object type gets the fields
      all of whose type conditions apply to it; here, those not marked. */
  predicate IsFor(schema: Schema, concrete: string, g: Guarded) {
    !g.marked && forall k :: 0 <= k < |g.conditions| ==> Applies(schema, g.conditions[k], concrete)
  }

  function For(schema: Schema, concrete: string, fields: seq<Guarded>): seq<Chosen> {
    if fields == [] then []
    else (if IsFor(schema, concrete, fields[0]) then [fields[0].field] else []) + For(schema, concrete, fields[1..])
  }

  function Fields(schema: Schema, fragments: Fragments, concrete: string, scope: string, selections: seq<Selection>, n: nat): seq<Chosen> {
    For(schema, concrete, Written(fragments, scope, selections, n))
  }

  function FieldsOne(schema: Schema, fragments: Fragments, concrete: string, scope: string, selection: Selection, n: nat): seq<Chosen> {
    For(schema, concrete, WrittenOne(fragments, scope, selection, n))
  }

  lemma {:induction false} ForJoins(schema: Schema, concrete: string, a: seq<Guarded>, b: seq<Guarded>)
    ensures For(schema, concrete, a + b) == For(schema, concrete, a) + For(schema, concrete, b)
  {
    if a == [] {
      assert a + b == b;
    } else {
      assert (a + b)[1..] == a[1..] + b;
      ForJoins(schema, concrete, a[1..], b);
    }
  }

  lemma {:induction false} ForWithin(schema: Schema, concrete: string, condition: string, fields: seq<Guarded>)
    ensures For(schema, concrete, Within(condition, fields)) ==
            if Applies(schema, condition, concrete) then For(schema, concrete, fields) else []
  {
    if fields != [] {
      var (g, all) := (fields[0], Within(condition, fields));
      ForWithin(schema, concrete, condition, fields[1..]);
      assert all[1..] == Within(condition, fields[1..]);
      assert all[0].conditions[0] == condition && all[0].conditions[1..] == g.conditions;
      assert forall k :: 0 < k < |all[0].conditions| ==> all[0].conditions[k] == g.conditions[k - 1];
      assert forall k :: 0 <= k < |g.conditions| ==> g.conditions[k] == all[0].conditions[k + 1];
    }
  }

  lemma ForOne(schema: Schema, concrete: string, g: Guarded)
    ensures For(schema, concrete, [g]) == if IsFor(schema, concrete, g) then [g.field] else []
  {
    assert [g][1..] == [];
    assert For(schema, concrete, []) == [];
  }

  lemma FieldsFirst(schema: Schema, fragments: Fragments, concrete: string, scope: string, selections: seq<Selection>, n: nat)
    requires selections != []
    ensures Fields(schema, fragments, concrete, scope, selections, n) ==
            FieldsOne(schema, fragments, concrete, scope, selections[0], n) + Fields(schema, fragments, concrete, scope, selections[1..], n)
  {
    ForJoins(schema, concrete, WrittenOne(fragments, scope, selections[0], n), Written(fragments, scope, selections[1..], n));
  }

  lemma FieldsOfOne(schema: Schema, fragments: Fragments, concrete: string, scope: string, selection: Selection, n: nat)
    ensures FieldsOne(schema, fragments, concrete, scope, selection, n) ==
            match selection {
              case Field(name, alias, cacheOnly, sub) => if cacheOnly then [] else [Chosen(scope, name, alias.UnwrapOr(name), sub)]
              case Inline(condition, selections) =>
                if condition.Some? && !Applies(schema, condition.value, concrete) then []
                else Fields(schema, fragments, concrete, condition.UnwrapOr(scope), selections, n)
              case Spread(name) =>
                if name !in fragments || n == 0 || !Applies(schema, fragments[name].condition, concrete) then []
                else Fields(schema, fragments, concrete, fragments[name].condition, fragments[name].selections, n - 1)
            }
  {
    match selection {
      case Field(name, alias, cacheOnly, sub) =>
        ForOne(schema, concrete, Guarded([], cacheOnly, Chosen(scope, name, alias.UnwrapOr(name), sub)));
      case Inline(condition, selections) =>
        if condition.Some? { ForWithin(schema, concrete, condition.value, Written(fragments, condition.value, selections, n)); }
      case Spread(name) =>
        if name in fragments && n > 0 {
          var f := fragments[name];
          ForWithin(schema, concrete, f.condition, Written(fragments, f.condition, f.selections, n - 1));
        }
    }
  }

  // -------------------------------------------------------- which are selected

  predicate HasChosen(fields: seq<Chosen>, key: string) {
    exists k :: 0 <= k < |fields| && fields[k].key == key
  }

  predicate HasField(fields: seq<FieldContext>, key: string) {
    exists k :: 0 <= k < |fields| && fields[k].key == key
  }

  /** Some field not marked, under the key, is reached through at most `n` spreads
      by conditions that all apply. */
  predicate Selects(schema: Schema, fragments: Fragments, concrete: string, scope: string, selections: seq<Selection>, key: string, n: nat) {
    HasChosen(Fields(schema, fragments, concrete, scope, selections, n), key)
  }

  predicate SelectsOne(schema: Schema, fragments: Fragments, concrete: string, scope: string, selection: Selection, key: string, n: nat) {
    HasChosen(FieldsOne(schema, fragments, concrete, scope, selection, n), key)
  }

  ghost predicate Selected(schema: Schema, fragments: Fragments, concrete: string, scope: string, selections: seq<Selection>, key: string) {
    exists n: nat :: Selects(schema, fragments, concrete, scope, selections, key, n)
  }

  lemma ChosenJoins(a: seq<Chosen>, b: seq<Chosen>, key: string)
    ensures HasChosen(a + b, key) <==> HasChosen(a, key) || HasChosen(b, key)
  {
    if HasChosen(a, key) {
      var k :| 0 <= k < |a| && a[k].key == key;
      assert (a + b)[k].key == key;
    }
    if HasChosen(b, key) {
      var k :| 0 <= k < |b| && b[k].key == key;
      assert (a + b)[|a| + k].key == key;
    }
  }

  lemma FieldsJoin(a: seq<FieldContext>, b: seq<FieldContext>, key: string)
    ensures HasField(a + b, key) <==> HasField(a, key) || HasField(b, key)
  {
    if HasField(a, key) {
      var k :| 0 <= k < |a| && a[k].key == key;
      assert (a + b)[k].key == key;
    }
    if HasField(b, key) {
      var k :| 0 <= k < |b| && b[k].key == key;
      assert (a + b)[|a| + k].key == key;
    }
  }

  lemma SelectsFirstOrLater(schema: Schema, fragments: Fragments, concrete: string, scope: string, selections: seq<Selection>, key: string, n: nat)
    requires selections != []
    ensures Selects(schema, fragments, concrete, scope, selections, key, n) <==>
            SelectsOne(schema, fragments, concrete, scope, selections[0], key, n) ||
            Selects(schema, fragments, concrete, scope, selections[1..], key, n)
  {
    FieldsFirst(schema, fragments, concrete, scope, selections, n);
    ChosenJoins(FieldsOne(schema, fragments, concrete, scope, selections[0], n),
                Fields(schema, fragments, concrete, scope, selections[1..], n), key);
  }

  lemma SelectsOneMeans(schema: Schema, fragments: Fragments, concrete: string, scope: string, selection: Selection, key: string, n: nat)
    ensures SelectsOne(schema, fragments, concrete, scope, selection, key, n) <==>
            match selection {
              case Field(name, alias, cacheOnly, sub) => !cacheOnly && alias.UnwrapOr(name) == key
              case Inline(condition, selections) =>
                (condition.Some? ==> Applies(schema, condition.value, concrete)) &&
                Selects(schema, fragments, concrete, condition.UnwrapOr(scope), selections, key, n)
              case Spread(name) =>
                name in fragments && n > 0 && Applies(schema, fragments[name].condition, concrete) &&
                Selects(schema, fragments, concrete, fragments[name].condition, fragments[name].selections, key, n - 1)
            }
  {
    FieldsOfOne(schema, fragments, concrete, scope, selection, n);
    if selection.Field? && !selection.cacheOnly {
      assert FieldsOne(schema, fragments, concrete, scope, selection, n)[0].key == selection.alias.UnwrapOr(selection.name);
    }
  }

  lemma CollectedFirstOrLater(schema: Schema, fragments: Fragments, concrete: string, scope: string, selections: seq<Selection>,
                              active: set<string>, key: string)
    requires selections != [] && Collect(schema, fragments, concrete, scope, selections, active).Ok?
    ensures CollectOne(schema, fragments, concrete, scope, selections[0], active).Ok?
    ensures Collect(schema, fragments, concrete, scope, selections[1..], active).Ok?
    ensures HasField(Collect(schema, fragments, concrete, scope, selections, active).value, key) <==>
            HasField(CollectOne(schema, fragments, concrete, scope, selections[0], active).value, key) ||
            HasField(Collect(schema, fragments, concrete, scope, selections[1..], active).value, key)
  {
    FieldsJoin(CollectOne(schema, fragments, concrete, scope, selections[0], active).value,
               Collect(schema, fragments, concrete, scope, selections[1..], active).value, key);
  }

  lemma {:induction false} SelectsMore(schema: Schema, fragments: Fragments, concrete: string, scope: string, selections: seq<Selection>,
                                       key: string, m: nat, n: nat)
    requires Selects(schema, fragments, concrete, scope, selections, key, m) && m <= n
    ensures Selects(schema, fragments, concrete, scope, selections, key, n)
    decreases m, selections
  {
    if selections != [] {
      SelectsFirstOrLater(schema, fragments, concrete, scope, selections, key, m);
      SelectsFirstOrLater(schema, fragments, concrete, scope, selections, key, n);
      if SelectsOne(schema, fragments, concrete, scope, selections[0], key, m) {
        SelectsMoreOne(schema, fragments, concrete, scope, selections[0], key, m, n);
      } else {
        SelectsMore(schema, fragments, concrete, scope, selections[1..], key, m, n);
      }
    }
  }

  lemma {:induction false} SelectsMoreOne(schema: Schema, fragments: Fragments, concrete: string, scope: string, selection: Selection,
                                          key: string, m: nat, n: nat)
    requires SelectsOne(schema, fragments, concrete, scope, selection, key, m) && m <= n
    ensures SelectsOne(schema, fragments, concrete, scope, selection, key, n)
    decreases m, selection
  {
    SelectsOneMeans(schema, fragments, concrete, scope, selection, key, m);
    SelectsOneMeans(schema, fragments, concrete, scope, selection, key, n);
    match selection {
      case Field(_, _, _, _) =>
      case Inline(condition, selections) =>
        SelectsMore(schema, fragments, concrete, condition.UnwrapOr(scope), selections, key, m, n);
      case Spread(name) =>
        SelectsMore(schema, fragments, concrete, fragments[name].condition, fragments[name].selections, key, m - 1, n - 1);
    }
  }

  /** What is collected is selected. */
  lemma {:induction false} CollectedIsSelected(schema: Schema, fragments: Fragments, concrete: string, scope: string,
                                               selections: seq<Selection>, active: set<string>, key: string)
    requires Collect(schema, fragments, concrete, scope, selections, active).Ok? && Applies(schema, scope, concrete)
    requires HasField(Collect(schema, fragments, concrete, scope, selections, active).value, key)
    ensures Selects(schema, fragments, concrete, scope, selections, key, |Inactive(fragments, active)|)
    decreases |Inactive(fragments, active)|, selections
  {
    var n := |Inactive(fragments, active)|;
    CollectedFirstOrLater(schema, fragments, concrete, scope, selections, active, key);
    SelectsFirstOrLater(schema, fragments, concrete, scope, selections, key, n);
    if HasField(CollectOne(schema, fragments, concrete, scope, selections[0], active).value, key) {
      CollectedIsSelectedOne(schema, fragments, concrete, scope, selections[0], active, key);
    } else {
      CollectedIsSelected(schema, fragments, concrete, scope, selections[1..], active, key);
    }
  }

  lemma {:induction false} CollectedIsSelectedOne(schema: Schema, fragments: Fragments, concrete: string, scope: string,
                                                  selection: Selection, active: set<string>, key: string)
    requires CollectOne(schema, fragments, concrete, scope, selection, active).Ok? && Applies(schema, scope, concrete)
    requires HasField(CollectOne(schema, fragments, concrete, scope, selection, active).value, key)
    ensures SelectsOne(schema, fragments, concrete, scope, selection, key, |Inactive(fragments, active)|)
    decreases |Inactive(fragments, active)|, selection
  {
    SelectsOneMeans(schema, fragments, concrete, scope, selection, key, |Inactive(fragments, active)|);
    match selection {
      case Field(_, _, _, _) =>
      case Inline(condition, selections) =>
        CollectedIsSelected(schema, fragments, concrete, condition.UnwrapOr(scope), selections, active, key);
      case Spread(name) =>
        Entering(fragments, active, name);
        CollectedIsSelected(schema, fragments, concrete, fragments[name].condition, fragments[name].selections, active + {name}, key);
        EnteredSelects(schema, fragments, concrete, active, name, key);
    }
  }

  lemma EnteredSelects(schema: Schema, fragments: Fragments, concrete: string, active: set<string>, name: string, key: string)
    requires name in fragments && name !in active
    requires FragmentSelects(schema, fragments, concrete, name, key, |Inactive(fragments, active + {name})|)
    ensures |Inactive(fragments, active)| > 0 && FragmentSelects(schema, fragments, concrete, name, key, |Inactive(fragments, active)| - 1)
  {
    Entering(fragments, active, name);
    SelectsMore(schema, fragments, concrete, fragments[name].condition, fragments[name].selections, key,
                |Inactive(fragments, active + {name})|, |Inactive(fragments, active)| - 1);
  }

  ghost predicate FragmentSelects(schema: Schema, fragments: Fragments, concrete: string, name: string, key: string, n: nat)
    requires name in fragments
  {
    Selects(schema, fragments, concrete, fragments[name].condition, fragments[name].selections, key, n)
  }

  /** No fragment being walked gets to the key in fewer spreads than are left. */
  ghost predicate NoneShorter(schema: Schema, fragments: Fragments, concrete: string, active: set<string>, key: string, n: nat) {
    n > 0 ==> forall a :: a in active && a in fragments ==> !FragmentSelects(schema, fragments, concrete, a, key, n - 1)
  }

  /** The fewest spreads it takes. */
  lemma {:induction false} FewestSpreads(schema: Schema, fragments: Fragments, concrete: string, name: string, key: string, n: nat)
    returns (m: nat)
    requires name in fragments && FragmentSelects(schema, fragments, concrete, name, key, n)
    ensures m <= n && FragmentSelects(schema, fragments, concrete, name, key, m)
    ensures m > 0 ==> !FragmentSelects(schema, fragments, concrete, name, key, m - 1)
    decreases n
  {
    if n > 0 && FragmentSelects(schema, fragments, concrete, name, key, n - 1) {
      m := FewestSpreads(schema, fragments, concrete, name, key, n - 1);
    } else {
      m := n;
    }
  }

  lemma {:induction false} EnteringNoneShorter(schema: Schema, fragments: Fragments, concrete: string, active: set<string>, name: string,
                                               key: string, m: nat, n: nat)
    requires NoneShorter(schema, fragments, concrete, active, key, n) && m < n && name in fragments
    requires m > 0 ==> !FragmentSelects(schema, fragments, concrete, name, key, m - 1)
    ensures NoneShorter(schema, fragments, concrete, active + {name}, key, m)
  {
    if m > 0 {
      forall a | a in active + {name} && a in fragments
        ensures !FragmentSelects(schema, fragments, concrete, a, key, m - 1)
      {
        if a != name && FragmentSelects(schema, fragments, concrete, a, key, m - 1) {
          SelectsMore(schema, fragments, concrete, fragments[a].condition, fragments[a].selections, key, m - 1, n - 1);
        }
      }
    }
  }

  /** What is selected is collected: whatever spreads lead to it, cutting their
      cycles leaves a way the walk takes. */
  lemma {:induction false} SelectedIsCollected(schema: Schema, fragments: Fragments, concrete: string, scope: string,
                                               selections: seq<Selection>, active: set<string>, key: string, n: nat)
    requires Collect(schema, fragments, concrete, scope, selections, active).Ok? && Applies(schema, scope, concrete)
    requires Selects(schema, fragments, concrete, scope, selections, key, n) && NoneShorter(schema, fragments, concrete, active, key, n)
    ensures HasField(Collect(schema, fragments, concrete, scope, selections, active).value, key)
    decreases n, selections
  {
    if selections != [] {
      CollectedFirstOrLater(schema, fragments, concrete, scope, selections, active, key);
      SelectsFirstOrLater(schema, fragments, concrete, scope, selections, key, n);
      if SelectsOne(schema, fragments, concrete, scope, selections[0], key, n) {
        SelectedIsCollectedOne(schema, fragments, concrete, scope, selections[0], active, key, n);
      } else {
        SelectedIsCollected(schema, fragments, concrete, scope, selections[1..], active, key, n);
      }
    }
  }

  lemma {:induction false} SelectedIsCollectedOne(schema: Schema, fragments: Fragments, concrete: string, scope: string,
                                                  selection: Selection, active: set<string>, key: string, n: nat)
    requires CollectOne(schema, fragments, concrete, scope, selection, active).Ok? && Applies(schema, scope, concrete)
    requires SelectsOne(schema, fragments, concrete, scope, selection, key, n) && NoneShorter(schema, fragments, concrete, active, key, n)
    ensures HasField(CollectOne(schema, fragments, concrete, scope, selection, active).value, key)
    decreases n, selection
  {
    SelectsOneMeans(schema, fragments, concrete, scope, selection, key, n);
    match selection {
      case Field(name, alias, cacheOnly, sub) =>
        assert [FieldContext(name, alias.UnwrapOr(name), scope, Context(sub, active))][0].key == key;
      case Inline(condition, selections) =>
        SelectedIsCollected(schema, fragments, concrete, condition.UnwrapOr(scope), selections, active, key, n);
      case Spread(name) =>
        var m := FewestSpreads(schema, fragments, concrete, name, key, n - 1);
        assert name !in active;
        EnteringNoneShorter(schema, fragments, concrete, active, name, key, m, n);
        SelectedIsCollected(schema, fragments, concrete, fragments[name].condition, fragments[name].selections, active + {name}, key, m);
    }
  }

  /** On any fragments, cyclic or not, a field is collected under a key exactly
      when some field not marked is selected under it. */
  lemma CollectedIffSelected(schema: Schema, fragments: Fragments, concrete: string, parent: string, selections: seq<Selection>, key: string)
    requires Collect(schema, fragments, concrete, parent, selections, {}).Ok? && concrete in PossibleObjects(schema, parent)
    ensures HasField(Collect(schema, fragments, concrete, parent, selections, {}).value, key) <==>
            Selected(schema, fragments, concrete, parent, selections, key)
  {
    if HasField(Collect(schema, fragments, concrete, parent, selections, {}).value, key) {
      CollectedIsSelected(schema, fragments, concrete, parent, selections, {}, key);
    }
    if Selected(schema, fragments, concrete, parent, selections, key) {
      var n: nat :| Selects(schema, fragments, concrete, parent, selections, key, n);
      SelectedIsCollected(schema, fragments, concrete, parent, selections, {}, key, n);
    }
  }
}
