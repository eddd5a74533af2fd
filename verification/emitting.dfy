/**
 A response key is in the projection exactly when a field not marked is selected
 under it and something is left of what is merged below.
 */
module Emitting {
  import opened Common
  import opened CacheOnly
  import opened Projections
  import opened Inlining
  import opened Selecting

  // ------------------------------------------------------------ what is shown

  /** The fields an object type gets from several selection sets, in order. */
  function AllFields(schema: Schema, fragments: Fragments, concrete: string, parent: string, sets: seq<seq<Selection>>, n: nat): seq<Chosen> {
    if sets == [] then []
    else AllFields(schema, fragments, concrete, parent, sets[..|sets| - 1], n) +
         Fields(schema, fragments, concrete, parent, sets[|sets| - 1], n)
  }

  function Under(fields: seq<Chosen>, key: string): seq<Chosen> {
    if fields == [] then []
    else Under(fields[..|fields| - 1], key) + if fields[|fields| - 1].key == key then [fields[|fields| - 1]] else []
  }

  function SubsOf(fields: seq<Chosen>): seq<seq<Selection>> {
    if fields == [] then [] else SubsOf(fields[..|fields| - 1]) + [fields[|fields| - 1].sub]
  }

  /** A key of an object type. */
  datatype Place = Place(actual: string, key: string)

  predicate IsPlace(schema: Schema, named: string, place: Place) {
    place.actual in PossibleObjects(schema, named)
  }

  /** Some field not marked is selected under the key, and its first one is a type
      name, or a leaf, or of a type one of whose objects shows some key of what the
      fields select below, `depth` levels down at most. */
  ghost predicate Shows(schema: Schema, fragments: Fragments, n: nat, concrete: string, parent: string, sets: seq<seq<Selection>>, key: string,
                        depth: nat)
    decreases depth, 0
  {
    var same := Under(AllFields(schema, fragments, concrete, parent, sets, n), key);
    same != [] &&
    (same[0].name == "__typename" ||
     var named := FieldType(schema, same[0].scope, same[0].name);
     named.Ok? && (IsComposite(schema, named.value) ==> depth > 0 && ShowsBelow(schema, fragments, n, named.value, SubsOf(same), depth - 1)))
  }

  ghost predicate ShowsBelow(schema: Schema, fragments: Fragments, n: nat, named: string, sets: seq<seq<Selection>>, depth: nat)
    decreases depth, 1
  {
    exists place :: IsPlace(schema, named, place) && Shows(schema, fragments, n, place.actual, named, sets, place.key, depth)
  }

  ghost predicate ShownBelow(schema: Schema, fragments: Fragments, n: nat, named: string, sets: seq<seq<Selection>>) {
    exists depth: nat :: ShowsBelow(schema, fragments, n, named, sets, depth)
  }

  ghost predicate Shown(schema: Schema, fragments: Fragments, n: nat, concrete: string, parent: string, sets: seq<seq<Selection>>, key: string) {
    exists depth: nat :: Shows(schema, fragments, n, concrete, parent, sets, key, depth)
  }

  // ---------------------------------------------------- what the walk collects

  ghost predicate FitsAt(c: Context, fragments: Fragments, ranks: Ranks, r: nat) {
    SpreadsBelow(c.selections, fragments, ranks, r) && ActiveAbove(c.active, ranks, r)
  }

  /** No spread of the selection set is of a fragment it is inside of. */
  ghost predicate Fits(c: Context, fragments: Fragments, ranks: Ranks, n: nat) {
    exists r: nat :: r <= n && FitsAt(c, fragments, ranks, r)
  }

  ghost predicate Matches(f: FieldContext, g: Chosen, fragments: Fragments, ranks: Ranks, n: nat) {
    g == Chosen(f.scope, f.name, f.key, f.below.selections) && Fits(f.below, fragments, ranks, n)
  }

  ghost predicate MatchAll(fields: seq<FieldContext>, chosen: seq<Chosen>, fragments: Fragments, ranks: Ranks, n: nat) {
    |fields| == |chosen| && forall k :: 0 <= k < |fields| ==> Matches(fields[k], chosen[k], fragments, ranks, n)
  }

  /** On a document without fragment cycles the walk collects exactly the fields
      that are for the type, in order. */
  lemma {:induction false} CollectMatches(schema: Schema, fragments: Fragments, ranks: Ranks, r: nat, n: nat, top: nat, concrete: string,
                                          scope: string, selections: seq<Selection>, active: set<string>)
    requires Acyclic(fragments, ranks) && FitsAt(Context(selections, active), fragments, ranks, r) && r <= n && r <= top
    requires Applies(schema, scope, concrete) && Collect(schema, fragments, concrete, scope, selections, active).Ok?
    ensures MatchAll(Collect(schema, fragments, concrete, scope, selections, active).value,
                     Fields(schema, fragments, concrete, scope, selections, n), fragments, ranks, top)
    decreases r, selections
  {
    if selections != [] {
      CollectOneMatches(schema, fragments, ranks, r, n, top, concrete, scope, selections[0], active);
      CollectMatches(schema, fragments, ranks, r, n, top, concrete, scope, selections[1..], active);
      FieldsFirst(schema, fragments, concrete, scope, selections, n);
    }
  }

  lemma {:induction false} CollectOneMatches(schema: Schema, fragments: Fragments, ranks: Ranks, r: nat, n: nat, top: nat, concrete: string,
                                             scope: string, selection: Selection, active: set<string>)
    requires Acyclic(fragments, ranks) && SpreadBelow(selection, fragments, ranks, r) && ActiveAbove(active, ranks, r) && r <= n && r <= top
    requires Applies(schema, scope, concrete) && CollectOne(schema, fragments, concrete, scope, selection, active).Ok?
    ensures MatchAll(CollectOne(schema, fragments, concrete, scope, selection, active).value,
                     FieldsOne(schema, fragments, concrete, scope, selection, n), fragments, ranks, top)
    decreases r, selection
  {
    FieldsOfOne(schema, fragments, concrete, scope, selection, n);
    match selection {
      case Field(_, _, _, sub) =>
        assert FitsAt(Context(sub, active), fragments, ranks, r);
      case Inline(condition, selections) =>
        if Applies(schema, condition.UnwrapOr(scope), concrete) {
          CollectMatches(schema, fragments, ranks, r, n, top, concrete, condition.UnwrapOr(scope), selections, active);
        }
      case Spread(name) =>
        assert name !in active;
        if Applies(schema, fragments[name].condition, concrete) {
          CollectMatches(schema, fragments, ranks, ranks[name], n - 1, top, concrete, fragments[name].condition, fragments[name].selections,
                         active + {name});
        }
    }
  }

  /** The contexts of the selection sets, but for empty ones. */
  ghost predicate ContextsFor(contexts: seq<Context>, sets: seq<seq<Selection>>, fragments: Fragments, ranks: Ranks, n: nat)
    decreases |sets|
  {
    if sets == [] then contexts == []
    else
      var m := |sets| - 1;
      (sets[m] == [] && ContextsFor(contexts, sets[..m], fragments, ranks, n)) ||
        (contexts != [] && contexts[|contexts| - 1].selections == sets[m] && Fits(contexts[|contexts| - 1], fragments, ranks, n) &&
         ContextsFor(contexts[..|contexts| - 1], sets[..m], fragments, ranks, n))
  }

  lemma {:induction false} CollectAllMatches(schema: Schema, fragments: Fragments, ranks: Ranks, n: nat, concrete: string, parent: string,
                                             contexts: seq<Context>, sets: seq<seq<Selection>>)
    requires Acyclic(fragments, ranks) && ContextsFor(contexts, sets, fragments, ranks, n)
    requires Applies(schema, parent, concrete) && CollectAll(schema, fragments, concrete, parent, contexts).Ok?
    ensures MatchAll(CollectAll(schema, fragments, concrete, parent, contexts).value,
                     AllFields(schema, fragments, concrete, parent, sets, n), fragments, ranks, n)
    decreases |sets|
  {
    if sets != [] {
      var m := |sets| - 1;
      if sets[m] == [] && ContextsFor(contexts, sets[..m], fragments, ranks, n) {
        CollectAllMatches(schema, fragments, ranks, n, concrete, parent, contexts, sets[..m]);
      } else {
        var last := contexts[|contexts| - 1];
        CollectAllMatches(schema, fragments, ranks, n, concrete, parent, contexts[..|contexts| - 1], sets[..m]);
        var r: nat :| r <= n && FitsAt(last, fragments, ranks, r);
        CollectMatches(schema, fragments, ranks, r, n, n, concrete, parent, last.selections, last.active);
      }
    }
  }

  lemma MatchJoins(a: seq<FieldContext>, b: seq<FieldContext>, x: seq<Chosen>, y: seq<Chosen>, fragments: Fragments, ranks: Ranks, n: nat)
    requires MatchAll(a, x, fragments, ranks, n) && MatchAll(b, y, fragments, ranks, n)
    ensures MatchAll(a + b, x + y, fragments, ranks, n)
  {}

  lemma {:induction false} WithKeyMatches(fields: seq<FieldContext>, chosen: seq<Chosen>, fragments: Fragments, ranks: Ranks, n: nat, key: string)
    requires MatchAll(fields, chosen, fragments, ranks, n)
    ensures MatchAll(WithKey(fields, key), Under(chosen, key), fragments, ranks, n)
    decreases |fields|
  {
    if fields != [] {
      var m := |fields| - 1;
      WithKeyMatches(fields[..m], chosen[..m], fragments, ranks, n, key);
      assert Matches(fields[m], chosen[m], fragments, ranks, n);
      MatchJoins(WithKey(fields[..m], key), if fields[m].key == key then [fields[m]] else [],
                 Under(chosen[..m], key), if chosen[m].key == key then [chosen[m]] else [], fragments, ranks, n);
    }
  }

  lemma {:induction false} SubContextsMatch(fields: seq<FieldContext>, chosen: seq<Chosen>, fragments: Fragments, ranks: Ranks, n: nat)
    requires MatchAll(fields, chosen, fragments, ranks, n)
    ensures ContextsFor(SubContexts(fields), SubsOf(chosen), fragments, ranks, n)
    decreases |fields|
  {
    if fields != [] {
      var m := |fields| - 1;
      SubContextsMatch(fields[..m], chosen[..m], fragments, ranks, n);
      assert Matches(fields[m], chosen[m], fragments, ranks, n);
      ContextsMore(SubContexts(fields[..m]), SubsOf(chosen[..m]), fields[m].below, fragments, ranks, n);
    }
  }

  lemma ContextsMore(contexts: seq<Context>, sets: seq<seq<Selection>>, last: Context, fragments: Fragments, ranks: Ranks, n: nat)
    requires ContextsFor(contexts, sets, fragments, ranks, n) && Fits(last, fragments, ranks, n)
    ensures ContextsFor(contexts + if last.selections != [] then [last] else [], sets + [last.selections], fragments, ranks, n)
  {
    assert (sets + [last.selections])[..|sets|] == sets;
    if last.selections != [] {
      assert (contexts + [last])[..|contexts|] == contexts;
    } else {
      assert contexts + [] == contexts;
    }
  }

  // ------------------------------------------------------- what the walk renders

  lemma {:induction false} TypesRendered(schema: Schema, fragments: Fragments, bound: nat, parent: string, types: seq<string>, contexts: seq<Context>)
    requires Bounded(fragments, bound) && RenderTypes(schema, fragments, bound, parent, types, contexts).Ok?
    ensures |RenderTypes(schema, fragments, bound, parent, types, contexts).value| == |types|
    ensures forall k :: 0 <= k < |types| ==>
              RenderObject(schema, fragments, bound, parent, types[k], contexts) ==
              Ok(RenderTypes(schema, fragments, bound, parent, types, contexts).value[k])
    decreases |types|
  {
    if types != [] {
      var m := |types| - 1;
      TypesRendered(schema, fragments, bound, parent, types[..m], contexts);
      LastTypeRendered(schema, fragments, bound, parent, types, contexts);
      assert forall k :: 0 <= k < m ==> types[..m][k] == types[k];
    }
  }

  lemma {:induction false} LastTypeRendered(schema: Schema, fragments: Fragments, bound: nat, parent: string, types: seq<string>,
                                            contexts: seq<Context>)
    requires Bounded(fragments, bound) && types != [] && RenderTypes(schema, fragments, bound, parent, types, contexts).Ok?
    ensures RenderTypes(schema, fragments, bound, parent, types[..|types| - 1], contexts).Ok?
    ensures RenderObject(schema, fragments, bound, parent, types[|types| - 1], contexts).Ok?
    ensures RenderTypes(schema, fragments, bound, parent, types, contexts).value ==
            RenderTypes(schema, fragments, bound, parent, types[..|types| - 1], contexts).value +
            [RenderObject(schema, fragments, bound, parent, types[|types| - 1], contexts).value]
  {}

  lemma {:induction false} NothingRendered(schema: Schema, fragments: Fragments, bound: nat, parent: string, types: seq<string>)
    requires Bounded(fragments, bound)
    ensures RenderTypes(schema, fragments, bound, parent, types, []).Ok?
    ensures |RenderTypes(schema, fragments, bound, parent, types, []).value| == |types|
    ensures forall k :: 0 <= k < |types| ==> RenderTypes(schema, fragments, bound, parent, types, []).value[k] == []
    decreases |types|
  {
    if types != [] {
      NothingRendered(schema, fragments, bound, parent, types[..|types| - 1]);
      assert RenderObject(schema, fragments, bound, parent, types[|types| - 1], []) == Ok([]);
    }
  }

  lemma {:induction false} NothingLeft(schema: Schema, fragments: Fragments, bound: nat, named: string)
    requires Bounded(fragments, bound)
    ensures Render(schema, fragments, bound, named, []) == Ok(None)
  {
    NothingRendered(schema, fragments, bound, named, PossibleObjects(schema, named));
  }

  ghost predicate ObjectHas(schema: Schema, fragments: Fragments, bound: nat, named: string, actual: string, contexts: seq<Context>, key: string)
    requires Bounded(fragments, bound)
  {
    var r := RenderObject(schema, fragments, bound, named, actual, contexts);
    r.Ok? && HasKey(r.value, key)
  }

  /** A projection is not empty exactly when some object type has some key. */
  lemma {:induction false} SomethingRendered(schema: Schema, fragments: Fragments, bound: nat, named: string, contexts: seq<Context>)
    requires Bounded(fragments, bound) && Render(schema, fragments, bound, named, contexts).Ok?
    ensures forall actual :: actual in PossibleObjects(schema, named) ==> RenderObject(schema, fragments, bound, named, actual, contexts).Ok?
    ensures Render(schema, fragments, bound, named, contexts).value.Some? <==>
            exists actual, key :: actual in PossibleObjects(schema, named) && ObjectHas(schema, fragments, bound, named, actual, contexts, key)
  {
    var types := PossibleObjects(schema, named);
    var branches: seq<seq<Property>> := RenderTypes(schema, fragments, bound, named, types, contexts).value;
    TypesRendered(schema, fragments, bound, named, types, contexts);
    if k: nat :| k < |branches| && branches[k] != [] {
      assert HasKey(branches[k], branches[k][0].key);
      assert types[k] in types && ObjectHas(schema, fragments, bound, named, types[k], contexts, branches[k][0].key);
    }
    if actual, key :| actual in types && ObjectHas(schema, fragments, bound, named, actual, contexts, key) {
      var k :| 0 <= k < |types| && types[k] == actual;
      assert branches[k] != [];
    }
  }

  // ------------------------------------------------------------ both together

  /** The walk renders exactly the keys that are shown, at every level. */
  lemma {:induction false} RenderedIffShown(schema: Schema, fragments: Fragments, ranks: Ranks, bound: nat, n: nat, parent: string, concrete: string,
                                            contexts: seq<Context>, sets: seq<seq<Selection>>, key: string)
    requires Bounded(fragments, bound) && Acyclic(fragments, ranks) && ContextsFor(contexts, sets, fragments, ranks, n)
    requires concrete in PossibleObjects(schema, parent) && RenderObject(schema, fragments, bound, parent, concrete, contexts).Ok?
    ensures ObjectHas(schema, fragments, bound, parent, concrete, contexts, key) <==> Shown(schema, fragments, n, concrete, parent, sets, key)
    decreases MaxWeight(fragments, bound, contexts)
  {
    var fields := CollectAll(schema, fragments, concrete, parent, contexts).value;
    var chosen := AllFields(schema, fragments, concrete, parent, sets, n);
    var same := WithKey(fields, key);
    var under := Under(chosen, key);
    KeyIsRendered(schema, fragments, bound, parent, concrete, contexts, key);
    CollectAllMatches(schema, fragments, ranks, n, concrete, parent, contexts, sets);
    WithKeyMatches(fields, chosen, fragments, ranks, n, key);
    if same != [] {
      assert Matches(same[0], under[0], fragments, ranks, n);
      SubContextsMatch(same, under, fragments, ranks, n);
      if IsNested(schema, same) {
        var named := FieldType(schema, same[0].scope, same[0].name).value;
        NestedIsLighter(schema, fragments, bound, parent, concrete, contexts, key);
        forall actual, below | actual in PossibleObjects(schema, named) && RenderObject(schema, fragments, bound, named, actual, SubContexts(same)).Ok?
          ensures ObjectHas(schema, fragments, bound, named, actual, SubContexts(same), below) <==>
                  Shown(schema, fragments, n, actual, named, SubsOf(under), below)
        {
          RenderedIffShown(schema, fragments, ranks, bound, n, named, actual, SubContexts(same), SubsOf(under), below);
        }
        NestedKey(schema, fragments, bound, n, concrete, parent, sets, key, same, named);
      } else {
        ShownAtOnce(schema, fragments, n, concrete, parent, sets, key);
      }
    }
  }

  /** A key of a composite type is rendered exactly when it is shown, if that is
      so of the keys below it. */
  lemma {:induction false} NestedKey(schema: Schema, fragments: Fragments, bound: nat, n: nat, concrete: string, parent: string,
                                     sets: seq<seq<Selection>>, key: string, same: seq<FieldContext>, named: string)
    requires Bounded(fragments, bound) && same != [] && IsNested(schema, same) && FieldType(schema, same[0].scope, same[0].name) == Ok(named)
    requires SubContexts(same) != [] ==> Render(schema, fragments, bound, named, SubContexts(same)).Ok?
    requires var under := Under(AllFields(schema, fragments, concrete, parent, sets, n), key);
             && under != [] && under[0].scope == same[0].scope && under[0].name == same[0].name
             && forall actual, below ::
                  (actual in PossibleObjects(schema, named) && RenderObject(schema, fragments, bound, named, actual, SubContexts(same)).Ok?) ==>
                  (ObjectHas(schema, fragments, bound, named, actual, SubContexts(same), below) <==>
                   Shown(schema, fragments, n, actual, named, SubsOf(under), below))
    ensures NotEmpty(schema, fragments, bound, same) <==> Shown(schema, fragments, n, concrete, parent, sets, key)
  {
    var below := Render(schema, fragments, bound, named, SubContexts(same));
    if SubContexts(same) == [] { NothingLeft(schema, fragments, bound, named); }
    NestedIffShown(schema, fragments, bound, n, named, SubContexts(same), SubsOf(Under(AllFields(schema, fragments, concrete, parent, sets, n), key)));
    assert NotEmpty(schema, fragments, bound, same) <==> below.value.Some?;
    ShownIfBelow(schema, fragments, n, concrete, parent, sets, key, named);
  }

  predicate IsNested(schema: Schema, same: seq<FieldContext>)
    requires same != []
  {
    same[0].name != "__typename" && FieldType(schema, same[0].scope, same[0].name).Ok? &&
    IsComposite(schema, FieldType(schema, same[0].scope, same[0].name).value)
  }

  /** What is walked below a key weighs less, and does not fail where the whole
      does not. */
  lemma {:induction false} NestedIsLighter(schema: Schema, fragments: Fragments, bound: nat, parent: string, concrete: string,
                                           contexts: seq<Context>, key: string)
    requires Bounded(fragments, bound) && RenderObject(schema, fragments, bound, parent, concrete, contexts).Ok?
    requires CollectAll(schema, fragments, concrete, parent, contexts).Ok?
    requires var same := WithKey(CollectAll(schema, fragments, concrete, parent, contexts).value, key); same != [] && IsNested(schema, same)
    ensures var same := WithKey(CollectAll(schema, fragments, concrete, parent, contexts).value, key);
            && MaxWeight(fragments, bound, SubContexts(same)) < MaxWeight(fragments, bound, contexts)
            && (SubContexts(same) != [] ==> Render(schema, fragments, bound, FieldType(schema, same[0].scope, same[0].name).value, SubContexts(same)).Ok?)
  {
    var fields := CollectAll(schema, fragments, concrete, parent, contexts).value;
    var same := WithKey(fields, key);
    var limit := MaxWeight(fragments, bound, contexts);
    AllCollectedIsLighter(schema, fragments, bound, concrete, parent, contexts);
    assert same[0] in fields && limit > 0;
    SubContextsAreLighter(fragments, bound, fields, key, limit);
    KeysDoNotFail(schema, fragments, bound, fields, KeysOf(fields), limit, key);
  }

  lemma {:induction false} KeysDoNotFail(schema: Schema, fragments: Fragments, bound: nat, fields: seq<FieldContext>, keys: seq<string>, limit: nat,
                                         key: string)
    requires Bounded(fragments, bound) && Below(fragments, bound, fields, limit) && key in keys
    requires RenderKeys(schema, fragments, bound, fields, keys, limit).Ok?
    ensures RenderKey(schema, fragments, bound, fields, key, limit).Ok?
    decreases |keys|
  {
    LastIn(keys, key);
    if key in keys[..|keys| - 1] {
      KeysDoNotFail(schema, fragments, bound, fields, keys[..|keys| - 1], limit, key);
    }
  }

  /** What is left below a key is shown below it. */
  lemma {:induction false} NestedIffShown(schema: Schema, fragments: Fragments, bound: nat, n: nat, named: string, contexts: seq<Context>,
                                          sets: seq<seq<Selection>>)
    requires Bounded(fragments, bound) && Render(schema, fragments, bound, named, contexts).Ok?
    requires forall actual, key ::
               (actual in PossibleObjects(schema, named) && RenderObject(schema, fragments, bound, named, actual, contexts).Ok?) ==>
               (ObjectHas(schema, fragments, bound, named, actual, contexts, key) <==> Shown(schema, fragments, n, actual, named, sets, key))
    ensures Render(schema, fragments, bound, named, contexts).value.Some? <==> ShownBelow(schema, fragments, n, named, sets)
  {
    SomethingRendered(schema, fragments, bound, named, contexts);
    if Render(schema, fragments, bound, named, contexts).value.Some? {
      var actual, key :| actual in PossibleObjects(schema, named) && ObjectHas(schema, fragments, bound, named, actual, contexts, key);
      assert Shown(schema, fragments, n, actual, named, sets, key);
      var depth: nat :| Shows(schema, fragments, n, actual, named, sets, key, depth);
      assert IsPlace(schema, named, Place(actual, key));
      assert ShowsBelow(schema, fragments, n, named, sets, depth);
    }
    if depth: nat :| ShowsBelow(schema, fragments, n, named, sets, depth) {
      var place :| IsPlace(schema, named, place) && Shows(schema, fragments, n, place.actual, named, sets, place.key, depth);
      assert ObjectHas(schema, fragments, bound, named, place.actual, contexts, place.key);
    }
  }

  lemma {:induction false} ShownIfBelow(schema: Schema, fragments: Fragments, n: nat, concrete: string, parent: string, sets: seq<seq<Selection>>,
                                        key: string, named: string)
    requires var same := Under(AllFields(schema, fragments, concrete, parent, sets, n), key);
             same != [] && same[0].name != "__typename" && FieldType(schema, same[0].scope, same[0].name) == Ok(named) && IsComposite(schema, named)
    ensures Shown(schema, fragments, n, concrete, parent, sets, key) <==>
            ShownBelow(schema, fragments, n, named, SubsOf(Under(AllFields(schema, fragments, concrete, parent, sets, n), key)))
  {
    var subs := SubsOf(Under(AllFields(schema, fragments, concrete, parent, sets, n), key));
    if depth: nat :| ShowsBelow(schema, fragments, n, named, subs, depth) {
      assert Shows(schema, fragments, n, concrete, parent, sets, key, depth + 1);
    }
    if Shown(schema, fragments, n, concrete, parent, sets, key) {
      var depth: nat :| Shows(schema, fragments, n, concrete, parent, sets, key, depth);
      assert ShowsBelow(schema, fragments, n, named, subs, depth - 1);
    }
  }

  lemma {:induction false} ShownAtOnce(schema: Schema, fragments: Fragments, n: nat, concrete: string, parent: string, sets: seq<seq<Selection>>,
                                       key: string)
    requires var same := Under(AllFields(schema, fragments, concrete, parent, sets, n), key);
             && same != []
             && (same[0].name == "__typename" || FieldType(schema, same[0].scope, same[0].name).Err? ||
                 !IsComposite(schema, FieldType(schema, same[0].scope, same[0].name).value))
    ensures var same := Under(AllFields(schema, fragments, concrete, parent, sets, n), key);
            Shown(schema, fragments, n, concrete, parent, sets, key) <==>
            same[0].name == "__typename" || FieldType(schema, same[0].scope, same[0].name).Ok?
  {
    var same := Under(AllFields(schema, fragments, concrete, parent, sets, n), key);
    if same[0].name == "__typename" || FieldType(schema, same[0].scope, same[0].name).Ok? {
      assert Shows(schema, fragments, n, concrete, parent, sets, key, 0);
    }
  }

  // ------------------------------------------------------------ an operation

  /** An operation gives an object type a response key exactly when the key is
      shown: a field not marked is selected for it under the key, and of what is
      selected below something is left. The document has no fragment cycles, and
      `n` spreads reach all of it. */
  lemma {:induction false} KeyIsEmitted(schema: Schema, fragments: Fragments, ranks: Ranks, bound: nat, r: nat, n: nat, root: string,
                                        concrete: string, selections: seq<Selection>, key: string)
    requires Bounded(fragments, bound) && Acyclic(fragments, ranks) && SpreadsBelow(selections, fragments, ranks, r) && r <= n
    requires concrete in PossibleObjects(schema, root)
    requires RenderObject(schema, fragments, bound, root, concrete, [Context(selections, {})]).Ok?
    ensures HasKey(RenderObject(schema, fragments, bound, root, concrete, [Context(selections, {})]).value, key) <==>
            Shown(schema, fragments, n, concrete, root, [selections], key)
    ensures Shown(schema, fragments, n, concrete, root, [selections], key) ==> Selects(schema, fragments, concrete, root, selections, key, n)
  {
    var operation := Context(selections, {});
    OperationContexts(operation, fragments, ranks, r, n);
    RenderedIffShown(schema, fragments, ranks, bound, n, root, concrete, [operation], [selections], key);
    ShownIsSelected(schema, fragments, n, concrete, root, selections, key);
  }

  lemma OperationContexts(operation: Context, fragments: Fragments, ranks: Ranks, r: nat, n: nat)
    requires FitsAt(operation, fragments, ranks, r) && r <= n
    ensures ContextsFor([operation], [operation.selections], fragments, ranks, n)
  {
    assert [operation][..0] == [] && [operation.selections][..0] == [];
  }

  lemma ShownIsSelected(schema: Schema, fragments: Fragments, n: nat, concrete: string, root: string, selections: seq<Selection>, key: string)
    ensures Shown(schema, fragments, n, concrete, root, [selections], key) ==> Selects(schema, fragments, concrete, root, selections, key, n)
  {
    assert [selections][..0] == [];
    assert AllFields(schema, fragments, concrete, root, [selections], n) == Fields(schema, fragments, concrete, root, selections, n);
    UnderHas(Fields(schema, fragments, concrete, root, selections, n), key);
  }

  lemma {:induction false} UnderHas(fields: seq<Chosen>, key: string)
    ensures Under(fields, key) != [] <==> HasChosen(fields, key)
  {
    if fields != [] {
      var m := |fields| - 1;
      UnderHas(fields[..m], key);
      assert fields == fields[..m] + [fields[m]];
      ChosenJoins(fields[..m], [fields[m]], key);
      assert HasChosen([fields[m]], key) <==> fields[m].key == key by { assert [fields[m]][0] == fields[m]; }
    }
  }
}
