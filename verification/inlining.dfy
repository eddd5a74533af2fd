/**
 Fragments are a shorthand: on a document without fragment cycles the projection
 is the one of the document with every spread written out in place.
 */
module Inlining {
  import opened Common
  import opened CacheOnly
  import opened Projections

  type Ranks = map<string, nat>

  /** Every spread, at any depth, is of a fragment of a lower rank than `r`. */
  ghost predicate SpreadsBelow(selections: seq<Selection>, fragments: Fragments, ranks: Ranks, r: nat)
    decreases selections
  {
    selections == [] || (SpreadBelow(selections[0], fragments, ranks, r) && SpreadsBelow(selections[1..], fragments, ranks, r))
  }

  ghost predicate SpreadBelow(selection: Selection, fragments: Fragments, ranks: Ranks, r: nat)
    decreases selection
  {
    match selection
    case Field(_, _, _, sub) => SpreadsBelow(sub, fragments, ranks, r)
    case Inline(_, selections) => SpreadsBelow(selections, fragments, ranks, r)
    case Spread(name) => name in fragments && name in ranks && ranks[name] < r
  }

  /** No fragment spreads itself, directly or not: fragments can be ranked. */
  ghost predicate Acyclic(fragments: Fragments, ranks: Ranks) {
    forall name :: name in fragments ==> name in ranks && SpreadsBelow(fragments[name].selections, fragments, ranks, ranks[name])
  }

  /** Selections with every spread written out. */
  ghost function Inlined(selections: seq<Selection>, fragments: Fragments, ranks: Ranks, r: nat): (s: seq<Selection>)
    requires Acyclic(fragments, ranks) && SpreadsBelow(selections, fragments, ranks, r)
    ensures |s| == |selections|
    decreases r, selections
  {
    if selections == [] then []
    else [InlinedOne(selections[0], fragments, ranks, r)] + Inlined(selections[1..], fragments, ranks, r)
  }

  ghost function InlinedOne(selection: Selection, fragments: Fragments, ranks: Ranks, r: nat): Selection
    requires Acyclic(fragments, ranks) && SpreadBelow(selection, fragments, ranks, r)
    decreases r, selection
  {
    match selection
    case Field(name, alias, cacheOnly, sub) => Field(name, alias, cacheOnly, Inlined(sub, fragments, ranks, r))
    case Inline(condition, selections) => Inline(condition, Inlined(selections, fragments, ranks, r))
    case Spread(name) => Inline(Some(fragments[name].condition), Inlined(fragments[name].selections, fragments, ranks, ranks[name]))
  }

  /** The fragments a selection set is inside of are of its rank or higher, so
      none of them is spread in it. */
  ghost predicate ActiveAbove(active: set<string>, ranks: Ranks, r: nat) {
    forall a :: a in active && a in ranks ==> ranks[a] >= r
  }

  ghost predicate RelatedAt(c: Context, d: Context, fragments: Fragments, ranks: Ranks, r: nat) {
    Acyclic(fragments, ranks) && SpreadsBelow(c.selections, fragments, ranks, r) && ActiveAbove(c.active, ranks, r) &&
    d == Context(Inlined(c.selections, fragments, ranks, r), {})
  }

  /** A selection set, and the same written out, inside of no fragment. */
  ghost predicate Related(c: Context, d: Context, fragments: Fragments, ranks: Ranks) {
    exists r: nat :: RelatedAt(c, d, fragments, ranks, r)
  }

  ghost predicate FieldRelated(a: FieldContext, b: FieldContext, fragments: Fragments, ranks: Ranks) {
    a.name == b.name && a.key == b.key && a.scope == b.scope && Related(a.below, b.below, fragments, ranks)
  }

  ghost predicate FieldsRelated(a: seq<FieldContext>, b: seq<FieldContext>, fragments: Fragments, ranks: Ranks) {
    |a| == |b| && forall k :: 0 <= k < |a| ==> FieldRelated(a[k], b[k], fragments, ranks)
  }

  ghost predicate ContextsRelated(c: seq<Context>, d: seq<Context>, fragments: Fragments, ranks: Ranks) {
    |c| == |d| && forall k :: 0 <= k < |c| ==> Related(c[k], d[k], fragments, ranks)
  }

  ghost predicate SameFields(a: Result<seq<FieldContext>, Failure>, b: Result<seq<FieldContext>, Failure>, fragments: Fragments, ranks: Ranks) {
    match a
    case Err(error) => b == Err(error)
    case Ok(fields) => b.Ok? && FieldsRelated(fields, b.value, fragments, ranks)
  }

  const NONE: Fragments := map[]

  // -------------------------------------------------------------- collecting

  lemma {:induction false} CollectInlined(schema: Schema, fragments: Fragments, ranks: Ranks, r: nat, concrete: string, scope: string,
                                          selections: seq<Selection>, active: set<string>)
    requires Acyclic(fragments, ranks) && SpreadsBelow(selections, fragments, ranks, r) && ActiveAbove(active, ranks, r)
    ensures SameFields(Collect(schema, fragments, concrete, scope, selections, active),
                       Collect(schema, NONE, concrete, scope, Inlined(selections, fragments, ranks, r), {}), fragments, ranks)
    decreases r, selections
  {
    if selections != [] {
      var inlined := Inlined(selections, fragments, ranks, r);
      CollectOneInlined(schema, fragments, ranks, r, concrete, scope, selections[0], active);
      CollectInlined(schema, fragments, ranks, r, concrete, scope, selections[1..], active);
      assert inlined[0] == InlinedOne(selections[0], fragments, ranks, r);
      assert inlined[1..] == Inlined(selections[1..], fragments, ranks, r);
    }
  }

  lemma {:induction false} CollectOneInlined(schema: Schema, fragments: Fragments, ranks: Ranks, r: nat, concrete: string, scope: string,
                                             selection: Selection, active: set<string>)
    requires Acyclic(fragments, ranks) && SpreadBelow(selection, fragments, ranks, r) && ActiveAbove(active, ranks, r)
    ensures SameFields(CollectOne(schema, fragments, concrete, scope, selection, active),
                       CollectOne(schema, NONE, concrete, scope, InlinedOne(selection, fragments, ranks, r), {}), fragments, ranks)
    decreases r, selection
  {
    match selection {
      case Field(name, alias, cacheOnly, sub) =>
        assert RelatedAt(Context(sub, active), Context(Inlined(sub, fragments, ranks, r), {}), fragments, ranks, r);
      case Inline(condition, selections) =>
        CollectInlined(schema, fragments, ranks, r, concrete, condition.UnwrapOr(scope), selections, active);
      case Spread(name) =>
        assert name !in active;
        CollectInlined(schema, fragments, ranks, ranks[name], concrete, fragments[name].condition, fragments[name].selections, active + {name});
    }
  }

  lemma {:induction false} CollectAllInlined(schema: Schema, fragments: Fragments, ranks: Ranks, concrete: string, parent: string,
                                             c: seq<Context>, d: seq<Context>)
    requires Acyclic(fragments, ranks) && ContextsRelated(c, d, fragments, ranks)
    ensures SameFields(CollectAll(schema, fragments, concrete, parent, c), CollectAll(schema, NONE, concrete, parent, d), fragments, ranks)
    decreases |c|
  {
    if c != [] {
      var n := |c| - 1;
      CollectAllInlined(schema, fragments, ranks, concrete, parent, c[..n], d[..n]);
      assert Related(c[n], d[n], fragments, ranks);
      var r: nat :| RelatedAt(c[n], d[n], fragments, ranks, r);
      CollectInlined(schema, fragments, ranks, r, concrete, parent, c[n].selections, c[n].active);
    }
  }

  // ----------------------------------------------------------------- merging

  lemma {:induction false} SameKeys(a: seq<FieldContext>, b: seq<FieldContext>, fragments: Fragments, ranks: Ranks)
    requires FieldsRelated(a, b, fragments, ranks)
    ensures KeysOf(a) == KeysOf(b)
    decreases |a|
  {
    if a != [] {
      SameKeys(a[..|a| - 1], b[..|b| - 1], fragments, ranks);
    }
  }

  lemma {:induction false} SameWithKey(a: seq<FieldContext>, b: seq<FieldContext>, fragments: Fragments, ranks: Ranks, key: string)
    requires FieldsRelated(a, b, fragments, ranks)
    ensures FieldsRelated(WithKey(a, key), WithKey(b, key), fragments, ranks)
    decreases |a|
  {
    if a != [] {
      SameWithKey(a[..|a| - 1], b[..|b| - 1], fragments, ranks, key);
    }
  }

  lemma {:induction false} SameSubContexts(a: seq<FieldContext>, b: seq<FieldContext>, fragments: Fragments, ranks: Ranks)
    requires FieldsRelated(a, b, fragments, ranks)
    ensures ContextsRelated(SubContexts(a), SubContexts(b), fragments, ranks)
    decreases |a|
  {
    if a != [] {
      var n := |a| - 1;
      SameSubContexts(a[..n], b[..n], fragments, ranks);
      assert FieldRelated(a[n], b[n], fragments, ranks);
      var r: nat :| RelatedAt(a[n].below, b[n].below, fragments, ranks, r);
      assert |a[n].below.selections| == |b[n].below.selections|;
    }
  }

  // --------------------------------------------------------------- rendering

  /** Writing out every spread does not change the projection, nor the failure
      if there is one. */
  lemma {:induction false} RenderInlined(schema: Schema, fragments: Fragments, ranks: Ranks, bound: nat, parent: string,
                                         c: seq<Context>, d: seq<Context>)
    requires Bounded(fragments, bound) && Acyclic(fragments, ranks) && ContextsRelated(c, d, fragments, ranks)
    ensures Render(schema, fragments, bound, parent, c) == Render(schema, NONE, bound, parent, d)
    decreases MaxWeight(fragments, bound, c), 3, 0
  {
    TypesInlined(schema, fragments, ranks, bound, parent, PossibleObjects(schema, parent), c, d);
  }

  lemma {:induction false} TypesInlined(schema: Schema, fragments: Fragments, ranks: Ranks, bound: nat, parent: string, types: seq<string>,
                                        c: seq<Context>, d: seq<Context>)
    requires Bounded(fragments, bound) && Acyclic(fragments, ranks) && ContextsRelated(c, d, fragments, ranks)
    ensures RenderTypes(schema, fragments, bound, parent, types, c) == RenderTypes(schema, NONE, bound, parent, types, d)
    decreases MaxWeight(fragments, bound, c), 2, |types|
  {
    if types != [] {
      TypesInlined(schema, fragments, ranks, bound, parent, types[..|types| - 1], c, d);
      ObjectInlined(schema, fragments, ranks, bound, parent, types[|types| - 1], c, d);
    }
  }

  lemma {:induction false} ObjectInlined(schema: Schema, fragments: Fragments, ranks: Ranks, bound: nat, parent: string, concrete: string,
                                         c: seq<Context>, d: seq<Context>)
    requires Bounded(fragments, bound) && Acyclic(fragments, ranks) && ContextsRelated(c, d, fragments, ranks)
    ensures RenderObject(schema, fragments, bound, parent, concrete, c) == RenderObject(schema, NONE, bound, parent, concrete, d)
    decreases MaxWeight(fragments, bound, c), 1, 0
  {
    CollectAllInlined(schema, fragments, ranks, concrete, parent, c, d);
    var a, b := CollectAll(schema, fragments, concrete, parent, c), CollectAll(schema, NONE, concrete, parent, d);
    if a.Ok? {
      AllCollectedIsLighter(schema, fragments, bound, concrete, parent, c);
      AllCollectedIsLighter(schema, NONE, bound, concrete, parent, d);
      SameKeys(a.value, b.value, fragments, ranks);
      KeysInlined(schema, fragments, ranks, bound, a.value, b.value, KeysOf(a.value), MaxWeight(fragments, bound, c), MaxWeight(NONE, bound, d));
    }
  }

  lemma {:induction false} KeysInlined(schema: Schema, fragments: Fragments, ranks: Ranks, bound: nat, a: seq<FieldContext>, b: seq<FieldContext>,
                                       keys: seq<string>, limit: nat, other: nat)
    requires Bounded(fragments, bound) && Acyclic(fragments, ranks) && FieldsRelated(a, b, fragments, ranks)
    requires Below(fragments, bound, a, limit) && Below(NONE, bound, b, other)
    ensures RenderKeys(schema, fragments, bound, a, keys, limit) == RenderKeys(schema, NONE, bound, b, keys, other)
    decreases limit, 0, |keys|
  {
    if keys != [] {
      KeysInlined(schema, fragments, ranks, bound, a, b, keys[..|keys| - 1], limit, other);
      KeyInlined(schema, fragments, ranks, bound, a, b, keys[|keys| - 1], limit, other);
    }
  }

  lemma {:induction false} KeyInlined(schema: Schema, fragments: Fragments, ranks: Ranks, bound: nat, a: seq<FieldContext>, b: seq<FieldContext>,
                                      key: string, limit: nat, other: nat)
    requires Bounded(fragments, bound) && Acyclic(fragments, ranks) && FieldsRelated(a, b, fragments, ranks)
    requires Below(fragments, bound, a, limit) && Below(NONE, bound, b, other)
    ensures RenderKey(schema, fragments, bound, a, key, limit) == RenderKey(schema, NONE, bound, b, key, other)
    decreases limit, 0, 0
  {
    var s, t := WithKey(a, key), WithKey(b, key);
    SameWithKey(a, b, fragments, ranks, key);
    SameSubContexts(s, t, fragments, ranks);
    if s != [] { assert FieldRelated(s[0], t[0], fragments, ranks); }
    SameNeeds(schema, s, t);
    if NeedsNested(schema, s) {
      assert s[0] in a && limit > 0;
      SubContextsAreLighter(fragments, bound, a, key, limit);
      RenderInlined(schema, fragments, ranks, bound, FieldType(schema, s[0].scope, s[0].name).value, SubContexts(s), SubContexts(t));
    }
  }

  /** A key's value depends on its first field and on what is projected below. */
  lemma {:induction false} SameNeeds(schema: Schema, s: seq<FieldContext>, t: seq<FieldContext>)
    requires |s| == |t| && |SubContexts(s)| == |SubContexts(t)|
    requires s != [] ==> s[0].name == t[0].name && s[0].scope == t[0].scope
    ensures NeedsNested(schema, s) <==> NeedsNested(schema, t)
    ensures s != [] ==> FieldType(schema, s[0].scope, s[0].name) == FieldType(schema, t[0].scope, t[0].name)
    ensures forall nested :: ValueOf(schema, s, nested) == ValueOf(schema, t, nested)
  {}

  /** An operation on a document without fragment cycles projects like the
      operation with every fragment written out. */
  lemma {:induction false} FragmentsAreShorthand(schema: Schema, fragments: Fragments, ranks: Ranks, r: nat, bound: nat, root: string,
                                                 selections: seq<Selection>)
    requires Bounded(fragments, bound) && Acyclic(fragments, ranks) && SpreadsBelow(selections, fragments, ranks, r)
    ensures Render(schema, fragments, bound, root, [Context(selections, {})]) ==
            Render(schema, NONE, bound, root, [Context(Inlined(selections, fragments, ranks, r), {})])
  {
    var c, d := [Context(selections, {})], [Context(Inlined(selections, fragments, ranks, r), {})];
    assert RelatedAt(c[0], d[0], fragments, ranks, r);
    RenderInlined(schema, fragments, ranks, bound, root, c, d);
  }
}
