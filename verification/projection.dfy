/**
 Rendering a result type without its `@cacheOnly` fields: selections are
 collected per concrete type, merged by response key, and rendered again below.
 */
module Projections {
  import opened Common
  import opened CacheOnly

  /** What the walk needs of a schema: fields by the name of their type, and the
      object types an abstract type can be. */
  datatype TypeDef =
    | ObjectType(fields: map<string, string>)
    | InterfaceType(fields: map<string, string>, possible: seq<string>)
    | UnionType(possible: seq<string>)
    | LeafType

  type Schema = map<string, TypeDef>

  datatype Failure = NoFragment(name: string) | NotComposite(name: string) | BeneathUnion(scope: string) | NoField(scope: string, name: string)

  function Lookup(schema: Schema, name: string): TypeDef {
    if name in schema then schema[name] else LeafType
  }

  predicate IsComposite(schema: Schema, name: string) {
    !Lookup(schema, name).LeafType?
  }

  function PossibleObjects(schema: Schema, parent: string): seq<string> {
    match Lookup(schema, parent)
    case InterfaceType(_, possible) => possible
    case UnionType(possible) => possible
    case _ => [parent]
  }

  predicate Applies(schema: Schema, condition: string, concrete: string) {
    match Lookup(schema, condition)
    case InterfaceType(_, possible) => concrete in possible
    case UnionType(possible) => concrete in possible
    case _ => condition == concrete
  }

  /** A selection set, and the fragments it is inside of. */
  datatype Context = Context(selections: seq<Selection>, active: set<string>)

  datatype FieldContext = FieldContext(name: string, key: string, scope: string, below: Context)

  datatype Value = TypeName | Leaf(typeName: string) | Composite(typeName: string, branches: seq<seq<Property>>)

  datatype Property = Property(key: string, value: Value)

  // -------------------------------------------------------------- collecting

  /** The fields that a concrete type gets from some selections, in order. */
  function Collect(schema: Schema, fragments: Fragments, concrete: string, scope: string, selections: seq<Selection>, active: set<string>):
    Result<seq<FieldContext>, Failure>
    decreases |Inactive(fragments, active)|, selections
  {
    if selections == [] then Ok([])
    else
      var first := CollectOne(schema, fragments, concrete, scope, selections[0], active);
      if first.Err? then first
      else
        var rest := Collect(schema, fragments, concrete, scope, selections[1..], active);
        if rest.Err? then rest else Ok(first.value + rest.value)
  }

  function CollectOne(schema: Schema, fragments: Fragments, concrete: string, scope: string, selection: Selection, active: set<string>):
    Result<seq<FieldContext>, Failure>
    decreases |Inactive(fragments, active)|, selection
  {
    match selection
    case Field(name, alias, cacheOnly, sub) =>
      Ok(if cacheOnly then [] else [FieldContext(name, alias.UnwrapOr(name), scope, Context(sub, active))])
    case Inline(condition, selections) =>
      if condition.Some? && !IsComposite(schema, condition.value) then Err(NotComposite(condition.value))
      else if !Applies(schema, condition.UnwrapOr(scope), concrete) then Ok([])
      else Collect(schema, fragments, concrete, condition.UnwrapOr(scope), selections, active)
    case Spread(name) =>
      if name !in fragments then Err(NoFragment(name))
      else if name in active then Ok([])
      else if !IsComposite(schema, fragments[name].condition) then Err(NotComposite(fragments[name].condition))
      else if !Applies(schema, fragments[name].condition, concrete) then Ok([])
      else
        Entering(fragments, active, name);
        Collect(schema, fragments, concrete, fragments[name].condition, fragments[name].selections, active + {name})
  }

  function CollectAll(schema: Schema, fragments: Fragments, concrete: string, parent: string, contexts: seq<Context>):
    Result<seq<FieldContext>, Failure>
  {
    if contexts == [] then Ok([])
    else
      var before := CollectAll(schema, fragments, concrete, parent, contexts[..|contexts| - 1]);
      if before.Err? then before
      else
        var last := Collect(schema, fragments, concrete, parent, contexts[|contexts| - 1].selections, contexts[|contexts| - 1].active);
        if last.Err? then last else Ok(before.value + last.value)
  }

  // ------------------------------------------------------------- termination

  function Size(selections: seq<Selection>): nat
    decreases selections
  {
    if selections == [] then 0 else SizeOne(selections[0]) + Size(selections[1..])
  }

  function SizeOne(selection: Selection): (n: nat)
    ensures n > 0
    decreases selection
  {
    match selection
    case Field(_, _, _, sub) => 1 + Size(sub)
    case Inline(_, selections) => 1 + Size(selections)
    case Spread(_) => 1
  }

  /** Every fragment is smaller than the bound. */
  ghost predicate Bounded(fragments: Fragments, bound: nat) {
    forall name :: name in fragments ==> Size(fragments[name].selections) < bound
  }

  /** How much there can still be below: first by the fragments that may still be
      entered, then by size. */
  ghost function Weight(fragments: Fragments, bound: nat, context: Context): nat {
    |Inactive(fragments, context.active)| * bound + Size(context.selections)
  }

  ghost predicate Below(fragments: Fragments, bound: nat, fields: seq<FieldContext>, limit: nat) {
    forall k :: 0 <= k < |fields| ==> Weight(fragments, bound, fields[k].below) < limit
  }

  lemma {:induction false} LimitUp(fragments: Fragments, bound: nat, fields: seq<FieldContext>, a: nat, b: nat)
    requires Below(fragments, bound, fields, a) && a <= b
    ensures Below(fragments, bound, fields, b)
  {}

  lemma {:induction false} EnteringIsLighter(fragments: Fragments, bound: nat, active: set<string>, name: string, size: nat)
    requires Bounded(fragments, bound) && name in fragments && name !in active
    ensures Weight(fragments, bound, Context(fragments[name].selections, active + {name})) < |Inactive(fragments, active)| * bound + 1 + size
  {
    Entering(fragments, active, name);
    var less, more := |Inactive(fragments, active + {name})|, |Inactive(fragments, active)|;
    LessTimes(less, more, bound);
  }

  lemma {:induction false} LessTimes(a: nat, b: nat, bound: nat)
    requires a < b
    ensures a * bound + bound <= b * bound
    decreases b
  {
    if a + 1 < b {
      LessTimes(a, b - 1, bound);
      assert b * bound == (b - 1) * bound + bound;
    } else {
      assert b * bound == a * bound + bound;
    }
  }

  /** What is collected weighs less than what it is collected from, through any
      spreads, cyclic or not. */
  lemma {:induction false} CollectedIsLighter(schema: Schema, fragments: Fragments, bound: nat, concrete: string, scope: string,
                                              selections: seq<Selection>, active: set<string>)
    requires Bounded(fragments, bound) && Collect(schema, fragments, concrete, scope, selections, active).Ok?
    ensures Below(fragments, bound, Collect(schema, fragments, concrete, scope, selections, active).value,
                  Weight(fragments, bound, Context(selections, active)))
    decreases |Inactive(fragments, active)|, selections
  {
    if selections != [] {
      CollectedOneIsLighter(schema, fragments, bound, concrete, scope, selections[0], active);
      CollectedIsLighter(schema, fragments, bound, concrete, scope, selections[1..], active);
    }
  }

  lemma {:induction false} CollectedOneIsLighter(schema: Schema, fragments: Fragments, bound: nat, concrete: string, scope: string,
                                                 selection: Selection, active: set<string>)
    requires Bounded(fragments, bound) && CollectOne(schema, fragments, concrete, scope, selection, active).Ok?
    ensures Below(fragments, bound, CollectOne(schema, fragments, concrete, scope, selection, active).value,
                  |Inactive(fragments, active)| * bound + SizeOne(selection))
    decreases |Inactive(fragments, active)|, selection
  {
    match selection {
      case Field(_, _, _, _) =>
      case Inline(condition, selections) =>
        if Applies(schema, condition.UnwrapOr(scope), concrete) {
          CollectedIsLighter(schema, fragments, bound, concrete, condition.UnwrapOr(scope), selections, active);
        }
      case Spread(name) =>
        if name !in active && Applies(schema, fragments[name].condition, concrete) {
          Entering(fragments, active, name);
          EnteringIsLighter(fragments, bound, active, name, 0);
          CollectedIsLighter(schema, fragments, bound, concrete, fragments[name].condition, fragments[name].selections, active + {name});
        }
    }
  }

  ghost function MaxWeight(fragments: Fragments, bound: nat, contexts: seq<Context>): nat {
    if contexts == [] then 0
    else MaxNat(MaxWeight(fragments, bound, contexts[..|contexts| - 1]), Weight(fragments, bound, contexts[|contexts| - 1]))
  }

  lemma {:induction false} AllCollectedIsLighter(schema: Schema, fragments: Fragments, bound: nat, concrete: string, parent: string,
                                                 contexts: seq<Context>)
    requires Bounded(fragments, bound) && CollectAll(schema, fragments, concrete, parent, contexts).Ok?
    ensures Below(fragments, bound, CollectAll(schema, fragments, concrete, parent, contexts).value, MaxWeight(fragments, bound, contexts))
  {
    if contexts != [] {
      var n := |contexts| - 1;
      AllCollectedIsLighter(schema, fragments, bound, concrete, parent, contexts[..n]);
      CollectedIsLighter(schema, fragments, bound, concrete, parent, contexts[n].selections, contexts[n].active);
      var limit := MaxWeight(fragments, bound, contexts);
      assert contexts[n] == Context(contexts[n].selections, contexts[n].active);
      LimitUp(fragments, bound, CollectAll(schema, fragments, concrete, parent, contexts[..n]).value,
              MaxWeight(fragments, bound, contexts[..n]), limit);
      LimitUp(fragments, bound, Collect(schema, fragments, concrete, parent, contexts[n].selections, contexts[n].active).value,
              Weight(fragments, bound, contexts[n]), limit);
    }
  }

  // --------------------------------------------------------------- rendering

  /** Response keys in the order they first come up. */
  function KeysOf(fields: seq<FieldContext>): (r: seq<string>)
    ensures forall key :: key in r <==> exists k :: 0 <= k < |fields| && fields[k].key == key
  {
    if fields == [] then []
    else
      var front, last := KeysOf(fields[..|fields| - 1]), fields[|fields| - 1].key;
      assert forall k :: 0 <= k < |fields| - 1 ==> fields[..|fields| - 1][k] == fields[k];
      if last in front then front else front + [last]
  }

  function WithKey(fields: seq<FieldContext>, key: string): (r: seq<FieldContext>)
    ensures forall k :: 0 <= k < |r| ==> r[k] in fields && r[k].key == key
    ensures r != [] <==> exists k :: 0 <= k < |fields| && fields[k].key == key
  {
    if fields == [] then []
    else
      var front, last := fields[..|fields| - 1], fields[|fields| - 1];
      assert forall k :: 0 <= k < |front| ==> front[k] == fields[k];
      WithKey(front, key) + if last.key == key then [last] else []
  }

  /** The selection sets to merge below a key. */
  function SubContexts(fields: seq<FieldContext>): (r: seq<Context>)
    ensures forall k :: 0 <= k < |r| ==> exists j :: 0 <= j < |fields| && r[k] == fields[j].below
  {
    if fields == [] then []
    else
      var front, last := fields[..|fields| - 1], fields[|fields| - 1];
      assert forall k :: 0 <= k < |front| ==> front[k] == fields[k];
      SubContexts(front) + if last.below.selections != [] then [last.below] else []
  }

  lemma {:induction false} SubContextsAreLighter(fragments: Fragments, bound: nat, fields: seq<FieldContext>, key: string, limit: nat)
    requires Below(fragments, bound, fields, limit) && limit > 0
    ensures MaxWeight(fragments, bound, SubContexts(WithKey(fields, key))) < limit
  {
    var contexts := SubContexts(WithKey(fields, key));
    forall k | 0 <= k < |contexts|
      ensures Weight(fragments, bound, contexts[k]) < limit
    {
      var j :| 0 <= j < |WithKey(fields, key)| && contexts[k] == WithKey(fields, key)[j].below;
      assert WithKey(fields, key)[j] in fields;
    }
    MaxBelow(fragments, bound, contexts, limit);
  }

  lemma {:induction false} MaxBelow(fragments: Fragments, bound: nat, contexts: seq<Context>, limit: nat)
    requires limit > 0 && forall k :: 0 <= k < |contexts| ==> Weight(fragments, bound, contexts[k]) < limit
    ensures MaxWeight(fragments, bound, contexts) < limit
  {
    if contexts != [] {
      MaxBelow(fragments, bound, contexts[..|contexts| - 1], limit);
    }
  }

  /** The type of a field, looked up where its first selection stands. */
  function FieldType(schema: Schema, scope: string, name: string): Result<string, Failure> {
    match Lookup(schema, scope)
    case ObjectType(fields) => if name in fields then Ok(fields[name]) else Err(NoField(scope, name))
    case InterfaceType(fields, _) => if name in fields then Ok(fields[name]) else Err(NoField(scope, name))
    case _ => Err(BeneathUnion(scope))
  }

  /** A projection of some selection sets on a type: the properties for each
      object type it can be, or nothing when none has any. The walk ends on
      every document: what is walked below weighs less. */
  ghost function Render(schema: Schema, fragments: Fragments, bound: nat, parent: string, contexts: seq<Context>):
    Result<Option<seq<seq<Property>>>, Failure>
    requires Bounded(fragments, bound)
    decreases MaxWeight(fragments, bound, contexts), 3, 0
  {
    var branches := RenderTypes(schema, fragments, bound, parent, PossibleObjects(schema, parent), contexts);
    if branches.Err? then Err(branches.error)
    else Ok(if forall k :: 0 <= k < |branches.value| ==> branches.value[k] == [] then None else Some(branches.value))
  }

  ghost function RenderTypes(schema: Schema, fragments: Fragments, bound: nat, parent: string, types: seq<string>, contexts: seq<Context>):
    Result<seq<seq<Property>>, Failure>
    requires Bounded(fragments, bound)
    decreases MaxWeight(fragments, bound, contexts), 2, |types|
  {
    if types == [] then Ok([])
    else
      var front := RenderTypes(schema, fragments, bound, parent, types[..|types| - 1], contexts);
      if front.Err? then front
      else
        var last := RenderObject(schema, fragments, bound, parent, types[|types| - 1], contexts);
        if last.Err? then Err(last.error) else Ok(front.value + [last.value])
  }

  ghost function RenderObject(schema: Schema, fragments: Fragments, bound: nat, parent: string, concrete: string, contexts: seq<Context>):
    Result<seq<Property>, Failure>
    requires Bounded(fragments, bound)
    decreases MaxWeight(fragments, bound, contexts), 1, 0
  {
    var fields := CollectAll(schema, fragments, concrete, parent, contexts);
    if fields.Err? then Err(fields.error)
    else
      AllCollectedIsLighter(schema, fragments, bound, concrete, parent, contexts);
      RenderKeys(schema, fragments, bound, fields.value, KeysOf(fields.value), MaxWeight(fragments, bound, contexts))
  }

  ghost function RenderKeys(schema: Schema, fragments: Fragments, bound: nat, fields: seq<FieldContext>, keys: seq<string>, limit: nat):
    Result<seq<Property>, Failure>
    requires Bounded(fragments, bound) && Below(fragments, bound, fields, limit)
    decreases limit, 0, |keys|
  {
    if keys == [] then Ok([])
    else
      var front := RenderKeys(schema, fragments, bound, fields, keys[..|keys| - 1], limit);
      if front.Err? then front
      else
        var last := RenderKey(schema, fragments, bound, fields, keys[|keys| - 1], limit);
        if last.Err? then Err(last.error)
        else Ok(front.value + if last.value.Some? then [Property(keys[|keys| - 1], last.value.value)] else [])
  }

  /** Whether a key's value takes another projection below. */
  predicate NeedsNested(schema: Schema, same: seq<FieldContext>) {
    same != [] && same[0].name != "__typename" && FieldType(schema, same[0].scope, same[0].name).Ok? && IsComposite(schema, FieldType(schema, same[0].scope, same[0].name).value) &&
    SubContexts(same) != []
  }

  /** A key's value, given the projection below if one is needed. */
  function ValueOf(schema: Schema, same: seq<FieldContext>, nested: Result<Option<seq<seq<Property>>>, Failure>): Result<Option<Value>, Failure> {
    if same == [] then Ok(None)
    else if same[0].name == "__typename" then Ok(Some(TypeName))
    else
      var named := FieldType(schema, same[0].scope, same[0].name);
      if named.Err? then Err(named.error)
      else if !IsComposite(schema, named.value) then Ok(Some(Leaf(named.value)))
      else if SubContexts(same) == [] then Ok(None)
      else if nested.Err? then Err(nested.error)
      else Ok(if nested.value.Some? then Some(Composite(named.value, nested.value.value)) else None)
  }

  ghost function RenderKey(schema: Schema, fragments: Fragments, bound: nat, fields: seq<FieldContext>, key: string, limit: nat):
    Result<Option<Value>, Failure>
    requires Bounded(fragments, bound) && Below(fragments, bound, fields, limit)
    decreases limit, 0, 0
  {
    var same := WithKey(fields, key);
    if !NeedsNested(schema, same) then ValueOf(schema, same, Ok(None))
    else
      assert same[0] in fields && limit > 0;
      SubContextsAreLighter(fragments, bound, fields, key, limit);
      ValueOf(schema, same, Render(schema, fragments, bound, FieldType(schema, same[0].scope, same[0].name).value, SubContexts(same)))
  }

  // -------------------------------------------------------- which keys there are

  predicate HasKey(properties: seq<Property>, key: string) {
    exists k :: 0 <= k < |properties| && properties[k].key == key
  }

  /** A key is rendered when it is among the keys and has a value. */
  ghost predicate IsRendered(schema: Schema, fragments: Fragments, bound: nat, fields: seq<FieldContext>, keys: seq<string>, limit: nat, key: string)
    requires Bounded(fragments, bound) && Below(fragments, bound, fields, limit)
  {
    var value := RenderKey(schema, fragments, bound, fields, key, limit);
    key in keys && value.Ok? && value.value.Some?
  }

  lemma {:induction false} KeysRendered(schema: Schema, fragments: Fragments, bound: nat, fields: seq<FieldContext>, keys: seq<string>, limit: nat,
                                        key: string)
    requires Bounded(fragments, bound) && Below(fragments, bound, fields, limit)
    requires RenderKeys(schema, fragments, bound, fields, keys, limit).Ok?
    ensures HasKey(RenderKeys(schema, fragments, bound, fields, keys, limit).value, key) <==>
            IsRendered(schema, fragments, bound, fields, keys, limit, key)
    decreases |keys|
  {
    if keys != [] {
      var n := |keys| - 1;
      KeysRendered(schema, fragments, bound, fields, keys[..n], limit, key);
      var last := LastKeyRendered(schema, fragments, bound, fields, keys, limit);
      HasKeyMore(RenderKeys(schema, fragments, bound, fields, keys[..n], limit).value,
                 if last.Some? then [Property(keys[n], last.value)] else [], key);
      LastIn(keys, key);
    }
  }

  lemma {:induction false} LastIn(keys: seq<string>, key: string)
    requires keys != []
    ensures key in keys <==> key in keys[..|keys| - 1] || key == keys[|keys| - 1]
  {
    assert keys == keys[..|keys| - 1] + [keys[|keys| - 1]];
  }

  lemma {:induction false} LastKeyRendered(schema: Schema, fragments: Fragments, bound: nat, fields: seq<FieldContext>, keys: seq<string>, limit: nat)
    returns (last: Option<Value>)
    requires Bounded(fragments, bound) && Below(fragments, bound, fields, limit) && keys != []
    requires RenderKeys(schema, fragments, bound, fields, keys, limit).Ok?
    ensures var n := |keys| - 1;
            && RenderKeys(schema, fragments, bound, fields, keys[..n], limit).Ok?
            && RenderKey(schema, fragments, bound, fields, keys[n], limit) == Ok(last)
            && RenderKeys(schema, fragments, bound, fields, keys, limit).value ==
                 RenderKeys(schema, fragments, bound, fields, keys[..n], limit).value +
                 if last.Some? then [Property(keys[n], last.value)] else []
  {
    last := RenderKey(schema, fragments, bound, fields, keys[|keys| - 1], limit).value;
  }

  lemma {:induction false} HasKeyMore(a: seq<Property>, b: seq<Property>, key: string)
    requires |b| <= 1
    ensures HasKey(a + b, key) <==> HasKey(a, key) || (b != [] && b[0].key == key)
  {
    if HasKey(a, key) {
      var k :| 0 <= k < |a| && a[k].key == key;
      assert (a + b)[k].key == key;
    }
    if b != [] { assert (a + b)[|a|] == b[0]; }
  }

  /** Something is left below a field: it is a leaf, or some object type it can be
      has a property. */
  ghost predicate NotEmpty(schema: Schema, fragments: Fragments, bound: nat, same: seq<FieldContext>)
    requires Bounded(fragments, bound) && same != []
  {
    same[0].name == "__typename" ||
    (FieldType(schema, same[0].scope, same[0].name).Ok? &&
     (IsComposite(schema, FieldType(schema, same[0].scope, same[0].name).value) ==>
        SubContexts(same) != [] &&
        var nested := Render(schema, fragments, bound, FieldType(schema, same[0].scope, same[0].name).value, SubContexts(same));
        nested.Ok? && nested.value.Some?))
  }

  /** A key comes up exactly when some collected field has it and something is
      rendered below. */
  lemma {:induction false} KeyIsRendered(schema: Schema, fragments: Fragments, bound: nat, parent: string, concrete: string,
                                         contexts: seq<Context>, key: string)
    requires Bounded(fragments, bound) && RenderObject(schema, fragments, bound, parent, concrete, contexts).Ok?
    ensures CollectAll(schema, fragments, concrete, parent, contexts).Ok?
    ensures var same := WithKey(CollectAll(schema, fragments, concrete, parent, contexts).value, key);
            HasKey(RenderObject(schema, fragments, bound, parent, concrete, contexts).value, key) <==>
            same != [] && NotEmpty(schema, fragments, bound, same)
  {
    var fields := CollectAll(schema, fragments, concrete, parent, contexts).value;
    AllCollectedIsLighter(schema, fragments, bound, concrete, parent, contexts);
    var limit := MaxWeight(fragments, bound, contexts);
    KeysRendered(schema, fragments, bound, fields, KeysOf(fields), limit, key);
    ValueIsNotEmpty(schema, fragments, bound, fields, key, limit);
  }

  lemma {:induction false} ValueIsNotEmpty(schema: Schema, fragments: Fragments, bound: nat, fields: seq<FieldContext>, key: string, limit: nat)
    requires Bounded(fragments, bound) && Below(fragments, bound, fields, limit)
    ensures var same := WithKey(fields, key);
            IsRendered(schema, fragments, bound, fields, KeysOf(fields), limit, key) <==>
            same != [] && NotEmpty(schema, fragments, bound, same)
  {
    KeyHasFields(fields, key);
    if WithKey(fields, key) != [] {
      KeyValue(schema, fragments, bound, fields, key, limit);
    }
  }

  lemma {:induction false} KeyHasFields(fields: seq<FieldContext>, key: string)
    ensures key in KeysOf(fields) <==> WithKey(fields, key) != []
  {}

  lemma {:induction false} KeyValue(schema: Schema, fragments: Fragments, bound: nat, fields: seq<FieldContext>, key: string, limit: nat)
    requires Bounded(fragments, bound) && Below(fragments, bound, fields, limit) && WithKey(fields, key) != []
    ensures var value := RenderKey(schema, fragments, bound, fields, key, limit);
            value.Ok? && value.value.Some? <==> NotEmpty(schema, fragments, bound, WithKey(fields, key))
  {
    var same := WithKey(fields, key);
    if same[0].name != "__typename" && FieldType(schema, same[0].scope, same[0].name).Ok? && IsComposite(schema, FieldType(schema, same[0].scope, same[0].name).value) {
      if SubContexts(same) != [] {
        NestedValue(schema, fragments, bound, fields, key, limit, FieldType(schema, same[0].scope, same[0].name).value);
      }
    }
  }

  lemma {:induction false} NestedValue(schema: Schema, fragments: Fragments, bound: nat, fields: seq<FieldContext>, key: string, limit: nat, named: string)
    requires Bounded(fragments, bound) && Below(fragments, bound, fields, limit) && WithKey(fields, key) != []
    requires var same := WithKey(fields, key);
             same[0].name != "__typename" && FieldType(schema, same[0].scope, same[0].name) == Ok(named) && IsComposite(schema, named) && SubContexts(same) != []
    ensures var value := RenderKey(schema, fragments, bound, fields, key, limit);
            var nested := Render(schema, fragments, bound, named, SubContexts(WithKey(fields, key)));
            (value.Ok? <==> nested.Ok?) && (value.Ok? ==> (value.value.Some? <==> nested.value.Some?))
  {}

  // ---------------------------------------------------------------- in place

  /** Collecting as it runs: one active set, added to and deleted from on the
      way, and one list that grows. */
  class Collector {
    const schema: Schema
    const fragments: Fragments
    const concrete: string
    var active: set<string>
    var fields: seq<FieldContext>

    constructor (schema: Schema, fragments: Fragments, concrete: string, active: set<string>)
      ensures this.schema == schema && this.fragments == fragments && this.concrete == concrete
      ensures this.active == active && fields == []
    {
      this.schema, this.fragments, this.concrete, this.active, fields := schema, fragments, concrete, active, [];
    }

    method CollectSelections(scope: string, selections: seq<Selection>) returns (failure: Option<Failure>)
      modifies this
      ensures var r := Collect(schema, fragments, concrete, scope, selections, old(active));
              && (failure.Some? <==> r.Err?) && (failure.Some? ==> r == Err(failure.value))
              && (failure.None? ==> active == old(active) && fields == old(fields) + r.value)
      decreases |Inactive(fragments, active)|, selections
    {
      failure := None;
      if selections == [] {
        return;
      }
      failure := CollectSelection(scope, selections[0]);
      if failure.None? {
        failure := CollectSelections(scope, selections[1..]);
      }
    }

    method CollectSelection(scope: string, selection: Selection) returns (failure: Option<Failure>)
      modifies this
      ensures var r := CollectOne(schema, fragments, concrete, scope, selection, old(active));
              && (failure.Some? <==> r.Err?) && (failure.Some? ==> r == Err(failure.value))
              && (failure.None? ==> active == old(active) && fields == old(fields) + r.value)
      decreases |Inactive(fragments, active)|, selection
    {
      failure := None;
      match selection {
        case Field(name, alias, cacheOnly, sub) =>
          if !cacheOnly {
            fields := fields + [FieldContext(name, alias.UnwrapOr(name), scope, Context(sub, active))];
          }
        case Inline(condition, selections) =>
          if condition.Some? && !IsComposite(schema, condition.value) {
            return Some(NotComposite(condition.value));
          }
          if Applies(schema, condition.UnwrapOr(scope), concrete) {
            failure := CollectSelections(condition.UnwrapOr(scope), selections);
          }
        case Spread(name) =>
          if name !in fragments {
            return Some(NoFragment(name));
          }
          if name in active {
            return;
          }
          if !IsComposite(schema, fragments[name].condition) {
            return Some(NotComposite(fragments[name].condition));
          }
          if Applies(schema, fragments[name].condition, concrete) {
            Entering(fragments, active, name);
            active := active + {name};
            failure := CollectSelections(fragments[name].condition, fragments[name].selections);
            active := active - {name};
          }
      }
    }
  }
}
