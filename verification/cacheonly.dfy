/**
 Finding `@cacheOnly` fields under a selection set, through fragments that may
 be spread in circles.
 */
module CacheOnly {
  import opened Common

  /** A field without a selection set has none in `sub`: the grammar knows no
      empty selection set. */
  datatype Selection =
    | Field(name: string, alias: Option<string>, cacheOnly: bool, sub: seq<Selection>)
    | Inline(condition: Option<string>, selections: seq<Selection>)
    | Spread(fragment: string)

  datatype Fragment = Fragment(condition: string, selections: seq<Selection>)

  type Fragments = map<string, Fragment>

  datatype Error = UnknownFragment(name: string)

  /** The fragments that may still be entered. */
  function Inactive(fragments: Fragments, active: set<string>): set<string> {
    fragments.Keys - active
  }

  lemma Entering(fragments: Fragments, active: set<string>, name: string)
    requires name in fragments && name !in active
    ensures |Inactive(fragments, active + {name})| < |Inactive(fragments, active)|
  {
    assert Inactive(fragments, active) == Inactive(fragments, active + {name}) + {name};
  }

  /** The search: the first selection that has one decides; a fragment being
      searched already is not entered again. */
  function Has(selections: seq<Selection>, fragments: Fragments, active: set<string>): Result<bool, Error>
    decreases |Inactive(fragments, active)|, selections
  {
    if selections == [] then Ok(false)
    else
      var first := HasOne(selections[0], fragments, active);
      if first == Ok(false) then Has(selections[1..], fragments, active) else first
  }

  function HasOne(selection: Selection, fragments: Fragments, active: set<string>): Result<bool, Error>
    decreases |Inactive(fragments, active)|, selection
  {
    match selection
    case Field(_, _, cacheOnly, sub) =>
      if cacheOnly then Ok(true) else Has(sub, fragments, active)
    case Inline(_, selections) => Has(selections, fragments, active)
    case Spread(name) =>
      if name !in fragments then Err(UnknownFragment(name))
      else if name in active then Ok(false)
      else
        Entering(fragments, active, name);
        Has(fragments[name].selections, fragments, active + {name})
  }

  // ------------------------------------------------------------ reachability

  /** Whether a `@cacheOnly` field is reached through nested sets, inline
      fragments and at most `n` spreads, whatever they repeat. */
  ghost predicate Reaches(selections: seq<Selection>, fragments: Fragments, n: nat)
    decreases n, selections
  {
    selections != [] && (ReachesOne(selections[0], fragments, n) || Reaches(selections[1..], fragments, n))
  }

  ghost predicate ReachesOne(selection: Selection, fragments: Fragments, n: nat)
    decreases n, selection
  {
    match selection
    case Field(_, _, cacheOnly, sub) => cacheOnly || Reaches(sub, fragments, n)
    case Inline(_, selections) => Reaches(selections, fragments, n)
    case Spread(name) => name in fragments && n > 0 && Reaches(fragments[name].selections, fragments, n - 1)
  }

  ghost predicate Reachable(selections: seq<Selection>, fragments: Fragments) {
    exists n: nat :: Reaches(selections, fragments, n)
  }

  lemma {:induction false} ReachesMore(selections: seq<Selection>, fragments: Fragments, m: nat, n: nat)
    requires Reaches(selections, fragments, m) && m <= n
    ensures Reaches(selections, fragments, n)
    decreases m, selections
  {
    if ReachesOne(selections[0], fragments, m) {
      ReachesMoreOne(selections[0], fragments, m, n);
    } else {
      ReachesMore(selections[1..], fragments, m, n);
    }
  }

  lemma {:induction false} ReachesMoreOne(selection: Selection, fragments: Fragments, m: nat, n: nat)
    requires ReachesOne(selection, fragments, m) && m <= n
    ensures ReachesOne(selection, fragments, n)
    decreases m, selection
  {
    match selection {
      case Field(_, _, cacheOnly, sub) =>
        if !cacheOnly { ReachesMore(sub, fragments, m, n); }
      case Inline(_, selections) => ReachesMore(selections, fragments, m, n);
      case Spread(name) => ReachesMore(fragments[name].selections, fragments, m - 1, n - 1);
    }
  }

  /** What the search finds is there. */
  lemma {:induction false} FoundIsReached(selections: seq<Selection>, fragments: Fragments, active: set<string>)
    requires Has(selections, fragments, active) == Ok(true)
    ensures Reaches(selections, fragments, |Inactive(fragments, active)|)
    decreases |Inactive(fragments, active)|, selections
  {
    if HasOne(selections[0], fragments, active) == Ok(true) {
      FoundIsReachedOne(selections[0], fragments, active);
    } else {
      FoundIsReached(selections[1..], fragments, active);
    }
  }

  lemma {:induction false} FoundIsReachedOne(selection: Selection, fragments: Fragments, active: set<string>)
    requires HasOne(selection, fragments, active) == Ok(true)
    ensures ReachesOne(selection, fragments, |Inactive(fragments, active)|)
    decreases |Inactive(fragments, active)|, selection
  {
    match selection {
      case Field(_, _, cacheOnly, sub) =>
        if !cacheOnly { FoundIsReached(sub, fragments, active); }
      case Inline(_, selections) => FoundIsReached(selections, fragments, active);
      case Spread(name) =>
        Entering(fragments, active, name);
        var entered := active + {name};
        FoundIsReached(fragments[name].selections, fragments, entered);
        ReachesMore(fragments[name].selections, fragments, |Inactive(fragments, entered)|, |Inactive(fragments, active)| - 1);
    }
  }

  /** No fragment being searched reaches a field in fewer spreads than are left:
      what is cut off was never the shortest way. */
  ghost predicate NotShorter(fragments: Fragments, active: set<string>, n: nat) {
    n > 0 ==> forall a :: a in active && a in fragments ==> !Reaches(fragments[a].selections, fragments, n - 1)
  }

  /** The fewest spreads it takes. */
  lemma {:induction false} Shortest(selections: seq<Selection>, fragments: Fragments, n: nat) returns (m: nat)
    requires Reaches(selections, fragments, n)
    ensures m <= n && Reaches(selections, fragments, m) && (m > 0 ==> !Reaches(selections, fragments, m - 1))
    decreases n
  {
    if n > 0 && Reaches(selections, fragments, n - 1) {
      m := Shortest(selections, fragments, n - 1);
    } else {
      m := n;
    }
  }

  /** What is there is found, or an unknown fragment is: whatever way leads to a
      field, cutting its cycles leaves one the search takes. */
  lemma {:induction false} ReachedIsFound(selections: seq<Selection>, fragments: Fragments, active: set<string>, n: nat)
    requires Reaches(selections, fragments, n) && NotShorter(fragments, active, n)
    ensures Has(selections, fragments, active) != Ok(false)
    decreases n, selections
  {
    if ReachesOne(selections[0], fragments, n) {
      ReachedIsFoundOne(selections[0], fragments, active, n);
    } else {
      ReachedIsFound(selections[1..], fragments, active, n);
    }
  }

  lemma {:induction false} ReachedIsFoundOne(selection: Selection, fragments: Fragments, active: set<string>, n: nat)
    requires ReachesOne(selection, fragments, n) && NotShorter(fragments, active, n)
    ensures HasOne(selection, fragments, active) != Ok(false)
    decreases n, selection
  {
    match selection {
      case Field(_, _, cacheOnly, sub) =>
        if !cacheOnly { ReachedIsFound(sub, fragments, active, n); }
      case Inline(_, selections) => ReachedIsFound(selections, fragments, active, n);
      case Spread(name) =>
        var inside := fragments[name].selections;
        var m := Shortest(inside, fragments, n - 1);
        EnteringNotShorter(fragments, active, name, m, n);
        ReachedIsFound(inside, fragments, active + {name}, m);
    }
  }

  lemma {:induction false} EnteringNotShorter(fragments: Fragments, active: set<string>, name: string, m: nat, n: nat)
    requires NotShorter(fragments, active, n) && m < n && name in fragments
    requires m > 0 ==> !Reaches(fragments[name].selections, fragments, m - 1)
    ensures NotShorter(fragments, active + {name}, m)
  {
    if m > 0 {
      forall a | a in active + {name} && a in fragments
        ensures !Reaches(fragments[a].selections, fragments, m - 1)
      {
        if a != name && Reaches(fragments[a].selections, fragments, m - 1) {
          ReachesMore(fragments[a].selections, fragments, m - 1, n - 1);
        }
      }
    }
  }

  /** A search that meets no unknown fragment answers exactly whether a
      `@cacheOnly` field can be reached, on any fragments, cyclic or not. */
  lemma {:induction false} HasIsReachable(selections: seq<Selection>, fragments: Fragments)
    requires Has(selections, fragments, {}).Ok?
    ensures Has(selections, fragments, {}).value <==> Reachable(selections, fragments)
  {
    if Has(selections, fragments, {}) == Ok(true) {
      FoundIsReached(selections, fragments, {});
    }
    if Reachable(selections, fragments) {
      var n: nat :| Reaches(selections, fragments, n);
      ReachedIsFound(selections, fragments, {}, n);
    }
  }

  // ---------------------------------------------------------- known fragments

  /** Every spread names a fragment there is. */
  predicate AllKnown(selections: seq<Selection>, fragments: Fragments)
    decreases selections
  {
    selections == [] || (KnownOne(selections[0], fragments) && AllKnown(selections[1..], fragments))
  }

  predicate KnownOne(selection: Selection, fragments: Fragments)
    decreases selection
  {
    match selection
    case Field(_, _, _, sub) => AllKnown(sub, fragments)
    case Inline(_, selections) => AllKnown(selections, fragments)
    case Spread(name) => name in fragments
  }

  ghost predicate DocumentKnown(fragments: Fragments) {
    forall name :: name in fragments ==> AllKnown(fragments[name].selections, fragments)
  }

  lemma {:induction false} KnownIsSearched(selections: seq<Selection>, fragments: Fragments, active: set<string>)
    requires AllKnown(selections, fragments) && DocumentKnown(fragments)
    ensures Has(selections, fragments, active).Ok?
    decreases |Inactive(fragments, active)|, selections
  {
    if selections != [] {
      KnownIsSearchedOne(selections[0], fragments, active);
      KnownIsSearched(selections[1..], fragments, active);
    }
  }

  lemma {:induction false} KnownIsSearchedOne(selection: Selection, fragments: Fragments, active: set<string>)
    requires KnownOne(selection, fragments) && DocumentKnown(fragments)
    ensures HasOne(selection, fragments, active).Ok?
    decreases |Inactive(fragments, active)|, selection
  {
    match selection {
      case Field(_, _, _, sub) =>
        KnownIsSearched(sub, fragments, active);
      case Inline(_, selections) => KnownIsSearched(selections, fragments, active);
      case Spread(name) =>
        if name !in active {
          Entering(fragments, active, name);
          KnownIsSearched(fragments[name].selections, fragments, active + {name});
        }
    }
  }

  /** On a document without unknown fragments the search never fails. */
  lemma {:induction false} SearchDecides(selections: seq<Selection>, fragments: Fragments)
    requires AllKnown(selections, fragments) && DocumentKnown(fragments)
    ensures Has(selections, fragments, {}).Ok? && (Has(selections, fragments, {}).value <==> Reachable(selections, fragments))
  {
    KnownIsSearched(selections, fragments, {});
    HasIsReachable(selections, fragments);
  }

  // ---------------------------------------------------------------- in place

  /** The search as it runs: one set of active fragments, added to and deleted
      from on the way. */
  class Search {
    const fragments: Fragments
    var active: set<string>

    constructor (fragments: Fragments)
      ensures this.fragments == fragments && active == {}
    {
      this.fragments := fragments;
      active := {};
    }

    method SelectionSetHasCacheOnly(selections: seq<Selection>) returns (r: Result<bool, Error>)
      modifies this
      ensures r == Has(selections, fragments, old(active))
      ensures r.Ok? ==> active == old(active)
      decreases |Inactive(fragments, active)|, selections
    {
      for k := 0 to |selections|
        invariant active == old(active)
        invariant Has(selections[k..], fragments, old(active)) == Has(selections, fragments, old(active))
      {
        assert selections[k..][0] == selections[k] && selections[k..][1..] == selections[k + 1..];
        r := SelectionHasCacheOnly(selections[k]);
        if r != Ok(false) {
          return;
        }
      }
      r := Ok(false);
    }

    method SelectionHasCacheOnly(selection: Selection) returns (r: Result<bool, Error>)
      modifies this
      ensures r == HasOne(selection, fragments, old(active))
      ensures r.Ok? ==> active == old(active)
      decreases |Inactive(fragments, active)|, selection
    {
      match selection {
        case Field(_, _, cacheOnly, sub) =>
          if cacheOnly {
            return Ok(true);
          }
          r := SelectionSetHasCacheOnly(sub);
        case Inline(_, selections) =>
          r := SelectionSetHasCacheOnly(selections);
        case Spread(name) =>
          if name !in fragments {
            return Err(UnknownFragment(name));
          }
          if name in active {
            return Ok(false);
          }
          Entering(fragments, active, name);
          active := active + {name};
          r := SelectionSetHasCacheOnly(fragments[name].selections);
          if r.Ok? {
            active := active - {name};
          }
      }
    }
  }
}
