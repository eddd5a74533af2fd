/**
 Splitting what the entry loads at startup into chunks: libraries, generated
 clients that need nothing of the application, and the rest.
 */
module Chunks {
  import opened Common

  type Id = string

  datatype Info = Info(isEntry: bool, imports: seq<Id>)

  type Graph = map<Id, Info>

  datatype Chunk = Vendor | ApiSchemas

  function Imports(graph: Graph, id: Id): seq<Id> {
    if id in graph then graph[id].imports else []
  }

  predicate IsEntry(graph: Graph, id: Id) {
    id in graph && graph[id].isEntry
  }

  predicate Includes(s: string, part: string) {
    exists k :: 0 <= k <= |s| && part <= s[k..]
  }

  predicate IsNodeModule(id: Id) {
    Includes(id, "/node_modules/")
  }

  predicate IsGeneratedSource(id: Id) {
    !IsNodeModule(id) && Includes(id, "/generated/")
  }

  // ------------------------------------------------------------- reachability

  /** A chain of static imports. */
  ghost predicate Chain(graph: Graph, path: seq<Id>) {
    path != [] && forall k :: 0 < k < |path| ==> path[k] in Imports(graph, path[k - 1])
  }

  /** A chain from an entry module to a module. */
  ghost predicate LoadedVia(graph: Graph, ids: seq<Id>, id: Id, path: seq<Id>) {
    Chain(graph, path) && path[0] in ids && IsEntry(graph, path[0]) && path[|path| - 1] == id
  }

  ghost predicate Loaded(graph: Graph, ids: seq<Id>, id: Id) {
    exists path :: LoadedVia(graph, ids, id, path)
  }

  ghost predicate Closed(graph: Graph, s: set<Id>) {
    forall id, imported :: id in s && imported in Imports(graph, id) ==> imported in s
  }

  lemma {:induction false} LoadedImport(graph: Graph, ids: seq<Id>, id: Id, imported: Id)
    requires Loaded(graph, ids, id) && imported in Imports(graph, id)
    ensures Loaded(graph, ids, imported)
  {
    var path :| LoadedVia(graph, ids, id, path);
    var longer := path + [imported];
    forall k | 0 < k < |longer|
      ensures longer[k] in Imports(graph, longer[k - 1])
    {
      if k < |path| { assert path[k] in Imports(graph, path[k - 1]); }
    }
    assert LoadedVia(graph, ids, imported, longer);
  }

  lemma {:induction false} LoadedEntry(graph: Graph, ids: seq<Id>, id: Id)
    requires id in ids && IsEntry(graph, id)
    ensures Loaded(graph, ids, id)
  {
    assert LoadedVia(graph, ids, id, [id]);
  }

  /** What is loaded is in every closed set that has the entries. */
  lemma {:induction false} ChainStaysIn(graph: Graph, s: set<Id>, path: seq<Id>, k: nat)
    requires Closed(graph, s) && Chain(graph, path) && path[0] in s && k < |path|
    ensures path[k] in s
    decreases k
  {
    if k > 0 {
      ChainStaysIn(graph, s, path, k - 1);
      assert path[k] in Imports(graph, path[k - 1]);
    }
  }

  lemma {:induction false} LoadedIsIn(graph: Graph, ids: seq<Id>, s: set<Id>, id: Id)
    requires Closed(graph, s) && forall e :: e in ids && IsEntry(graph, e) ==> e in s
    requires Loaded(graph, ids, id)
    ensures id in s
  {
    var path :| LoadedVia(graph, ids, id, path);
    ChainStaysIn(graph, s, path, |path| - 1);
  }

  /** Every id there is. */
  function Universe(graph: Graph, ids: seq<Id>): set<Id> {
    (set id | id in ids) + set id, imported | id in graph && imported in graph[id].imports :: imported
  }

  /** Whatever waits or was taken up is loaded; the entries, and the imports of
      what was taken up, wait or were taken up. */
  ghost predicate Working(graph: Graph, ids: seq<Id>, startup: set<Id>, pending: seq<Id>) {
    && (forall id :: id in startup || id in pending ==> Loaded(graph, ids, id) && id in Universe(graph, ids))
    && (forall id :: id in ids && IsEntry(graph, id) ==> id in startup || id in pending)
    && (forall id, imported :: id in startup && imported in Imports(graph, id) ==> imported in startup || imported in pending)
  }

  lemma {:induction false} LastWaits(pending: seq<Id>, id: Id)
    requires pending != []
    ensures id in pending <==> id in pending[..|pending| - 1] || id == pending[|pending| - 1]
  {
    assert pending == pending[..|pending| - 1] + [pending[|pending| - 1]];
  }

  lemma {:induction false} TakenUp(graph: Graph, ids: seq<Id>, startup: set<Id>, pending: seq<Id>)
    requires pending != [] && Working(graph, ids, startup, pending)
    ensures var n := |pending| - 1;
            Working(graph, ids, startup + {pending[n]}, pending[..n] + Imports(graph, pending[n])) && pending[n] in Universe(graph, ids)
  {
    var n := |pending| - 1;
    var id := pending[n];
    assert id in pending;
    forall other
      ensures other in pending <==> other in pending[..n] || other == id
    {
      LastWaits(pending, other);
    }
    forall other | other in pending[..n] + Imports(graph, id)
      ensures Loaded(graph, ids, other) && other in Universe(graph, ids)
    {
      if other in Imports(graph, id) {
        LoadedImport(graph, ids, id, other);
      }
    }
  }

  lemma {:induction false} AlreadyTaken(graph: Graph, ids: seq<Id>, startup: set<Id>, pending: seq<Id>)
    requires pending != [] && Working(graph, ids, startup, pending) && pending[|pending| - 1] in startup
    ensures Working(graph, ids, startup, pending[..|pending| - 1])
  {
    forall other
      ensures other in pending <==> other in pending[..|pending| - 1] || other == pending[|pending| - 1]
    {
      LastWaits(pending, other);
    }
  }

  lemma {:induction false} WorkDone(graph: Graph, ids: seq<Id>, startup: set<Id>)
    requires Working(graph, ids, startup, [])
    ensures Closed(graph, startup) && forall id :: id in startup <==> Loaded(graph, ids, id)
  {
    assert Closed(graph, startup);
    forall id | Loaded(graph, ids, id)
      ensures id in startup
    {
      LoadedIsIn(graph, ids, startup, id);
    }
  }

  lemma {:induction false} EntriesWait(graph: Graph, ids: seq<Id>, entries: seq<Id>)
    requires forall id :: id in entries <==> id in ids && IsEntry(graph, id)
    ensures Working(graph, ids, {}, entries)
  {
    forall id | id in entries
      ensures Loaded(graph, ids, id)
    {
      LoadedEntry(graph, ids, id);
    }
  }

  lemma {:induction false} FewerLeft(universe: set<Id>, startup: set<Id>, id: Id)
    requires id in universe && id !in startup
    ensures |universe - (startup + {id})| < |universe - startup|
  {
    assert universe - startup == (universe - (startup + {id})) + {id};
  }

  method Entries(graph: Graph, ids: seq<Id>) returns (entries: seq<Id>)
    ensures forall id :: id in entries <==> id in ids && IsEntry(graph, id)
  {
    entries := [];
    for k := 0 to |ids|
      invariant forall id :: id in entries <==> id in ids[..k] && IsEntry(graph, id)
    {
      if IsEntry(graph, ids[k]) {
        entries := entries + [ids[k]];
      }
    }
  }

  /** The modules the entry loads at startup. */
  method Startup(graph: Graph, ids: seq<Id>) returns (startup: set<Id>)
    ensures forall id :: id in startup <==> Loaded(graph, ids, id)
    ensures Closed(graph, startup)
  {
    startup := {};
    var pending := Entries(graph, ids);
    EntriesWait(graph, ids, pending);
    while pending != []
      invariant Working(graph, ids, startup, pending)
      decreases |Universe(graph, ids) - startup|, |pending|
    {
      var id, rest := pending[|pending| - 1], pending[..|pending| - 1];
      if id in startup {
        AlreadyTaken(graph, ids, startup, pending);
        pending := rest;
      } else {
        TakenUp(graph, ids, startup, pending);
        FewerLeft(Universe(graph, ids), startup, id);
        startup := startup + {id};
        pending := rest + Imports(graph, id);
      }
    }
    WorkDone(graph, ids, startup);
  }

  // ------------------------------------------------------- generated modules

  /** Importing nothing but libraries and each other. */
  ghost predicate SelfContained(graph: Graph, s: set<Id>) {
    forall id, imported :: id in s && imported in Imports(graph, id) ==> IsNodeModule(imported) || imported in s
  }

  method ImportsAppCode(graph: Graph, id: Id, schemas: set<Id>) returns (found: bool)
    ensures found <==> exists imported :: imported in Imports(graph, id) && !IsNodeModule(imported) && imported !in schemas
  {
    var imports := Imports(graph, id);
    for k := 0 to |imports|
      invariant forall j :: 0 <= j < k ==> IsNodeModule(imports[j]) || imports[j] in schemas
    {
      if !IsNodeModule(imports[k]) && imports[k] !in schemas {
        return true;
      }
    }
    found := false;
  }

  /** Deletes generated modules that import application code until none does. What
      is left is the largest set that is self-contained, whatever order the
      passes take. */
  method Schemas(graph: Graph, startup: set<Id>) returns (schemas: set<Id>)
    ensures schemas <= Generated(startup) && SelfContained(graph, schemas)
    ensures forall s :: s <= Generated(startup) && SelfContained(graph, s) ==> s <= schemas
  {
    schemas := Generated(startup);
    var changed := true;
    while changed
      invariant schemas <= Generated(startup)
      invariant forall s :: s <= Generated(startup) && SelfContained(graph, s) ==> s <= schemas
      invariant !changed ==> SelfContained(graph, schemas)
      decreases |schemas|, changed
    {
      schemas, changed := Pass(graph, Generated(startup), schemas);
    }
  }

  function Generated(startup: set<Id>): set<Id> {
    set id | id in startup && IsGeneratedSource(id)
  }

  method Pass(graph: Graph, all: set<Id>, before: set<Id>) returns (schemas: set<Id>, changed: bool)
    requires forall s :: s <= all && SelfContained(graph, s) ==> s <= before
    ensures schemas <= before
    ensures forall s :: s <= all && SelfContained(graph, s) ==> s <= schemas
    ensures changed ==> |schemas| < |before|
    ensures !changed ==> schemas == before && SelfContained(graph, schemas)
  {
    schemas, changed := before, false;
    var todo := before;
    while todo != {}
      invariant schemas <= before && (changed ==> |schemas| < |before|) && (!changed ==> schemas == before)
      invariant forall s :: s <= all && SelfContained(graph, s) ==> s <= schemas
      invariant !changed ==> forall id, imported :: id in before - todo && imported in Imports(graph, id) ==> IsNodeModule(imported) || imported in before
      invariant todo <= schemas
      decreases |todo|
    {
      var id :| id in todo;
      var app := ImportsAppCode(graph, id, schemas);
      if app {
        NotInAny(graph, all, schemas, id);
        Smaller(schemas, before, id);
        schemas := schemas - {id};
        changed := true;
      }
      todo := todo - {id};
    }
  }

  lemma {:induction false} Smaller(schemas: set<Id>, before: set<Id>, id: Id)
    requires schemas <= before && id in schemas
    ensures |schemas - {id}| < |before|
  {
    assert schemas == (schemas - {id}) + {id};
    SubsetSize(schemas, before);
  }

  lemma {:induction false} SubsetSize(a: set<Id>, b: set<Id>)
    requires a <= b
    ensures |a| <= |b|
  {
    assert b == a + (b - a);
  }

  lemma {:induction false} NotInAny(graph: Graph, all: set<Id>, schemas: set<Id>, id: Id)
    requires forall s :: s <= all && SelfContained(graph, s) ==> s <= schemas
    requires exists imported :: imported in Imports(graph, id) && !IsNodeModule(imported) && imported !in schemas
    ensures forall s :: s <= all && SelfContained(graph, s) ==> s <= schemas - {id}
  {
    var imported :| imported in Imports(graph, id) && !IsNodeModule(imported) && imported !in schemas;
    forall s | s <= all && SelfContained(graph, s)
      ensures s <= schemas - {id}
    {
      assert s <= schemas;
      assert id in s ==> imported in s;
    }
  }

  // --------------------------------------------- what the largest set is like

  /** A chain of imports that goes through no library. */
  ghost predicate AppChain(graph: Graph, path: seq<Id>) {
    Chain(graph, path) && forall k :: 0 <= k < |path| ==> !IsNodeModule(path[k])
  }

  /** Everything reached from a module without going through a library is
      generated. */
  ghost predicate AppFree(graph: Graph, id: Id) {
    forall path :: AppChain(graph, path) && path[0] == id ==> IsGeneratedSource(path[|path| - 1])
  }

  ghost predicate IsLargest(graph: Graph, startup: set<Id>, schemas: set<Id>) {
    && schemas <= Generated(startup) && SelfContained(graph, schemas)
    && forall s :: s <= Generated(startup) && SelfContained(graph, s) ==> s <= schemas
  }

  lemma {:induction false} AppChainStaysIn(graph: Graph, s: set<Id>, path: seq<Id>, k: nat)
    requires SelfContained(graph, s) && AppChain(graph, path) && path[0] in s && k < |path|
    ensures path[k] in s
    decreases k
  {
    if k > 0 {
      AppChainStaysIn(graph, s, path, k - 1);
      assert path[k] in Imports(graph, path[k - 1]);
    }
  }

  lemma {:induction false} AppFreeImport(graph: Graph, id: Id, imported: Id)
    requires AppFree(graph, id) && !IsNodeModule(id) && imported in Imports(graph, id) && !IsNodeModule(imported)
    ensures AppFree(graph, imported) && IsGeneratedSource(imported)
  {
    forall path | AppChain(graph, path) && path[0] == imported
      ensures IsGeneratedSource(path[|path| - 1])
    {
      var longer := [id] + path;
      forall k | 0 < k < |longer|
        ensures longer[k] in Imports(graph, longer[k - 1])
      {
        if k > 1 { assert path[k - 1] in Imports(graph, path[k - 2]); }
      }
      assert AppChain(graph, longer) && longer[|longer| - 1] == path[|path| - 1];
    }
    assert AppChain(graph, [imported]);
  }

  /** A startup module goes with the generated clients exactly when everything it
      reaches without going through a library is generated. */
  lemma {:induction false} SchemasAreAppFree(graph: Graph, startup: set<Id>, schemas: set<Id>, id: Id)
    requires Closed(graph, startup) && IsLargest(graph, startup, schemas) && id in startup && !IsNodeModule(id)
    ensures id in schemas <==> AppFree(graph, id)
  {
    if id in schemas {
      forall path | AppChain(graph, path) && path[0] == id
        ensures IsGeneratedSource(path[|path| - 1])
      {
        AppChainStaysIn(graph, schemas, path, |path| - 1);
      }
    }
    if AppFree(graph, id) {
      var s := set x | x in startup && !IsNodeModule(x) && AppFree(graph, x);
      AppFreeSet(graph, startup, s);
    }
  }

  lemma {:induction false} AppFreeSet(graph: Graph, startup: set<Id>, s: set<Id>)
    requires Closed(graph, startup) && s == set x | x in startup && !IsNodeModule(x) && AppFree(graph, x)
    ensures s <= Generated(startup) && SelfContained(graph, s)
  {
    forall x | x in s
      ensures IsGeneratedSource(x)
    {
      assert AppChain(graph, [x]);
    }
    forall x, imported | x in s && imported in Imports(graph, x) && !IsNodeModule(imported)
      ensures imported in s
    {
      AppFreeImport(graph, x, imported);
    }
  }

  // -------------------------------------------------------------------- plan

  ghost predicate IsPlan(graph: Graph, ids: seq<Id>, plan: map<Id, Chunk>) {
    && (forall id :: id in plan && plan[id] == Vendor <==> Loaded(graph, ids, id) && IsNodeModule(id))
    && (forall id :: id in plan && plan[id] == ApiSchemas <==> Loaded(graph, ids, id) && !IsNodeModule(id) && AppFree(graph, id))
  }

  /** Libraries loaded at startup go to one chunk; modules loaded at startup that
      reach only generated code and libraries go to another; nothing else is
      moved. */
  method PlanChunks(graph: Graph, ids: seq<Id>) returns (plan: map<Id, Chunk>)
    ensures IsPlan(graph, ids, plan)
  {
    var startup := Startup(graph, ids);
    var schemas := Schemas(graph, startup);
    plan := map[];
    var todo := startup;
    while todo != {}
      invariant todo <= startup && plan.Keys <= startup - todo
      invariant forall id :: id in startup - todo ==> (id in plan && plan[id] == Vendor <==> IsNodeModule(id))
      invariant forall id :: id in startup - todo ==> (id in plan && plan[id] == ApiSchemas <==> !IsNodeModule(id) && id in schemas)
      decreases |todo|
    {
      var id :| id in todo;
      if IsNodeModule(id) {
        plan := plan[id := Vendor];
      } else if id in schemas {
        plan := plan[id := ApiSchemas];
      }
      todo := todo - {id};
    }
    forall id | id in startup && !IsNodeModule(id)
      ensures id in schemas <==> AppFree(graph, id)
    {
      SchemasAreAppFree(graph, startup, schemas, id);
    }
  }

  /** No module of the generated clients' chunk imports anything outside that
      chunk and the libraries': application code never comes back into it. */
  lemma {:induction false} NoWayBack(graph: Graph, ids: seq<Id>, plan: map<Id, Chunk>, id: Id, imported: Id)
    requires IsPlan(graph, ids, plan) && id in plan && plan[id] == ApiSchemas && imported in Imports(graph, id)
    ensures imported in plan && plan[imported] == if IsNodeModule(imported) then Vendor else ApiSchemas
  {
    LoadedImport(graph, ids, id, imported);
    if !IsNodeModule(imported) {
      AppFreeImport(graph, id, imported);
    }
  }
}
