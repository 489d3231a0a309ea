/** The order in which a replay makes derived tables (replay.rs): a Kahn sort over the
    derivations of a recipe. Hash maps iterate in an order of their own, so the methods take
    whatever order they get. */
module Replay {

  import opened Wrappers
  import opened Transform
  import opened Counting
  import SqlAst
  import SqlParser
  import SqlPrinter
  import ViewCompiler
  import ViewMeaning

  datatype Derivation =
    | Sql(sql: string, parents: seq<string>)
    | Transformed(parent: string, ops: seq<Transformation>)

  datatype RecipeTable = RecipeTable(name: string, derived: bool, derivation: Option<Derivation>)

  type Recipe = map<string, RecipeTable>

  /** The derivation is from a table of that name. */
  predicate From(t: RecipeTable, parent: string)
  {
    match t.derivation
    case Some(Sql(_, parents)) => parent in parents
    case Some(Transformed(p, _)) => parent == p
    case None => false
  }

  /** The tables a derivation is from, as often as it names them. */
  function Parents(t: RecipeTable): seq<string>
  {
    match t.derivation
    case Some(Sql(_, parents)) => parents
    case Some(Transformed(parent, _)) => [parent]
    case None => []
  }

  /** The derived tables by name: of two with one name, the later. */
  function Derived(tables: seq<RecipeTable>): Recipe
  {
    if tables == [] then map[]
    else
      var last := tables[|tables| - 1];
      if last.derived then Derived(tables[..|tables| - 1])[last.name := last] else Derived(tables[..|tables| - 1])
  }

  /** `child` is derived from the derived table `parent`. */
  ghost predicate Edge(d: Recipe, parent: string, child: string)
  {
    parent in d && child in d && From(d[child], parent)
  }

  /** A walk from a table to its children that ends where it began. */
  ghost predicate IsCycle(d: Recipe, walk: seq<string>)
  {
    |walk| >= 2 && walk[0] == walk[|walk| - 1] && forall i :: 0 <= i < |walk| - 1 ==> Edge(d, walk[i], walk[i + 1])
  }

  ghost predicate Acyclic(d: Recipe) { forall walk: seq<string> :: !IsCycle(d, walk) }

  ghost predicate Precedes(order: seq<RecipeTable>, parent: string, j: nat)
    requires j <= |order|
  {
    exists i :: 0 <= i < j && order[i].name == parent
  }

  ghost predicate ParentsFirst(d: Recipe, order: seq<RecipeTable>)
  {
    forall j, parent {:trigger Precedes(order, parent, j)} ::
      0 <= j < |order| && Edge(d, parent, order[j].name) ==> Precedes(order, parent, j)
  }

  ghost predicate NoDuplicates(order: seq<RecipeTable>)
  {
    forall i, j :: 0 <= i < j < |order| ==> order[i].name != order[j].name
  }

  /** Why a replay stops: the derivations have a cycle; a derived table has no derivation, or one
      that does not compile; or DuckDB does not make the table, its name being taken or something
      that it is made from not there. */
  datatype ReplayError =
    | Cyclic
    | NoDerivation(table: string)
    | NotCompiled(table: string, why: ViewCompiler.RenderError)
    | Taken(table: string)
    | Missing(table: string)

  /** Each derived name once, as its last table, and after every derived parent. */
  ghost predicate TopologicalOrder(d: Recipe, order: seq<RecipeTable>)
  {
    && NoDuplicates(order)
    && (forall name :: name in d <==> exists i :: 0 <= i < |order| && order[i].name == name)
    && (forall j :: 0 <= j < |order| ==> order[j].name in d && order[j] == d[order[j].name])
    && ParentsFirst(d, order)
  }

  /** How many of `parents` are derived tables not made yet. */
  function Pending(parents: seq<string>, d: set<string>, done: set<string>): nat
  {
    if parents == [] then 0
    else Pending(parents[..|parents| - 1], d, done)
         + (if parents[|parents| - 1] in d && parents[|parents| - 1] !in done then 1 else 0)
  }

  lemma {:induction false} PendingZeroIff(parents: seq<string>, d: set<string>, done: set<string>)
    ensures Pending(parents, d, done) == 0 <==> forall p <- parents :: p in d ==> p in done
  {
    if parents != [] {
      PendingZeroIff(parents[..|parents| - 1], d, done);
      assert parents == parents[..|parents| - 1] + [parents[|parents| - 1]];
    }
  }

  /** Making one more table settles every mention of it. */
  lemma {:induction false} PendingDone(parents: seq<string>, d: set<string>, done: set<string>, name: string)
    requires name in d && name !in done
    ensures Pending(parents, d, done + {name}) + multiset(parents)[name] == Pending(parents, d, done)
  {
    if parents != [] {
      PendingDone(parents[..|parents| - 1], d, done, name);
      assert parents == parents[..|parents| - 1] + [parents[|parents| - 1]];
    }
  }

  // ---- the graph

  type Children = map<string, seq<string>>

  function Kids(children: Children, p: string): seq<string> { if p in children then children[p] else [] }

  /** How often `kid` waits for `p`. */
  function Waits(children: Children, p: string, kid: string): nat { multiset(Kids(children, p))[kid] }

  /** The children lists agree with the derivations of `seen`, mention for mention. */
  ghost predicate ChildrenOf(d: Recipe, children: Children, seen: set<string>)
  {
    && (forall p, kid {:trigger kid in Kids(children, p)} :: kid in Kids(children, p) ==> p in d && kid in d)
    && (forall p, kid {:trigger Waits(children, p, kid)} :: p in d && kid in d ==>
          Waits(children, p, kid) == if kid in seen then multiset(Parents(d[kid]))[p] else 0)
  }

  /** How many derived parents each table still waits for, `done` apart. */
  ghost function Waiting(d: Recipe, done: set<string>): (w: map<string, nat>)
    ensures w.Keys == d.Keys
  {
    map n | n in d :: Pending(Parents(d[n]), d.Keys, done)
  }

  /** `kid` waits for `p` once more. */
  function Noted(children: Children, p: string, kid: string): Children
  {
    children[p := Kids(children, p) + [kid]]
  }

  lemma NotedWaits(children: Children, p: string, kid: string)
    ensures forall q, k {:trigger Waits(Noted(children, p, kid), q, k)} ::
              Waits(Noted(children, p, kid), q, k) == Waits(children, q, k) + (if q == p && k == kid then 1 else 0)
    ensures forall q, k {:trigger k in Kids(Noted(children, p, kid), q)} ::
              k in Kids(Noted(children, p, kid), q) <==> k in Kids(children, q) || (q == p && k == kid)
  {
  }

  lemma PrefixCount(s: seq<string>, k: nat)
    requires k < |s|
    ensures multiset(s[..k + 1]) == multiset(s[..k]) + multiset{s[k]}
    ensures multiset(s[..k])[s[k]] < multiset(s)[s[k]]
  {
    assert s[..k + 1] == s[..k] + [s[k]];
    assert s == s[..k + 1] + s[k + 1..];
  }

  /** `children` is `children0` with `name` waiting for every derived table in `counted`. */
  ghost predicate Added(d: Recipe, name: string, counted: multiset<string>, children0: Children, children: Children)
  {
    && (forall p, kid {:trigger kid in Kids(children, p)} :: kid in Kids(children, p) ==> p in d && kid in d)
    && (forall p, kid {:trigger Waits(children, p, kid)} :: p in d ==>
          Waits(children, p, kid) == Waits(children0, p, kid) + if kid == name then counted[p] else 0)
  }

  lemma AddedMore(d: Recipe, name: string, counted: multiset<string>, children0: Children, children: Children,
                  parent: string)
    requires name in d && parent in d && Added(d, name, counted, children0, children)
    ensures Added(d, name, counted + multiset{parent}, children0, Noted(children, parent, name))
  {
    NotedWaits(children, parent, name);
    var more := Noted(children, parent, name);
    forall p, kid | p in d
      ensures Waits(more, p, kid)
           == Waits(children0, p, kid) + if kid == name then (counted + multiset{parent})[p] else 0
    {
      OneMoreWait(d, name, counted, children0, children, parent, p, kid);
    }
  }

  lemma OneMoreWait(d: Recipe, name: string, counted: multiset<string>, children0: Children, children: Children,
                    parent: string, p: string, kid: string)
    requires Added(d, name, counted, children0, children) && p in d
    ensures Waits(Noted(children, parent, name), p, kid)
         == Waits(children0, p, kid) + if kid == name then (counted + multiset{parent})[p] else 0
  {
    NotedWaits(children, parent, name);
    assert Waits(children, p, kid) == Waits(children0, p, kid) + if kid == name then counted[p] else 0;
  }

  lemma AddedNothing(d: Recipe, name: string, counted: multiset<string>, children0: Children, children: Children,
                     parent: string)
    requires name in d && parent !in d && Added(d, name, counted, children0, children)
    ensures Added(d, name, counted + multiset{parent}, children0, children)
  {
  }

  lemma AddedWhole(d: Recipe, name: string, seen: set<string>, children0: Children, children: Children)
    requires name in d && name !in seen && ChildrenOf(d, children0, seen)
    requires Added(d, name, multiset(Parents(d[name])), children0, children)
    ensures ChildrenOf(d, children, seen + {name})
  {
  }

  /** Add one table to the graph: one more wait for each derived parent it names. */
  method AddTable(d: Recipe, name: string, ghost seen: set<string>, indegree0: map<string, nat>, children0: Children)
    returns (indegree: map<string, nat>, children: Children)
    requires name in d && name !in seen
    requires name in indegree0 && indegree0[name] == 0 && ChildrenOf(d, children0, seen)
    ensures indegree == indegree0[name := Pending(Parents(d[name]), d.Keys, {})]
            && ChildrenOf(d, children, seen + {name})
  {
    indegree, children := indegree0, children0;
    var parents := Parents(d[name]);
    for k := 0 to |parents|
      invariant indegree == indegree0[name := Pending(parents[..k], d.Keys, {})]
      invariant Added(d, name, multiset(parents[..k]), children0, children)
    {
      PrefixCount(parents, k);
      assert parents[..k + 1][..k] == parents[..k];
      if parents[k] in d {
        AddedMore(d, name, multiset(parents[..k]), children0, children, parents[k]);
        indegree := indegree[name := indegree[name] + 1];
        children := Noted(children, parents[k], name);
      } else {
        AddedNothing(d, name, multiset(parents[..k]), children0, children, parents[k]);
      }
    }
    assert parents[..|parents|] == parents;
    AddedWhole(d, name, seen, children0, children);
  }

  ghost function Indexed(d: Recipe, todo: set<string>): map<string, nat>
  {
    map n | n in d :: if n in todo then 0 else Waiting(d, {})[n]
  }

  lemma IndexedOne(d: Recipe, todo: set<string>, name: string)
    requires name in todo && name in d
    ensures Indexed(d, todo)[name] == 0
    ensures Indexed(d, todo - {name}) == Indexed(d, todo)[name := Pending(Parents(d[name]), d.Keys, {})]
  {
  }

  /** Index the derivations: how many parents each table waits for, and who waits for it. */
  method BuildGraph(d: Recipe) returns (indegree: map<string, nat>, children: Children)
    ensures indegree == Waiting(d, {}) && ChildrenOf(d, children, d.Keys)
  {
    indegree := map n | n in d :: 0;
    children := map[];
    var todo := d.Keys;
    assert d.Keys - todo == {};
    while todo != {}
      invariant todo <= d.Keys
      invariant indegree == Indexed(d, todo)
      invariant ChildrenOf(d, children, d.Keys - todo)
      decreases todo
    {
      var name :| name in todo;
      IndexedOne(d, todo, name);
      indegree, children := AddTable(d, name, d.Keys - todo, indegree, children);
      assert d.Keys - todo + {name} == d.Keys - (todo - {name});
      todo := todo - {name};
    }
    assert d.Keys - todo == d.Keys;
    assert Indexed(d, {}) == Waiting(d, {});
  }

  // ---- the sort

  ghost function NamesOf(order: seq<RecipeTable>): set<string> { set t <- order :: t.name }

  /** What the worklist keeps of its processed part `done`: just its tables are ordered, and
      these stand after their parents. */
  ghost predicate Ordered(d: Recipe, done: seq<string>, order: seq<RecipeTable>)
  {
    && (forall n {:trigger n in done} :: n in NamesOf(order) <==> n in done)
    && NoDuplicates(order)
    && (forall t <- order :: t.name in d && t == d[t.name])
    && ParentsFirst(d, order)
  }

  /** The queue holds just the tables that wait for nothing. */
  ghost predicate Queued(indegree: map<string, nat>, queue: seq<string>)
  {
    && (forall n {:trigger n in queue} :: n in queue ==> n in indegree && indegree[n] == 0)
    && (forall n {:trigger indegree[n]} :: n in indegree && indegree[n] == 0 ==> n in queue)
  }

  /** Making one more table settles each table's waits for it, and no others. */
  lemma WaitingSettled(d: Recipe, children: Children, name: string, done: set<string>)
    requires ChildrenOf(d, children, d.Keys)
    requires name in d && name !in done
    ensures forall kid <- Kids(children, name) :: kid in d
    ensures Settles(Waiting(d, done), Kids(children, name), Waiting(d, done + {name}))
  {
    forall kid | kid in d
      ensures Waiting(d, done)[kid] == Waiting(d, done + {name})[kid] + multiset(Kids(children, name))[kid]
    {
      PendingDone(Parents(d[kid]), d.Keys, done, name);
      assert Waits(children, name, kid) == multiset(Parents(d[kid]))[name];
    }
  }

  /** Counting down every mention in `kids` takes one indegree to the other. */
  ghost predicate Settles(before: map<string, nat>, kids: seq<string>, after: map<string, nat>)
  {
    && before.Keys == after.Keys
    && forall n {:trigger before[n]} {:trigger after[n]} :: n in before ==> before[n] == after[n] + multiset(kids)[n]
  }

  lemma SettlesNext(before: map<string, nat>, kids: seq<string>, k: nat, now: map<string, nat>, after: map<string, nat>)
    requires k < |kids| && kids[k] in before
    requires Settles(before, kids[..k], now) && Settles(before, kids, after)
    ensures kids[k] in now && now[kids[k]] > 0
    ensures Settles(before, kids[..k + 1], now[kids[k] := now[kids[k]] - 1])
  {
    PrefixCount(kids, k);
    assert before[kids[k]] == now[kids[k]] + multiset(kids[..k])[kids[k]];
  }

  lemma QueuedNext(indegree: map<string, nat>, queue: seq<string>, kid: string)
    requires Queued(indegree, queue) && kid in indegree && indegree[kid] > 0
    ensures Queued(indegree[kid := indegree[kid] - 1], if indegree[kid] == 1 then queue + [kid] else queue)
  {
  }

  lemma SettlesOnly(before: map<string, nat>, kids: seq<string>, now: map<string, nat>, after: map<string, nat>)
    requires Settles(before, kids, now) && Settles(before, kids, after)
    ensures now == after
  {
    assert forall n <- before :: before[n] == now[n] + multiset(kids)[n];
  }

  /** Settle one ordered table: each mention of it counts down, and a table left waiting for
      nothing is queued. */
  method Settle(kids: seq<string>, indegree0: map<string, nat>, queue0: seq<string>, ghost after: map<string, nat>)
    returns (indegree: map<string, nat>, queue: seq<string>)
    requires Queued(indegree0, queue0) && Settles(indegree0, kids, after)
    requires forall kid <- kids :: kid in indegree0
    ensures indegree == after
    ensures queue0 <= queue && Queued(indegree, queue)
  {
    indegree, queue := indegree0, queue0;
    for k := 0 to |kids|
      invariant queue0 <= queue && Queued(indegree, queue)
      invariant Settles(indegree0, kids[..k], indegree)
    {
      var kid := kids[k];
      SettlesNext(indegree0, kids, k, indegree, after);
      QueuedNext(indegree, queue, kid);
      indegree := indegree[kid := indegree[kid] - 1];
      if indegree[kid] == 0 {
        queue := queue + [kid];
      }
    }
    assert kids[..|kids|] == kids;
    SettlesOnly(indegree0, kids, indegree, after);
  }

  lemma {:induction false} DerivedName(tables: seq<RecipeTable>, name: string)
    requires name in Derived(tables)
    ensures Derived(tables)[name].name == name
    ensures Derived(tables)[name] in tables && Derived(tables)[name].derived
  {
    var init, last := tables[..|tables| - 1], tables[|tables| - 1];
    assert tables == init + [last];
    if !(last.derived && last.name == name) {
      DerivedName(init, name);
    }
  }

  lemma {:induction false} DerivedHas(tables: seq<RecipeTable>, t: RecipeTable)
    requires t in tables && t.derived
    ensures t.name in Derived(tables)
  {
    var init, last := tables[..|tables| - 1], tables[|tables| - 1];
    assert tables == init + [last];
    if t != last {
      DerivedHas(init, t);
    }
  }

  predicate IsSeed(t: RecipeTable, indegree: map<string, nat>)
  {
    t.derived && t.name in indegree && indegree[t.name] == 0
  }

  /** The queue lists the tables that wait for nothing by where they stand in the recipe. */
  ghost predicate Seeded(tables: seq<RecipeTable>, indegree: map<string, nat>, queue: seq<string>, places: seq<nat>)
  {
    && |queue| == |places|
    && (forall k :: 0 <= k < |places| ==> places[k] < |tables| && queue[k] == tables[places[k]].name)
    && (forall j, k :: 0 <= j < k < |places| ==> places[j] < places[k])
    && (forall i :: 0 <= i < |tables| ==> (i in places <==> IsSeed(tables[i], indegree)))
  }

  lemma SeededNext(tables: seq<RecipeTable>, indegree: map<string, nat>, queue: seq<string>, places: seq<nat>,
                   t: RecipeTable)
    requires Seeded(tables, indegree, queue, places)
    ensures if IsSeed(t, indegree) then Seeded(tables + [t], indegree, queue + [t.name], places + [|tables|])
            else Seeded(tables + [t], indegree, queue, places)
  {
    var more := tables + [t];
    assert forall i :: 0 <= i < |more| ==> more[i] == if i < |tables| then tables[i] else t;
    assert forall i: nat :: i in places + [|tables|] <==> i in places || i == |tables|;
    assert |tables| !in places;
  }

  lemma SeededIsQueued(tables: seq<RecipeTable>, indegree: map<string, nat>, queue: seq<string>, places: seq<nat>)
    requires indegree.Keys == Derived(tables).Keys && Seeded(tables, indegree, queue, places)
    ensures Queued(indegree, queue)
  {
    forall n <- queue
      ensures n in indegree && indegree[n] == 0
    {
      var k :| 0 <= k < |queue| && queue[k] == n;
      assert places[k] in places && IsSeed(tables[places[k]], indegree);
    }
    forall n <- indegree
      ensures indegree[n] == 0 ==> n in queue
    {
      DerivedName(tables, n);
      var i :| 0 <= i < |tables| && tables[i] == Derived(tables)[n];
      if indegree[n] == 0 {
        assert IsSeed(tables[i], indegree) && i in places;
        var k :| 0 <= k < |places| && places[k] == i;
        assert queue[k] == n;
      }
    }
  }

  /** The tables that wait for nothing, in recipe order, a duplicated one as often as it is there:
      `places` is where they stand. */
  method Seed(tables: seq<RecipeTable>, indegree: map<string, nat>) returns (queue: seq<string>, ghost places: seq<nat>)
    requires indegree.Keys == Derived(tables).Keys
    ensures Seeded(tables, indegree, queue, places) && Queued(indegree, queue)
  {
    queue, places := [], [];
    for k := 0 to |tables|
      invariant Seeded(tables[..k], indegree, queue, places)
    {
      var t := tables[k];
      SeededNext(tables[..k], indegree, queue, places, t);
      assert tables[..k + 1] == tables[..k] + [t] && |tables[..k]| == k;
      if t.derived && t.name in indegree && indegree[t.name] == 0 {
        queue := queue + [t.name];
        places := places + [k];
      }
    }
    assert tables[..|tables|] == tables;
    SeededIsQueued(tables, indegree, queue, places);
  }

  /** A table that waits for nothing may go last: its derived parents are all there. */
  lemma AppendKeepsOrder(d: Recipe, done: seq<string>, order: seq<RecipeTable>, name: string)
    requires Ordered(d, done, order)
    requires name in d && name !in NamesOf(order) && d[name].name == name
    requires forall p <- Parents(d[name]) :: p in d ==> p in NamesOf(order)
    ensures NamesOf(order + [d[name]]) == NamesOf(order) + {name}
    ensures Ordered(d, done + [name], order + [d[name]])
  {
    var longer := order + [d[name]];
    forall i | 0 <= i < |order|
      ensures order[i].name != name
    {
      assert order[i] in order;
    }
    forall j, parent | 0 <= j < |longer| && Edge(d, parent, longer[j].name)
      ensures Precedes(longer, parent, j)
    {
      if j < |order| {
        assert Precedes(order, parent, j);
        var i :| 0 <= i < j && order[i].name == parent;
        assert longer[i].name == parent;
      } else {
        assert parent in NamesOf(order);
        var i :| 0 <= i < |order| && order[i].name == parent;
        assert longer[i].name == parent;
      }
    }
  }

  lemma {:induction false} NamesCount(order: seq<RecipeTable>)
    requires NoDuplicates(order)
    ensures |NamesOf(order)| == |order|
  {
    if order != [] {
      var init, last := order[..|order| - 1], order[|order| - 1];
      NamesCount(init);
      assert order == init + [last];
      assert NamesOf(order) == NamesOf(init) + {last.name};
      assert last.name !in NamesOf(init);
    }
  }

  // ---- a rest in which every table waits for another holds a cycle

  ghost predicate WaitsWithin(d: Recipe, rest: set<string>, c: string) { exists p :: p in rest && Edge(d, p, c) }

  /** Walk backwards from `from`, `n` steps, always to a parent in `rest`. */
  ghost function WalkBack(d: Recipe, rest: set<string>, from: string, n: nat): (walk: seq<string>)
    requires rest <= d.Keys && from in rest
    requires forall c {:trigger WaitsWithin(d, rest, c)} :: c in rest ==> WaitsWithin(d, rest, c)
    ensures |walk| == n + 1 && walk[n] == from
    ensures forall name <- walk :: name in rest
    ensures forall i :: 0 <= i < n ==> Edge(d, walk[i], walk[i + 1])
    decreases n
  {
    if n == 0 then [from]
    else
      assert WaitsWithin(d, rest, from);
      var p :| p in rest && Edge(d, p, from);
      WalkBack(d, rest, p, n - 1) + [from]
  }

  /** A sequence longer than the set its elements come from repeats one. */
  lemma {:induction false} Pigeonhole(walk: seq<string>, rest: set<string>)
    requires forall name <- walk :: name in rest
    requires |walk| > |rest|
    ensures exists i, j :: 0 <= i < j < |walk| && walk[i] == walk[j]
  {
    var init, last := walk[..|walk| - 1], walk[|walk| - 1];
    if last in init {
      var i :| 0 <= i < |init| && init[i] == last;
      assert walk[i] == walk[|walk| - 1];
    } else {
      Pigeonhole(init, rest - {last});
      var i, j :| 0 <= i < j < |init| && init[i] == init[j];
      assert walk[i] == walk[j];
    }
  }

  lemma RestHasCycle(d: Recipe, rest: set<string>)
    requires rest != {} && rest <= d.Keys
    requires forall c {:trigger WaitsWithin(d, rest, c)} :: c in rest ==> WaitsWithin(d, rest, c)
    ensures !Acyclic(d)
  {
    var from :| from in rest;
    var walk := WalkBack(d, rest, from, |rest|);
    Pigeonhole(walk, rest);
    var i, j :| 0 <= i < j < |walk| && walk[i] == walk[j];
    var cycle := walk[i..j + 1];
    forall k | 0 <= k < |cycle| - 1
      ensures Edge(d, cycle[k], cycle[k + 1])
    {
      assert Edge(d, walk[i + k], walk[i + k + 1]);
    }
    assert IsCycle(d, cycle);
  }

  lemma StuckHasCycle(d: Recipe, order: seq<RecipeTable>)
    requires NoDuplicates(order) && NamesOf(order) <= d.Keys && |order| != |d|
    requires forall n {:trigger Waiting(d, NamesOf(order))[n]} ::
               n in d && Waiting(d, NamesOf(order))[n] == 0 ==> n in NamesOf(order)
    ensures !Acyclic(d)
  {
    NamesCount(order);
    assert |d| == |d.Keys|;
    var rest := d.Keys - NamesOf(order);
    assert rest != {} by {
      assert d.Keys == NamesOf(order) + rest;
    }
    forall c | c in rest
      ensures WaitsWithin(d, rest, c)
    {
      PendingZeroIff(Parents(d[c]), d.Keys, NamesOf(order));
      assert Waiting(d, NamesOf(order))[c] != 0;
      var p :| p in Parents(d[c]) && p in d && p !in NamesOf(order);
      assert p in rest && Edge(d, p, c);
    }
    RestHasCycle(d, rest);
  }

  // ---- an order excludes cycles

  ghost function Position(order: seq<RecipeTable>, name: string): nat
    requires exists i :: 0 <= i < |order| && order[i].name == name
    ensures Position(order, name) < |order| && order[Position(order, name)].name == name
  {
    var i :| 0 <= i < |order| && order[i].name == name;
    i
  }

  lemma EdgeAscends(d: Recipe, order: seq<RecipeTable>, parent: string, child: string)
    requires TopologicalOrder(d, order) && Edge(d, parent, child)
    ensures Position(order, parent) < Position(order, child)
  {
    var j := Position(order, child);
    assert Precedes(order, parent, j);
    var i :| 0 <= i < j && order[i].name == parent;
    var k := Position(order, parent);
    assert k == i;
  }

  lemma {:induction false} WalkAscends(d: Recipe, order: seq<RecipeTable>, walk: seq<string>)
    requires TopologicalOrder(d, order) && |walk| >= 2
    requires forall i :: 0 <= i < |walk| - 1 ==> Edge(d, walk[i], walk[i + 1])
    ensures walk[0] in d && walk[|walk| - 1] in d
    ensures Position(order, walk[0]) < Position(order, walk[|walk| - 1])
  {
    var last := |walk| - 1;
    assert Edge(d, walk[last - 1], walk[last]);
    EdgeAscends(d, order, walk[last - 1], walk[last]);
    if last > 1 {
      WalkAscends(d, order, walk[..last]);
    }
  }

  lemma OrderExcludesCycles(d: Recipe, order: seq<RecipeTable>)
    requires TopologicalOrder(d, order)
    ensures Acyclic(d)
  {
    forall walk: seq<string> | IsCycle(d, walk)
      ensures false
    {
      WalkAscends(d, order, walk);
    }
  }

  lemma OrderIsWhole(d: Recipe, order: seq<RecipeTable>)
    requires NoDuplicates(order) && |order| == |d|
    requires forall t <- order :: t.name in d && t == d[t.name]
    requires ParentsFirst(d, order)
    ensures TopologicalOrder(d, order)
  {
    NamesCount(order);
    assert |d| == |d.Keys|;
    SubsetCount(NamesOf(order), d.Keys);
    forall name
      ensures name in d <==> exists i :: 0 <= i < |order| && order[i].name == name
    {
      assert name in NamesOf(order) <==> name in d;
    }
  }

  /** A table that waits for nothing has all its derived parents made. */
  lemma ReadyParents(d: Recipe, done: set<string>, name: string)
    requires name in d && Waiting(d, done)[name] == 0
    ensures forall p <- Parents(d[name]) :: p in d ==> p in done
  {
    PendingZeroIff(Parents(d[name]), d.Keys, done);
  }

  /** The queue's next table, met for the first time, may be ordered and settled. */
  lemma Visit(tables: seq<RecipeTable>, children: Children, done: seq<string>, order: seq<RecipeTable>, name: string)
    requires ChildrenOf(Derived(tables), children, Derived(tables).Keys)
    requires Ordered(Derived(tables), done, order)
    requires name in Derived(tables) && name !in NamesOf(order)
    requires Waiting(Derived(tables), NamesOf(order))[name] == 0
    ensures var d := Derived(tables);
            && Ordered(d, done + [name], order + [d[name]])
            && NamesOf(order + [d[name]]) == NamesOf(order) + {name}
            && Settles(Waiting(d, NamesOf(order)), Kids(children, name), Waiting(d, NamesOf(order) + {name}))
            && (forall kid <- Kids(children, name) :: kid in d)
  {
    var d := Derived(tables);
    DerivedName(tables, name);
    ReadyParents(d, NamesOf(order), name);
    AppendKeepsOrder(d, done, order, name);
    WaitingSettled(d, children, name, NamesOf(order));
  }

  /** When the queue is done, everything is ordered or what is left holds a cycle. */
  lemma QueueDone(d: Recipe, queue: seq<string>, order: seq<RecipeTable>)
    requires Ordered(d, queue, order) && Queued(Waiting(d, NamesOf(order)), queue)
    ensures if |order| == |d| then TopologicalOrder(d, order) && Acyclic(d) else !Acyclic(d)
  {
    if |order| == |d| {
      OrderIsWhole(d, order);
      OrderExcludesCycles(d, order);
    } else {
      forall n | n in d && Waiting(d, NamesOf(order))[n] == 0
        ensures n in NamesOf(order)
      {
        assert n in queue;
      }
      StuckHasCycle(d, order);
    }
  }

  /** What the worklist keeps: its first `head` names are settled, and the rest is queued. */
  ghost predicate Settled(d: Recipe, indegree: map<string, nat>, queue: seq<string>, head: nat, order: seq<RecipeTable>)
  {
    && head <= |queue|
    && Queued(indegree, queue) && indegree == Waiting(d, NamesOf(order))
    && Ordered(d, queue[..head], order)
  }

  lemma SettledStart(d: Recipe, queue: seq<string>)
    requires Queued(Waiting(d, {}), queue)
    ensures NamesOf([]) == {} && Settled(d, Waiting(d, {}), queue, 0, [])
  {
    assert NamesOf([]) == {};
  }

  lemma SettledAll(d: Recipe, indegree: map<string, nat>, queue: seq<string>, order: seq<RecipeTable>)
    requires Settled(d, indegree, queue, |queue|, order)
    ensures Ordered(d, queue, order) && Queued(Waiting(d, NamesOf(order)), queue)
  {
    assert queue[..|queue|] == queue;
  }

  lemma SettledAlready(d: Recipe, indegree: map<string, nat>, queue: seq<string>, head: nat, order: seq<RecipeTable>)
    requires Settled(d, indegree, queue, head, order) && head < |queue| && queue[head] in NamesOf(order)
    ensures Settled(d, indegree, queue, head + 1, order)
  {
    assert queue[..head + 1] == queue[..head] + [queue[head]];
  }

  lemma SettledNext(d: Recipe, done: seq<string>, name: string, order: seq<RecipeTable>,
                    indegree: map<string, nat>, queue: seq<string>)
    requires Ordered(d, done + [name], order) && done + [name] <= queue
    requires Queued(indegree, queue) && indegree == Waiting(d, NamesOf(order))
    ensures Settled(d, indegree, queue, |done| + 1, order)
  {
    assert queue[..|done| + 1] == done + [name];
  }

  /** Order the table at the head of the queue and settle its children. */
  method OrderHead(tables: seq<RecipeTable>, children: Children, order: seq<RecipeTable>,
                   indegree0: map<string, nat>, queue0: seq<string>, head: nat)
    returns (indegree: map<string, nat>, queue: seq<string>)
    requires ChildrenOf(Derived(tables), children, Derived(tables).Keys)
    requires Settled(Derived(tables), indegree0, queue0, head, order)
    requires head < |queue0| && queue0[head] !in NamesOf(order)
    ensures queue0[head] in Derived(tables) && |queue| > head
    ensures var longer := order + [Derived(tables)[queue0[head]]];
            && NamesOf(longer) == NamesOf(order) + {queue0[head]}
            && Settled(Derived(tables), indegree, queue, head + 1, longer)
  {
    var d, name := Derived(tables), queue0[head];
    ghost var done := queue0[..head];
    assert name in queue0;
    Visit(tables, children, done, order, name);
    indegree, queue := Settle(Kids(children, name), indegree0, queue0, Waiting(d, NamesOf(order) + {name}));
    assert done + [name] == queue0[..head + 1] <= queue0 <= queue;
    SettledNext(d, done, name, order + [d[name]], indegree, queue);
  }

  /** Run the worklist until its queue is used up. */
  method RunQueue(tables: seq<RecipeTable>, indegree0: map<string, nat>, children: Children, queue0: seq<string>)
    returns (order: seq<RecipeTable>, ghost queue: seq<string>)
    requires ChildrenOf(Derived(tables), children, Derived(tables).Keys)
    requires indegree0 == Waiting(Derived(tables), {}) && Queued(indegree0, queue0)
    ensures Ordered(Derived(tables), queue, order)
    ensures Queued(Waiting(Derived(tables), NamesOf(order)), queue)
  {
    var d := Derived(tables);
    var indegree, work := indegree0, queue0;
    order := [];
    var seen: set<string> := {};
    var head := 0;
    SettledStart(d, work);
    while head < |work|
      invariant Settled(d, indegree, work, head, order)
      invariant seen == NamesOf(order)
      decreases d.Keys - seen, |work| - head
    {
      var name := work[head];
      if name in seen {
        SettledAlready(d, indegree, work, head, order);
      } else {
        indegree, work := OrderHead(tables, children, order, indegree, work, head);
        order := order + [d[name]];
        assert name in d.Keys - seen && name !in d.Keys - (seen + {name});
        seen := seen + {name};
      }
      head := head + 1;
    }
    SettledAll(d, indegree, work, order);
    queue := work;
  }

  method TopoOrderDerived(tables: seq<RecipeTable>) returns (r: Result<seq<RecipeTable>, ReplayError>)
    ensures r.Success? <==> Acyclic(Derived(tables))
    ensures r.Failure? ==> r.error == Cyclic
    ensures r.Success? ==> TopologicalOrder(Derived(tables), r.value)
  {
    var d := Derived(tables);
    var indegree, children := BuildGraph(d);
    var queue, _ := Seed(tables, indegree);
    var order, done := RunQueue(tables, indegree, children, queue);
    QueueDone(d, done, order);
    if |order| != |d| {
      return Failure(Cyclic);
    }
    r := Success(order);
  }

  /** Of several derived tables of one name, the last. */
  lemma {:induction false} DerivedIsLast(tables: seq<RecipeTable>, name: string)
    ensures name in Derived(tables) <==> exists i :: 0 <= i < |tables| && tables[i].derived && tables[i].name == name
    ensures name in Derived(tables) ==>
              exists i :: 0 <= i < |tables| && tables[i].derived && tables[i].name == name
                          && Derived(tables)[name] == tables[i]
                          && forall j :: i < j < |tables| ==> !(tables[j].derived && tables[j].name == name)
  {
    if tables != [] {
      var init, last := tables[..|tables| - 1], tables[|tables| - 1];
      DerivedIsLast(init, name);
      if last.derived && last.name == name {
        assert tables[|tables| - 1] == last;
      } else if name in Derived(init) {
        var i :| 0 <= i < |init| && init[i].derived && init[i].name == name && Derived(init)[name] == init[i]
                 && forall j :: i < j < |init| ==> !(init[j].derived && init[j].name == name);
        assert tables[i] == init[i];
        assert forall j :: i < j < |tables| ==> tables[j] == if j < |init| then init[j] else last;
      } else {
        assert forall i :: 0 <= i < |tables| ==> tables[i] == if i < |init| then init[i] else last;
      }
    }
  }

  // ---- making the tables

  /** What a table holds: what it was loaded with, or a statement's result. */
  datatype Content = Loaded(id: nat) | MadeBy(sql: string)

  type Catalog = map<string, Content>

  /** The statement that makes a table. */
  function Statement(rx: ViewCompiler.RegexCheck, t: RecipeTable): Result<string, ReplayError>
  {
    match t.derivation
    case None => Failure(NoDerivation(t.name))
    case Some(Sql(sql, _)) => Success(sql)
    case Some(Transformed(parent, ops)) =>
      match ViewCompiler.ViewSql(rx, [parent], ops)
      case Failure(e) => Failure(NotCompiled(t.name, e))
      case Success(sql) => Success(sql)
  }

  method StepSql(rx: ViewCompiler.RegexCheck, t: RecipeTable) returns (r: Result<string, ReplayError>)
    ensures r == Statement(rx, t)
    ensures t.derivation.None? ==> r == Failure(NoDerivation(t.name))
    ensures forall sql, parents :: t.derivation == Some(Sql(sql, parents)) ==> r == Success(sql)
    ensures forall parent, ops :: t.derivation == Some(Transformed(parent, ops)) ==>
              match ViewCompiler.ViewSql(rx, [parent], ops)
              case Success(sql) => r == Success(sql)
              case Failure(e) => r == Failure(NotCompiled(t.name, e))
  {
    match t.derivation {
      case None => return Failure(NoDerivation(t.name));
      case Some(Sql(sql, _)) => return Success(sql);
      case Some(Transformed(parent, ops)) =>
        assert SqlPrinter.NameText([parent]) == SqlPrinter.QuoteIdent(parent);
        var compiled := ViewCompiler.CompileViewSql(rx, SqlPrinter.QuoteIdent(parent), [parent], ops);
        match compiled {
          case Failure(e) => return Failure(NotCompiled(t.name, e));
          case Success(sql) => return Success(sql);
        }
    }
  }

  /** What DuckDB reads as it runs a text of which that is not plain. */
  type Reading = string -> set<string>

  /** The relations a statement reads: the one relation of what parses as a compiled view, and
      what DuckDB finds in any other text. */
  function ReadBy(reading: Reading, sql: string): set<string>
  {
    match SqlParser.ParseSql(sql)
    case Some(q) => if |SqlAst.BaseOf(q)| == 1 then {SqlAst.BaseOf(q)[0]} else reading(sql)
    case None => reading(sql)
  }

  class Engine {
    var catalog: Catalog
    const reading: Reading

    constructor (catalog: Catalog, reading: Reading)
      ensures this.catalog == catalog && this.reading == reading
    {
      this.catalog, this.reading := catalog, reading;
    }

    method DropTable(name: string)
      modifies this`catalog
      ensures catalog == old(catalog) - {name}
    {
      catalog := catalog - {name};
    }

    /** CREATE TABLE … AS: refused when the name is taken or something read is not there. */
    method CreateTable(name: string, sql: string) returns (refused: Option<ReplayError>)
      modifies this`catalog
      ensures refused == if name in old(catalog) then Some(Taken(name))
                         else if !(ReadBy(reading, sql) <= old(catalog).Keys) then Some(Missing(name)) else None
      ensures catalog == if refused.None? then old(catalog)[name := MadeBy(sql)] else old(catalog)
    {
      if name in catalog {
        return Some(Taken(name));
      }
      if !(ReadBy(reading, sql) <= catalog.Keys) {
        return Some(Missing(name));
      }
      catalog := catalog[name := MadeBy(sql)];
      refused := None;
    }

    /** Make one table; a stale one of the same name is dropped first. */
    method Recreate(rx: ViewCompiler.RegexCheck, table: RecipeTable) returns (error: Option<ReplayError>)
      modifies this`catalog
      ensures (catalog, error) == Step(rx, reading, old(catalog), table)
    {
      var sql := StepSql(rx, table);
      if sql.Failure? {
        return Some(sql.error);
      }
      if table.name in catalog {
        DropTable(table.name);
      }
      assert catalog == old(catalog) - {table.name};
      error := CreateTable(table.name, sql.value);
    }

    /** Make tables in the order given, up to the first that cannot be made. */
    method RecreateInOrder(rx: ViewCompiler.RegexCheck, order: seq<RecipeTable>)
      returns (error: Option<ReplayError>, ghost made: seq<RecipeTable>)
      modifies this`catalog
      ensures (catalog, error) == Replayed(rx, reading, old(catalog), order)
      ensures made <= order && (error.None? ==> made == order)
    {
      made := [];
      ghost var before := catalog;
      for k := 0 to |order|
        invariant made == order[..k] && Replayed(rx, reading, before, made) == (catalog, None)
      {
        ReplayedSnoc(rx, reading, before, made, order[k]);
        assert order[..k + 1] == made + [order[k]];
        error := Recreate(rx, order[k]);
        if error.Some? {
          ReplayedStops(rx, reading, before, order, k + 1);
          return;
        }
        made := made + [order[k]];
      }
      assert order[..|order|] == order;
      error := None;
    }

    /** Make the derived tables again, each after the derived tables it is made from. */
    method RecreateDerived(rx: ViewCompiler.RegexCheck, tables: seq<RecipeTable>)
      returns (error: Option<ReplayError>, ghost made: seq<RecipeTable>)
      modifies this`catalog
      ensures !Acyclic(Derived(tables)) ==> error == Some(Cyclic) && catalog == old(catalog)
      ensures Acyclic(Derived(tables)) && Recorded(rx, reading, Derived(tables), old(catalog).Keys) ==>
                && (error.None? <==> forall name <- Derived(tables) :: Statement(rx, Derived(tables)[name]).Success?)
                && (error.Some? ==> error.value.NoDerivation? || error.value.NotCompiled?)
      ensures error.None? ==>
                && TopologicalOrder(Derived(tables), made)
                && catalog.Keys == old(catalog).Keys + Derived(tables).Keys
                && (forall name <- catalog :: name !in Derived(tables) ==> catalog[name] == old(catalog)[name])
                && (forall name <- Derived(tables) ::
                      Statement(rx, Derived(tables)[name]).Success?
                      && catalog[name] == MadeBy(Statement(rx, Derived(tables)[name]).value))
      ensures Recorded(rx, reading, Derived(tables), old(catalog).Keys) ==>
                ReadsWhatIsMade(rx, reading, Derived(tables), made)
      ensures NoDuplicates(made) && ParentsFirst(Derived(tables), made)
    {
      var sorted := TopoOrderDerived(tables);
      if sorted.Failure? {
        return Some(sorted.error), [];
      }
      ghost var d, order := Derived(tables), sorted.value;
      ghost var before := catalog;
      error, made := RecreateInOrder(rx, sorted.value);
      assert made == order[..|made|];
      PrefixOrder(d, order, |made|);
      ReplayedIs(rx, reading, before, d, order);
      if Recorded(rx, reading, d, before.Keys) {
        RecordedOrder(rx, reading, d, order, before);
        OrderReads(rx, reading, d, order[..|made|], before.Keys);
      }
    }
  }

  /** What making one table does: nothing, if it has no statement; else whatever had its name is
      gone, and the table is there if all that it reads is. */
  function Step(rx: ViewCompiler.RegexCheck, reading: Reading, catalog: Catalog, t: RecipeTable)
    : (Catalog, Option<ReplayError>)
  {
    match Statement(rx, t)
    case Failure(e) => (catalog, Some(e))
    case Success(sql) =>
      var others := catalog - {t.name};
      if ReadBy(reading, sql) <= others.Keys then (others[t.name := MadeBy(sql)], None)
      else (others, Some(Missing(t.name)))
  }

  function Replayed(rx: ViewCompiler.RegexCheck, reading: Reading, catalog: Catalog, order: seq<RecipeTable>)
    : (Catalog, Option<ReplayError>)
  {
    if order == [] then (catalog, None)
    else
      var (now, error) := Replayed(rx, reading, catalog, order[..|order| - 1]);
      if error.Some? then (now, error) else Step(rx, reading, now, order[|order| - 1])
  }

  lemma {:induction false} ReplayedStops(rx: ViewCompiler.RegexCheck, reading: Reading, catalog: Catalog,
                                         order: seq<RecipeTable>, k: nat)
    requires k <= |order| && Replayed(rx, reading, catalog, order[..k]).1.Some?
    ensures Replayed(rx, reading, catalog, order) == Replayed(rx, reading, catalog, order[..k])
  {
    if k == |order| {
      assert order[..k] == order;
    } else {
      assert order[..|order| - 1][..k] == order[..k];
      ReplayedStops(rx, reading, catalog, order[..|order| - 1], k);
    }
  }

  // ---- what is read is there

  /** The recipe records what its tables are made from: a query's text reads no table but its
      recorded parents. (A transformation's text reads its parent, if it is SQL at all.) */
  predicate RecordsReads(rx: ViewCompiler.RegexCheck, reading: Reading, t: RecipeTable)
  {
    match t.derivation
    case None => true
    case Some(Sql(sql, parents)) => forall name <- ReadBy(reading, sql) :: name in parents
    case Some(Transformed(parent, ops)) =>
      ViewMeaning.Finite(ops)
      || match ViewCompiler.ViewSql(rx, [parent], ops)
         case Failure(_) => true
         case Success(sql) => reading(sql) <= {parent}
  }

  /** And what is read is a derived table or one that is there already. */
  predicate Recorded(rx: ViewCompiler.RegexCheck, reading: Reading, d: Recipe, there: set<string>)
  {
    forall name <- d ::
      && RecordsReads(rx, reading, d[name])
      && (Statement(rx, d[name]).Success? ==> ReadBy(reading, Statement(rx, d[name]).value) <= d.Keys + there)
  }

  /** A transformation's text reads its parent. */
  lemma ViewReads(rx: ViewCompiler.RegexCheck, reading: Reading, parent: string, ops: seq<Transformation>)
    requires ViewCompiler.ViewSql(rx, [parent], ops).Success? && ViewMeaning.Finite(ops)
    ensures ReadBy(reading, ViewCompiler.ViewSql(rx, [parent], ops).value) == {parent}
  {
    ViewMeaning.GatherIs(rx, ops);
    ViewMeaning.CompiledReads(rx, [parent], ops);
  }

  /** And one that is no SQL of the compiler's, what DuckDB finds in it. */
  lemma OddViewReads(rx: ViewCompiler.RegexCheck, reading: Reading, parent: string, ops: seq<Transformation>)
    requires ViewCompiler.ViewSql(rx, [parent], ops).Success? && !ViewMeaning.Finite(ops)
    ensures ReadBy(reading, ViewCompiler.ViewSql(rx, [parent], ops).value)
         == reading(ViewCompiler.ViewSql(rx, [parent], ops).value)
  {
    ViewMeaning.GatherIs(rx, ops);
    ViewMeaning.CompiledReads(rx, [parent], ops);
  }

  /** What a statement reads is recorded. */
  lemma ReadsParents(rx: ViewCompiler.RegexCheck, reading: Reading, t: RecipeTable, name: string)
    requires RecordsReads(rx, reading, t) && Statement(rx, t).Success?
    requires name in ReadBy(reading, Statement(rx, t).value)
    ensures From(t, name)
  {
    match t.derivation.value
    case Sql(_, _) =>
    case Transformed(parent, ops) =>
      if ViewMeaning.Finite(ops) {
        ViewReads(rx, reading, parent, ops);
      } else {
        OddViewReads(rx, reading, parent, ops);
      }
  }

  /** Every derived table that a statement reads was made by an earlier one. */
  ghost predicate ReadsWhatIsMade(rx: ViewCompiler.RegexCheck, reading: Reading, d: Recipe, made: seq<RecipeTable>)
  {
    forall j, name {:trigger Precedes(made, name, j)} ::
      0 <= j < |made| && Statement(rx, made[j]).Success?
      && name in ReadBy(reading, Statement(rx, made[j]).value) && name in d
      ==> Precedes(made, name, j)
  }

  lemma OrderReads(rx: ViewCompiler.RegexCheck, reading: Reading, d: Recipe, order: seq<RecipeTable>,
                   there: set<string>)
    requires Recorded(rx, reading, d, there) && ParentsFirst(d, order)
    requires forall t <- order :: t.name in d && t == d[t.name]
    ensures ReadsWhatIsMade(rx, reading, d, order)
  {
    forall j, name | 0 <= j < |order| && Statement(rx, order[j]).Success?
                     && name in ReadBy(reading, Statement(rx, order[j]).value) && name in d
      ensures Precedes(order, name, j)
    {
      assert order[j] in order;
      ReadsParents(rx, reading, order[j], name);
      assert Edge(d, name, order[j].name);
    }
  }

  lemma PrefixOrder(d: Recipe, order: seq<RecipeTable>, k: nat)
    requires TopologicalOrder(d, order) && k <= |order|
    ensures NoDuplicates(order[..k]) && ParentsFirst(d, order[..k])
  {
    forall j, parent | 0 <= j < k && Edge(d, parent, order[..k][j].name)
      ensures Precedes(order[..k], parent, j)
    {
      assert Precedes(order, parent, j);
      var i :| 0 <= i < j && order[i].name == parent;
      assert order[..k][i].name == parent;
    }
  }

  /** Every table of the order is made by its statement, and the others are as they were. */
  ghost predicate Makes(rx: ViewCompiler.RegexCheck, catalog: Catalog, order: seq<RecipeTable>, now: Catalog)
  {
    && now.Keys == catalog.Keys + NamesOf(order)
    && (forall name <- now :: name !in NamesOf(order) ==> now[name] == catalog[name])
    && (forall t <- order :: Statement(rx, t).Success? && now[t.name] == MadeBy(Statement(rx, t).value))
  }

  lemma MakesMore(rx: ViewCompiler.RegexCheck, reading: Reading, catalog: Catalog, init: seq<RecipeTable>, now: Catalog,
                  last: RecipeTable)
    requires Makes(rx, catalog, init, now) && last.name !in NamesOf(init) && Step(rx, reading, now, last).1.None?
    ensures Makes(rx, catalog, init + [last], Step(rx, reading, now, last).0)
  {
    var after := Step(rx, reading, now, last).0;
    NamesNext(init, last);
    forall t <- init + [last]
      ensures Statement(rx, t).Success? && after[t.name] == MadeBy(Statement(rx, t).value)
    {
      assert t in init ==> t.name in NamesOf(init);
    }
  }

  lemma {:induction false} ReplayedMakes(rx: ViewCompiler.RegexCheck, reading: Reading, catalog: Catalog,
                                         order: seq<RecipeTable>)
    requires NoDuplicates(order)
    ensures var (now, error) := Replayed(rx, reading, catalog, order);
            error.None? ==> Makes(rx, catalog, order, now)
  {
    if order != [] {
      var init, last := order[..|order| - 1], order[|order| - 1];
      assert order == init + [last];
      InitNoDuplicates(init, last);
      ReplayedMakes(rx, reading, catalog, init);
      var (now, error) := Replayed(rx, reading, catalog, init);
      ReplayedSnoc(rx, reading, catalog, init, last);
      if error.None? && Step(rx, reading, now, last).1.None? {
        MakesMore(rx, reading, catalog, init, now, last);
      }
    }
  }

  lemma NamesNext(made: seq<RecipeTable>, table: RecipeTable)
    ensures NamesOf(made + [table]) == NamesOf(made) + {table.name}
  {
  }

  /** A replay ends well exactly when every table has a statement, and else for want of one. */
  ghost predicate EndsWell(rx: ViewCompiler.RegexCheck, order: seq<RecipeTable>, error: Option<ReplayError>)
  {
    && (error.None? <==> forall t <- order :: Statement(rx, t).Success?)
    && (error.Some? ==> error.value.NoDerivation? || error.value.NotCompiled?)
  }

  lemma EndsWellMore(rx: ViewCompiler.RegexCheck, init: seq<RecipeTable>, last: RecipeTable, error: Option<ReplayError>,
                     after: Option<ReplayError>)
    requires EndsWell(rx, init, error)
    requires after
          == if error.Some? then error else match Statement(rx, last) case Failure(e) => Some(e) case Success(_) => None
    ensures EndsWell(rx, init + [last], after)
  {
    assert last in init + [last];
  }

  lemma ReplayedSnoc(rx: ViewCompiler.RegexCheck, reading: Reading, catalog: Catalog, init: seq<RecipeTable>,
                     last: RecipeTable)
    ensures var (now, error) := Replayed(rx, reading, catalog, init);
            Replayed(rx, reading, catalog, init + [last])
            == if error.Some? then (now, error) else Step(rx, reading, now, last)
  {
    assert (init + [last])[..|init|] == init;
  }

  lemma StepEnds(rx: ViewCompiler.RegexCheck, reading: Reading, now: Catalog, t: RecipeTable)
    requires Statement(rx, t).Success? ==> ReadBy(reading, Statement(rx, t).value) <= now.Keys - {t.name}
    ensures Step(rx, reading, now, t).1 == match Statement(rx, t) case Failure(e) => Some(e) case Success(_) => None
  {
  }

  lemma InitNoDuplicates(init: seq<RecipeTable>, last: RecipeTable)
    requires NoDuplicates(init + [last])
    ensures NoDuplicates(init) && last.name !in NamesOf(init)
  {
    forall i, j | 0 <= i < j < |init|
      ensures init[i].name != init[j].name
    {
      assert (init + [last])[i] == init[i] && (init + [last])[j] == init[j];
    }
    forall t <- init
      ensures t.name != last.name
    {
      var i :| 0 <= i < |init| && init[i] == t;
      assert (init + [last])[i] == t && (init + [last])[|init|] == last;
    }
  }

  lemma MoreRuns(rx: ViewCompiler.RegexCheck, reading: Reading, d: Recipe, init: seq<RecipeTable>, last: RecipeTable,
                 catalog: Catalog)
    requires Recorded(rx, reading, d, catalog.Keys) && NoDuplicates(init + [last])
    requires last.name in d && last == d[last.name]
    requires ReadsWhatIsMade(rx, reading, d, init + [last])
    requires EndsWell(rx, init, Replayed(rx, reading, catalog, init).1)
    ensures EndsWell(rx, init + [last], Replayed(rx, reading, catalog, init + [last]).1)
  {
    var (now, error) := Replayed(rx, reading, catalog, init);
    InitNoDuplicates(init, last);
    ReplayedMakes(rx, reading, catalog, init);
    ReplayedSnoc(rx, reading, catalog, init, last);
    if error.None? {
      if Statement(rx, last).Success? {
        LastReads(rx, reading, d, init, last, catalog);
      }
      StepEnds(rx, reading, now, last);
    }
    EndsWellMore(rx, init, last, error, Replayed(rx, reading, catalog, init + [last]).1);
  }

  /** So it is where everything read is made before or there from the start. */
  lemma {:induction false} ReplayedRuns(rx: ViewCompiler.RegexCheck, reading: Reading, d: Recipe,
                                        order: seq<RecipeTable>, catalog: Catalog)
    requires Recorded(rx, reading, d, catalog.Keys) && NoDuplicates(order)
    requires forall t <- order :: t.name in d && t == d[t.name]
    requires ReadsWhatIsMade(rx, reading, d, order)
    ensures EndsWell(rx, order, Replayed(rx, reading, catalog, order).1)
  {
    if order != [] {
      var init, last := order[..|order| - 1], order[|order| - 1];
      assert order == init + [last] && last in order && forall t <- init :: t in order;
      ReadsMadeInit(rx, reading, d, init, last);
      ReplayedRuns(rx, reading, d, init, catalog);
      MoreRuns(rx, reading, d, init, last, catalog);
    }
  }

  lemma ReadsMadeInit(rx: ViewCompiler.RegexCheck, reading: Reading, d: Recipe, init: seq<RecipeTable>,
                      last: RecipeTable)
    requires ReadsWhatIsMade(rx, reading, d, init + [last])
    ensures ReadsWhatIsMade(rx, reading, d, init)
  {
    forall j, name | 0 <= j < |init| && Statement(rx, init[j]).Success?
                     && name in ReadBy(reading, Statement(rx, init[j]).value) && name in d
      ensures Precedes(init, name, j)
    {
      assert (init + [last])[j] == init[j];
      assert Precedes(init + [last], name, j);
    }
  }

  lemma LastReads(rx: ViewCompiler.RegexCheck, reading: Reading, d: Recipe, init: seq<RecipeTable>, last: RecipeTable,
                  catalog: Catalog)
    requires Recorded(rx, reading, d, catalog.Keys) && NoDuplicates(init + [last])
    requires last.name in d && last == d[last.name] && Statement(rx, last).Success?
    requires ReadsWhatIsMade(rx, reading, d, init + [last])
    ensures ReadBy(reading, Statement(rx, last).value) <= catalog.Keys + NamesOf(init) - {last.name}
  {
    forall name <- ReadBy(reading, Statement(rx, last).value)
      ensures name in catalog.Keys + NamesOf(init) && name != last.name
    {
      if name in d {
        assert (init + [last])[|init|] == last;
        assert Precedes(init + [last], name, |init|);
        var i :| 0 <= i < |init| && (init + [last])[i].name == name;
        assert init[i] in init && init[i].name == name;
      }
    }
  }

  lemma ReplayedIs(rx: ViewCompiler.RegexCheck, reading: Reading, catalog: Catalog, d: Recipe, order: seq<RecipeTable>)
    requires TopologicalOrder(d, order)
    ensures var (now, error) := Replayed(rx, reading, catalog, order);
            error.None? ==>
              && now.Keys == catalog.Keys + d.Keys
              && (forall name <- now :: name !in d ==> now[name] == catalog[name])
              && (forall name <- d ::
                    Statement(rx, d[name]).Success? && now[name] == MadeBy(Statement(rx, d[name]).value))
  {
    WholeOrder(rx, d, order);
    ReplayedMakes(rx, reading, catalog, order);
    forall name <- d
      ensures exists t <- order :: t == d[name] && t.name == name
    {
      var i :| 0 <= i < |order| && order[i].name == name;
      assert order[i] in order;
    }
  }

  lemma RecordedOrder(rx: ViewCompiler.RegexCheck, reading: Reading, d: Recipe, order: seq<RecipeTable>,
                      catalog: Catalog)
    requires TopologicalOrder(d, order) && Recorded(rx, reading, d, catalog.Keys)
    ensures var error := Replayed(rx, reading, catalog, order).1;
            && (error.None? <==> forall name <- d :: Statement(rx, d[name]).Success?)
            && (error.Some? ==> error.value.NoDerivation? || error.value.NotCompiled?)
  {
    WholeOrder(rx, d, order);
    OrderReads(rx, reading, d, order, catalog.Keys);
    ReplayedRuns(rx, reading, d, order, catalog);
  }

  lemma WholeOrder(rx: ViewCompiler.RegexCheck, d: Recipe, order: seq<RecipeTable>)
    requires TopologicalOrder(d, order)
    ensures NamesOf(order) == d.Keys
    ensures (forall t <- order :: Statement(rx, t).Success?) <==> (forall name <- d :: Statement(rx, d[name]).Success?)
  {
    forall name
      ensures name in d <==> name in NamesOf(order)
    {
      if name in d {
        var i :| 0 <= i < |order| && order[i].name == name;
        assert order[i] in order;
      }
    }
  }
}
