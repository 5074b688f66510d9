/** The checkpoint enumeration of pages (btree.go): a depth-first walk with a set of visited page IDs. */
module Checkpoint {
  import opened Bytes
  import opened Finite
  import opened Pages

  type Ref = nat

  /**
   A page reference as the walk sees it; the children of an internal page may be missing, as a whole
   or one by one.
   */
  datatype Node = Node(pageID: PageID, isLeaf: bool, children: Option<seq<Option<Ref>>>)

  type Graph = map<Ref, Node>

  /** The references the walk follows from a page. */
  function Present(cs: seq<Option<Ref>>): (r: seq<Ref>)
    ensures forall x :: x in r <==> Some(x) in cs
  {
    if cs == [] then [] else (if cs[0].Some? then [cs[0].value] else []) + Present(cs[1..])
  }

  /** `c` is one of the children of an internal page. */
  predicate IsChild(n: Node, c: Ref) {
    !n.isLeaf && n.children.Some? && Some(c) in n.children.value
  }

  /** The children the walk visits: all of them. */
  function Kids(n: Node): (r: seq<Ref>)
    ensures forall c :: c in r <==> IsChild(n, c)
  {
    if n.isLeaf || n.children.None? then [] else Present(n.children.value)
  }

  ghost predicate Closed(g: Graph) {
    forall r, c :: r in g && IsChild(g[r], c) ==> c in g
  }

  ghost function Ids(g: Graph): set<PageID> {
    set r | r in g :: g[r].pageID
  }

  ghost predicate DistinctIds(g: Graph) {
    forall a, b :: a in g && b in g && g[a].pageID == g[b].pageID ==> a == b
  }

  // ---------------------------------------------------------------- reachability

  /** A way through the graph along children. */
  ghost predicate Path(g: Graph, path: seq<Ref>) {
    && path != [] && (forall i :: 0 <= i < |path| ==> path[i] in g)
    && forall i :: 0 <= i < |path| - 1 ==> IsChild(g[path[i]], path[i + 1])
  }

  ghost predicate Reachable(g: Graph, a: Ref, b: Ref) {
    exists path :: Path(g, path) && path[0] == a && path[|path| - 1] == b
  }

  ghost function ReachSet(g: Graph, a: Ref): (s: set<Ref>)
    ensures forall b :: b in s <==> b in g && Reachable(g, a, b)
  {
    set b | b in g && Reachable(g, a, b)
  }

  /** No reference leads back to itself. */
  ghost predicate Acyclic(g: Graph) {
    forall path {:trigger Path(g, path)} :: Path(g, path) && |path| >= 2 ==> path[0] != path[|path| - 1]
  }

  lemma ReachesItself(g: Graph, a: Ref)
    requires a in g
    ensures Reachable(g, a, a)
  {
    assert Path(g, [a]);
  }

  /** What a child reaches, its parent reaches. */
  lemma ReachesThrough(g: Graph, a: Ref, c: Ref, b: Ref)
    requires a in g && IsChild(g[a], c) && Reachable(g, c, b)
    ensures Reachable(g, a, b)
  {
    var path :| Path(g, path) && path[0] == c && path[|path| - 1] == b;
    var whole := [a] + path;
    forall i | 0 <= i < |whole| - 1 ensures IsChild(g[whole[i]], whole[i + 1]) {
      assert i > 0 ==> whole[i] == path[i - 1] && whole[i + 1] == path[i];
    }
    assert Path(g, whole);
  }

  lemma ReachesOn(g: Graph, a: Ref, b: Ref, c: Ref)
    requires Reachable(g, a, b) && b in g && c in g && IsChild(g[b], c)
    ensures Reachable(g, a, c)
  {
    var path :| Path(g, path) && path[0] == a && path[|path| - 1] == b;
    var whole := path + [c];
    forall i | 0 <= i < |whole| - 1 ensures IsChild(g[whole[i]], whole[i + 1]) {
      assert i < |path| - 1 ==> whole[i] == path[i] && whole[i + 1] == path[i + 1];
    }
    assert Path(g, whole);
  }

  /** A set that following children does not leave contains what is reachable from its members. */
  lemma {:induction false} ClosedReaches(g: Graph, r: set<Ref>, path: seq<Ref>, i: nat)
    requires ClosedUnder(g, r) && Path(g, path) && path[0] in r && i < |path|
    ensures path[i] in r
  {
    if i > 0 {
      ClosedReaches(g, r, path, i - 1);
    }
  }

  lemma ReachSetClosed(g: Graph, a: Ref)
    requires Closed(g) && a in g
    ensures a in ReachSet(g, a) && ClosedUnder(g, ReachSet(g, a))
  {
    ReachesItself(g, a);
    forall x, c | x in ReachSet(g, a) && x in g && IsChild(g[x], c) ensures c in ReachSet(g, a) {
      ReachesOn(g, a, x, c);
    }
  }

  // ---------------------------------------------------------------- ranks

  /** The reference with a page ID. */
  ghost function RefWith(g: Graph, id: PageID): Option<Ref> {
    if exists r :: r in g && g[r].pageID == id then
      var r :| r in g && g[r].pageID == id;
      Some(r)
    else None
  }

  /** How many references a page reaches. */
  ghost function Rank(g: Graph, id: PageID): nat {
    var r := RefWith(g, id);
    if r.Some? then |ReachSet(g, r.value)| else 0
  }

  lemma RefWithIs(g: Graph, r: Ref)
    requires DistinctIds(g) && r in g
    ensures RefWith(g, g[r].pageID) == Some(r)
  {
  }

  /** On an acyclic graph a child reaches strictly less than its parent. */
  lemma AcyclicFalls(g: Graph)
    requires Closed(g) && DistinctIds(g) && Acyclic(g)
    ensures Falls(g, id => Rank(g, id))
  {
    forall r, c | r in g && IsChild(g[r], c) && c in g ensures Rank(g, g[c].pageID) < Rank(g, g[r].pageID) {
      RefWithIs(g, r);
      RefWithIs(g, c);
      var a, b := ReachSet(g, c), ReachSet(g, r);
      forall x | x in a ensures x in b {
        ReachesThrough(g, r, c, x);
      }
      ReachesItself(g, r);
      if r in a {
        var path :| Path(g, path) && path[0] == c && path[|path| - 1] == r;
        Loop(g, r, path);
      }
      SubsetSize(a, b);
    }
  }

  lemma Loop(g: Graph, r: Ref, path: seq<Ref>)
    requires Path(g, path) && r in g && IsChild(g[r], path[0]) && path[|path| - 1] == r
    ensures !Acyclic(g)
  {
    var whole := [r] + path;
    forall i | 0 <= i < |whole| - 1 ensures IsChild(g[whole[i]], whole[i + 1]) {
      assert i > 0 ==> whole[i] == path[i - 1] && whole[i + 1] == path[i];
    }
    assert Path(g, whole);
  }

  /** A rank that falls along every edge rules out cycles. */
  lemma FallsAcyclic(g: Graph, rank: PageID -> nat)
    requires Falls(g, rank)
    ensures Acyclic(g)
  {
    forall path | Path(g, path) && |path| >= 2 ensures path[0] != path[|path| - 1] {
      FallsAlong(g, rank, path, |path| - 1);
    }
  }

  lemma {:induction false} FallsAlong(g: Graph, rank: PageID -> nat, path: seq<Ref>, i: nat)
    requires Falls(g, rank) && Path(g, path) && 0 < i < |path|
    ensures rank(g[path[i]].pageID) < rank(g[path[0]].pageID)
  {
    if i > 1 {
      FallsAlong(g, rank, path, i - 1);
    }
    assert IsChild(g[path[i - 1]], path[i - 1 + 1]);
  }

  /** A rank that falls along every edge exists exactly on acyclic graphs. */
  lemma AcyclicIff(g: Graph)
    requires Closed(g) && DistinctIds(g)
    ensures Acyclic(g) <==> exists rank: PageID -> nat :: Falls(g, rank)
  {
    if Acyclic(g) {
      AcyclicFalls(g);
    }
    if rank: PageID -> nat :| Falls(g, rank) {
      FallsAcyclic(g, rank);
    }
  }

  /** The rank falls along every edge. */
  ghost predicate Falls(g: Graph, rank: PageID -> nat) {
    forall r, c :: r in g && IsChild(g[r], c) && c in g ==> rank(g[c].pageID) < rank(g[r].pageID)
  }

  /** A set of references that following children does not leave. */
  ghost predicate ClosedUnder(g: Graph, r: set<Ref>) {
    forall x, c :: x in r && x in g && IsChild(g[x], c) ==> c in r
  }

  ghost function IdsOf(g: Graph, items: seq<Ref>): set<PageID>
    requires forall x :: x in items ==> x in g
  {
    set x | x in items :: g[x].pageID
  }

  ghost predicate InGraph(g: Graph, items: seq<Ref>) {
    forall x :: x in items ==> x in g
  }

  /** Every page is listed at most once. */
  ghost predicate Once(g: Graph, items: seq<Ref>)
    requires InGraph(g, items)
  {
    forall i, j :: 0 <= i < j < |items| ==> g[items[i]].pageID != g[items[j]].pageID
  }

  /** The children of item `k` have been listed before it. */
  ghost predicate KidsBefore(g: Graph, items: seq<Ref>, k: nat)
    requires InGraph(g, items) && k < |items|
  {
    forall c :: IsChild(g[items[k]], c) && c in g ==> g[c].pageID in IdsOf(g, items[..k])
  }

  /**
   The walk from one state to a later one: items are appended, their children have been visited, all
   lie in `reach`.
   */
  ghost predicate Walked(g: Graph, was: seq<Ref>, items: seq<Ref>, visited: set<PageID>, reach: set<Ref>)
    requires InGraph(g, items)
  {
    && was <= items
    && (forall k :: |was| <= k < |items| ==> items[k] in reach && forall c :: IsChild(g[items[k]], c) && c in g ==>
        g[c].pageID in visited)
  }

  ghost predicate AllKidsBefore(g: Graph, was: seq<Ref>, items: seq<Ref>)
    requires InGraph(g, items)
  {
    forall k {:trigger KidsBefore(g, items, k)} :: |was| <= k < |items| ==> KidsBefore(g, items, k)
  }

  ghost predicate Above(stack: set<PageID>, rank: PageID -> nat, id: PageID) {
    forall a :: a in stack ==> rank(a) > rank(id)
  }

  /** `stack` is history: the pages whose children are being walked. */
  ghost predicate StateOK(g: Graph, visited: set<PageID>, items: seq<Ref>, stack: set<PageID>)
    requires InGraph(g, items)
  {
    && Closed(g) && visited <= Ids(g)
    && visited == IdsOf(g, items) + stack && IdsOf(g, items) !! stack && Once(g, items)
  }

  /** The first `n` children have been visited. */
  ghost predicate KidsSeen(g: Graph, kids: seq<Ref>, n: nat, visited: set<PageID>) {
    n <= |kids| && forall j :: 0 <= j < n ==> kids[j] in g && g[kids[j]].pageID in visited
  }

  /** How many pages are not visited yet. */
  ghost function Unseen(g: Graph, visited: set<PageID>): nat {
    |Ids(g) - visited|
  }

  class Checkpoint {
    const graph: Graph
    var visited: set<PageID>
    var items: seq<Ref>

    constructor (g: Graph)
      ensures graph == g && visited == {} && items == []
    {
      graph, visited, items := g, {}, [];
    }

    ghost predicate Valid(stack: set<PageID>)
      reads this
    {
      InGraph(graph, items) && StateOK(graph, visited, items, stack)
    }

    /** The recursive walk; it terminates on every finite graph because each page ID is entered once. */
    method Dfs(ref: Ref, ghost stack: set<PageID>, ghost reach: set<Ref>, ghost rank: PageID -> nat)
      requires Valid(stack) && ref in graph && ref in reach && ClosedUnder(graph, reach)
      modifies this
      ensures Valid(stack) && graph[ref].pageID in visited && old(visited) <= visited
      ensures Walked(graph, old(items), items, visited, reach)
      ensures Falls(graph, rank) && Above(stack, rank, graph[ref].pageID) ==> AllKidsBefore(graph, old(items), items)
      decreases Unseen(graph, visited)
    {
      hide StateOK, Walked, AllKidsBefore, Falls, Above, ClosedUnder, InGraph, Unseen, Kids, KidsSeen;
      var id := graph[ref].pageID;
      if id in visited {
        NothingWalked(graph, items, visited, reach);
        return;
      }
      ghost var before, seen, inner := items, visited, stack + {id};
      Entered(graph, visited, items, stack, ref);
      visited := visited + {id};
      NothingWalked(graph, items, visited, reach);
      var kids := Kids(graph[ref]);
      NoneSeen(graph, kids, visited);
      for i := 0 to |kids|
        invariant Valid(inner) && seen + {id} <= visited && Unseen(graph, visited) < Unseen(graph, seen)
        invariant Walked(graph, before, items, visited, reach)
        invariant KidsSeen(graph, kids, i, visited)
        invariant Falls(graph, rank) && Above(stack, rank, id) ==> AllKidsBefore(graph, before, items)
      {
        ghost var was, done := items, visited;
        Kid(graph, visited, items, inner, ref, kids[i], reach, stack, rank);
        Dfs(kids[i], inner, reach, rank);
        WalkedOn(graph, before, was, done, items, visited, reach);
        Fewer(graph, done, visited);
        NextSeen(graph, kids, i, done, visited);
        if Falls(graph, rank) && Above(stack, rank, id) {
          KidsOn(graph, before, was, items, done, visited, reach);
        }
      }
      Finish(graph, items, visited, stack, ref, before, reach, rank);
      items := items + [ref];
    }

    /**
     `EnumeratePages`: each page is listed at most once, and only what is reachable from the root. With
     distinct page IDs the listed references are exactly the reachable ones, and on an acyclic graph
     every page comes after its children.
     */
    method EnumeratePages(root: Ref)
      requires Valid({}) && items == [] && root in graph
      modifies this
      ensures InGraph(graph, items) && Once(graph, items)
      ensures forall x :: x in items ==> Reachable(graph, root, x)
      ensures DistinctIds(graph) ==> forall x :: x in items <==> Reachable(graph, root, x) && x in graph
      ensures DistinctIds(graph) && Acyclic(graph) ==> AllKidsBefore(graph, [], items)
    {
      ghost var reach, rank := ReachSet(graph, root), (id: PageID) => Rank(graph, id);
      ReachSetClosed(graph, root);
      if DistinctIds(graph) && Acyclic(graph) {
        AcyclicFalls(graph);
      }
      Dfs(root, {}, reach, rank);
      Complete(graph, items, visited, root, reach);
      if DistinctIds(graph) {
        forall x | Reachable(graph, root, x) && x in graph ensures x in items {
          var path :| Path(graph, path) && path[0] == root && path[|path| - 1] == x;
          ClosedReaches(graph, (set y | y in items), path, |path| - 1);
        }
      }
    }
  }

  lemma NothingWalked(g: Graph, items: seq<Ref>, visited: set<PageID>, reach: set<Ref>)
    requires InGraph(g, items)
    ensures Walked(g, items, items, visited, reach) && AllKidsBefore(g, items, items)
  {
  }

  /** Marking a page as visited puts it on the stack. */
  lemma Entered(g: Graph, visited: set<PageID>, items: seq<Ref>, stack: set<PageID>, ref: Ref)
    requires InGraph(g, items) && StateOK(g, visited, items, stack) && ref in g && g[ref].pageID !in visited
    ensures StateOK(g, visited + {g[ref].pageID}, items, stack + {g[ref].pageID}) && g[ref].pageID !in stack
    ensures Unseen(g, visited + {g[ref].pageID}) < Unseen(g, visited)
  {
    var id := g[ref].pageID;
    assert id in Ids(g) - visited && id !in Ids(g) - (visited + {id});
    SubsetSize(Ids(g) - (visited + {id}), Ids(g) - visited);
  }

  lemma Fewer(g: Graph, seen: set<PageID>, visited: set<PageID>)
    requires seen <= visited
    ensures Unseen(g, visited) <= Unseen(g, seen)
  {
    SubsetSize(Ids(g) - visited, Ids(g) - seen);
  }

  lemma NoneSeen(g: Graph, kids: seq<Ref>, visited: set<PageID>)
    ensures KidsSeen(g, kids, 0, visited)
  {
  }

  lemma NextSeen(g: Graph, kids: seq<Ref>, i: nat, seen: set<PageID>, visited: set<PageID>)
    requires KidsSeen(g, kids, i, seen) && i < |kids| && seen <= visited && kids[i] in g && g[kids[i]].pageID in visited
    ensures KidsSeen(g, kids, i + 1, visited)
  {
  }

  /** A child may be walked: it is in the graph, in reach, and below everything on the stack. */
  lemma Kid(g: Graph, visited: set<PageID>, items: seq<Ref>, inner: set<PageID>, ref: Ref, kid: Ref, reach: set<Ref>,
            stack: set<PageID>, rank: PageID -> nat)
    requires InGraph(g, items) && StateOK(g, visited, items, inner) && ref in g && IsChild(g[ref], kid) && ref in reach
             && ClosedUnder(g, reach)
    requires inner == stack + {g[ref].pageID}
    ensures kid in g && kid in reach
    ensures Falls(g, rank) && Above(stack, rank, g[ref].pageID) ==> Above(inner, rank, g[kid].pageID)
  {
  }

  lemma WalkedOn(g: Graph, a: seq<Ref>, b: seq<Ref>, seen: set<PageID>, c: seq<Ref>, seen': set<PageID>,
                 reach: set<Ref>)
    requires InGraph(g, c) && InGraph(g, b) && Walked(g, a, b, seen, reach) && Walked(g, b, c, seen', reach)
             && seen <= seen'
    ensures Walked(g, a, c, seen', reach)
  {
    assert forall k :: 0 <= k < |b| ==> c[k] == b[k];
  }

  lemma KidsOn(g: Graph, a: seq<Ref>, b: seq<Ref>, c: seq<Ref>, seen: set<PageID>, seen': set<PageID>, reach: set<Ref>)
    requires InGraph(g, c) && InGraph(g, b) && AllKidsBefore(g, a, b) && AllKidsBefore(g, b, c)
    requires Walked(g, a, b, seen, reach) && Walked(g, b, c, seen', reach)
    ensures AllKidsBefore(g, a, c)
  {
    forall k | |a| <= k < |c| ensures KidsBefore(g, c, k) {
      if k < |b| {
        assert KidsBefore(g, b, k) && c[..k] == b[..k] && c[k] == b[k];
      }
    }
  }

  /** Listing a page after its children. */
  lemma Finish(g: Graph, items: seq<Ref>, visited: set<PageID>, stack: set<PageID>, ref: Ref, before: seq<Ref>,
               reach: set<Ref>, rank: PageID -> nat)
    requires InGraph(g, items) && ref in g && ref in reach && StateOK(g, visited, items, stack + {g[ref].pageID})
             && g[ref].pageID !in stack
    requires Walked(g, before, items, visited, reach)
    requires KidsSeen(g, Kids(g[ref]), |Kids(g[ref])|, visited)
    ensures InGraph(g, items + [ref])
    ensures StateOK(g, visited, items + [ref], stack) && Walked(g, before, items + [ref], visited, reach)
    ensures Falls(g, rank) && Above(stack, rank, g[ref].pageID) && AllKidsBefore(g, before, items) ==>
            AllKidsBefore(g, before, items + [ref])
  {
    var items', id := items + [ref], g[ref].pageID;
    assert IdsOf(g, items') == IdsOf(g, items) + {id};
    forall i, j | 0 <= i < j < |items'| ensures g[items'[i]].pageID != g[items'[j]].pageID {
      assert items'[i] == items[i] && items[i] in items;
    }
    if Falls(g, rank) && Above(stack, rank, id) && AllKidsBefore(g, before, items) {
      FinishKids(g, items, visited, stack, ref, before, rank);
    }
  }

  lemma FinishKids(g: Graph, items: seq<Ref>, visited: set<PageID>, stack: set<PageID>, ref: Ref, before: seq<Ref>,
                   rank: PageID -> nat)
    requires InGraph(g, items) && ref in g && visited == IdsOf(g, items) + (stack + {g[ref].pageID})
    requires forall c :: IsChild(g[ref], c) ==> c in g && g[c].pageID in visited
    requires Falls(g, rank) && Above(stack, rank, g[ref].pageID) && AllKidsBefore(g, before, items)
    ensures InGraph(g, items + [ref]) && AllKidsBefore(g, before, items + [ref])
  {
    var items' := items + [ref];
    forall k | |before| <= k < |items'| ensures KidsBefore(g, items', k) {
      assert items'[..k] == items[..k];
      if k < |items| {
        assert KidsBefore(g, items, k);
      } else {
        assert items[..k] == items;
      }
    }
  }

  lemma Complete(g: Graph, items: seq<Ref>, visited: set<PageID>, root: Ref, reach: set<Ref>)
    requires Closed(g) && InGraph(g, items) && root in g && visited == IdsOf(g, items) && g[root].pageID in visited
    requires Walked(g, [], items, visited, reach)
    ensures forall x :: x in items ==> x in reach
    ensures DistinctIds(g) ==> root in items && ClosedUnder(g, set x | x in items)
  {
    if DistinctIds(g) {
      forall x, c | x in items && IsChild(g[x], c) ensures c in items {
        var k :| 0 <= k < |items| && items[k] == x;
        var y :| y in items && g[y].pageID == g[c].pageID;
      }
    }
  }
}
