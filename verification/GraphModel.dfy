/** The adaptive execution graph as a value: nodes in insertion order, edges, and the completed
    and failed sets, with the pure operations its methods perform. */
module GraphModel {
  import opened Layering
  import opened Sequences
  import StableSort
  import opened Wrappers

  /** What a node's type says: the approval gate, or anything else. */
  datatype Kind = AgentKind | ApprovalKind

  /** A workflow node.  An absent id is "", an absent type or coordinate is None; `dataKind` is the type in
      its data, an agent's when that is absent; `subgoal` is the executionMetadata flag that spawned children
      carry. */
  datatype Node = Node(id: Id, kind: Option<Kind>, dataKind: Kind, subgoal: bool,
                       x: Option<real>, y: Option<real>, dependencies: seq<Id>) {
    /** `_is_approval_node`: the node's own type decides, and the one in its data when it has none. */
    predicate Approval() {
      kind.GetOr(dataKind) == ApprovalKind
    }
  }

  lemma {:induction false} ApprovalIff(n: Node)
    ensures n.Approval() <==> n.kind == Some(ApprovalKind) || (n.kind == None && n.dataKind == ApprovalKind)
  {
  }

  datatype Edge = Edge(source: Id, target: Id)

  datatype Graph = Graph(order: seq<Id>, nodes: map<Id, Node>, edges: seq<Edge>, completed: set<Id>, failed: set<Id>)

  // ---------------------------------------------------------------- dependencies

  function EdgeSources(edges: seq<Edge>, n: Id): set<Id> {
    set e | e in edges && e.source != "" && e.target != "" && e.target == n :: e.source
  }

  function DataDependencies(nodes: map<Id, Node>, n: Id): set<Id>
    requires n in nodes
  {
    set m | m in nodes[n].dependencies && m in nodes
  }

  /** What `_rebuild_deps` computes.  An edge's source need not be a node; a data dependency must. */
  function DepsOf(nodes: map<Id, Node>, edges: seq<Edge>): DepMap {
    map n | n in nodes :: EdgeSources(edges, n) + DataDependencies(nodes, n)
  }

  function Deps(g: Graph): (d: DepMap)
    ensures d.Keys == g.nodes.Keys
  {
    DepsOf(g.nodes, g.edges)
  }

  /** An edge goes from `m` to `n`, or `n` lists `m`, which is a node. */
  ghost predicate IsDependency(nodes: map<Id, Node>, edges: seq<Edge>, n: Id, m: Id)
    requires n in nodes
  {
    (m != "" && n != "" && Edge(m, n) in edges) || (m in nodes[n].dependencies && m in nodes)
  }

  /** A node depends on the source of every edge into it, and on each node it lists. */
  lemma DependenciesAre(g: Graph, n: Id, m: Id)
    requires n in g.nodes
    ensures m in Deps(g)[n] <==> IsDependency(g.nodes, g.edges, n, m)
  {
    assert forall e: Edge :: e.source == m && e.target == n ==> e == Edge(m, n);
  }

  predicate Valid(g: Graph) {
    && NoDup(g.order)
    && SetOf(g.order) == g.nodes.Keys
    && forall n | n in g.nodes :: g.nodes[n].id == n && n != ""
  }

  // ---------------------------------------------------------------- construction and insertion

  function Put(g: Graph, n: Node): Graph {
    g.(order := if n.id in g.nodes then g.order else g.order + [n.id], nodes := g.nodes[n.id := n])
  }

  function PutAll(g: Graph, ns: seq<Node>): Graph {
    if ns == [] then g
    else
      var g' := PutAll(g, ns[..|ns| - 1]);
      if ns[|ns| - 1].id == "" then g' else Put(g', ns[|ns| - 1])
  }

  function Build(ns: seq<Node>, es: seq<Edge>): Graph {
    PutAll(Graph([], map[], es, {}, {}), ns)
  }

  function InsertNode(g: Graph, n: Node, after: Id): Graph {
    var g1 := Put(g, n);
    if after != "" && after in g1.nodes then
      g1.(nodes := g1.nodes[n.id := WithDependency(n, after)], edges := g1.edges + [Edge(after, n.id)])
    else
      g1
  }

  function WithDependency(n: Node, after: Id): Node {
    if after in n.dependencies then n else n.(dependencies := n.dependencies + [after])
  }

  function InsertAll(g: Graph, ns: seq<Node>, after: Id): Graph {
    if ns == [] then g else InsertNode(InsertAll(g, ns[..|ns| - 1], after), ns[|ns| - 1], after)
  }

  function ChildNode(parent: Node, suffix: string): Node {
    Node(parent.id + ("-child-" + suffix), Some(AgentKind), AgentKind, true,
         Some(parent.x.GetOr(200.0) + 180.0), Some(parent.y.GetOr(0.0) + 100.0), [parent.id])
  }

  function RecoveryNode(source: Node, kind: string, attempt: string): Node {
    Node(source.id + ("-" + kind + "-" + attempt), Some(AgentKind), AgentKind, false,
         Some(source.x.GetOr(200.0)), Some(source.y.GetOr(0.0) + 120.0), [source.id])
  }

  lemma PutValid(g: Graph, n: Node)
    requires Valid(g) && n.id != ""
    ensures Valid(Put(g, n))
  {
    if n.id !in g.nodes {
      NoDupConcat(g.order, [n.id]);
      SetOfConcat(g.order, [n.id]);
    }
  }

  lemma {:induction false} PutAllValid(g: Graph, ns: seq<Node>)
    requires Valid(g)
    ensures Valid(PutAll(g, ns))
    ensures PutAll(g, ns).edges == g.edges && PutAll(g, ns).completed == g.completed && PutAll(g, ns).failed == g.failed
  {
    if ns != [] {
      PutAllValid(g, ns[..|ns| - 1]);
      if ns[|ns| - 1].id != "" { PutValid(PutAll(g, ns[..|ns| - 1]), ns[|ns| - 1]); }
    }
  }

  lemma BuildSnoc(ns: seq<Node>, es: seq<Edge>)
    requires ns != []
    ensures var g, n := Build(ns[..|ns| - 1], es), ns[|ns| - 1]; Build(ns, es) == if n.id == "" then g else Put(g, n)
  {
  }

  /** A graph is built of the nodes that have an id and of all edges; nothing is done yet. */
  lemma {:induction false} BuiltNodes(ns: seq<Node>, es: seq<Edge>, id: Id)
    ensures id in Build(ns, es).nodes <==> id != "" && exists n :: n in ns && n.id == id
    ensures Build(ns, es).edges == es && Build(ns, es).completed == {} && Build(ns, es).failed == {}
  {
    if ns != [] {
      var init, last := ns[..|ns| - 1], ns[|ns| - 1];
      BuildSnoc(ns, es);
      BuiltNodes(init, es, id);
      assert forall n :: n in ns <==> n in init || n == last;
    }
  }

  /** Of several nodes with one id the last is kept. */
  lemma {:induction false} LastWins(ns: seq<Node>, es: seq<Edge>, i: nat)
    requires i < |ns| && ns[i].id != "" && forall j | i < j < |ns| :: ns[j].id != ns[i].id
    ensures ns[i].id in Build(ns, es).nodes && Build(ns, es).nodes[ns[i].id] == ns[i]
  {
    BuildSnoc(ns, es);
    if i < |ns| - 1 {
      assert forall j | i < j < |ns| - 1 :: ns[..|ns| - 1][j] == ns[j];
      LastWins(ns[..|ns| - 1], es, i);
    }
  }

  /** ... and takes the place of the first, as in a dict. */
  lemma {:induction false} FirstPlaceKept(ns: seq<Node>, es: seq<Edge>, i: nat, j: nat) returns (p: nat, q: nat)
    requires i < j < |ns| && ns[i].id != "" && ns[j].id != ""
    requires forall k | 0 <= k < i :: ns[k].id != ns[i].id
    requires forall k | 0 <= k < j :: ns[k].id != ns[j].id
    ensures p < q < |Build(ns, es).order|
    ensures Build(ns, es).order[p] == ns[i].id && Build(ns, es).order[q] == ns[j].id
  {
    var init := ns[..|ns| - 1];
    BuildSnoc(ns, es);
    if j < |ns| - 1 {
      p, q := FirstPlaceKept(init, es, i, j);
    } else {
      BuiltNodes(init, es, ns[j].id);
      p := PlaceOf(init, es, i);
      q := |Build(init, es).order|;
    }
  }

  lemma {:induction false} PlaceOf(ns: seq<Node>, es: seq<Edge>, i: nat) returns (p: nat)
    requires i < |ns| && ns[i].id != ""
    ensures p < |Build(ns, es).order| && Build(ns, es).order[p] == ns[i].id
  {
    BuiltNodes(ns, es, ns[i].id);
    PutAllValid(Graph([], map[], es, {}, {}), ns);
    assert ns[i].id in SetOf(Build(ns, es).order);
    p :| 0 <= p < |Build(ns, es).order| && Build(ns, es).order[p] == ns[i].id;
  }

  /** What one insertion adds: the node itself and, below a known node, an edge and the dependency. */
  lemma InsertedNode(g: Graph, n: Node, after: Id)
    ensures var g', known := InsertNode(g, n, after), after != "" && (after in g.nodes || after == n.id);
      && g'.nodes.Keys == g.nodes.Keys + {n.id}
      && (forall m | m in g.nodes && m != n.id :: g'.nodes[m] == g.nodes[m])
      && g'.nodes[n.id].(dependencies := []) == n.(dependencies := [])
      && g'.nodes[n.id].dependencies
           == n.dependencies + (if known && after !in n.dependencies then [after] else [])
      && g'.edges == g.edges + (if known then [Edge(after, n.id)] else [])
      && g'.order == g.order + (if n.id in g.nodes then [] else [n.id])
      && g'.completed == g.completed && g'.failed == g.failed
  {
  }

  /** Nodes are inserted in the order given. */
  lemma {:induction false} InsertedInOrder(g: Graph, a: seq<Node>, b: seq<Node>, after: Id)
    ensures InsertAll(g, a + b, after) == InsertAll(InsertAll(g, a, after), b, after)
    ensures |b| == 1 ==> InsertAll(g, b, after) == InsertNode(g, b[0], after)
  {
    if b == [] {
      assert a + b == a;
    } else {
      assert (a + b)[..|a + b| - 1] == a + b[..|b| - 1];
      InsertedInOrder(g, a, b[..|b| - 1], after);
    }
  }

  lemma InsertNodeValid(g: Graph, n: Node, after: Id)
    requires Valid(g) && n.id != ""
    ensures Valid(InsertNode(g, n, after))
  {
    PutValid(g, n);
  }

  /** No node, edge or dependency list mentions `c`. */
  ghost predicate Unmentioned(nodes: map<Id, Node>, edges: seq<Edge>, c: Id) {
    && c !in nodes
    && (forall e | e in edges :: e.source != c && e.target != c)
    && (forall n | n in nodes :: c !in nodes[n].dependencies)
  }

  lemma OldDependenciesKept(nodes: map<Id, Node>, edges: seq<Edge>, node: Node, p: Id, extra: seq<Edge>, n: Id)
    requires Unmentioned(nodes, edges, node.id) && n in nodes
    requires extra == [] || extra == [Edge(p, node.id)]
    ensures EdgeSources(edges + extra, n) == EdgeSources(edges, n)
    ensures DataDependencies(nodes[node.id := node], n) == DataDependencies(nodes, n)
  {
  }

  lemma NewDependencies(nodes: map<Id, Node>, edges: seq<Edge>, node: Node, p: Id, extra: seq<Edge>)
    requires Unmentioned(nodes, edges, node.id) && p in nodes && node.dependencies == [p]
    requires extra == [] || extra == [Edge(p, node.id)]
    ensures EdgeSources(edges + extra, node.id) <= {p}
    ensures DataDependencies(nodes[node.id := node], node.id) == {p}
  {
  }

  lemma UnmentionedHangable(nodes: map<Id, Node>, edges: seq<Edge>, p: Id, c: Id)
    requires Unmentioned(nodes, edges, c) && p in nodes
    ensures Hangable(DepsOf(nodes, edges), p, c)
  {
  }

  /** A new node whose one dependency is the existing `p` hangs off `p`, whether or not the edge
      list records the same dependency. */
  lemma FreshNodeHangs(nodes: map<Id, Node>, edges: seq<Edge>, node: Node, p: Id, extra: seq<Edge>)
    requires Unmentioned(nodes, edges, node.id) && p in nodes && node.dependencies == [p]
    requires extra == [] || extra == [Edge(p, node.id)]
    ensures DepsOf(nodes[node.id := node], edges + extra) == DepsOf(nodes, edges)[node.id := {p}]
  {
    var nodes', edges' := nodes[node.id := node], edges + extra;
    forall n | n in nodes'
      ensures EdgeSources(edges', n) + DataDependencies(nodes', n)
           == if n == node.id then {p} else EdgeSources(edges, n) + DataDependencies(nodes, n)
    {
      if n == node.id {
        NewDependencies(nodes, edges, node, p, extra);
      } else {
        OldDependenciesKept(nodes, edges, node, p, extra, n);
      }
    }
  }

  // ---------------------------------------------------------------- ready nodes

  /** The node is placed at (x, y); an absent coordinate is 0. */
  predicate At(n: Node, x: real, y: real) {
    && (n.x == Some(x) || (n.x.None? && x == 0.0))
    && (n.y == Some(y) || (n.y.None? && y == 0.0))
  }

  /** `b` does not lie above `a`, nor to the left of it at the same height. */
  ghost predicate NoLater(a: Node, b: Node) {
    forall x, y, x', y' | At(a, x, y) && At(b, x', y') :: y < y' || (y == y' && x <= x')
  }

  function PositionKey(n: Node): (real, real) {
    (n.y.GetOr(0.0), n.x.GetOr(0.0))
  }

  predicate PositionLe(a: Node, b: Node) {
    var (y0, x0) := PositionKey(a);
    var (y1, x1) := PositionKey(b);
    y0 < y1 || (y0 == y1 && x0 <= x1)
  }

  lemma PositionLeIs(a: Node, b: Node)
    ensures PositionLe(a, b) <==> NoLater(a, b)
  {
    assert At(a, a.x.GetOr(0.0), a.y.GetOr(0.0)) && At(b, b.x.GetOr(0.0), b.y.GetOr(0.0));
  }

  lemma PositionOrder()
    ensures StableSort.TotalPreorder(PositionLe)
  {
  }

  function ReadyIds(g: Graph): set<Id> {
    Ready(Deps(g), g.completed) - g.failed
  }

  /** The nodes of `ids` that are ready, in the order of `ids`. */
  function ReadyAmong(g: Graph, ids: seq<Id>): seq<Node> {
    if ids == [] then []
    else
      var n := ids[|ids| - 1];
      ReadyAmong(g, ids[..|ids| - 1]) + (if n in g.nodes && n in ReadyIds(g) then [g.nodes[n]] else [])
  }

  /** `get_ready_nodes`: the ready nodes, by position, ties in insertion order. */
  function ReadyList(g: Graph): seq<Node> {
    StableSort.Sort(PositionLe, ReadyAmong(g, g.order))
  }

  function Ids(ns: seq<Node>): seq<Id> {
    seq(|ns|, i requires 0 <= i < |ns| => ns[i].id)
  }

  lemma {:induction false} ReadyAmongCorrect(g: Graph, ids: seq<Id>)
    requires Valid(g) && NoDup(ids) && SetOf(ids) <= g.nodes.Keys
    ensures NoDup(ReadyAmong(g, ids))
    ensures forall n | n in ReadyAmong(g, ids) :: n.id in ids && n.id in ReadyIds(g) && g.nodes[n.id] == n
    ensures forall i | i in ids && i in ReadyIds(g) :: g.nodes[i] in ReadyAmong(g, ids)
  {
    hide ReadyIds;
    if ids != [] {
      var init, n := ids[..|ids| - 1], ids[|ids| - 1];
      assert forall i | i in init :: i in ids;
      assert SetOf(init) <= SetOf(ids);
      ReadyAmongCorrect(g, init);
      assert n in SetOf(ids);
      assert n !in init;
    }
  }

  lemma TiesKept(n: Node, among: seq<Node>)
    ensures StableSort.Ties(PositionLe, n, StableSort.Sort(PositionLe, among)) == StableSort.Ties(PositionLe, n, among)
  {
    PositionOrder();
    StableSort.SortStable(PositionLe, n, among);
  }

  /** The ready list holds each ready node once and is sorted by position; nodes at one position keep the
      order of insertion. */
  lemma ReadyListCorrect(g: Graph)
    requires Valid(g)
    ensures StableSort.SortedBy(PositionLe, ReadyList(g))
    ensures forall n | n in ReadyList(g) :: n.id in ReadyIds(g) && g.nodes[n.id] == n
    ensures forall i | i in ReadyIds(g) :: g.nodes[i] in ReadyList(g)
    ensures NoDup(Ids(ReadyList(g))) && SetOf(Ids(ReadyList(g))) == ReadyIds(g)
    ensures forall n ::
      StableSort.Ties(PositionLe, n, ReadyList(g)) == StableSort.Ties(PositionLe, n, ReadyAmong(g, g.order))
  {
    forall n: Node
      ensures StableSort.Ties(PositionLe, n, ReadyList(g)) == StableSort.Ties(PositionLe, n, ReadyAmong(g, g.order))
    {
      TiesKept(n, ReadyAmong(g, g.order));
    }
    var among, sorted := ReadyAmong(g, g.order), ReadyList(g);
    ReadyAmongCorrect(g, g.order);
    PositionOrder();
    StableSort.SortCorrect(PositionLe, among);
    forall n: Node ensures n in sorted <==> n in among {
      StableSort.SameElements(sorted, among, n);
    }
    forall i | i in ReadyIds(g) ensures g.nodes[i] in sorted {
      assert i in SetOf(g.order);
    }
    NoDupPermuted(among, sorted);
    IdsOfNodes(g, sorted);
  }

  /** Ready nodes are taken from the top down, and from left to right at one height. */
  lemma ReadyTopDown(g: Graph, i: nat, j: nat, x: real, y: real, x': real, y': real)
    requires i < j < |ReadyList(g)|
    requires At(ReadyList(g)[i], x, y) && At(ReadyList(g)[j], x', y')
    ensures y < y' || (y == y' && x <= x')
  {
    ReadyInOrder(g, i, j);
  }

  lemma ReadyInOrder(g: Graph, i: nat, j: nat)
    requires i < j < |ReadyList(g)|
    ensures NoLater(ReadyList(g)[i], ReadyList(g)[j])
  {
    hide PositionLe, ReadyAmong;
    PositionOrder();
    StableSort.SortCorrect(PositionLe, ReadyAmong(g, g.order));
    PositionLeIs(ReadyList(g)[i], ReadyList(g)[j]);
  }

  lemma IdsOfNodes(g: Graph, ns: seq<Node>)
    requires Valid(g) && NoDup(ns)
    requires forall n | n in ns :: n.id in ReadyIds(g) && g.nodes[n.id] == n
    requires forall i | i in ReadyIds(g) :: g.nodes[i] in ns
    ensures NoDup(Ids(ns)) && SetOf(Ids(ns)) == ReadyIds(g)
  {
    forall i, j | 0 <= i < j < |ns| ensures Ids(ns)[i] != Ids(ns)[j] {
      assert ns[i] in ns && ns[j] in ns;
    }
    forall i | i in ReadyIds(g) ensures i in SetOf(Ids(ns)) {
      var k :| 0 <= k < |ns| && ns[k] == g.nodes[i];
      assert Ids(ns)[k] == i;
    }
    forall i | i in SetOf(Ids(ns)) ensures i in ReadyIds(g) {
      var k :| 0 <= k < |ns| && Ids(ns)[k] == i;
      assert ns[k] in ns;
    }
  }
}
