/** `UINavigationGraph`: known screen states, recorded transitions, and breadth-first planning. */
module Navigation {
  import opened Sequences
  import opened Wrappers

  type Id = string

  datatype Screen = Screen(hash: string, title: string)

  datatype Transition = Transition(source: Id, target: Id, action: string, success: bool)

  // ---------------------------------------------------------------- routes

  type Adjacency = map<Id, seq<Id>>

  /** A nonempty sequence of ids, each reached from the one before it. */
  ghost predicate Route(adj: Adjacency, p: seq<Id>) {
    && p != []
    && (|p| > 1 ==> Route(adj, p[..|p| - 1]) && p[|p| - 2] in adj && p[|p| - 1] in adj[p[|p| - 2]])
  }

  ghost predicate RouteTo(adj: Adjacency, from: Id, to: Id, p: seq<Id>) {
    Route(adj, p) && p[0] == from && p[|p| - 1] == to
  }

  lemma RouteSnoc(adj: Adjacency, from: Id, p: seq<Id>, n: Id)
    requires p != [] && RouteTo(adj, from, p[|p| - 1], p) && p[|p| - 1] in adj && n in adj[p[|p| - 1]]
    ensures RouteTo(adj, from, n, p + [n])
  {
    assert (p + [n])[..|p|] == p;
  }

  lemma RouteFront(adj: Adjacency, from: Id, to: Id, p: seq<Id>)
    requires RouteTo(adj, from, to, p) && |p| > 1
    ensures var q := p[..|p| - 1];
      RouteTo(adj, from, q[|q| - 1], q) && q[|q| - 1] in adj && to in adj[q[|q| - 1]]
  {
  }

  /** Everything with a route of at most `len` nodes is in `seen`. */
  ghost predicate CoversWithin(adj: Adjacency, from: Id, seen: set<Id>, len: nat) {
    forall p, n | RouteTo(adj, from, n, p) && |p| <= len :: n in seen
  }

  // ---------------------------------------------------------------- the search

  datatype Entry = Entry(node: Id, path: seq<Id>)

  /** Loop invariant of the search.  Every queued path is a shortest route to its node, the queue is
      ordered by path length with at most two lengths in it, every seen node is queued or has had
      its neighbours looked at, and the target has not been seen. */
  ghost predicate Searching(adj: Adjacency, from: Id, target: Id, queue: seq<Entry>, seen: set<Id>,
                            expanded: set<Id>, len: nat) {
    && from in seen && target !in seen && expanded <= seen
    && (forall e | e in queue :: e.node in seen && RouteTo(adj, from, e.node, e.path))
    && (forall e | e in queue :: len <= |e.path| <= len + 1)
    && (forall i, j | 0 <= i < j < |queue| :: |queue[i].path| <= |queue[j].path|)
    && (forall n | n in seen && n !in expanded :: exists e :: e in queue && e.node == n)
    && (forall n | n in expanded && n in adj :: forall m | m in adj[n] :: m in seen)
    && CoversWithin(adj, from, seen, len)
    && (forall e | e in queue && |e.path| == len + 1 :: !(exists p :: RouteTo(adj, from, e.node, p) && |p| <= len))
  }

  /** When every path of the present length has been expanded, the next length is covered. */
  lemma NextLength(adj: Adjacency, from: Id, target: Id, queue: seq<Entry>, seen: set<Id>, expanded: set<Id>, len: nat)
    requires Searching(adj, from, target, queue, seen, expanded, len)
    requires forall e | e in queue :: |e.path| == len + 1
    ensures CoversWithin(adj, from, seen, len + 1)
  {
    forall p, n | RouteTo(adj, from, n, p) && |p| <= len + 1 ensures n in seen {
      if |p| == len + 1 && |p| > 1 {
        RouteFront(adj, from, n, p);
        var q := p[..|p| - 1];
        var m := q[|q| - 1];
        assert RouteTo(adj, from, m, q) && m in seen;
        assert m in expanded;
      }
    }
  }

  lemma AdvanceLength(adj: Adjacency, from: Id, target: Id, queue: seq<Entry>, seen: set<Id>, expanded: set<Id>,
                      len: nat)
    requires Searching(adj, from, target, queue, seen, expanded, len) && queue != [] && |queue[0].path| == len + 1
    ensures Searching(adj, from, target, queue, seen, expanded, len + 1)
  {
    forall e | e in queue ensures |e.path| == len + 1 {
      var i :| 0 <= i < |queue| && queue[i] == e;
      if i > 0 { assert |queue[0].path| <= |queue[i].path|; }
    }
    NextLength(adj, from, target, queue, seen, expanded, len);
  }

  function Neighbours(adj: Adjacency, n: Id): seq<Id> {
    if n in adj then adj[n] else []
  }

  /** The entries appended while expanding `u`: one per neighbour not seen before. */
  ghost predicate Appended(adj: Adjacency, u: Entry, seen: set<Id>, added: seq<Entry>) {
    && (forall e | e in added :: e.node !in seen && e.node in Neighbours(adj, u.node) && e.path == u.path + [e.node])
    && (forall m | m in Neighbours(adj, u.node) && m !in seen :: exists e :: e in added && e.node == m)
  }

  /** Expanding the head of the queue keeps the invariant. */
  lemma ExpandKeeps(adj: Adjacency, from: Id, target: Id, queue: seq<Entry>, seen: set<Id>, expanded: set<Id>, len: nat,
                    added: seq<Entry>, seen': set<Id>)
    requires Searching(adj, from, target, queue, seen, expanded, len) && queue != [] && |queue[0].path| == len
    requires Appended(adj, queue[0], seen, added) && target !in Neighbours(adj, queue[0].node)
    requires seen' == seen + SetOf(Neighbours(adj, queue[0].node))
    ensures Searching(adj, from, target, queue[1..] + added, seen', expanded + {queue[0].node}, len)
  {
    hide RouteTo, CoversWithin;
    var u, rest := queue[0], queue[1..];
    var queue' := rest + added;
    assert u in queue;
    assert forall e | e in rest :: e in queue;
    AddedShortest(adj, from, seen, len, u, added);
    assert forall n | n in seen' && n !in seen :: n in Neighbours(adj, u.node);
    forall n | n in seen' && n !in expanded + {u.node} ensures exists e :: e in queue' && e.node == n {
      if n in seen {
        var e :| e in queue && e.node == n;
        assert e in queue';
      } else {
        var e :| e in added && e.node == n;
        assert e in queue';
      }
    }
    QueueOrdered(rest, added, len);
    CoversMore(adj, from, seen, seen', len);
  }

  lemma AddedShortest(adj: Adjacency, from: Id, seen: set<Id>, len: nat, u: Entry, added: seq<Entry>)
    requires RouteTo(adj, from, u.node, u.path) && |u.path| == len
    requires Appended(adj, u, seen, added) && CoversWithin(adj, from, seen, len)
    ensures forall e | e in added :: RouteTo(adj, from, e.node, e.path) && |e.path| == len + 1
    ensures forall e | e in added :: !(exists p :: RouteTo(adj, from, e.node, p) && |p| <= len)
  {
    forall e | e in added ensures RouteTo(adj, from, e.node, e.path) {
      RouteSnoc(adj, from, u.path, e.node);
    }
  }

  lemma CoversMore(adj: Adjacency, from: Id, seen: set<Id>, seen': set<Id>, len: nat)
    requires CoversWithin(adj, from, seen, len) && seen <= seen'
    ensures CoversWithin(adj, from, seen', len)
  {
  }

  lemma QueueOrdered(rest: seq<Entry>, added: seq<Entry>, len: nat)
    requires forall i, j | 0 <= i < j < |rest| :: |rest[i].path| <= |rest[j].path|
    requires forall e | e in rest :: |e.path| <= len + 1
    requires forall e | e in added :: |e.path| == len + 1
    ensures forall i, j | 0 <= i < j < |rest + added| :: |(rest + added)[i].path| <= |(rest + added)[j].path|
  {
    var q := rest + added;
    forall i, j | 0 <= i < j < |q| ensures |q[i].path| <= |q[j].path| {
      assert q[i] in rest || q[i] in added;
      assert j >= |rest| ==> q[j] in added;
    }
  }

  /** With an empty queue, everything reachable has been seen. */
  lemma {:induction false} ExhaustedSeesAll(adj: Adjacency, from: Id, target: Id, seen: set<Id>, expanded: set<Id>,
          len: nat, p: seq<Id>, n: Id)
    requires Searching(adj, from, target, [], seen, expanded, len) && RouteTo(adj, from, n, p)
    ensures n in seen
    decreases |p|
  {
    if |p| > 1 {
      RouteFront(adj, from, n, p);
      var q := p[..|p| - 1];
      ExhaustedSeesAll(adj, from, target, seen, expanded, len, q, q[|q| - 1]);
    }
  }

  /** The inner loop over the neighbours of a dequeued entry. */
  method ExpandEntry(adj: Adjacency, target: Id, u: Entry, rest: seq<Entry>, seen: set<Id>)
    returns (found: bool, queue: seq<Entry>, seen': set<Id>, ghost added: seq<Entry>)
    ensures found <==> target in Neighbours(adj, u.node)
    ensures !found ==> queue == rest + added && Appended(adj, u, seen, added)
    ensures !found ==> seen' == seen + SetOf(Neighbours(adj, u.node))
  {
    var ns := Neighbours(adj, u.node);
    queue, seen', added := rest, seen, [];
    for i := 0 to |ns|
      invariant target !in ns[..i]
      invariant queue == rest + added && seen' == seen + SetOf(ns[..i])
      invariant forall e | e in added :: e.node !in seen && e.node in ns[..i] && e.path == u.path + [e.node]
      invariant forall m | m in ns[..i] && m !in seen :: exists e :: e in added && e.node == m
    {
      assert ns[..i + 1] == ns[..i] + [ns[i]];
      if ns[i] == target { return true, queue, seen', added; }
      if ns[i] !in seen' {
        seen' := seen' + {ns[i]};
        var e := Entry(ns[i], u.path + [ns[i]]);
        assert added + [e] == added + [e] && e in added + [e];
        queue, added := queue + [e], added + [e];
      }
    }
    assert ns[..|ns|] == ns;
    found := false;
  }

  /** The breadth-first loop: a shortest route when there is one, empty when there is none. */
  method Search(adj: Adjacency, from: Id, target: Id, ghost universe: set<Id>) returns (path: seq<Id>)
    requires from != target && from in universe
    requires forall n | n in adj :: SetOf(adj[n]) <= universe
    ensures path != [] ==> RouteTo(adj, from, target, path)
    ensures path != [] ==> forall p | RouteTo(adj, from, target, p) :: |path| <= |p|
    ensures path == [] ==> !(exists p :: RouteTo(adj, from, target, p))
  {
    var queue, seen := [Entry(from, [from])], {from};
    ghost var expanded: set<Id>, len := {}, 1;
    StartSearching(adj, from, target);
    while queue != []
      invariant Searching(adj, from, target, queue, seen, expanded, len)
      invariant seen <= universe
      decreases universe - seen, |queue|
    {
      hide Searching, RouteTo, Appended, CoversWithin;
      HeadLength(adj, from, target, queue, seen, expanded, len);
      if |queue[0].path| == len + 1 {
        AdvanceLength(adj, from, target, queue, seen, expanded, len);
        len := len + 1;
      }
      var u := queue[0];
      NeighboursIn(adj, u.node, universe);
      var found, queue', seen', added := ExpandEntry(adj, target, u, queue[1..], seen);
      if found {
        FoundShortest(adj, from, target, queue, seen, expanded, len);
        return u.path + [target];
      }
      ExpandKeeps(adj, from, target, queue, seen, expanded, len, added, seen');
      NothingAdded(adj, u, seen, added, seen');
      queue, seen, expanded := queue', seen', expanded + {u.node};
    }
    forall p ensures !RouteTo(adj, from, target, p) {
      if RouteTo(adj, from, target, p) { ExhaustedSeesAll(adj, from, target, seen, expanded, len, p, target); }
    }
    path := [];
  }

  lemma StartSearching(adj: Adjacency, from: Id, target: Id)
    requires from != target
    ensures Searching(adj, from, target, [Entry(from, [from])], {from}, {}, 1)
  {
  }

  lemma HeadLength(adj: Adjacency, from: Id, target: Id, queue: seq<Entry>, seen: set<Id>, expanded: set<Id>, len: nat)
    requires Searching(adj, from, target, queue, seen, expanded, len) && queue != []
    ensures len <= |queue[0].path| <= len + 1
  {
    assert queue[0] in queue;
  }

  lemma NeighboursIn(adj: Adjacency, n: Id, universe: set<Id>)
    requires forall m | m in adj :: SetOf(adj[m]) <= universe
    ensures SetOf(Neighbours(adj, n)) <= universe
  {
  }

  lemma NothingAdded(adj: Adjacency, u: Entry, seen: set<Id>, added: seq<Entry>, seen': set<Id>)
    requires Appended(adj, u, seen, added) && seen' == seen + SetOf(Neighbours(adj, u.node))
    ensures added == [] || seen < seen'
  {
    if added != [] {
      assert added[0] in added;
      assert added[0].node in seen';
    }
  }

  lemma FoundShortest(adj: Adjacency, from: Id, target: Id, queue: seq<Entry>, seen: set<Id>, expanded: set<Id>,
                      len: nat)
    requires Searching(adj, from, target, queue, seen, expanded, len) && queue != [] && |queue[0].path| == len
    requires target in Neighbours(adj, queue[0].node)
    ensures RouteTo(adj, from, target, queue[0].path + [target])
    ensures forall p | RouteTo(adj, from, target, p) :: |queue[0].path + [target]| <= |p|
  {
    assert queue[0] in queue;
    RouteSnoc(adj, from, queue[0].path, target);
  }

  // ---------------------------------------------------------------- the graph object

  /** Targets of the successful transitions recorded from `n`, oldest first. */
  function Successors(edges: seq<Transition>, n: Id): seq<Id> {
    if edges == [] then []
    else
      var e := edges[|edges| - 1];
      Successors(edges[..|edges| - 1], n) + (if e.success && e.source == n then [e.target] else [])
  }

  function AdjacencyOf(nodes: map<Id, Screen>, edges: seq<Transition>): Adjacency {
    map n | n in nodes :: Successors(edges, n)
  }

  /** A step of a route is a recorded successful transition, and the other way round. */
  lemma {:induction false} StepIsTransition(edges: seq<Transition>, n: Id, m: Id)
    ensures m in Successors(edges, n) <==> exists e :: e in edges && e.success && e.source == n && e.target == m
  {
    if edges != [] {
      var init, last := edges[..|edges| - 1], edges[|edges| - 1];
      StepIsTransition(init, n, m);
      assert edges == init + [last];
      assert last in edges;
    }
  }

  /** The id of the screen with this hash, or none. */
  function WithHash(order: seq<Id>, nodes: map<Id, Screen>, hash: string): (r: Option<Id>)
    requires SetOf(order) <= nodes.Keys
    ensures r.Some? ==> r.value in order && r.value in nodes && nodes[r.value].hash == hash
    ensures r.None? ==> forall n | n in order :: n in SetOf(order) && nodes[n].hash != hash
  {
    if order == [] then None
    else
      assert order[0] in SetOf(order);
      assert SetOf(order[1..]) <= SetOf(order);
      if nodes[order[0]].hash == hash then Some(order[0]) else WithHash(order[1..], nodes, hash)
  }

  /** The first screen, in order of creation, whose title matches. */
  function FirstMatch(order: seq<Id>, nodes: map<Id, Screen>, matches: string -> bool): (r: Option<Id>)
    requires SetOf(order) <= nodes.Keys
    ensures r.Some? ==> r.value in nodes && matches(nodes[r.value].title)
    ensures r.None? ==> forall n | n in order :: n in SetOf(order) && !matches(nodes[n].title)
  {
    if order == [] then None
    else
      assert order[0] in SetOf(order);
      assert SetOf(order[1..]) <= SetOf(order);
      if matches(nodes[order[0]].title) then Some(order[0]) else FirstMatch(order[1..], nodes, matches)
  }

  /** No screen before it has a matching title. */
  lemma {:induction false} FirstMatchIsFirst(order: seq<Id>, nodes: map<Id, Screen>, matches: string -> bool, i: nat)
    requires SetOf(order) <= nodes.Keys && i < |order| && order[i] in nodes && matches(nodes[order[i]].title)
    requires forall j | 0 <= j < i :: order[j] in nodes && !matches(nodes[order[j]].title)
    ensures FirstMatch(order, nodes, matches) == Some(order[i])
  {
    assert order[0] in SetOf(order);
    assert SetOf(order[1..]) <= SetOf(order);
    if i > 0 {
      assert forall j | 0 <= j < i - 1 :: order[1..][j] == order[j + 1];
      FirstMatchIsFirst(order[1..], nodes, matches, i - 1);
    }
  }

  method BuildAdjacency(nodes: map<Id, Screen>, edges: seq<Transition>) returns (adj: Adjacency)
    requires forall e | e in edges :: e.source in nodes
    ensures adj == AdjacencyOf(nodes, edges)
  {
    adj := map n | n in nodes :: [];
    for i := 0 to |edges|
      invariant adj.Keys == nodes.Keys
      invariant forall n | n in nodes :: adj[n] == Successors(edges[..i], n)
    {
      assert edges[..i + 1][..i] == edges[..i];
      var e := edges[i];
      assert e in edges;
      if e.success { adj := adj[e.source := adj[e.source] + [e.target]]; }
    }
    assert edges[..|edges|] == edges;
  }

  /** Screens listed once each, in order of creation, with unique state hashes. */
  ghost predicate Known(order: seq<Id>, nodes: map<Id, Screen>) {
    && NoDup(order) && SetOf(order) == nodes.Keys && "" !in nodes
    && forall n, m | n in nodes && m in nodes && nodes[n].hash == nodes[m].hash :: n == m
  }

  lemma KnownRenamed(order: seq<Id>, nodes: map<Id, Screen>, id: Id, title: string)
    requires Known(order, nodes) && id in nodes
    ensures Known(order, nodes[id := nodes[id].(title := title)])
  {
    assert nodes[id := nodes[id].(title := title)].Keys == nodes.Keys;
  }

  lemma KnownAdded(order: seq<Id>, nodes: map<Id, Screen>, id: Id, hash: string, title: string)
    requires Known(order, nodes) && id !in nodes && id != "" && WithHash(order, nodes, hash).None?
    ensures Known(order + [id], nodes[id := Screen(hash, title)])
  {
    hide WithHash;
    NoDupConcat(order, [id]);
    SetOfConcat(order, [id]);
    assert forall n | n in nodes :: n in order && nodes[n].hash != hash;
  }

  lemma HashUnique(order: seq<Id>, nodes: map<Id, Screen>, hash: string)
    requires Known(order, nodes)
    ensures forall n | n in nodes && nodes[n].hash == hash :: WithHash(order, nodes, hash) == Some(n)
    ensures WithHash(order, nodes, hash).Some? ==>
      WithHash(order, nodes, hash).value in nodes && nodes[WithHash(order, nodes, hash).value].hash == hash
  {
    hide WithHash;
    forall n | n in nodes ensures n in order { assert n in SetOf(order); }
  }

  class UINavigationGraph {
    var order: seq<Id>
    var nodes: map<Id, Screen>
    var edges: seq<Transition>
    var current: Option<Id>

    constructor ()
      ensures Valid() && nodes == map[] && edges == [] && current == None
    {
      order, nodes, edges, current := [], map[], [], None;
    }

    /** State hashes are unique; transitions and the current screen are known screens. */
    ghost predicate Valid()
      reads this
    {
      && Known(order, nodes)
      && (forall e | e in edges :: e.source in nodes && e.target in nodes)
      && (current.Some? ==> current.value in nodes)
    }

    /** `unused` stands for the generated id.  A known hash moves there and renames only if a title is
        given; an unknown one adds a screen.  Nothing else changes. */
    method AddState(hash: string, title: string, unused: Id) returns (id: Id)
      requires Valid() && unused !in nodes && unused != ""
      modifies this`order, this`nodes, this`current
      ensures Valid() && current == Some(id) && id in nodes
      ensures var known := WithHash(old(order), old(nodes), hash);
        id == (if known.Some? then known.value else unused)
        && nodes == old(nodes)[id := Screen(hash, if known.Some? && title == "" then old(nodes)[id].title else title)]
        && order == (if known.Some? then old(order) else old(order) + [unused])
    {
      hide Known, WithHash;
      var known := FindHash(hash);
      HashUnique(order, nodes, hash);
      if known.Some? {
        id := known.value;
        if title != "" {
          KnownRenamed(order, nodes, id, title);
          nodes := nodes[id := nodes[id].(title := title)];
        }
        current := Some(id);
        return id;
      }
      KnownAdded(order, nodes, unused, hash, title);
      nodes := nodes[unused := Screen(hash, title)];
      order := order + [unused];
      current := Some(unused);
      return unused;
    }

    method FindHash(hash: string) returns (r: Option<Id>)
      requires Valid()
      ensures r == WithHash(order, nodes, hash)
    {
      for i := 0 to |order|
        invariant SetOf(order[i..]) <= nodes.Keys && WithHash(order, nodes, hash) == WithHash(order[i..], nodes, hash)
      {
        assert order[i] in SetOf(order[i..]);
        assert order[i..][1..] == order[i + 1..];
        if nodes[order[i]].hash == hash { return Some(order[i]); }
      }
      return None;
    }

    /** Finds the source screen, without moving there when it is known, or adds it. */
    method FindOrCreate(hash: string, unused: Id) returns (id: Id)
      requires Valid() && unused !in nodes && unused != ""
      modifies this`order, this`nodes, this`current
      ensures Valid() && id in nodes && nodes[id].hash == hash
      ensures var known := WithHash(old(order), old(nodes), hash);
        if known.Some? then id == known.value && nodes == old(nodes) && order == old(order) && current == old(current)
        else id == unused && nodes == old(nodes)[unused := Screen(hash, "")] && order == old(order) + [unused]
             && current == Some(unused)
    {
      hide Known, WithHash;
      var known := FindHash(hash);
      HashUnique(order, nodes, hash);
      if known.Some? { return known.value; }
      id := AddState(hash, "", unused);
    }

    /** One more transition, between the screens of the two hashes; whichever of them is unknown is added
        without a title, and no other screen changes. */
    method RecordTransition(fromHash: string, toHash: string, action: string, success: bool, unused1: Id, unused2: Id)
      returns (ghost f: Id, ghost t: Id)
      requires Valid() && unused1 !in nodes && unused2 !in nodes && unused1 != unused2 && unused1 != "" && unused2 != ""
      modifies this
      ensures Valid()
      ensures forall n | n in old(nodes) :: n in nodes && nodes[n] == old(nodes)[n]
      ensures forall n | n in nodes && n !in old(nodes) :: (n == f || n == t) && nodes[n].title == ""
      ensures f in nodes && nodes[f].hash == fromHash && t in nodes && nodes[t].hash == toHash
      ensures edges == old(edges) + [Transition(f, t, action, success)] && current == Some(t)
    {
      hide Known, WithHash;
      var fromId := FindOrCreate(fromHash, unused1);
      HashUnique(order, nodes, toHash);
      var toId := AddState(toHash, "", unused2);
      edges := edges + [Transition(fromId, toId, action, success)];
      current := Some(toId);
      f, t := fromId, toId;
    }

    /** Plans a route over successful transitions from the current screen to the first one whose title
        matches: a shortest one, and empty exactly when there is no match, no current screen or no route. */
    method PlanPath(matches: string -> bool) returns (path: seq<Id>)
      requires Valid()
      ensures var target, adj := FirstMatch(order, nodes, matches), AdjacencyOf(nodes, edges);
        && (path != [] ==> target.Some? && current.Some? && RouteTo(adj, current.value, target.value, path))
        && (path != [] ==> forall p | RouteTo(adj, current.value, target.value, p) :: |path| <= |p|)
        && (path == [] <==>
            target.None? || current.None? || !(exists p :: RouteTo(adj, current.value, target.value, p)))
    {
      var target := FindMatch(matches);
      if target.None? || current.None? { return []; }
      if current == target {
        assert RouteTo(AdjacencyOf(nodes, edges), current.value, target.value, [current.value]);
        return [current.value];
      }
      var adj := BuildAdjacency(nodes, edges);
      forall n | n in adj ensures SetOf(adj[n]) <= nodes.Keys {
        forall m | m in adj[n] ensures m in nodes { StepIsTransition(edges, n, m); }
      }
      path := Search(adj, current.value, target.value, nodes.Keys);
    }

    method FindMatch(matches: string -> bool) returns (r: Option<Id>)
      requires Valid()
      ensures r == FirstMatch(order, nodes, matches)
    {
      for i := 0 to |order|
        invariant SetOf(order[i..]) <= nodes.Keys
        invariant FirstMatch(order, nodes, matches) == FirstMatch(order[i..], nodes, matches)
      {
        assert order[i] in SetOf(order[i..]);
        assert order[i..][1..] == order[i + 1..];
        if matches(nodes[order[i]].title) { return Some(order[i]); }
      }
      return None;
    }
  }
}
