/** The start of a fresh run: the graph is built from the workflow and `_decompose_objective` may
    hang two or three children below the last agent. */
module Decomposition {
  import opened Layering
  import opened Sequences
  import opened GraphModel
  import opened GeneratedNames
  import opened PostStep
  import opened AdaptiveGraph
  import Effects = PostStepEffects
  import opened Wrappers

  /** The nodes whose own type is not the approval gate's, whatever their data says. */
  function Agents(ns: seq<Node>): seq<Node> {
    if ns == [] then []
    else Agents(ns[..|ns| - 1]) + (if ns[|ns| - 1].kind == Some(ApprovalKind) then [] else [ns[|ns| - 1]])
  }

  function Places(count: nat): seq<Place> {
    if count == 2 then [First, Second] else [First, Second, Third]
  }

  function SpawnInitial(g: Graph, parent: Node, places: seq<Place>): Graph {
    if places == [] then g
    else
      InsertNode(SpawnInitial(g, parent, places[..|places| - 1]),
                 ChildNode(parent, PlaceSuffix(places[|places| - 1])), parent.id)
  }

  /** `subgoals` is how many subgoals the objective splits into; at most three are used. */
  function Decompose(g: Graph, ns: seq<Node>, subgoals: nat): Graph {
    if |Agents(ns)| >= 4 || subgoals < 2 || Agents(ns) == [] then g
    else SpawnInitial(g, Agents(ns)[|Agents(ns)| - 1], Places(subgoals))
  }

  method SelectAgents(ns: seq<Node>) returns (agents: seq<Node>)
    ensures agents == Agents(ns)
  {
    agents := [];
    for i := 0 to |ns|
      invariant agents == Agents(ns[..i])
    {
      assert ns[..i + 1][..i] == ns[..i];
      if ns[i].kind != Some(ApprovalKind) { agents := agents + [ns[i]]; }
    }
    assert ns[..|ns|] == ns;
  }

  method DecomposeObjective(graph: AdaptiveExecutionGraph, ns: seq<Node>, subgoals: nat)
    requires graph.Consistent()
    modifies graph`order, graph`nodes, graph`edges, graph`deps
    ensures graph.Consistent() && graph.View() == Decompose(old(graph.View()), ns, subgoals)
  {
    var agents := SelectAgents(ns);
    if |agents| >= 4 { return; }
    if subgoals < 2 { return; }
    if |agents| == 0 { return; }
    var parent, places := agents[|agents| - 1], Places(subgoals);
    for i := 0 to |places|
      invariant graph.Consistent() && graph.View() == SpawnInitial(old(graph.View()), parent, places[..i])
    {
      assert places[..i + 1][..i] == places[..i];
      var child := graph.SpawnChildAgent(parent, PlaceSuffix(places[i]));
    }
    assert places[..|places|] == places;
  }

  // ---------------------------------------------------------------- what decomposition yields

  /** The workflow mentions no id that could be generated for one of its nodes, or for a node generated
      from them, while it runs. */
  ghost predicate NoReservedNames(g: Graph) {
    forall p: Id, t: Tag | !t.Initial? && Rooted(g.nodes.Keys, p) :: p + Ending(t) !in Mentions(g)
  }

  ghost predicate InitialFree(g: Graph, p: Id) {
    forall q: Place :: p + Ending(Initial(q)) !in Mentions(g)
  }

  /** ... nor, when it is short enough to be decomposed, the id of a child its last agent may get. */
  ghost predicate ChildNamesFree(g: Graph, ns: seq<Node>) {
    0 < |Agents(ns)| < 4 ==> InitialFree(g, Agents(ns)[|Agents(ns)| - 1].id)
  }

  lemma {:induction false} AgentsAreNodes(ns: seq<Node>, n: Node)
    requires n in Agents(ns)
    ensures n in ns
  {
    if n in Agents(ns[..|ns| - 1]) { AgentsAreNodes(ns[..|ns| - 1], n); }
  }

  lemma {:induction false} PutAllHas(g: Graph, ns: seq<Node>, n: Node)
    requires n in ns && n.id != ""
    ensures n.id in PutAll(g, ns).nodes
  {
    if n in ns[..|ns| - 1] {
      PutAllHas(g, ns[..|ns| - 1], n);
    }
  }

  lemma {:induction false} PutAllSize(g: Graph, ns: seq<Node>)
    ensures |PutAll(g, ns).nodes| <= |g.nodes| + |ns|
  {
    if ns != [] {
      PutAllSize(g, ns[..|ns| - 1]);
    }
  }

  /** Every mention after placing the children is an old one or one of their ids. */
  ghost predicate MentionsSpawned(g: Graph, g': Graph, p: Id, places: seq<Place>) {
    && (forall id | id in Mentions(g') && id !in Mentions(g) :: exists q :: q in places && id == p + Ending(Initial(q)))
    && (forall id | id in g'.nodes && id !in g.nodes :: exists q :: q in places && id == p + Ending(Initial(q)))
  }

  /** What decomposition keeps of the built graph `g`. */
  ghost predicate Spawned(g: Graph, g': Graph, p: Id, places: seq<Place>) {
    && Valid(g') && p in g'.nodes
    && Agreement(g'.nodes, g'.edges, g.edges)
    && g'.completed == g.completed && g'.failed == g.failed
    && MentionsSpawned(g, g', p, places)
    && (Sound(Deps(g)) ==> Sound(Deps(g')))
    && |g'.nodes| == |g.nodes| + |places|
  }

  lemma SpawnedNext(g: Graph, g1: Graph, parent: Node, places: seq<Place>, q: Place)
    requires InitialFree(g, parent.id) && Spawned(g, g1, parent.id, places) && q !in places
    ensures Spawned(g, InsertNode(g1, ChildNode(parent, PlaceSuffix(q)), parent.id), parent.id, places + [q])
  {
    hide Deps, Mentions, Valid, Sound, InsertNode, Agreement, Ending;
    var p, c := parent.id, ChildNode(parent, PlaceSuffix(q));
    InitialName(parent, q);
    EndingLonger(p, Initial(q));
    NewPlaceFresh(g, g1, p, places, q);
    InsertHangs(g1, c, p);
    InsertMentions(g1, c, p);
    InsertAgrees(g1, g.edges, c, p, []);
    NodesMentioned(g1);
    assert g.edges + [] == g.edges;
    if Sound(Deps(g1)) { HangSound(Deps(g1), p, c.id); }
    MentionsStep(g, g1, InsertNode(g1, c, p), p, places, q);
  }

  lemma HangSound(d: DepMap, p: Id, c: Id)
    requires Sound(d) && Hangable(d, p, c)
    ensures Sound(d[c := {p}])
  {
    HangLeafSound(d, p, c);
  }

  lemma InitialName(parent: Node, q: Place)
    ensures ChildNode(parent, PlaceSuffix(q)).id == parent.id + Ending(Initial(q))
  {
  }

  lemma NewPlaceFresh(g: Graph, g1: Graph, p: Id, places: seq<Place>, q: Place)
    requires InitialFree(g, p) && MentionsSpawned(g, g1, p, places) && q !in places
    ensures p + Ending(Initial(q)) !in Mentions(g1)
  {
    hide Mentions, Ending;
    var id := p + Ending(Initial(q));
    if id in Mentions(g1) && id !in Mentions(g) {
      var r :| r in places && id == p + Ending(Initial(r));
      NamesInjective(p, Initial(q), p, Initial(r));
    }
  }

  lemma MentionsStep(g: Graph, g1: Graph, g2: Graph, p: Id, places: seq<Place>, q: Place)
    requires MentionsSpawned(g, g1, p, places) && Mentions(g2) <= Mentions(g1) + {p + Ending(Initial(q))}
    requires g2.nodes.Keys == g1.nodes.Keys + {p + Ending(Initial(q))}
    ensures MentionsSpawned(g, g2, p, places + [q])
  {
    hide Mentions, Ending;
    forall id | id in Mentions(g2) && id !in Mentions(g)
      ensures exists r :: r in places + [q] && id == p + Ending(Initial(r))
    {
      if id in Mentions(g1) {
        var r :| r in places && id == p + Ending(Initial(r));
        assert r in places + [q];
      } else {
        assert q in places + [q];
      }
    }
    forall id | id in g2.nodes && id !in g.nodes
      ensures exists r :: r in places + [q] && id == p + Ending(Initial(r))
    {
      if id in g1.nodes {
        var r :| r in places && id == p + Ending(Initial(r));
        assert r in places + [q];
      } else {
        assert q in places + [q];
      }
    }
  }

  lemma {:induction false} SpawnInitialSpawned(g: Graph, parent: Node, places: seq<Place>)
    requires InitialFree(g, parent.id) && NoDup(places)
    requires Spawned(g, g, parent.id, [])
    ensures Spawned(g, SpawnInitial(g, parent, places), parent.id, places)
  {
    hide Spawned, InitialFree, InsertNode, ChildNode;
    if places == [] {
    } else {
      var init, last := places[..|places| - 1], places[|places| - 1];
      SpawnInitialSpawned(g, parent, init);
      SpawnedNext(g, SpawnInitial(g, parent, init), parent, init, last);
      assert init + [last] == places;
    }
  }

  lemma SpawnedNames(g: Graph, g': Graph, p: Id, places: seq<Place>)
    requires NoReservedNames(g) && MentionsSpawned(g, g', p, places) && (places != [] ==> p in g.nodes)
    ensures NamesOk(g')
  {
    hide Mentions, Ending, Rooted;
    forall q: Id, t: Tag | !t.Initial? && Rooted(g'.nodes.Keys, q) && q + Ending(t) in Mentions(g') ensures false {
      if q + Ending(t) in Mentions(g) {
        if places == [] { RootedMonotone(g'.nodes.Keys, g.nodes.Keys, q); }
        else { RootedBack(g.nodes.Keys, g'.nodes.Keys, p, q); }
      } else {
        var r :| r in places && q + Ending(t) == p + Ending(Initial(r));
        NamesInjective(q, t, p, Initial(r));
      }
    }
  }

  /** A fresh run starts well: no name that may be generated is taken, the engine's edges agree with the graph's,
      an acyclic closed workflow stays so, and at most three nodes are added. */
  lemma DecomposeStarts(ns: seq<Node>, es: seq<Edge>, subgoals: nat)
    requires (forall n | n in ns :: n.id != "") && NoReservedNames(Build(ns, es)) && ChildNamesFree(Build(ns, es), ns)
    ensures var g := Decompose(Build(ns, es), ns, subgoals);
      && Valid(g) && Agreement(g.nodes, g.edges, es) && NamesOk(g) && g.completed == {} && g.failed == {}
      && (Sound(Deps(Build(ns, es))) ==> Sound(Deps(g)))
      && |g.nodes| <= |ns| + 3
  {
    var g0 := Build(ns, es);
    PutAllValid(Graph([], map[], es, {}, {}), ns);
    PutAllSize(Graph([], map[], es, {}, {}), ns);
    if |Agents(ns)| >= 4 || subgoals < 2 || Agents(ns) == [] {
      SpawnedNames(g0, g0, "", []);
    } else {
      var parent := Agents(ns)[|Agents(ns)| - 1];
      AgentsAreNodes(ns, parent);
      PutAllHas(Graph([], map[], es, {}, {}), ns, parent);
      hide NoReservedNames, InitialFree, NamesOk, Deps, Valid, SpawnInitial, Mentions, Build;
      SpawnInitialSpawned(g0, parent, Places(subgoals));
      SpawnedNames(g0, SpawnInitial(g0, parent, Places(subgoals)), parent.id, Places(subgoals));
    }
  }

  // ---------------------------------------------------------------- what decomposition adds

  /** The places in the workflow whose node is not a gate by its own type. */
  ghost function AgentPlaces(ns: seq<Node>): set<nat> {
    set i: nat | i < |ns| && ns[i].kind != Some(ApprovalKind)
  }

  lemma {:induction false} AgentsCounted(ns: seq<Node>)
    ensures |Agents(ns)| == |AgentPlaces(ns)|
  {
    if ns == [] {
      assert AgentPlaces(ns) == {};
    } else {
      var k := |ns| - 1;
      AgentsCounted(ns[..k]);
      assert AgentPlaces(ns) == AgentPlaces(ns[..k]) + (if ns[k].kind == Some(ApprovalKind) then {} else {k});
    }
  }

  lemma {:induction false} LastAgent(ns: seq<Node>, i: nat)
    requires i < |ns| && ns[i].kind != Some(ApprovalKind)
    requires forall j | i < j < |ns| :: ns[j].kind == Some(ApprovalKind)
    ensures Agents(ns) != [] && Agents(ns)[|Agents(ns)| - 1] == ns[i]
  {
    if i < |ns| - 1 {
      assert forall j | i < j < |ns| - 1 :: ns[..|ns| - 1][j] == ns[j];
      LastAgent(ns[..|ns| - 1], i);
    }
  }

  ghost function InitialNames(p: Id, places: seq<Place>): seq<Id> {
    seq(|places|, i requires 0 <= i < |places| => p + Ending(Initial(places[i])))
  }

  lemma {:induction false} SpawnInitialAdds(g: Graph, parent: Node, places: seq<Place>)
    requires parent.id in g.nodes && parent.id != "" && NoDup(places)
    ensures var g' := SpawnInitial(g, parent, places);
      && Effects.Added(g, g', parent.id, InitialNames(parent.id, places))
      && parent.id in g'.nodes
      && forall q | q in places :: Effects.Child(g', parent.id + Ending(Initial(q)), parent)
  {
    hide InsertNode, Ending, ChildNode, Effects.Added, Effects.Child;
    var p := parent.id;
    if places == [] {
      assert InitialNames(p, places) == [];
      Effects.AddedNone(g, p);
    } else {
      var init, last := places[..|places| - 1], places[|places| - 1];
      SpawnInitialAdds(g, parent, init);
      var g1, c := SpawnInitial(g, parent, init), p + Ending(Initial(last));
      forall q | q in init ensures p + Ending(Initial(q)) != c {
        if p + Ending(Initial(q)) == c { NamesInjective(p, Initial(q), p, Initial(last)); }
      }
      OneChildMore(g, g1, parent, InitialNames(p, init), last);
      var g' := SpawnInitial(g, parent, places);
      assert InitialNames(p, places) == InitialNames(p, init) + [c];
      forall q | q in places ensures Effects.Child(g', p + Ending(Initial(q)), parent) {
        if q in init { ChildKept(g1, g', p + Ending(Initial(q)), parent); }
      }
    }
  }

  lemma {:induction false} OneChildMore(g: Graph, g1: Graph, parent: Node, ids: seq<Id>, q: Place)
    requires Effects.Added(g, g1, parent.id, ids) && parent.id in g1.nodes && parent.id != ""
    requires parent.id + Ending(Initial(q)) !in ids
    ensures var g', c := InsertNode(g1, ChildNode(parent, PlaceSuffix(q)), parent.id), parent.id + Ending(Initial(q));
      && Effects.Added(g, g', parent.id, ids + [c]) && Effects.Child(g', c, parent) && parent.id in g'.nodes
      && forall n | n in g1.nodes && n != c :: n in g'.nodes && g'.nodes[n] == g1.nodes[n]
  {
    hide InsertNode, Ending, Effects.Added;
    InitialName(parent, q);
    Effects.AddedOneMore(g, g1, ids, ChildNode(parent, PlaceSuffix(q)), parent.id);
  }

  lemma ChildKept(g: Graph, g': Graph, c: Id, p: Node)
    requires Effects.Child(g, c, p) && (c in g.nodes ==> c in g'.nodes && g'.nodes[c] == g.nodes[c])
    ensures Effects.Child(g', c, p)
  {
  }

  ghost function StartNames(p: Id, subgoals: nat): seq<Id> {
    [p + "-child-0", p + "-child-1"] + (if subgoals > 2 then [p + "-child-2"] else [])
  }

  lemma StartNamesSpelled(p: Id, subgoals: nat)
    requires subgoals >= 2
    ensures InitialNames(p, Places(subgoals)) == StartNames(p, subgoals)
    ensures forall c | c in StartNames(p, subgoals) :: exists q :: q in Places(subgoals) && c == p + Ending(Initial(q))
  {
    assert p + Ending(Initial(First)) == p + "-child-0";
    assert p + Ending(Initial(Second)) == p + "-child-1";
    assert p + Ending(Initial(Third)) == p + "-child-2";
    hide Ending;
    assert First in Places(subgoals) && Second in Places(subgoals);
    if subgoals > 2 { assert Third in Places(subgoals); }
  }

  /** An objective that splits in two or more, in a workflow of fewer than four agents, gives two children to
      the last agent, and three when it splits in three or more; otherwise nothing is added. */
  lemma {:induction false} DecomposeAdds(g: Graph, ns: seq<Node>, subgoals: nat, i: nat)
    requires i < |ns| && ns[i].kind != Some(ApprovalKind) && ns[i].id in g.nodes && ns[i].id != ""
    requires forall j | i < j < |ns| :: ns[j].kind == Some(ApprovalKind)
    ensures var g', p := Decompose(g, ns, subgoals), ns[i];
      if |AgentPlaces(ns)| < 4 && subgoals >= 2 then
        && Effects.Added(g, g', p.id, StartNames(p.id, subgoals))
        && forall c | c in StartNames(p.id, subgoals) :: Effects.Child(g', c, p)
      else g' == g
  {
    AgentsCounted(ns);
    LastAgent(ns, i);
    hide AgentPlaces, Agents, SpawnInitial, Effects.Added, Effects.Child;
    if |AgentPlaces(ns)| < 4 && subgoals >= 2 {
      StartNamesSpelled(ns[i].id, subgoals);
      PlacesDiffer(subgoals);
      SpawnInitialAdds(g, ns[i], Places(subgoals));
    }
  }

  lemma PlacesDiffer(subgoals: nat)
    ensures NoDup(Places(subgoals))
  {
  }

  lemma {:induction false} NoAgentNoChild(g: Graph, ns: seq<Node>, subgoals: nat)
    requires forall n | n in ns :: n.kind == Some(ApprovalKind)
    ensures Decompose(g, ns, subgoals) == g
  {
    if Agents(ns) != [] { NotOnlyGates(ns); }
  }

  lemma {:induction false} NotOnlyGates(ns: seq<Node>)
    requires Agents(ns) != []
    ensures exists n :: n in ns && n.kind != Some(ApprovalKind)
  {
    if ns[|ns| - 1].kind == Some(ApprovalKind) { NotOnlyGates(ns[..|ns| - 1]); }
  }
}
