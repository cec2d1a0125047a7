/** What happens to the graph after a step completes: the node is marked, the planner may spawn two
    children below it, and reflection may hang a recovery node below it. */
module PostStep {
  import opened Layering
  import opened Sequences
  import opened GraphModel
  import opened GeneratedNames
  import opened Wrappers

  const MAX_RUNTIME_SPAWNED: nat := 2

  datatype Retry = Retry(kind: RetryKind, again: bool)

  /** The decisions made about one finished node: how many explicit subgoals its output lists (none
      when the output is a tool payload or a finished report), and the granted retry, if any. */
  datatype Plan = Plan(subgoals: nat, retry: Option<Retry>)

  /** The state post-step processing changes.  `edges` is the engine's own edge list, which is what
      a checkpoint saves; the graph keeps another. */
  datatype Work = Work(g: Graph, edges: seq<Edge>, spawned: nat, budget: nat)

  function MarkDone(w: Work, id: Id): Work {
    w.(g := w.g.(completed := w.g.completed + {id}))
  }

  /** `maybe_spawn_subgoal_agents` */
  function SpawnSubgoals(w: Work, node: Node, plan: Plan): Work {
    if node.subgoal || w.spawned >= MAX_RUNTIME_SPAWNED || plan.subgoals < 2 then w
    else
      var g1 := InsertNode(w.g, ChildNode(node, ChildSuffix(false)), node.id);
      var g2 := InsertNode(g1, ChildNode(node, ChildSuffix(true)), node.id);
      w.(g := g2, spawned := w.spawned + 2)
  }

  /** `insert_recovery_steps` and `replan_remaining`: the edge always goes to the engine's list; the
      node goes into the graph only when its id is new there. */
  function InsertRecovery(w: Work, node: Node, plan: Plan): Work {
    if plan.retry.None? || w.budget == 0 then w
    else
      var r := plan.retry.value;
      var recovery := RecoveryNode(node, KindText(r.kind), AttemptText(r.again));
      w.(g := if recovery.id in w.g.nodes then w.g else InsertNode(w.g, recovery, node.id),
         edges := w.edges + [Edge(node.id, recovery.id)],
         budget := w.budget - 1)
  }

  /** `_process_completed_node` */
  function ProcessCompleted(w: Work, node: Node, plan: Plan): Work {
    InsertRecovery(SpawnSubgoals(MarkDone(w, node.id), node, plan), node, plan)
  }

  /** The loop over the results of a batch whose steps all completed. */
  function ProcessAll(w: Work, done: seq<Node>, plans: Id -> Plan): Work {
    if done == [] then w
    else
      var last := done[|done| - 1];
      ProcessCompleted(ProcessAll(w, done[..|done| - 1], plans), last, plans(last.id))
  }

  // ---------------------------------------------------------------- mentions and fresh names

  /** Every id the graph speaks of. */
  ghost function Mentions(g: Graph): set<Id> {
    g.nodes.Keys
    + (set e | e in g.edges :: e.source) + (set e | e in g.edges :: e.target)
    + (set n, m | n in g.nodes && m in g.nodes[n].dependencies :: m)
  }

  /** No id that could still be generated is mentioned: one made from a node, or from what may become a
      node, is there only if it was made for a node that has completed. */
  ghost predicate NamesOk(g: Graph) {
    forall p: Id, t: Tag | !t.Initial? && Rooted(g.nodes.Keys, p) && p + Ending(t) in Mentions(g) :: p in g.completed
  }

  lemma FreshName(g: Graph, p: Id, t: Tag)
    requires NamesOk(g) && p in g.nodes && p !in g.completed && !t.Initial?
    ensures p + Ending(t) !in Mentions(g)
  {
    hide Mentions, Ending;
    assert Rooted(g.nodes.Keys, p);
  }

  lemma UnmentionedIff(g: Graph, c: Id)
    ensures c !in Mentions(g) <==> Unmentioned(g.nodes, g.edges, c)
  {
    if c !in Mentions(g) {
      forall e | e in g.edges ensures e.source != c && e.target != c {
        assert e.source in (set x | x in g.edges :: x.source);
        assert e.target in (set x | x in g.edges :: x.target);
      }
    }
  }

  lemma InsertShape(g: Graph, c: Node, p: Id)
    requires p in g.nodes && c.dependencies == [p] && c.id !in g.nodes && p != ""
    ensures InsertNode(g, c, p)
         == g.(order := g.order + [c.id], nodes := g.nodes[c.id := c], edges := g.edges + [Edge(p, c.id)])
  {
    assert WithDependency(c, p) == c;
  }

  /** Why names must be free: a node inserted under an id that is taken replaces the node there and adds none,
      although the planner counts it as spawned. */
  lemma TakenNameReplaces(g: Graph, c: Node, p: Id)
    requires Valid(g) && p in g.nodes && c.dependencies == [p] && c.id in g.nodes
    ensures var g' := InsertNode(g, c, p);
      g'.order == g.order && g'.nodes.Keys == g.nodes.Keys && g'.nodes[c.id] == c && g'.completed == g.completed
  {
    assert WithDependency(c, p) == c;
  }

  lemma NamedNodes(g: Graph, p: Id)
    requires Valid(g) && p in g.nodes
    ensures p != ""
  {
  }

  /** Inserting a new node below an existing one, graph side. */
  lemma InsertHangs(g: Graph, c: Node, p: Id)
    requires Valid(g) && p in g.nodes && c.dependencies == [p]
    requires c.id != "" && c.id !in Mentions(g)
    ensures var g' := InsertNode(g, c, p);
      && Valid(g')
      && g' == g.(order := g.order + [c.id], nodes := g.nodes[c.id := c], edges := g.edges + [Edge(p, c.id)])
      && Deps(g') == Deps(g)[c.id := {p}]
      && Hangable(Deps(g), p, c.id)
  {
    hide Mentions, Valid, InsertNode, DepsOf, Hangable;
    InsertNodeValid(g, c, p);
    NamedNodes(g, p);
    UnmentionedIff(g, c.id);
    InsertShape(g, c, p);
    FreshNodeHangs(g.nodes, g.edges, c, p, [Edge(p, c.id)]);
    UnmentionedHangable(g.nodes, g.edges, p, c.id);
  }

  lemma InsertMentions(g: Graph, c: Node, p: Id)
    requires p in g.nodes && c.dependencies == [p] && c.id !in g.nodes
    ensures Mentions(g.(order := g.order + [c.id], nodes := g.nodes[c.id := c], edges := g.edges + [Edge(p, c.id)]))
         <= Mentions(g) + {c.id}
  {
    var es := g.edges + [Edge(p, c.id)];
    forall e | e in es ensures e.source in Mentions(g) + {c.id} && e.target in Mentions(g) + {c.id} {
      if e in g.edges {
        assert e.source in (set x | x in g.edges :: x.source);
        assert e.target in (set x | x in g.edges :: x.target);
      }
    }
  }

  // ---------------------------------------------------------------- what insertion keeps

  ghost predicate Sound(d: DepMap) {
    Closed(d) && Acyclic(d)
  }

  /** `d'` has the dependencies of `d` and the same rounds up to and including round k. */
  ghost predicate SameRounds(d: DepMap, d': DepMap, k: nat) {
    && (forall j | 0 <= j <= k + 1 :: Done(d', j) == Done(d, j))
    && (forall j | 0 <= j <= k :: Layer(d', j) == Layer(d, j))
    && (forall n | n in d :: n in d' && d'[n] == d[n])
  }

  /** Old nodes are untouched and new ones are agents. */
  ghost predicate NodesExtend(nodes: map<Id, Node>, nodes': map<Id, Node>) {
    && (forall n | n in nodes :: n in nodes' && nodes'[n] == nodes[n])
    && (forall n | n in nodes' && n !in nodes :: !nodes'[n].Approval())
  }

  /** The graph mentions nothing new but ids generated for `p`. */
  ghost predicate MentionsGrow(g: Graph, g': Graph, p: Id) {
    && (forall id | id in Mentions(g') && id !in Mentions(g) :: exists t: Tag :: id == p + Ending(t))
    && (forall id | id in g'.nodes && id !in g.nodes :: exists t: Tag :: id == p + Ending(t))
  }

  /** The graph grew by new agents hung below `p`, a member of round k. */
  ghost predicate Grown(g: Graph, g': Graph, p: Id, k: nat) {
    && Valid(g')
    && g'.completed == g.completed && g'.failed == g.failed
    && SameRounds(Deps(g), Deps(g'), k)
    && NodesExtend(g.nodes, g'.nodes)
    && (Sound(Deps(g)) ==> Sound(Deps(g')))
    && MentionsGrow(g, g', p)
  }

  /** The engine's edges are among the graph's, and yield the same dependencies. */
  ghost predicate Agreement(nodes: map<Id, Node>, graphEdges: seq<Edge>, engineEdges: seq<Edge>) {
    && (forall e | e in engineEdges :: e in graphEdges)
    && DepsOf(nodes, engineEdges) == DepsOf(nodes, graphEdges)
  }

  lemma SameRoundsTrans(d: DepMap, d': DepMap, d'': DepMap, k: nat)
    requires SameRounds(d, d', k) && SameRounds(d', d'', k)
    ensures SameRounds(d, d'', k)
  {
    hide Done, Layer;
  }

  lemma GrownTrans(g: Graph, g': Graph, g'': Graph, p: Id, k: nat)
    requires Grown(g, g', p, k) && Grown(g', g'', p, k)
    ensures Grown(g, g'', p, k)
  {
    hide Deps, Mentions, Sound, Valid, SameRounds;
    SameRoundsTrans(Deps(g), Deps(g'), Deps(g''), k);
  }

  lemma GrownRefl(g: Graph, p: Id, k: nat)
    requires Valid(g)
    ensures Grown(g, g, p, k)
  {
    hide Deps, Mentions, Sound, Valid, Done, Layer;
  }

  lemma HangSameRounds(d: DepMap, p: Id, c: Id, k: nat)
    requires Hangable(d, p, c) && p in Layer(d, k)
    ensures SameRounds(d, d[c := {p}], k)
    ensures Sound(d) ==> Sound(d[c := {p}])
  {
    hide Done, Layer, Hangable, Closed, Acyclic;
    HangLeafAfterRound(d, p, c, k);
    if Sound(d) { HangLeafSound(d, p, c); }
    assert c !in d by { HangableFresh(d, p, c); }
  }

  lemma HangableFresh(d: DepMap, p: Id, c: Id)
    requires Hangable(d, p, c)
    ensures c !in d && c != p
  {
  }

  /** Inserting one new agent below `p`. */
  lemma InsertGrows(g: Graph, c: Node, p: Id, t: Tag, k: nat)
    requires Valid(g) && p in Layer(Deps(g), k) && p in g.nodes
    requires c.dependencies == [p] && !c.Approval() && c.id == p + Ending(t) && c.id !in Mentions(g)
    ensures Grown(g, InsertNode(g, c, p), p, k)
    ensures InsertNode(g, c, p).nodes == g.nodes[c.id := c]
    ensures InsertNode(g, c, p).edges == g.edges + [Edge(p, c.id)]
    ensures Mentions(InsertNode(g, c, p)) <= Mentions(g) + {c.id}
  {
    hide Deps, Mentions, Valid, Sound, Done, Layer, SameRounds, Ending, InsertNode, Hangable;
    EndingLonger(p, t);
    NodesMentioned(g);
    InsertHangs(g, c, p);
    InsertMentions(g, c, p);
    HangSameRounds(Deps(g), p, c.id, k);
  }

  lemma NodesMentioned(g: Graph)
    ensures g.nodes.Keys <= Mentions(g)
  {
  }

  /** The engine's edge list keeps agreeing, whether or not it gets the new edge too. */
  lemma InsertAgrees(g: Graph, edges: seq<Edge>, c: Node, p: Id, extra: seq<Edge>)
    requires Agreement(g.nodes, g.edges, edges) && p in g.nodes && c.dependencies == [p] && c.id !in Mentions(g)
    requires extra == [] || extra == [Edge(p, c.id)]
    ensures Agreement(g.nodes[c.id := c], g.edges + [Edge(p, c.id)], edges + extra)
  {
    hide DepsOf, Mentions;
    UnmentionedIff(g, c.id);
    FreshNodeHangs(g.nodes, g.edges, c, p, [Edge(p, c.id)]);
    FewerEdgesUnmentioned(g, edges, c.id);
    FreshNodeHangs(g.nodes, edges, c, p, extra);
  }

  lemma FewerEdgesUnmentioned(g: Graph, edges: seq<Edge>, c: Id)
    requires Agreement(g.nodes, g.edges, edges) && Unmentioned(g.nodes, g.edges, c)
    ensures Unmentioned(g.nodes, edges, c)
  {
  }

  // ---------------------------------------------------------------- post-step processing

  /** Nodes never leave, and every one added is paid for: by the spawn count or by the budget. */
  ghost function Account(w: Work): int {
    |w.g.nodes| - w.spawned + w.budget
  }

  ghost predicate WorkOk(w: Work) {
    Valid(w.g) && Agreement(w.g.nodes, w.g.edges, w.edges) && (w.spawned == 0 || w.spawned == MAX_RUNTIME_SPAWNED)
  }

  lemma SpawnGrows(w: Work, node: Node, plan: Plan, k: nat)
    requires WorkOk(w) && node.id in Layer(Deps(w.g), k) && node.id in w.g.nodes
    requires forall second :: node.id + Ending(Child(second)) !in Mentions(w.g)
    ensures var w' := SpawnSubgoals(w, node, plan);
      && WorkOk(w') && Grown(w.g, w'.g, node.id, k) && Account(w') == Account(w)
      && w'.budget == w.budget && w'.spawned >= w.spawned
      && Mentions(w'.g) <= Mentions(w.g) + {node.id + Ending(Child(false)), node.id + Ending(Child(true))}
  {
    hide Deps, Mentions, Valid, Sound, Done, Layer, Ending, InsertNode, Agreement, Grown;
    var p := node.id;
    if node.subgoal || w.spawned >= MAX_RUNTIME_SPAWNED || plan.subgoals < 2 {
      GrownRefl(w.g, p, k);
    } else {
      var c0, c1 := ChildNode(node, ChildSuffix(false)), ChildNode(node, ChildSuffix(true));
      ChildNames(node);
      NodesMentioned(w.g);
      InsertGrows(w.g, c0, p, Child(false), k);
      InsertAgrees(w.g, w.edges, c0, p, []);
      assert w.edges + [] == w.edges;
      var g1 := InsertNode(w.g, c0, p);
      GrownFacts(w.g, g1, p, k);
      InsertGrows(g1, c1, p, Child(true), k);
      InsertAgrees(g1, w.edges, c1, p, []);
      NodesMentioned(g1);
      var g2 := InsertNode(g1, c1, p);
      GrownTrans(w.g, g1, g2, p, k);
      GrownFacts(w.g, g2, p, k);
    }
  }

  lemma ChildNames(node: Node)
    ensures forall second :: ChildNode(node, ChildSuffix(second)).id == node.id + Ending(Child(second))
    ensures node.id + Ending(Child(false)) != node.id + Ending(Child(true))
  {
    if node.id + Ending(Child(false)) == node.id + Ending(Child(true)) {
      NamesInjective(node.id, Child(false), node.id, Child(true));
    }
  }

  /** The parts of `Grown` that chaining needs. */
  lemma GrownFacts(g: Graph, g': Graph, p: Id, k: nat)
    requires Grown(g, g', p, k)
    ensures Valid(g') && Layer(Deps(g'), k) == Layer(Deps(g), k)
    ensures g.nodes.Keys <= g'.nodes.Keys
  {
    hide Deps, Mentions, Valid, Sound, Done, Layer;
  }

  lemma RecoveryGrows(w: Work, node: Node, plan: Plan, k: nat)
    requires WorkOk(w) && node.id in Layer(Deps(w.g), k) && node.id in w.g.nodes
    requires forall kind, again :: node.id + Ending(Recovery(kind, again)) !in Mentions(w.g)
    ensures var w' := InsertRecovery(w, node, plan);
      && WorkOk(w') && Grown(w.g, w'.g, node.id, k) && Account(w') == Account(w)
      && w'.budget <= w.budget && w'.spawned == w.spawned
  {
    hide Deps, Mentions, Valid, Sound, Done, Layer, Ending, InsertNode, Agreement, Grown;
    var p := node.id;
    if plan.retry.None? || w.budget == 0 {
      GrownRefl(w.g, p, k);
    } else {
      var r := plan.retry.value;
      var c := RecoveryNode(node, KindText(r.kind), AttemptText(r.again));
      RecoveryName(node, r);
      NodesMentioned(w.g);
      InsertGrows(w.g, c, p, Recovery(r.kind, r.again), k);
      InsertAgrees(w.g, w.edges, c, p, [Edge(p, c.id)]);
      var w' := InsertRecovery(w, node, plan);
      GrownFacts(w.g, w'.g, p, k);
    }
  }

  lemma RecoveryName(node: Node, r: Retry)
    ensures RecoveryNode(node, KindText(r.kind), AttemptText(r.again)).id == node.id + Ending(Recovery(r.kind, r.again))
  {
  }

  /** The work moved on: `done` completed, new agents joined the next round, everything else kept. */
  ghost predicate Advanced(w: Work, w': Work, k: nat, done: set<Id>) {
    && WorkOk(w') && NamesOk(w'.g)
    && w'.g.completed == w.g.completed + done && w'.g.failed == w.g.failed
    && SameRounds(Deps(w.g), Deps(w'.g), k)
    && NodesExtend(w.g.nodes, w'.g.nodes)
    && (Sound(Deps(w.g)) ==> Sound(Deps(w'.g)))
    && Account(w') == Account(w) && w'.budget <= w.budget && w'.spawned >= w.spawned
  }

  lemma NamesAfterGrowth(g: Graph, g0: Graph, g': Graph, p: Id, k: nat)
    requires NamesOk(g) && p in g.nodes && g0 == g.(completed := g.completed + {p}) && Grown(g0, g', p, k)
    ensures NamesOk(g')
  {
    hide Deps, Valid, Sound, SameRounds, NodesExtend, Ending, Rooted;
    assert Mentions(g0) == Mentions(g);
    hide Mentions;
    forall q: Id, t: Tag | !t.Initial? && Rooted(g'.nodes.Keys, q) && q + Ending(t) in Mentions(g')
      ensures q in g'.completed
    {
      if q + Ending(t) in Mentions(g) {
        RootedBack(g.nodes.Keys, g'.nodes.Keys, p, q);
      } else {
        var u: Tag :| q + Ending(t) == p + Ending(u);
        NamesInjective(q, t, p, u);
      }
    }
  }

  lemma RecoveryStillFresh(g: Graph, g1: Graph, p: Id)
    requires NamesOk(g) && p in g.nodes && p !in g.completed
    requires Mentions(g1) <= Mentions(g) + {p + Ending(Child(false)), p + Ending(Child(true))}
    ensures forall kind, again :: p + Ending(Recovery(kind, again)) !in Mentions(g1)
  {
    hide Mentions, NamesOk, Ending;
    forall kind, again ensures p + Ending(Recovery(kind, again)) !in Mentions(g1) {
      var t := Recovery(kind, again);
      FreshName(g, p, t);
      if p + Ending(t) == p + Ending(Child(false)) { NamesInjective(p, t, p, Child(false)); }
      if p + Ending(t) == p + Ending(Child(true)) { NamesInjective(p, t, p, Child(true)); }
    }
  }

  /** Marking a node changes neither the dependencies nor what is mentioned. */
  lemma MarkKeeps(w: Work, p: Id)
    requires WorkOk(w)
    ensures WorkOk(MarkDone(w, p)) && Deps(MarkDone(w, p).g) == Deps(w.g)
    ensures Mentions(MarkDone(w, p).g) == Mentions(w.g)
  {
  }

  /** Post-step processing of one member of round k. */
  lemma {:induction false} ProcessAdvances(w: Work, p: Id, plan: Plan, k: nat)
    requires WorkOk(w) && NamesOk(w.g)
    requires p in w.g.nodes && p in Layer(Deps(w.g), k) && p !in w.g.completed
    ensures Advanced(w, ProcessCompleted(w, w.g.nodes[p], plan), k, {p})
  {
    hide Deps, Mentions, Sound, Done, Layer, Ending, Agreement, Grown, NamesOk, SpawnSubgoals, InsertRecovery;
    hide WorkOk, Account;
    var node := w.g.nodes[p];
    NodeKey(w, p);
    var w0 := MarkDone(w, p);
    MarkKeeps(w, p);
    forall second ensures p + Ending(Child(second)) !in Mentions(w0.g) {
      FreshName(w.g, p, Child(second));
    }
    SpawnGrows(w0, node, plan, k);
    var w1 := SpawnSubgoals(w0, node, plan);
    GrownFacts(w0.g, w1.g, p, k);
    RecoveryStillFresh(w.g, w1.g, p);
    RecoveryGrows(w1, node, plan, k);
    var w2 := InsertRecovery(w1, node, plan);
    GrownTrans(w0.g, w1.g, w2.g, p, k);
    NamesAfterGrowth(w.g, w0.g, w2.g, p, k);
    GrownAdvances(w, w2, p, k);
  }

  lemma NodeKey(w: Work, p: Id)
    requires WorkOk(w) && p in w.g.nodes
    ensures w.g.nodes[p].id == p
  {
  }

  lemma GrownAdvances(w: Work, w': Work, p: Id, k: nat)
    requires var g0 := MarkDone(w, p).g; Grown(g0, w'.g, p, k) && Deps(g0) == Deps(w.g)
    requires WorkOk(w') && NamesOk(w'.g)
    requires Account(w') == Account(MarkDone(w, p)) && w'.budget <= w.budget && w'.spawned >= w.spawned
    ensures Advanced(w, w', k, {p})
  {
    hide Deps, Mentions, Sound, SameRounds, NodesExtend, MentionsGrow, WorkOk, NamesOk, Valid;
  }

  lemma AdvancedTrans(w: Work, w': Work, w'': Work, k: nat, a: set<Id>, b: set<Id>)
    requires Advanced(w, w', k, a) && Advanced(w', w'', k, b)
    ensures Advanced(w, w'', k, a + b)
  {
    hide Deps, Mentions, Sound, SameRounds, WorkOk, NamesOk, Account;
    SameRoundsTrans(Deps(w.g), Deps(w'.g), Deps(w''.g), k);
  }

  /** Nodes of round k that are ready to be processed as results. */
  ghost predicate Processable(w: Work, done: seq<Node>, k: nat) {
    && NoDup(Ids(done))
    && forall n | n in done ::
      n.id in w.g.nodes && w.g.nodes[n.id] == n && n.id in Layer(Deps(w.g), k) && n.id !in w.g.completed
  }

  /** Post-step processing of any number of members of round k, in any order. */
  lemma {:induction false} ProcessAllAdvances(w: Work, done: seq<Node>, plans: Id -> Plan, k: nat)
    requires WorkOk(w) && NamesOk(w.g) && Processable(w, done, k)
    ensures Advanced(w, ProcessAll(w, done, plans), k, SetOf(Ids(done)))
  {
    if done == [] {
      hide Deps, Mentions, Sound, Done, Layer, WorkOk, NamesOk, Account;
      assert Ids(done) == [];
    } else {
      var init, last := done[..|done| - 1], done[|done| - 1];
      IdsFront(done);
      ProcessableFront(w, done, k);
      ProcessAllAdvances(w, init, plans, k);
      var w1 := ProcessAll(w, init, plans);
      StillProcessable(w, w1, k, SetOf(Ids(init)), last);
      hide *;
      ProcessAdvances(w1, last.id, plans(last.id), k);
      LastStep(w, done, plans);
      AdvancedTrans(w, w1, ProcessAll(w, done, plans), k, SetOf(Ids(init)), {last.id});
    }
  }

  lemma LastStep(w: Work, done: seq<Node>, plans: Id -> Plan)
    requires done != []
    ensures var last := done[|done| - 1];
      ProcessAll(w, done, plans) == ProcessCompleted(ProcessAll(w, done[..|done| - 1], plans), last, plans(last.id))
  {
  }

  lemma IdsFront(done: seq<Node>)
    requires done != []
    ensures Ids(done) == Ids(done[..|done| - 1]) + [done[|done| - 1].id]
    ensures SetOf(Ids(done)) == SetOf(Ids(done[..|done| - 1])) + {done[|done| - 1].id}
  {
    assert Ids(done) == Ids(done[..|done| - 1]) + [done[|done| - 1].id];
    SetOfConcat(Ids(done[..|done| - 1]), [done[|done| - 1].id]);
  }

  lemma ProcessableFront(w: Work, done: seq<Node>, k: nat)
    requires done != [] && Processable(w, done, k)
    ensures Processable(w, done[..|done| - 1], k)
    ensures var last := done[|done| - 1];
      && last.id !in SetOf(Ids(done[..|done| - 1])) && last.id !in w.g.completed
      && last.id in w.g.nodes && w.g.nodes[last.id] == last && last.id in Layer(Deps(w.g), k)
  {
    hide Deps, Layer;
    var a, all := Ids(done[..|done| - 1]), Ids(done);
    assert forall i | 0 <= i < |a| :: a[i] == all[i];
    assert all[|a|] == done[|done| - 1].id;
    assert forall n | n in done[..|done| - 1] :: n in done;
    assert done[|done| - 1] in done;
  }

  lemma StillProcessable(w: Work, w1: Work, k: nat, done: set<Id>, n: Node)
    requires Advanced(w, w1, k, done)
    requires n.id in w.g.nodes && w.g.nodes[n.id] == n && n.id in Layer(Deps(w.g), k)
    requires n.id !in w.g.completed && n.id !in done
    ensures n.id in w1.g.nodes && w1.g.nodes[n.id] == n && n.id in Layer(Deps(w1.g), k) && n.id !in w1.g.completed
    ensures WorkOk(w1) && NamesOk(w1.g)
  {
    hide Deps, Layer, Done, Sound, WorkOk, NamesOk, Account;
  }
}
