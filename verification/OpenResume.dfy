/** Runs that resume from any pause, as the code allows: the gate may share the ready set with other nodes,
    and the prefix rule then marks whatever the fresh order puts first. */
module OpenResume {
  import opened Layering
  import opened Sequences
  import opened GeneratedNames
  import opened GraphModel
  import opened ExecutionLayers
  import opened ResumePrefix
  import opened PostStep
  import opened Scheduler
  import opened SchedulerInvariant
  import opened SchedulerTheorems
  import opened Wrappers
  import AdaptiveGraph

  ghost predicate OpenNext(s: State, s': State) {
    || SafetyStop(s, s')
    || NothingReady(s, s')
    || Pause(s, s')
    || (exists results, executed, plans :: BatchStep(s, s', results, executed, plans))
    || (exists ids :: ResumeAnywhere(s, s', ids))
  }

  ghost predicate IsOpenRun(ss: seq<State>) {
    |ss| > 0 && Init(ss[0]) && forall i, j | 0 <= i < |ss| - 1 && j == i + 1 :: OpenNext(ss[i], ss[j])
  }

  // ---------------------------------------------------------------- more rounds with fewer dependencies

  lemma {:induction false} FewerDependencies(d: DepMap, d': DepMap, k: nat)
    requires forall n | n in d :: n in d' && d'[n] <= d[n]
    ensures Done(d, k) <= Done(d', k)
  {
    if k > 0 { FewerDependencies(d, d', k - 1); }
  }

  /** Everything that rounds can finish. */
  function Doable(d: DepMap): set<Id> {
    Done(d, |d|)
  }

  lemma MoreDoable(d: DepMap, d': DepMap)
    requires forall n | n in d :: n in d' && d'[n] <= d[n]
    ensures Doable(d) <= Doable(d')
  {
    FewerDependencies(d, d', |d|);
    FixpointReached(d', |d|);
  }

  lemma ReadyDoable(d: DepMap, done: set<Id>, more: set<Id>)
    requires done <= Doable(d) && more <= Ready(d, done)
    ensures done + more <= Doable(d)
  {
    FixpointReached(d, |d| + 1);
    assert Ready(d, done) <= Done(d, |d| + 1);
  }

  /** The rounds that finish everything, none of them empty. */
  lemma {:induction false} LastRound(d: DepMap, k: nat) returns (r: nat)
    ensures r <= k && Done(d, r) == Done(d, k) && (r == 0 || Layer(d, r - 1) != {})
  {
    if k > 0 && Layer(d, k - 1) == {} { r := LastRound(d, k - 1); } else { r := k; }
  }

  // ---------------------------------------------------------------- what a fresh order begins with

  lemma PartOfLayer(d: DepMap, k: nat, front: seq<Id>, layer: seq<Id>, part: seq<Id>)
    requires SetOf(front) == Done(d, k) && SetOf(layer) == Layer(d, k) && part <= layer
    ensures DownClosed(d, SetOf(front + part)) && SetOf(front + part) <= Done(d, k + 1)
  {
    SetOfConcat(front, part);
    PartOfRound(d, k, SetOf(part));
  }

  lemma {:induction false} BeginningClosed(d: DepMap, nodes: map<Id, Node>, layers: seq<seq<Id>>, r: nat, m: nat)
    requires d.Keys == nodes.Keys && IsLayering(d, nodes, d.Keys, {}, layers)
    requires (r == 0 || Layer(d, r - 1) != {}) && m <= |Done(d, r)|
    ensures r <= |layers| && m <= |Flatten(layers)|
    ensures DownClosed(d, SetOf(Flatten(layers)[..m])) && SetOf(Flatten(layers)[..m]) <= Done(d, r)
  {
    hide IsLayering, Flatten, Covered, Done, Layer, DownClosed, LayersSoFar;
    LayeringSoFar(d, nodes, layers);
    EnoughPasses(d, nodes, layers, r);
    PassesCoverRounds(d, nodes, layers, r);
    PrefixIsCovered(d, nodes, d.Keys, {}, layers, r);
    if r == 0 {
      NothingFirst(d, Flatten(layers));
    } else {
      RanBefore(d, if r > 1 then r - 2 else 0, r - 1);
      PassesCoverRounds(d, nodes, layers, r - 1);
      PrefixIsCovered(d, nodes, d.Keys, {}, layers, r - 1);
      if m <= |Done(d, r - 1)| {
        BeginningClosed(d, nodes, layers, r - 1, m);
        DoneMonotone(d, r - 1, r);
      } else {
        PassIsRound(d, nodes, layers, r - 1);
        var front := Flatten(layers[..r - 1]);
        CoveredFlat(layers, r - 1);
        assert layers[..r] == layers[..r - 1] + [layers[r - 1]];
        FlattenSnoc(layers[..r - 1], layers[r - 1]);
        CutInLayer(Flatten(layers), front, layers[r - 1], m);
        PartOfLayer(d, r - 1, front, layers[r - 1], layers[r - 1][..m - |front|]);
      }
    }
  }

  lemma LayeringSoFar(d: DepMap, nodes: map<Id, Node>, layers: seq<seq<Id>>)
    requires d.Keys == nodes.Keys && IsLayering(d, nodes, d.Keys, {}, layers)
    ensures LayersSoFar(d, nodes, d.Keys, {}, layers)
  {
    hide LayersSoFar, Covered;
  }

  lemma CoveredFlat(layers: seq<seq<Id>>, i: nat)
    requires i <= |layers|
    ensures SetOf(Flatten(layers[..i])) == Covered(layers[..i])
  {
  }

  lemma NothingFirst(d: DepMap, ids: seq<Id>)
    ensures Done(d, 0) == {} && DownClosed(d, SetOf(ids[..0])) && SetOf(ids[..0]) == {}
  {
  }

  lemma CutInLayer(flat: seq<Id>, front: seq<Id>, layer: seq<Id>, m: nat)
    requires |front + layer| <= |flat| && flat[..|front + layer|] == front + layer && |front| <= m <= |front + layer|
    ensures flat[..m] == front + layer[..m - |front|]
  {
    assert flat[..m] == flat[..|front + layer|][..m];
  }

  /** As many first entries of a fresh order as there are doable nodes are doable and closed under
      dependencies, and so is every shorter beginning, on any graph. */
  lemma FreshBeginning(d: DepMap, nodes: map<Id, Node>, ids: seq<Id>, m: nat)
    requires d.Keys == nodes.Keys && ScratchOrder(d, nodes, ids) && m <= |Doable(d)|
    ensures m <= |ids| && DownClosed(d, SetOf(ids[..m])) && SetOf(ids[..m]) <= Doable(d)
  {
    hide Done, Layer, IsLayering, DownClosed, Flatten;
    var layers :| IsLayering(d, nodes, d.Keys, {}, layers) && ids == Flatten(layers);
    var r := LastRound(d, |d|);
    BeginningClosed(d, nodes, layers, r, m);
  }

  // ---------------------------------------------------------------- what insertion keeps

  /** An id that may be generated for a node is mentioned only as a node that lists it as a dependency, and
      a runtime child only once children have been spawned. */
  ghost predicate NamesOpen(g: Graph, spawned: bool) {
    forall p: Id, t: Tag | !t.Initial? && Rooted(g.nodes.Keys, p) && p + Ending(t) in Mentions(g) ::
      MadeFor(g, spawned, p, t)
  }

  ghost predicate MadeFor(g: Graph, spawned: bool, p: Id, t: Tag) {
    p in g.nodes && p + Ending(t) in g.nodes && p in g.nodes[p + Ending(t)].dependencies && (t.Child? ==> spawned)
  }

  /** The graph grew by agents, and the old nodes' dependencies stayed. */
  ghost predicate Kept(g: Graph, g': Graph) {
    && Valid(g') && g'.completed == g.completed && g'.failed == g.failed
    && NodesExtend(g.nodes, g'.nodes)
    && (forall n | n in Deps(g) :: n in Deps(g') && Deps(g')[n] == Deps(g)[n])
    && Mentions(g) <= Mentions(g')
  }

  lemma KeptRefl(g: Graph)
    requires Valid(g)
    ensures Kept(g, g)
  {
    hide Deps, Mentions, Valid;
  }

  lemma KeptTrans(g: Graph, g': Graph, g'': Graph)
    requires Kept(g, g') && Kept(g', g'')
    ensures Kept(g, g'')
  {
    hide Deps, Mentions, Valid;
  }

  lemma FreshOpen(g: Graph, spawned: bool, p: Id, t: Tag)
    requires NamesOpen(g, spawned) && p in g.nodes && !t.Initial?
    requires p + Ending(t) !in g.nodes || (t.Child? && !spawned)
    ensures p + Ending(t) !in Mentions(g)
  {
    hide Mentions, Ending;
    assert Rooted(g.nodes.Keys, p);
    assert p + Ending(t) in Mentions(g) ==> MadeFor(g, spawned, p, t);
  }

  lemma NamesAfterInsert(g: Graph, g': Graph, c: Node, p: Id, t: Tag, spawned: bool, spawned': bool)
    requires NamesOpen(g, spawned) && p in g.nodes && c.id == p + Ending(t) && c.dependencies == [p]
    requires c.id !in Mentions(g) && g'.nodes == g.nodes[c.id := c] && Mentions(g') <= Mentions(g) + {c.id}
    requires (spawned ==> spawned') && (t.Child? ==> spawned')
    ensures NamesOpen(g', spawned')
  {
    hide Ending, Rooted;
    NodesMentioned(g);
    hide Mentions;
    forall q: Id, u: Tag | !u.Initial? && Rooted(g'.nodes.Keys, q) && q + Ending(u) in Mentions(g')
      ensures MadeFor(g', spawned', q, u)
    {
      if q + Ending(u) == c.id {
        NamesInjective(q, u, p, t);
      } else {
        RootedBack(g.nodes.Keys, g'.nodes.Keys, p, q);
        assert MadeFor(g, spawned, q, u);
      }
    }
  }

  /** Inserting one agent under a free name. */
  lemma InsertKeeps(g: Graph, c: Node, p: Id, t: Tag, spawned: bool, spawned': bool)
    requires Valid(g) && NamesOpen(g, spawned) && p in g.nodes
    requires c.id == p + Ending(t) && c.dependencies == [p] && !c.Approval() && c.id !in Mentions(g)
    requires (spawned ==> spawned') && (t.Child? ==> spawned')
    ensures var g' := InsertNode(g, c, p);
      && Kept(g, g') && NamesOpen(g', spawned')
      && g'.nodes == g.nodes[c.id := c] && Mentions(g') <= Mentions(g) + {c.id} && Deps(g') == Deps(g)[c.id := {p}]
  {
    hide Deps, Valid, Ending, InsertNode, NamesOpen, Hangable, Mentions;
    EndingLonger(p, t);
    InsertHangs(g, c, p);
    NodesMentioned(g);
    InsertMentions(g, c, p);
    MentionsStay(g, c, p);
    hide DepsOf;
    NamesAfterInsert(g, InsertNode(g, c, p), c, p, t, spawned, spawned');
  }

  lemma MentionsStay(g: Graph, c: Node, p: Id)
    requires c.id !in g.nodes
    ensures Mentions(g) <=
      Mentions(g.(order := g.order + [c.id], nodes := g.nodes[c.id := c], edges := g.edges + [Edge(p, c.id)]))
  {
    var g' := g.(order := g.order + [c.id], nodes := g.nodes[c.id := c], edges := g.edges + [Edge(p, c.id)]);
    forall e | e in g.edges ensures e.source in Mentions(g') && e.target in Mentions(g') {
      assert e in g'.edges;
      assert e.source in (set x | x in g'.edges :: x.source) && e.target in (set x | x in g'.edges :: x.target);
    }
    forall n, m | n in g.nodes && m in g.nodes[n].dependencies ensures m in Mentions(g') {
      assert n in g'.nodes && m in g'.nodes[n].dependencies;
    }
  }

  // ---------------------------------------------------------------- post-step processing

  /** The engine's edges add no dependency of their own and mention nothing of their own. */
  ghost predicate EdgesWithin(w: Work) {
    && (forall n | n in w.g.nodes && n in Deps(w.g) :: EdgeSources(w.edges, n) <= Deps(w.g)[n])
    && (forall e | e in w.edges :: e.source in Mentions(w.g) && e.target in Mentions(w.g))
  }

  ghost predicate OpenWork(w: Work) {
    Valid(w.g) && NamesOpen(w.g, w.spawned >= 2) && EdgesWithin(w)
  }

  lemma EdgesAfterInsert(w: Work, g': Graph, c: Id, p: Id)
    requires EdgesWithin(w) && c !in Mentions(w.g) && Mentions(w.g) <= Mentions(g')
    requires g'.nodes.Keys == w.g.nodes.Keys + {c} && Deps(g') == Deps(w.g)[c := {p}]
    ensures EdgesWithin(w.(g := g'))
  {
    hide Mentions, DepsOf;
    forall n | n in g'.nodes && n in Deps(g') ensures EdgeSources(w.edges, n) <= Deps(g')[n] {
      if n == c { assert EdgeSources(w.edges, c) == {}; }
    }
  }

  lemma EdgesAppended(w: Work, p: Id, r: Id)
    requires EdgesWithin(w) && r in w.g.nodes && r in Deps(w.g) && p in Deps(w.g)[r]
    requires p in Mentions(w.g) && r in Mentions(w.g)
    ensures EdgesWithin(w.(edges := w.edges + [Edge(p, r)]))
  {
    hide Mentions, DepsOf;
    forall n | n in w.g.nodes && n in Deps(w.g) ensures EdgeSources(w.edges + [Edge(p, r)], n) <= Deps(w.g)[n] {
      assert EdgeSources(w.edges + [Edge(p, r)], n) <= EdgeSources(w.edges, n) + (if n == r then {p} else {});
    }
  }

  /** One insertion into the work, the engine's edges as they were. */
  lemma WorkInserted(w: Work, c: Node, p: Id, t: Tag, spawned': nat)
    requires OpenWork(w) && p in w.g.nodes && c.id == p + Ending(t) && c.dependencies == [p] && !c.Approval()
    requires c.id !in Mentions(w.g) && w.spawned <= spawned' && (t.Child? ==> spawned' >= 2)
    ensures var w' := w.(g := InsertNode(w.g, c, p), spawned := spawned');
      && OpenWork(w') && Kept(w.g, w'.g)
      && w'.g.nodes.Keys == w.g.nodes.Keys + {c.id} && Mentions(w'.g) <= Mentions(w.g) + {c.id}
      && c.id in Deps(w'.g) && Deps(w'.g)[c.id] == {p}
  {
    hide Deps, Mentions, Valid, Ending, InsertNode, NamesOpen, EdgesWithin;
    InsertKeeps(w.g, c, p, t, w.spawned >= 2, spawned' >= 2);
    EdgesAfterInsert(w, InsertNode(w.g, c, p), c.id, p);
    SpawnedIrrelevant(w.(g := InsertNode(w.g, c, p)), spawned');
  }

  lemma SpawnedIrrelevant(w: Work, spawned: nat)
    requires EdgesWithin(w)
    ensures EdgesWithin(w.(spawned := spawned))
  {
    hide Deps, Mentions;
  }

  lemma OpenSpawn(w: Work, node: Node, plan: Plan)
    requires OpenWork(w) && node.id in w.g.nodes
    ensures var w' := SpawnSubgoals(w, node, plan); OpenWork(w') && Kept(w.g, w'.g)
  {
    hide Deps, Mentions, Valid, Ending, InsertNode, NamesOpen, EdgesWithin, Kept;
    var p := node.id;
    if node.subgoal || w.spawned >= MAX_RUNTIME_SPAWNED || plan.subgoals < 2 {
      KeptRefl(w.g);
    } else {
      var c0, c1 := ChildNode(node, ChildSuffix(false)), ChildNode(node, ChildSuffix(true));
      ChildNames(node);
      ChildPlain(node);
      FreshOpen(w.g, false, p, Child(false));
      FreshOpen(w.g, false, p, Child(true));
      WorkInserted(w, c0, p, Child(false), w.spawned + 2);
      var w1 := w.(g := InsertNode(w.g, c0, p), spawned := w.spawned + 2);
      WorkInserted(w1, c1, p, Child(true), w.spawned + 2);
      KeptTrans(w.g, w1.g, InsertNode(w1.g, c1, p));
    }
  }

  lemma ChildPlain(node: Node)
    ensures forall suffix :: !ChildNode(node, suffix).Approval() && ChildNode(node, suffix).dependencies == [node.id]
    ensures forall kind, attempt :: !RecoveryNode(node, kind, attempt).Approval()
    ensures forall kind, attempt :: RecoveryNode(node, kind, attempt).dependencies == [node.id]
  {
  }

  lemma RecoveryThere(w: Work, p: Id, t: Tag)
    requires OpenWork(w) && p in w.g.nodes && p + Ending(t) in w.g.nodes && t.Recovery?
    ensures p + Ending(t) in Deps(w.g) && p in Deps(w.g)[p + Ending(t)]
  {
    hide Ending;
    NodesMentioned(w.g);
    assert Rooted(w.g.nodes.Keys, p);
    assert MadeFor(w.g, w.spawned >= 2, p, t);
    assert p in DataDependencies(w.g.nodes, p + Ending(t));
  }

  lemma OpenRecovery(w: Work, node: Node, plan: Plan)
    requires OpenWork(w) && node.id in w.g.nodes
    ensures var w' := InsertRecovery(w, node, plan); OpenWork(w') && Kept(w.g, w'.g)
  {
    hide Deps, Mentions, Valid, Ending, InsertNode, NamesOpen, EdgesWithin, Kept;
    KeptRefl(w.g);
    if plan.retry.Some? && w.budget > 0 {
      var r, p := plan.retry.value, node.id;
      var c, t := RecoveryNode(node, KindText(r.kind), AttemptText(r.again)), Recovery(r.kind, r.again);
      RecoveryName(node, r);
      ChildPlain(node);
      NodesMentioned(w.g);
      var w1 := w;
      if c.id in w.g.nodes {
        RecoveryThere(w, p, t);
      } else {
        FreshOpen(w.g, w.spawned >= 2, p, t);
        WorkInserted(w, c, p, t, w.spawned);
        w1 := w.(g := InsertNode(w.g, c, p));
        NodesMentioned(w1.g);
      }
      EdgesAppended(w1, p, c.id);
      BudgetIrrelevant(w1.(edges := w.edges + [Edge(p, c.id)]), w.budget - 1);
    }
  }

  lemma BudgetIrrelevant(w: Work, budget: nat)
    requires EdgesWithin(w)
    ensures EdgesWithin(w.(budget := budget))
  {
    hide Deps, Mentions;
  }

  lemma MarkMentions(w: Work, p: Id)
    ensures Mentions(MarkDone(w, p).g) == Mentions(w.g) && Deps(MarkDone(w, p).g) == Deps(w.g)
  {
  }

  lemma OpenMark(w: Work, p: Id)
    requires OpenWork(w)
    ensures OpenWork(MarkDone(w, p)) && Deps(MarkDone(w, p).g) == Deps(w.g)
  {
    hide Mentions, DepsOf, Ending, Rooted, EdgeSources;
    MarkMentions(w, p);
    var g := MarkDone(w, p).g;
    forall q: Id, t: Tag | !t.Initial? && Rooted(g.nodes.Keys, q) && q + Ending(t) in Mentions(g)
      ensures MadeFor(g, w.spawned >= 2, q, t)
    {
      assert MadeFor(w.g, w.spawned >= 2, q, t);
    }
  }

  /** What processing one finished node, or several, does: `done` are marked and everything else is kept. */
  ghost predicate OpenAdvanced(w: Work, w': Work, done: set<Id>) {
    && OpenWork(w') && w'.g.completed == w.g.completed + done
    && NodesExtend(w.g.nodes, w'.g.nodes)
    && forall n | n in Deps(w.g) :: n in Deps(w'.g) && Deps(w'.g)[n] == Deps(w.g)[n]
  }

  lemma OpenProcess(w: Work, node: Node, plan: Plan)
    requires OpenWork(w) && node.id in w.g.nodes
    ensures OpenAdvanced(w, ProcessCompleted(w, node, plan), {node.id})
  {
    hide Deps, Mentions, Valid, Ending, InsertNode, NamesOpen, EdgesWithin, OpenWork, SpawnSubgoals, InsertRecovery;
    var w0 := MarkDone(w, node.id);
    OpenMark(w, node.id);
    OpenSpawn(w0, node, plan);
    var w1 := SpawnSubgoals(w0, node, plan);
    OpenRecovery(w1, node, plan);
    KeptTrans(w0.g, w1.g, InsertRecovery(w1, node, plan).g);
  }

  lemma OpenAdvancedTrans(w: Work, w': Work, w'': Work, a: set<Id>, b: set<Id>)
    requires OpenAdvanced(w, w', a) && OpenAdvanced(w', w'', b)
    ensures OpenAdvanced(w, w'', a + b)
  {
    hide Deps, OpenWork;
  }

  lemma {:induction false} OpenProcessAll(w: Work, done: seq<Node>, plans: Id -> Plan)
    requires OpenWork(w) && forall n | n in done :: n.id in w.g.nodes
    ensures OpenAdvanced(w, ProcessAll(w, done, plans), SetOf(Ids(done)))
  {
    if done == [] {
      hide Deps, OpenWork;
      assert Ids(done) == [];
    } else {
      var init, last := done[..|done| - 1], done[|done| - 1];
      IdsFront(done);
      OpenProcessAll(w, init, plans);
      StillThere(w, ProcessAll(w, init, plans), SetOf(Ids(init)));
      hide *;
      OpenProcess(ProcessAll(w, init, plans), last, plans(last.id));
      LastStep(w, done, plans);
      OpenAdvancedTrans(w, ProcessAll(w, init, plans), ProcessAll(w, done, plans), SetOf(Ids(init)), {last.id});
    }
  }

  lemma StillThere(w: Work, w': Work, done: set<Id>)
    requires OpenAdvanced(w, w', done)
    ensures OpenWork(w') && w.g.nodes.Keys <= w'.g.nodes.Keys
  {
    hide Deps, OpenWork;
  }

  // ---------------------------------------------------------------- the invariant

  /** Every completed gate has been granted. */
  ghost predicate OnlyGranted(s: State) {
    forall n | n in s.w.g.completed && n in s.w.g.nodes && s.w.g.nodes[n].Approval() :: n in s.granted
  }

  /** Between passes: what is completed is closed under dependencies and could have been done in rounds. */
  ghost predicate OpenInv(s: State) {
    && OpenWork(s.w)
    && DownClosed(Deps(s.w.g), s.w.g.completed) && s.w.g.completed <= Doable(Deps(s.w.g))
    && NoDup(s.sorted) && SetOf(s.sorted) == s.w.g.nodes.Keys
    && (s.phase.Waiting? ==> s.phase.gate in ReadyIds(s.w.g))
    && OnlyGranted(s)
  }

  lemma InitOpen(s: State)
    requires Init(s)
    ensures OpenInv(s)
  {
    hide Deps, Mentions, Valid, IsOrdering, Doable, Ending;
    OrderingCovers(s.w.g, s.sorted);
    AgreementWithin(s.w);
    hide Agreement, EdgesWithin;
    forall p: Id, t: Tag | !t.Initial? && Rooted(s.w.g.nodes.Keys, p) && p + Ending(t) in Mentions(s.w.g)
      ensures p in s.w.g.completed
    {
    }
  }

  lemma AgreementWithin(w: Work)
    requires Agreement(w.g.nodes, w.g.edges, w.edges)
    ensures EdgesWithin(w)
  {
    forall n | n in w.g.nodes && n in Deps(w.g) ensures EdgeSources(w.edges, n) <= Deps(w.g)[n] {
      assert DepsOf(w.g.nodes, w.edges)[n] == DepsOf(w.g.nodes, w.g.edges)[n];
    }
    forall e | e in w.edges ensures e.source in Mentions(w.g) && e.target in Mentions(w.g) {
      assert e in w.g.edges;
      assert e.source in (set x | x in w.g.edges :: x.source) && e.target in (set x | x in w.g.edges :: x.target);
    }
  }

  lemma PauseOpen(s: State, s': State)
    requires OpenInv(s) && Pause(s, s')
    ensures OpenInv(s')
  {
    hide Deps, EdgesWithin, NamesOpen, Valid, ReadyList, ReadyIds, DownClosed, Doable;
    GateIsReady(s.w.g);
  }

  lemma GateIsReady(g: Graph)
    requires Valid(g) && FirstGate(ReadyList(g)).Some?
    ensures FirstGate(ReadyList(g)).value.id in ReadyIds(g)
  {
    hide ReadyIds, ReadyList, Valid;
    ReadyListCorrect(g);
  }

  /** What a batch of agents leaves, up to the result it stops at. */
  lemma BatchOpen(s: State, j: nat, plans: Id -> Plan)
    requires OpenInv(s) && FirstGate(ReadyList(s.w.g)).None? && j <= |ReadyList(s.w.g)|
    ensures var w1 := ProcessAll(s.w, ReadyList(s.w.g)[..j], plans);
      && OpenWork(w1) && DownClosed(Deps(w1.g), w1.g.completed) && w1.g.completed <= Doable(Deps(w1.g))
      && OnlyGranted(s.(w := w1))
  {
    var g, some := s.w.g, ReadyList(s.w.g)[..j];
    var w1, more := ProcessAll(s.w, some, plans), SetOf(Ids(some));
    BatchNodes(g, j);
    hide Deps, Mentions, OpenWork, ReadyList, ProcessAll, Doable, DownClosed;
    OpenProcessAll(s.w, some, plans);
    ReadyDoable(Deps(g), g.completed, more);
    MoreDoable(Deps(g), Deps(w1.g));
    MarkReady(Deps(g), g.completed, more);
    ClosedSurvives(Deps(g), Deps(w1.g), g.completed + more);
  }

  lemma MarkReady(d: DepMap, done: set<Id>, more: set<Id>)
    requires DownClosed(d, done) && more <= Ready(d, done)
    ensures DownClosed(d, done + more)
  {
  }

  lemma BatchNodes(g: Graph, j: nat)
    requires Valid(g) && FirstGate(ReadyList(g)).None? && j <= |ReadyList(g)|
    ensures var some := ReadyList(g)[..j];
      && SetOf(Ids(some)) <= Ready(Deps(g), g.completed)
      && (forall n | n in some :: n.id in g.nodes)
      && (forall i | i in SetOf(Ids(some)) :: i in g.nodes && !g.nodes[i].Approval())
  {
    hide Deps, ReadyList;
    ReadyListCorrect(g);
    var some := ReadyList(g)[..j];
    forall n | n in some ensures n in ReadyList(g) {}
    forall i | i in SetOf(Ids(some))
      ensures i in Ready(Deps(g), g.completed) && i in g.nodes && !g.nodes[i].Approval()
    {
      var k :| 0 <= k < |some| && some[k].id == i;
      assert some[k] in some;
    }
  }

  lemma CompletesOpen(s: State, s': State, executed: seq<Id>, plans: Id -> Plan)
    requires OpenInv(s) && BatchCompletes(s, s', executed, plans)
    ensures OpenInv(s')
  {
    hide Deps, OpenWork, ReadyList, ProcessAll, DownClosed, Doable, IsOrdering, OnlyGranted;
    assert ReadyList(s.w.g)[..|ReadyList(s.w.g)|] == ReadyList(s.w.g);
    BatchOpen(s, |ReadyList(s.w.g)|, plans);
    OrderingCovers(s'.w.g, s'.sorted);
    SameGranted(s.(w := s'.w), s');
  }

  lemma SameGranted(s: State, s': State)
    requires s'.w == s.w && s'.granted == s.granted && OnlyGranted(s)
    ensures OnlyGranted(s')
  {
  }

  // ---------------------------------------------------------------- resume

  /** The graph rebuilt at any pause has the same nodes, and no dependency that was not there. */
  lemma RebuiltOpen(s: State)
    requires OpenWork(s.w) && NoDup(s.sorted) && SetOf(s.sorted) == s.w.g.nodes.Keys
    ensures Rebuilt(s) == Graph(s.sorted, s.w.g.nodes, s.w.edges, {}, {})
    ensures forall n | n in Deps(s.w.g) :: n in Deps(Rebuilt(s)) && Deps(Rebuilt(s))[n] <= Deps(s.w.g)[n]
  {
    hide NamesOpen;
    BuildPrefix(s.w.g.nodes, s.sorted, s.w.edges);
    assert Sub(s.w.g.nodes, s.sorted) == s.w.g.nodes;
    forall n | n in Deps(s.w.g) ensures n in Deps(Rebuilt(s)) && Deps(Rebuilt(s))[n] <= Deps(s.w.g)[n] {
      assert EdgeSources(s.w.edges, n) <= Deps(s.w.g)[n];
    }
  }

  lemma WorkRebuilt(s: State, completed: set<Id>)
    requires OpenWork(s.w) && NoDup(s.sorted) && SetOf(s.sorted) == s.w.g.nodes.Keys
    ensures OpenWork(s.w.(g := Graph(s.sorted, s.w.g.nodes, s.w.edges, completed, {})))
  {
    var g := Graph(s.sorted, s.w.g.nodes, s.w.edges, completed, {});
    assert Mentions(g) <= Mentions(s.w.g) by { hide NamesOpen; FewerMentionsOpen(s.w, g); }
    OwnEdges(s.w.(g := g));
    hide Mentions, Ending, Rooted, EdgesWithin;
    forall p: Id, t: Tag | !t.Initial? && Rooted(g.nodes.Keys, p) && p + Ending(t) in Mentions(g)
      ensures MadeFor(g, s.w.spawned >= 2, p, t)
    {
      assert MadeFor(s.w.g, s.w.spawned >= 2, p, t);
    }
  }

  lemma FewerMentionsOpen(w: Work, g: Graph)
    requires EdgesWithin(w) && g.nodes == w.g.nodes && g.edges == w.edges
    ensures Mentions(g) <= Mentions(w.g)
  {
    hide Deps;
  }

  lemma OwnEdges(w: Work)
    requires w.g.edges == w.edges
    ensures EdgesWithin(w)
  {
    forall e | e in w.edges ensures e.source in Mentions(w.g) && e.target in Mentions(w.g) {
      assert e.source in (set x | x in w.g.edges :: x.source) && e.target in (set x | x in w.g.edges :: x.target);
    }
  }

  lemma DoneAndGate(s: State)
    requires OpenInv(s) && s.phase.Waiting?
    ensures |s.w.g.completed| + 1 <= |Doable(Deps(s.w.g))|
  {
    hide Deps, OpenWork, Doable;
    var gate := s.phase.gate;
    ReadyDoable(Deps(s.w.g), s.w.g.completed, {gate});
    SubsetCardinality(s.w.g.completed + {gate}, Doable(Deps(s.w.g)));
  }

  lemma OrderFromNothing(g: Graph, ids: seq<Id>)
    requires g.completed == {} && IsOrdering(g, ids)
    ensures ScratchOrder(Deps(g), g.nodes, ids)
  {
    hide DepsOf, LayersSoFar, Flatten;
  }

  /** A resume keeps the invariant exactly as far as the gates it marks have been granted. */
  lemma ResumeOpen(s: State, s': State, ids: seq<Id>)
    requires OpenInv(s) && ResumeAnywhere(s, s', ids) && OnlyGranted(s')
    ensures OpenInv(s')
  {
    RebuiltOpen(s);
    var g0, m := Rebuilt(s), |s.w.g.completed| + 1;
    hide Deps, OpenWork, IsOrdering, ScratchOrder, Doable, DownClosed, ReadyIds, Rebuilt;
    DoneAndGate(s);
    MoreDoable(Deps(s.w.g), Deps(g0));
    SubsetCardinality(Doable(Deps(s.w.g)), Doable(Deps(g0)));
    OrderFromNothing(g0, ids);
    FreshBeginning(Deps(g0), g0.nodes, ids, m);
    WorkRebuilt(s, SetOf(ids[..m]));
    OrderingCovers(g0, ids);
    SameDeps(g0, s'.w.g);
  }

  lemma SameDeps(g: Graph, g': Graph)
    requires g'.nodes == g.nodes && g'.edges == g.edges
    ensures Deps(g') == Deps(g)
  {
  }

  // ---------------------------------------------------------------- runs

  lemma OpenStep(s: State, s': State)
    requires OpenInv(s) && OpenNext(s, s') && !s'.phase.Finished? && (s.phase.Waiting? ==> OnlyGranted(s'))
    ensures OpenInv(s')
  {
    hide OpenInv, OnlyGranted, ReadyList, BatchRan, ResumeAnywhere;
    if exists ids :: ResumeAnywhere(s, s', ids) {
      var ids :| ResumeAnywhere(s, s', ids);
      WaitingThere(s, s', ids);
      ResumeOpen(s, s', ids);
    } else if Pause(s, s') {
      PauseOpen(s, s');
    } else {
      var results, executed, plans :| BatchStep(s, s', results, executed, plans);
      assert BatchCompletes(s, s', executed, plans) by { hide BatchCompletes; }
      CompletesOpen(s, s', executed, plans);
    }
  }

  lemma WaitingThere(s: State, s': State, ids: seq<Id>)
    requires ResumeAnywhere(s, s', ids)
    ensures s.phase.Waiting?
  {
    hide IsOrdering, Rebuilt;
  }

  lemma OpenAt(ss: seq<State>, i: nat)
    requires IsOpenRun(ss) && i + 1 < |ss|
    ensures OpenNext(ss[i], ss[i + 1]) && !ss[i].phase.Finished?
  {
    hide IsOrdering, ReadyList, BatchRan, Rebuilt, BatchCompletes, ResumeAnywhere;
    assert OpenNext(ss[i], ss[i + 1]);
    NotFinished(ss[i], ss[i + 1]);
  }

  lemma NotFinished(s: State, s': State)
    requires OpenNext(s, s')
    ensures !s.phase.Finished?
  {
    hide IsOrdering, ReadyList, BatchRan, Rebuilt;
  }

  /** The gates a resume marks, at each resume of the run up to state i, have been granted. */
  ghost predicate ResumesOnlyGranted(ss: seq<State>, i: nat)
    requires i < |ss|
  {
    forall j, k | 0 <= j < i && k == j + 1 && ss[j].phase.Waiting? :: OnlyGranted(ss[k])
  }

  lemma {:induction false} OpenRunInv(ss: seq<State>, i: nat)
    requires IsOpenRun(ss) && i < |ss| && !ss[i].phase.Finished? && ResumesOnlyGranted(ss, i)
    ensures OpenInv(ss[i])
  {
    hide OpenInv, OpenNext, OnlyGranted, Init;
    if i > 0 {
      OpenAt(ss, i - 1);
      OpenRunInv(ss, i - 1);
      OpenStep(ss[i - 1], ss[i]);
    } else {
      InitOpen(ss[0]);
    }
  }

  lemma ResumedRunning(ss: seq<State>, j: nat)
    requires IsOpenRun(ss) && j + 1 < |ss| && ss[j].phase.Waiting?
    ensures !ss[j + 1].phase.Finished?
  {
    hide OpenNext;
    assert OpenNext(ss[j], ss[j + 1]);
    FromWaiting(ss[j], ss[j + 1]);
  }

  lemma FromWaiting(s: State, s': State)
    requires OpenNext(s, s') && s.phase.Waiting?
    ensures s'.phase.Running?
  {
    hide IsOrdering, ReadyList, BatchRan, Rebuilt;
  }

  lemma {:induction false} ResumesUpTo(ss: seq<State>, i: nat, j: nat)
    requires j <= i < |ss| && ResumesOnlyGranted(ss, i)
    ensures ResumesOnlyGranted(ss, j)
  {
    hide OnlyGranted;
  }

  /** Up to any moment of any run, all completed gates were granted if and only if no resume marked one that
      was not: no batch, insertion or pause ever breaks it. */
  lemma OnlyResumesBreach(ss: seq<State>, i: nat)
    requires IsOpenRun(ss) && i < |ss|
    ensures (forall j | 0 <= j <= i && !ss[j].phase.Finished? :: OnlyGranted(ss[j])) <==> ResumesOnlyGranted(ss, i)
  {
    hide IsOpenRun, OnlyGranted;
    if ResumesOnlyGranted(ss, i) {
      forall j | 0 <= j <= i && !ss[j].phase.Finished? ensures OnlyGranted(ss[j]) {
        ResumesUpTo(ss, i, j);
        OpenRunInv(ss, j);
        GrantedThen(ss[j]);
      }
    } else {
      var j, k :| 0 <= j < i && k == j + 1 && ss[j].phase.Waiting? && !OnlyGranted(ss[k]);
      ResumedRunning(ss, j);
    }
  }

  lemma GrantedThen(s: State)
    requires OpenInv(s)
    ensures OnlyGranted(s)
  {
  }

  /** Approval safety of every run, whatever shared a layer with its gates: a batch executes agents only, and
      every gate among their transitive dependencies has been granted, if no resume up to then marked a
      gate that had not been.  Nothing else can mark one. */
  lemma OpenApprovalSafety(ss: seq<State>, i: nat, s': State, results: seq<Status>, executed: seq<Id>,
                           plans: Id -> Plan, n: Id, gate: Id)
    requires IsOpenRun(ss) && i < |ss| && BatchStep(ss[i], s', results, executed, plans)
    requires ResumesOnlyGranted(ss, i) && n in executed
    ensures n in ss[i].w.g.nodes && !ss[i].w.g.nodes[n].Approval()
    ensures gate in ss[i].w.g.nodes && ss[i].w.g.nodes[gate].Approval() && DependsOn(Deps(ss[i].w.g), n, gate) ==>
              gate in ss[i].granted
  {
    var s := ss[i];
    BatchShape(s, s', results, executed, plans);
    hide OpenNext, IsOpenRun, BatchStep, ReadyList, ResumesOnlyGranted;
    OpenRunInv(ss, i);
    BatchNodes(s.w.g, |ReadyList(s.w.g)|);
    assert ReadyList(s.w.g)[..|ReadyList(s.w.g)|] == ReadyList(s.w.g);
    assert n in SetOf(executed);
    if DependsOn(Deps(s.w.g), n, gate) { BelowReady(Deps(s.w.g), s.w.g.completed, n, gate); }
  }

  lemma BatchShape(s: State, s': State, results: seq<Status>, executed: seq<Id>, plans: Id -> Plan)
    requires BatchStep(s, s', results, executed, plans)
    ensures s.phase.Running? && FirstGate(ReadyList(s.w.g)).None? && SetOf(executed) <= SetOf(Ids(ReadyList(s.w.g)))
  {
    hide BatchRan, ReadyList, IsOrdering, ProcessAll, GoodPrefix;
  }

  lemma BelowReady(d: DepMap, done: set<Id>, n: Id, m: Id)
    requires DownClosed(d, done) && n in Ready(d, done) && DependsOn(d, n, m)
    ensures m in done
  {
    var c: seq<Id> :| Chain(d, c) && |c| > 1 && c[0] == m && Last(c) == n;
    DownClosedReach(d, done, Front(c));
  }
}
