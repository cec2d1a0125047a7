/** What post-step processing adds, spelled out: which nodes with which contents, which edges, and what
    is left of the two allowances. */
module PostStepEffects {
  import opened Layering
  import opened Sequences
  import opened GraphModel
  import opened GeneratedNames
  import opened PostStep
  import opened Wrappers

  ghost function RetryWord(kind: RetryKind): string {
    match kind
    case Clarify => "-clarify-"
    case Summarize => "-summarize-"
    case Expand => "-expand-"
    case FactualRetry => "-factual_retry-"
    case ToolRetry => "-tool_retry-"
  }

  /** The id of the node a retry hangs below `p`. */
  ghost function RetryName(p: Id, r: Retry): Id {
    p + (RetryWord(r.kind) + (if r.again then "2" else "1"))
  }

  /** Two children are spawned: below nodes that are no subgoals themselves, for two or more subgoals in the
      output, while fewer than two were spawned in the whole workflow. */
  ghost predicate Spawns(spawned: nat, node: Node, plan: Plan) {
    !node.subgoal && spawned < 2 && plan.subgoals >= 2
  }

  ghost predicate Retries(budget: nat, plan: Plan) {
    plan.retry.Some? && budget > 0
  }

  /** `c` is an agent that depends on `p` alone and stands beside it; a missing x is read as 200, a missing y as 0. */
  ghost predicate AgentBeside(c: Node, p: Node, dx: real, dy: real, subgoal: bool) {
    && c.kind == Some(AgentKind) && c.dataKind == AgentKind && c.subgoal == subgoal && c.dependencies == [p.id]
    && c.x == Some((if p.x.Some? then p.x.value else 200.0) + dx)
    && c.y == Some((if p.y.Some? then p.y.value else 0.0) + dy)
  }

  ghost predicate Child(g: Graph, c: Id, p: Node) {
    c in g.nodes && g.nodes[c].id == c && AgentBeside(g.nodes[c], p, 180.0, 100.0, true)
  }

  ghost predicate RetryOf(g: Graph, c: Id, p: Node) {
    c in g.nodes && g.nodes[c].id == c && AgentBeside(g.nodes[c], p, 0.0, 120.0, false)
  }

  /** Those of `ids` that are new, in order. */
  ghost function New(g: Graph, ids: seq<Id>): seq<Id> {
    if ids == [] then []
    else New(g, ids[..|ids| - 1]) + (if ids[|ids| - 1] in g.nodes then [] else [ids[|ids| - 1]])
  }

  ghost function EdgesTo(p: Id, ids: seq<Id>): seq<Edge> {
    seq(|ids|, i requires 0 <= i < |ids| => Edge(p, ids[i]))
  }

  /** `g'` is `g` with nodes put under `ids`, an edge to each, and nothing else. */
  ghost predicate Added(g: Graph, g': Graph, p: Id, ids: seq<Id>) {
    && g'.order == g.order + New(g, ids)
    && (forall n :: n in g'.nodes <==> n in g.nodes || n in ids)
    && (forall n | n in g.nodes && n !in ids :: g'.nodes[n] == g.nodes[n])
    && g'.edges == g.edges + EdgesTo(p, ids)
    && g'.completed == g.completed && g'.failed == g.failed
  }

  ghost function ChildNamesOf(p: Id): seq<Id> {
    [p + "-child-rt0", p + "-child-rt1"]
  }

  /** What is put into the graph: the children when they are to be spawned, and the node of a retry that is
      granted and paid for, unless its id is taken. */
  ghost function Made(w: Work, node: Node, plan: Plan): seq<Id> {
    (if Spawns(w.spawned, node, plan) then ChildNamesOf(node.id) else []) + RetryMade(w, node, plan)
  }

  ghost function RetryMade(w: Work, node: Node, plan: Plan): seq<Id> {
    if Retries(w.budget, plan) && RetryName(node.id, plan.retry.value) !in w.g.nodes
    then [RetryName(node.id, plan.retry.value)] else []
  }

  /** Everything that processing a finished node changes.  The engine's own edge list gets the edge of a
      granted retry in any case, and no other. */
  ghost predicate Processed(w: Work, w': Work, node: Node, plan: Plan) {
    && Added(w.g.(completed := w.g.completed + {node.id}), w'.g, node.id, Made(w, node, plan))
    && (Spawns(w.spawned, node, plan) ==>
          Child(w'.g, node.id + "-child-rt0", node) && Child(w'.g, node.id + "-child-rt1", node))
    && (RetryMade(w, node, plan) != [] ==> RetryOf(w'.g, RetryName(node.id, plan.retry.value), node))
    && w'.edges == w.edges + (if Retries(w.budget, plan) then [Edge(node.id, RetryName(node.id, plan.retry.value))]
                              else [])
    && w'.spawned == w.spawned + (if Spawns(w.spawned, node, plan) then 2 else 0)
    && w'.budget == w.budget - (if Retries(w.budget, plan) then 1 else 0)
  }

  lemma {:induction false} ChildNamesSpelled(p: Id)
    ensures p + Ending(GeneratedNames.Child(false)) == p + "-child-rt0"
    ensures p + Ending(GeneratedNames.Child(true)) == p + "-child-rt1"
  {
  }

  lemma {:induction false} RetryWordSpelled(kind: RetryKind)
    ensures "-" + KindText(kind) + "-" == RetryWord(kind)
  {
  }

  lemma {:induction false} RetryNameSpelled(p: Id, r: Retry)
    ensures p + Ending(Recovery(r.kind, r.again)) == RetryName(p, r)
  {
    hide KindText, RetryWord;
    RetryWordSpelled(r.kind);
  }

  lemma {:induction false} RetryNotChild(p: Id, r: Retry)
    ensures RetryName(p, r) !in ChildNamesOf(p)
    ensures p + "-child-rt0" != p + "-child-rt1"
  {
    hide RetryName, Ending;
    ChildNamesSpelled(p);
    RetryNameSpelled(p, r);
    forall second | p + Ending(GeneratedNames.Child(second)) == p + Ending(Recovery(r.kind, r.again)) ensures false {
      NamesInjective(p, GeneratedNames.Child(second), p, Recovery(r.kind, r.again));
    }
    if p + Ending(GeneratedNames.Child(false)) == p + Ending(GeneratedNames.Child(true)) {
      NamesInjective(p, GeneratedNames.Child(false), p, GeneratedNames.Child(true));
    }
  }

  lemma {:induction false} AddedNone(g: Graph, p: Id)
    ensures Added(g, g, p, [])
  {
  }

  /** One more node put below `p`. */
  lemma {:induction false} AddedOneMore(g: Graph, g1: Graph, ids: seq<Id>, c: Node, p: Id)
    requires Added(g, g1, p, ids) && p in g1.nodes && p != "" && c.dependencies == [p] && c.id !in ids
    ensures Added(g, InsertNode(g1, c, p), p, ids + [c.id])
    ensures InsertNode(g1, c, p).nodes == g1.nodes[c.id := c]
  {
    assert WithDependency(c, p) == c;
    assert (ids + [c.id])[..|ids|] == ids;
    assert EdgesTo(p, ids + [c.id]) == EdgesTo(p, ids) + [Edge(p, c.id)];
  }

  lemma {:induction false} SpawnEffect(w: Work, node: Node, plan: Plan)
    requires node.id in w.g.nodes && node.id != ""
    ensures var w' := SpawnSubgoals(w, node, plan);
      if Spawns(w.spawned, node, plan) then
        && w' == w.(g := w'.g, spawned := w.spawned + 2) && Added(w.g, w'.g, node.id, ChildNamesOf(node.id))
        && Child(w'.g, node.id + "-child-rt0", node) && Child(w'.g, node.id + "-child-rt1", node)
      else w' == w
  {
    hide InsertNode, Ending, Added;
    if Spawns(w.spawned, node, plan) {
      var c0, c1 := ChildNode(node, ChildSuffix(false)), ChildNode(node, ChildSuffix(true));
      ChildNames(node);
      ChildNamesSpelled(node.id);
      AddedNone(w.g, node.id);
      AddedOneMore(w.g, w.g, [], c0, node.id);
      assert [] + [c0.id] == [c0.id];
      AddedOneMore(w.g, InsertNode(w.g, c0, node.id), [c0.id], c1, node.id);
      assert [c0.id] + [c1.id] == ChildNamesOf(node.id);
    }
  }

  /** The second half, after the children `ids` were added. */
  lemma {:induction false} RetryEffect(w0: Work, w: Work, ids: seq<Id>, node: Node, plan: Plan)
    requires node.id in w.g.nodes && node.id != "" && Added(w0.g, w.g, node.id, ids)
    requires w.budget == w0.budget && (ids == [] || ids == ChildNamesOf(node.id))
    ensures var w' := InsertRecovery(w, node, plan);
      && Added(w0.g, w'.g, node.id, ids + RetryMade(w0, node, plan))
      && (RetryMade(w0, node, plan) != [] ==> RetryOf(w'.g, RetryName(node.id, plan.retry.value), node))
      && (forall n | n in ids :: n in w'.g.nodes && w'.g.nodes[n] == w.g.nodes[n])
      && w'.edges == w.edges + (if Retries(w.budget, plan) then [Edge(node.id, RetryName(node.id, plan.retry.value))]
                                else [])
      && w'.spawned == w.spawned && w'.budget == w.budget - (if Retries(w.budget, plan) then 1 else 0)
  {
    hide InsertNode, New, EdgesTo, Ending, RetryName, ChildNamesOf;
    if Retries(w.budget, plan) {
      var r := plan.retry.value;
      var c := RecoveryNode(node, KindText(r.kind), AttemptText(r.again));
      RecoveryName(node, r);
      RetryNameSpelled(node.id, r);
      RetryNotChild(node.id, r);
      if c.id !in w.g.nodes { AddedOneMore(w0.g, w.g, ids, c, node.id); }
    }
    assert ids + [] == ids;
    assert w.edges + [] == w.edges;
  }

  /** Processing a finished node adds exactly its two children, exactly when they are to be spawned, and
      exactly its recovery node, when a retry is granted and paid for. */
  lemma {:induction false} ProcessEffect(w: Work, node: Node, plan: Plan)
    requires node.id in w.g.nodes && node.id != ""
    ensures Processed(w, ProcessCompleted(w, node, plan), node, plan)
  {
    hide SpawnSubgoals, InsertRecovery, Added, ChildNamesOf, RetryOf, RetryName;
    var w0 := MarkDone(w, node.id);
    SpawnEffect(w0, node, plan);
    AddedNone(w0.g, node.id);
    var w1 := SpawnSubgoals(w0, node, plan);
    var ids := if Spawns(w.spawned, node, plan) then ChildNamesOf(node.id) else [];
    StillThere(w0.g, w1.g, ids, node.id);
    RetryEffect(w0, w1, ids, node, plan);
    ChildNamesListed(node.id);
  }

  lemma {:induction false} ChildNamesListed(p: Id)
    ensures p + "-child-rt0" in ChildNamesOf(p) && p + "-child-rt1" in ChildNamesOf(p)
  {
  }

  lemma {:induction false} StillThere(g: Graph, g': Graph, ids: seq<Id>, p: Id)
    requires Added(g, g', p, ids) && p in g.nodes
    ensures p in g'.nodes
  {
  }

  // ---------------------------------------------------------------- a batch

  /** The node would spawn children if none were spawned before. */
  ghost predicate Asks(n: Node, plans: Id -> Plan) {
    !n.subgoal && plans(n.id).subgoals >= 2
  }

  ghost predicate NoneAsks(ns: seq<Node>, plans: Id -> Plan) {
    forall n | n in ns :: !Asks(n, plans)
  }

  /** How many of them are granted a retry. */
  ghost function Granted(ns: seq<Node>, plans: Id -> Plan): nat {
    if ns == [] then 0
    else Granted(ns[..|ns| - 1], plans) + (if plans(ns[|ns| - 1].id).retry.Some? then 1 else 0)
  }

  /** Exactly the finished nodes are marked completed, and none failed. */
  lemma {:induction false} ProcessAllMarks(w: Work, done: seq<Node>, plans: Id -> Plan)
    ensures ProcessAll(w, done, plans).g.completed == w.g.completed + SetOf(Ids(done))
    ensures ProcessAll(w, done, plans).g.failed == w.g.failed
  {
    if done == [] {
      assert Ids(done) == [];
    } else {
      var init, last := done[..|done| - 1], done[|done| - 1];
      ProcessAllMarks(w, init, plans);
      IdsFront(done);
      LastStep(w, done, plans);
      hide ProcessAll;
      ProcessMarks(ProcessAll(w, init, plans), last, plans(last.id));
    }
  }

  lemma {:induction false} ProcessMarks(w: Work, n: Node, plan: Plan)
    ensures ProcessCompleted(w, n, plan).g.completed == w.g.completed + {n.id}
    ensures ProcessCompleted(w, n, plan).g.failed == w.g.failed
  {
  }

  /** The work after the first `i` of the finished nodes. */
  ghost function After(w: Work, done: seq<Node>, plans: Id -> Plan, i: nat): Work
    requires i <= |done|
  {
    ProcessAll(w, done[..i], plans)
  }

  lemma {:induction false} AfterStep(w: Work, done: seq<Node>, plans: Id -> Plan, k: nat, i: nat)
    requires WorkOk(w) && NamesOk(w.g) && Processable(w, done, k) && i < |done|
    ensures var a, n := After(w, done, plans, i), done[i];
      && Processed(a, After(w, done, plans, i + 1), n, plans(n.id))
      && WorkOk(a) && NamesOk(a.g) && n.id in a.g.nodes && n.id !in a.g.completed
  {
    hide Processed, Layer, Deps, Done;
    PrefixProcessable(w, done, k, i + 1);
    PrefixProcessable(w, done, k, i);
    assert done[..i + 1][..i] == done[..i];
    ProcessableFront(w, done[..i + 1], k);
    hide Processable;
    ProcessAllAdvances(w, done[..i], plans, k);
    hide ProcessAll;
    StillProcessable(w, After(w, done, plans, i), k, SetOf(Ids(done[..i])), done[i]);
    LastStep(w, done[..i + 1], plans);
    var a := After(w, done, plans, i);
    IdNotEmpty(a, done[i].id);
    ProcessEffect(a, done[i], plans(done[i].id));
  }

  lemma {:induction false} IdNotEmpty(w: Work, n: Id)
    requires WorkOk(w) && n in w.g.nodes
    ensures n != ""
  {
  }

  lemma {:induction false} PrefixProcessable(w: Work, done: seq<Node>, k: nat, i: nat)
    requires Processable(w, done, k) && i <= |done|
    ensures Processable(w, done[..i], k)
  {
    hide Layer, Deps;
    assert forall j | 0 <= j < i :: Ids(done[..i])[j] == Ids(done)[j];
    assert forall n | n in done[..i] :: n in done;
  }

  /** Children are spawned once a finished node asks for them, if none were spawned before. */
  lemma {:induction false} SpawnedAfter(w: Work, done: seq<Node>, plans: Id -> Plan, k: nat, i: nat)
    requires WorkOk(w) && NamesOk(w.g) && Processable(w, done, k) && i <= |done|
    ensures After(w, done, plans, i).spawned
         == if w.spawned < 2 && !NoneAsks(done[..i], plans) then 2 else w.spawned
  {
    hide *;
    if i == 0 {
      BeforeAll(w, done, plans);
    } else {
      SpawnedAfter(w, done, plans, k, i - 1);
      AfterStep(w, done, plans, k, i - 1);
      SpawnedValues(w);
      CountersMove(After(w, done, plans, i - 1), After(w, done, plans, i), done[i - 1], plans(done[i - 1].id));
      OneMoreAsked(done, plans, i);
    }
  }

  /** Retries are paid for in order, while the budget lasts. */
  lemma {:induction false} BudgetAfter(w: Work, done: seq<Node>, plans: Id -> Plan, k: nat, i: nat)
    requires WorkOk(w) && NamesOk(w.g) && Processable(w, done, k) && i <= |done|
    ensures After(w, done, plans, i).budget == Left(w.budget, Granted(done[..i], plans))
  {
    hide *;
    if i == 0 {
      BeforeAll(w, done, plans);
    } else {
      BudgetAfter(w, done, plans, k, i - 1);
      AfterStep(w, done, plans, k, i - 1);
      var n := done[i - 1];
      CountersMove(After(w, done, plans, i - 1), After(w, done, plans, i), n, plans(n.id));
      OneMoreAsked(done, plans, i);
      LeftMoves(w.budget, Granted(done[..i - 1], plans));
    }
  }

  /** What is left of `budget` after `count` have been taken, or would have been. */
  ghost function Left(budget: nat, count: nat): nat {
    if count <= budget then budget - count else 0
  }

  lemma {:induction false} LeftMoves(budget: nat, count: nat)
    ensures Left(budget, count + 1) == if Left(budget, count) > 0 then Left(budget, count) - 1 else 0
    ensures Left(budget, count) > 0 <==> count < budget
  {
  }

  lemma {:induction false} BeforeAll(w: Work, done: seq<Node>, plans: Id -> Plan)
    ensures After(w, done, plans, 0) == w && Granted(done[..0], plans) == 0 && NoneAsks(done[..0], plans)
    ensures Left(w.budget, 0) == w.budget
  {
    assert done[..0] == [];
    hide Asks;
  }

  lemma {:induction false} CountersMove(a: Work, b: Work, n: Node, plan: Plan)
    requires Processed(a, b, n, plan)
    ensures b.spawned == a.spawned + (if !n.subgoal && plan.subgoals >= 2 && a.spawned < 2 then 2 else 0)
    ensures b.budget == if plan.retry.Some? && a.budget > 0 then a.budget - 1 else a.budget
  {
    hide Added, Made, Child, RetryOf, RetryName;
  }

  lemma {:induction false} OneMoreAsked(done: seq<Node>, plans: Id -> Plan, i: nat)
    requires 0 < i <= |done|
    ensures var n := done[i - 1];
      && (NoneAsks(done[..i], plans) <==> NoneAsks(done[..i - 1], plans) && !Asks(n, plans))
      && Granted(done[..i], plans) == Granted(done[..i - 1], plans) + (if plans(n.id).retry.Some? then 1 else 0)
      && (Asks(n, plans) <==> !n.subgoal && plans(n.id).subgoals >= 2)
  {
    assert done[..i] == done[..i - 1] + [done[i - 1]];
    assert done[..i][..i - 1] == done[..i - 1];
  }

  lemma {:induction false} SpawnedValues(w: Work)
    requires WorkOk(w)
    ensures w.spawned == 0 || w.spawned == 2
  {
  }

  lemma {:induction false} MadeNamed(w: Work, node: Node, plan: Plan, c: Id) returns (t: Tag)
    requires c in Made(w, node, plan)
    ensures !t.Initial? && c == node.id + Ending(t)
  {
    ChildNamesSpelled(node.id);
    hide RetryName, Ending;
    if c == node.id + "-child-rt0" { return GeneratedNames.Child(false); }
    if c == node.id + "-child-rt1" { return GeneratedNames.Child(true); }
    RetryNameSpelled(node.id, plan.retry.value);
    return Recovery(plan.retry.value.kind, plan.retry.value.again);
  }

  /** What was made for node i stays, and nothing is made under its names later. */
  lemma {:induction false} NamesLater(w: Work, done: seq<Node>, plans: Id -> Plan, k: nat, i: nat, t: Tag, j: nat)
    requires WorkOk(w) && NamesOk(w.g) && Processable(w, done, k) && i < j <= |done|
    ensures var c, a, b := done[i].id + Ending(t), After(w, done, plans, i + 1).g, After(w, done, plans, j).g;
      && (c in b.nodes <==> c in a.nodes)
      && (c in a.nodes ==> b.nodes[c] == a.nodes[c])
  {
    if i + 1 < j {
      NamesLater(w, done, plans, k, i, t, j - 1);
      AfterStep(w, done, plans, k, j - 1);
      DistinctDone(w, done, k, i, j - 1);
      var c, last, b := done[i].id + Ending(t), done[j - 1], After(w, done, plans, j - 1);
      hide After, Processable, WorkOk, NamesOk, Ending, Made, Child, RetryOf;
      if c in Made(b, last, plans(last.id)) {
        var u := MadeNamed(b, last, plans(last.id), c);
        NamesInjective(done[i].id, t, last.id, u);
      }
    }
  }

  lemma {:induction false} DistinctDone(w: Work, done: seq<Node>, k: nat, i: nat, j: nat)
    requires Processable(w, done, k) && i < j < |done|
    ensures done[i].id != done[j].id
  {
    hide Layer, Deps;
    assert Ids(done)[i] == done[i].id && Ids(done)[j] == done[j].id;
  }

  /** Before its turn no name generated for a node is taken. */
  lemma {:induction false} NameFree(w: Work, n: Node, t: Tag)
    requires NamesOk(w.g) && n.id in w.g.nodes && n.id !in w.g.completed && !t.Initial?
    ensures n.id + Ending(t) !in w.g.nodes
  {
    hide NamesOk, Mentions, Ending;
    FreshName(w.g, n.id, t);
    NodesMentioned(w.g);
  }

  /** The children of the i-th result are in the graph after a batch exactly when it is the first to ask
      for them in the whole workflow. */
  lemma {:induction false} ChildrenIff(w: Work, done: seq<Node>, plans: Id -> Plan, k: nat, i: nat)
    requires WorkOk(w) && NamesOk(w.g) && Processable(w, done, k) && i < |done|
    ensures var g, p := ProcessAll(w, done, plans).g, done[i];
      && (p.id + "-child-rt0" in g.nodes <==> w.spawned == 0 && Asks(p, plans) && NoneAsks(done[..i], plans))
      && (p.id + "-child-rt1" in g.nodes <==> p.id + "-child-rt0" in g.nodes)
      && (p.id + "-child-rt0" in g.nodes ==> Child(g, p.id + "-child-rt0", p) && Child(g, p.id + "-child-rt1", p))
  {
    var p := done[i];
    AfterStep(w, done, plans, k, i);
    SpawnedAfter(w, done, plans, k, i);
    NamesLater(w, done, plans, k, i, GeneratedNames.Child(false), |done|);
    NamesLater(w, done, plans, k, i, GeneratedNames.Child(true), |done|);
    assert done[..|done|] == done;
    hide ProcessAll, Ending, Processable;
    NameFree(After(w, done, plans, i), p, GeneratedNames.Child(false));
    NameFree(After(w, done, plans, i), p, GeneratedNames.Child(true));
    ChildNamesSpelled(p.id);
    SpawnedValues(w);
    hide WorkOk, NamesOk, RetryName, After;
    if Retries(After(w, done, plans, i).budget, plans(p.id)) { RetryNotChild(p.id, plans(p.id).retry.value); }
  }

  /** The recovery node of the i-th result is there exactly when it was granted a retry and fewer retries
      were granted before it than the budget had. */
  lemma {:induction false} RecoveryIff(w: Work, done: seq<Node>, plans: Id -> Plan, k: nat, i: nat, r: Retry)
    requires WorkOk(w) && NamesOk(w.g) && Processable(w, done, k) && i < |done|
    ensures var g, p := ProcessAll(w, done, plans).g, done[i];
      && (RetryName(p.id, r) in g.nodes <==>
            plans(p.id).retry == Some(r) && Granted(done[..i], plans) < w.budget)
      && (RetryName(p.id, r) in g.nodes ==> RetryOf(g, RetryName(p.id, r), p))
  {
    var p, t := done[i], Recovery(r.kind, r.again);
    AfterStep(w, done, plans, k, i);
    BudgetAfter(w, done, plans, k, i);
    LeftMoves(w.budget, Granted(done[..i], plans));
    NamesLater(w, done, plans, k, i, t, |done|);
    assert done[..|done|] == done;
    hide ProcessAll, Ending, Processable;
    NameFree(After(w, done, plans, i), p, t);
    RetryNameSpelled(p.id, r);
    hide WorkOk, NamesOk, RetryName, After;
    RetryNotChild(p.id, r);
    if plans(p.id).retry.Some? && RetryName(p.id, r) == RetryName(p.id, plans(p.id).retry.value) {
      RetryNamesDiffer(p.id, r, plans(p.id).retry.value);
    }
    if plans(p.id).retry.Some? { NameFreeToo(After(w, done, plans, i), p, plans(p.id).retry.value); }
  }

  lemma {:induction false} NameFreeToo(w: Work, n: Node, r: Retry)
    requires NamesOk(w.g) && n.id in w.g.nodes && n.id !in w.g.completed
    ensures RetryName(n.id, r) !in w.g.nodes
  {
    hide NamesOk, Ending, RetryName;
    NameFree(w, n, Recovery(r.kind, r.again));
    RetryNameSpelled(n.id, r);
  }

  lemma {:induction false} RetryNamesDiffer(p: Id, r: Retry, r': Retry)
    requires RetryName(p, r) == RetryName(p, r')
    ensures r == r'
  {
    hide RetryName, Ending;
    RetryNameSpelled(p, r);
    RetryNameSpelled(p, r');
    NamesInjective(p, Recovery(r.kind, r.again), p, Recovery(r'.kind, r'.again));
  }
}
