/** A run whose resume records the wrong node as approved. */
module RecordedGate {
  import opened Layering
  import opened Sequences
  import opened GraphModel
  import opened GeneratedNames
  import opened ExecutionLayers
  import opened PostStep
  import opened Scheduler
  import opened Wrappers
  import StableSort

  const AGENT: Node := Node("a", Some(AgentKind), AgentKind, false, None, None, [])
  const GATE: Node := Node("g", Some(ApprovalKind), ApprovalKind, false, None, None, ["a"])

  /** A root agent and a gate that depends on it. */
  function Small(completed: set<Id>): Graph {
    Graph(["a", "g"], map["a" := AGENT, "g" := GATE], [], completed, {})
  }

  const PLANS: Id -> Plan := (n: Id) => Plan(0, None)

  /** Before the agent runs, after it, and at the pause; `sorted` is what `ordered_nodes` gave last. */
  function Moment(completed: set<Id>, sorted: seq<Id>, batches: seq<seq<Id>>, phase: Phase): State {
    State(Work(Small(completed), [], 0, 0), sorted, batches, [], {}, phase)
  }

  lemma SmallDeps(completed: set<Id>)
    ensures Deps(Small(completed)) == map["a" := {}, "g" := {"a"}]
  {
    var g := Small(completed);
    assert EdgeSources([], "a") == {} && EdgeSources([], "g") == {};
    assert DataDependencies(g.nodes, "a") == {} && DataDependencies(g.nodes, "g") == {"a"};
    var d := Deps(g);
    assert d.Keys == {"a", "g"} && d["a"] == {} && d["g"] == {"a"};
  }

  lemma SmallValid(completed: set<Id>)
    ensures Valid(Small(completed)) && WorkOk(Work(Small(completed), [], 0, 0)) && NamesOk(Small(completed))
  {
    var g := Small(completed);
    assert SetOf(g.order) == {"a", "g"};
    assert Mentions(g) <= {"a", "g"};
    forall p: Id, t: Tag ensures p + Ending(t) !in Mentions(g) {
      EndingMarks(t);
    }
  }

  lemma ReadySorted(n: Node)
    ensures StableSort.Sort(PositionLe, [n]) == [n]
  {
  }

  lemma ReadyIsAgent()
    ensures ReadyList(Small({})) == [AGENT]
  {
    var g := Small({});
    SmallDeps({});
    assert g.order[..1] == ["a"] && ["a"][..0] == [];
    assert ReadyIds(g) == {"a"};
    assert ReadyAmong(g, ["a"]) == [AGENT];
    ReadySorted(AGENT);
  }

  lemma ReadyIsGate()
    ensures ReadyList(Small({"a"})) == [GATE] && ReadyIds(Small({"a"})) == {"g"}
  {
    var g := Small({"a"});
    SmallDeps({"a"});
    assert g.order[..1] == ["a"] && ["a"][..0] == [];
    assert ReadyIds(g) == {"g"};
    assert ReadyAmong(g, ["a"]) == [];
    ReadySorted(GATE);
  }

  lemma FirstFlat()
    ensures Covered([["a"]]) == {"a"} && Covered([["a"], ["g"]]) == {"a", "g"} && Flatten([["a"], ["g"]]) == ["a", "g"]
  {
    assert [["a"], ["g"]][..1] == [["a"]] && [["a"]][..0] == [];
    assert Flatten([["a"]]) == ["a"];
  }

  lemma FirstOrder()
    ensures IsOrdering(Small({}), ["a", "g"])
  {
    var g, layers := Small({}), [["a"], ["g"]];
    SmallDeps({});
    FirstFlat();
    CoversNone();
    var d := Deps(g);
    hide Deps, Covered, Flatten;
    assert layers[..0] == [] && layers[..1] == [["a"]];
    assert Unblocked(d, {"a", "g"} - {}, {} + {}) == {"a"} == SetOf(["a"]);
    assert Unblocked(d, {"a", "g"} - {"a"}, {} + {"a"}) == {"g"} == SetOf(["g"]);
  }

  lemma CoversNone()
    ensures Covered([]) == {}
  {
  }

  /** With the agent completed both nodes share the first layer, in whatever order the set gives them. */
  lemma SecondOrder()
    ensures IsOrdering(Small({"a"}), ["g", "a"])
  {
    var g, layers := Small({"a"}), [["g", "a"]];
    SmallDeps({"a"});
    var d := Deps(g);
    assert layers[..0] == [];
    assert Flatten(layers) == ["g", "a"];
    assert Covered([]) == {} && Covered(layers) == {"a", "g"};
    assert Unblocked(d, {"a", "g"} - {}, {"a"} + {}) == {"a", "g"} == SetOf(["g", "a"]);
  }

  lemma AgentProcessed()
    ensures ProcessAll(Work(Small({}), [], 0, 0), [AGENT], PLANS) == Work(Small({"a"}), [], 0, 0)
  {
    assert [AGENT][..0] == [];
  }

  /** The agent runs, the run pauses at the gate, alone among the ready nodes, and the entry that the resume
      records as approved is the agent. */
  lemma WrongNodeRecorded() returns (ss: seq<State>)
    ensures IsRun(ss) && |ss| == 3 && ss[2].phase == Waiting("g")
    ensures ReadyIds(ss[2].w.g) == {"g"} && ss[2].w.g.completed == {"a"}
    ensures |ss[2].sorted| == 2 && ss[2].sorted[1] == "a"
  {
    var s0 := Moment({}, ["a", "g"], [], Running);
    var s1 := Moment({"a"}, ["g", "a"], [["a"]], Running);
    var s2 := Moment({"a"}, ["g", "a"], [["a"]], Waiting("g"));
    Begins();
    AgentBatch();
    PausesThere();
    ReadyIsGate();
    ss := [s0, s1, s2];
    hide Next, Init;
  }

  lemma Begins()
    ensures Init(Moment({}, ["a", "g"], [], Running))
  {
    SmallValid({});
    FirstOrder();
    hide WorkOk, NamesOk, IsOrdering;
  }

  lemma AgentBatch()
    ensures Next(Moment({}, ["a", "g"], [], Running), Moment({"a"}, ["g", "a"], [["a"]], Running))
  {
    ReadyIsAgent();
    AgentProcessed();
    SecondOrder();
    hide IsOrdering, ReadyList, ProcessAll;
    assert Ids([AGENT]) == ["a"];
    assert GoodPrefix([Completed]) == 1;
    assert BatchStep(Moment({}, ["a", "g"], [], Running), Moment({"a"}, ["g", "a"], [["a"]], Running), [Completed],
        ["a"], PLANS);
  }

  lemma PausesThere()
    ensures Next(Moment({"a"}, ["g", "a"], [["a"]], Running), Moment({"a"}, ["g", "a"], [["a"]], Waiting("g")))
  {
    ReadyIsGate();
    hide ReadyList;
    assert Pause(Moment({"a"}, ["g", "a"], [["a"]], Running), Moment({"a"}, ["g", "a"], [["a"]], Waiting("g")));
  }
}
