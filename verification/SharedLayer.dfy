/** Two runs in which a gate shares its layer: an agent runs below a gate nobody was asked about, and an agent
    counts as done without running. */
module SharedLayer {
  import opened Layering
  import opened Sequences
  import opened GeneratedNames
  import opened GraphModel
  import opened ExecutionLayers
  import opened PostStep
  import opened Scheduler
  import opened SchedulerInvariant
  import opened SchedulerTheorems
  import opened OpenResume
  import opened Wrappers
  import StableSort

  function Agent(id: Id, dependencies: seq<Id>): Node {
    Node(id, Some(AgentKind), AgentKind, false, None, None, dependencies)
  }

  function Gate(id: Id): Node {
    Node(id, Some(ApprovalKind), ApprovalKind, false, None, None, [])
  }

  const PLANS: Id -> Plan := (n: Id) => Plan(0, None)

  /** Between steps, with no edges and nothing spawned: `order` is the graph's, `sorted` the saved one. */
  function Moment(nodes: map<Id, Node>, order: seq<Id>, completed: set<Id>, sorted: seq<Id>,
                  batches: seq<seq<Id>>, granted: set<Id>, phase: Phase): State {
    State(Work(Graph(order, nodes, [], completed, {}), [], 0, 0), sorted, batches, [], granted, phase)
  }

  lemma ShortNames(g: Graph)
    requires forall id | id in Mentions(g) :: |id| == 1
    ensures NamesOk(g)
  {
    hide Mentions;
    forall p: Id, t: Tag ensures p + Ending(t) !in Mentions(g) { EndingMarks(t); }
  }

  lemma OneSorted(n: Node)
    ensures StableSort.Sort(PositionLe, [n]) == [n]
  {
  }

  /** Two nodes at one position keep their order. */
  lemma TwoSorted(m: Node, n: Node)
    requires m.x == n.x && m.y == n.y
    ensures StableSort.Sort(PositionLe, [m, n]) == [m, n]
  {
    OneSorted(n);
    assert [m, n][1..] == [n];
  }

  /** What a resume from such a moment with this fresh order gives. */
  lemma ResumesTo(nodes: map<Id, Node>, order: seq<Id>, completed: set<Id>, sorted: seq<Id>, batches: seq<seq<Id>>,
                  granted: set<Id>, gate: Id, ids: seq<Id>)
    requires WorkOk(Work(Graph(order, nodes, [], completed, {}), [], 0, 0))
    requires NoDup(sorted) && SetOf(sorted) == nodes.Keys && |completed| + 1 <= |ids|
    requires IsOrdering(Graph(sorted, nodes, [], {}, {}), ids)
    ensures ResumeAnywhere(Moment(nodes, order, completed, sorted, batches, granted, Waiting(gate)),
                           Moment(nodes, sorted, SetOf(ids[..|completed| + 1]), ids, batches + [[gate]],
                                  granted + {gate}, Running), ids)
  {
    var s := Moment(nodes, order, completed, sorted, batches, granted, Waiting(gate));
    RebuiltSame(s);
    hide Rebuilt, IsOrdering, WorkOk, Deps;
  }

  /** A pause and the resume after it, as two steps of an open run. */
  lemma PauseThenResume(ss: seq<State>, s: State, gate: Id, ids: seq<Id>, s': State)
    requires IsOpenRun(ss) && ss[|ss| - 1] == s && Pause(s, s.(phase := Waiting(gate)))
    requires ResumeAnywhere(s.(phase := Waiting(gate)), s', ids)
    ensures IsOpenRun(ss + [s.(phase := Waiting(gate)), s'])
  {
    hide Pause, ResumeAnywhere, Init, SafetyStop, NothingReady, BatchStep;
    assert OpenNext(s, s.(phase := Waiting(gate)));
    assert OpenNext(s.(phase := Waiting(gate)), s');
  }

  lemma OneStepMore(ss: seq<State>, s': State)
    requires IsOpenRun(ss) && OpenNext(ss[|ss| - 1], s')
    ensures IsOpenRun(ss + [s'])
  {
    hide OpenNext, Init;
  }

  // ---------------------------------------------------------------- an agent below a gate nobody was asked about

  /** Two gates and an agent below the second. */
  const BREACH: map<Id, Node> := map["p" := Gate("p"), "q" := Gate("q"), "a" := Agent("a", ["q"])]

  function Breach(order: seq<Id>, completed: set<Id>): Graph {
    Graph(order, BREACH, [], completed, {})
  }

  lemma BreachDeps(order: seq<Id>, completed: set<Id>)
    ensures Deps(Breach(order, completed)) == map["p" := {}, "q" := {}, "a" := {"q"}]
  {
    var d := Deps(Breach(order, completed));
    assert EdgeSources([], "p") == {} && EdgeSources([], "q") == {} && EdgeSources([], "a") == {};
    assert d.Keys == {"p", "q", "a"} && d["p"] == {} && d["q"] == {} && d["a"] == {"q"};
  }

  lemma BreachValid(order: seq<Id>, completed: set<Id>)
    requires NoDup(order) && SetOf(order) == {"p", "q", "a"}
    ensures Valid(Breach(order, completed)) && WorkOk(Work(Breach(order, completed), [], 0, 0))
    ensures NamesOk(Breach(order, completed))
  {
    var g := Breach(order, completed);
    assert Mentions(g) <= {"p", "q", "a"};
    ShortNames(g);
  }

  lemma BreachFlat(x: Id, y: Id)
    ensures Flatten([[x, y]]) == [x, y] && Flatten([[x, y], ["a"]]) == [x, y, "a"]
    ensures Covered([]) == {} && Covered([[x, y]]) == {x, y} && Covered([[x, y], ["a"]]) == {x, y, "a"}
  {
    assert [[x, y], ["a"]][..1] == [[x, y]] && [[x, y]][..0] == [];
    assert Flatten([[x, y]]) == [x, y];
  }

  /** Either gate may come first in a fresh order. */
  lemma BreachOrder(order: seq<Id>, x: Id, y: Id)
    requires {x, y} == {"p", "q"}
    ensures IsOrdering(Breach(order, {}), [x, y, "a"])
  {
    var g, layers := Breach(order, {}), [[x, y], ["a"]];
    BreachDeps(order, {});
    BreachFlat(x, y);
    var d := Deps(g);
    hide Deps, Covered, Flatten;
    assert layers[..0] == [] && layers[..1] == [[x, y]];
    assert Unblocked(d, {"p", "q", "a"} - {}, {} + {}) == {"p", "q"};
    assert SetOf([x, y]) == {x, y};
    assert Unblocked(d, {"p", "q", "a"} - {x, y}, {} + {x, y}) == {"a"} == SetOf(["a"]);
  }

  lemma BreachEnd(order: seq<Id>)
    ensures IsOrdering(Breach(order, {"p", "q", "a"}), ["p", "q", "a"])
  {
    var g, layers := Breach(order, {"p", "q", "a"}), [["p", "q", "a"]];
    BreachDeps(order, {"p", "q", "a"});
    var d := Deps(g);
    hide Deps;
    assert layers[..0] == [] && Covered([]) == {};
    assert Flatten(layers) == ["p", "q", "a"];
    assert Unblocked(d, {"p", "q", "a"} - {}, {"p", "q", "a"} + {}) == {"p", "q", "a"} == SetOf(["p", "q", "a"]);
  }

  lemma ReadyFirst()
    ensures ReadyList(Breach(["p", "q", "a"], {})) == [Gate("p"), Gate("q")]
  {
    BreachDeps(["p", "q", "a"], {});
    AmongThree(Breach(["p", "q", "a"], {}), "p", "q", "a");
    TwoSorted(Gate("p"), Gate("q"));
    hide Deps, ReadyAmong;
  }

  lemma ReadyNext()
    ensures ReadyList(Breach(["p", "q", "a"], {"q"})) == [Gate("p"), Agent("a", ["q"])]
  {
    BreachDeps(["p", "q", "a"], {"q"});
    AmongThree(Breach(["p", "q", "a"], {"q"}), "p", "q", "a");
    TwoSorted(Gate("p"), Agent("a", ["q"]));
    hide Deps, ReadyAmong;
  }

  lemma ReadyLast()
    ensures ReadyList(Breach(["q", "p", "a"], {"p", "q"})) == [Agent("a", ["q"])]
  {
    BreachDeps(["q", "p", "a"], {"p", "q"});
    AmongThree(Breach(["q", "p", "a"], {"p", "q"}), "q", "p", "a");
    OneSorted(Agent("a", ["q"]));
    hide Deps, ReadyAmong;
  }

  function IfReady(g: Graph, n: Id): seq<Node> {
    if n in g.nodes && n in ReadyIds(g) then [g.nodes[n]] else []
  }

  lemma AmongThree(g: Graph, x: Id, y: Id, z: Id)
    ensures ReadyAmong(g, [x, y, z]) == IfReady(g, x) + IfReady(g, y) + IfReady(g, z)
  {
    hide ReadyIds;
    assert [x, y, z][..2] == [x, y] && [x, y][..1] == [x] && [x][..0] == [];
    assert ReadyAmong(g, [x]) == IfReady(g, x);
    assert ReadyAmong(g, [x, y]) == IfReady(g, x) + IfReady(g, y);
  }

  lemma BreachStart()
    ensures Init(Moment(BREACH, ["p", "q", "a"], {}, ["p", "q", "a"], [], {}, Running))
  {
    BreachValid(["p", "q", "a"], {}) by { assert SetOf(["p", "q", "a"]) == {"p", "q", "a"}; }
    BreachOrder(["p", "q", "a"], "p", "q");
    hide WorkOk, NamesOk, IsOrdering;
  }

  /** The first approval of p marks q ... */
  lemma FirstBreachResume()
    ensures ResumeAnywhere(Moment(BREACH, ["p", "q", "a"], {}, ["p", "q", "a"], [], {}, Waiting("p")),
                           Moment(BREACH, ["p", "q", "a"], {"q"}, ["q", "p", "a"], [["p"]], {"p"}, Running),
                           ["q", "p", "a"])
  {
    hide WorkOk, IsOrdering, ResumeAnywhere, NamesOk;
    assert SetOf(["p", "q", "a"]) == {"p", "q", "a"};
    BreachValid(["p", "q", "a"], {});
    BreachOrder(["p", "q", "a"], "q", "p");
    ResumesTo(BREACH, ["p", "q", "a"], {}, ["p", "q", "a"], [], {}, "p", ["q", "p", "a"]);
    assert ["q", "p", "a"][..1] == ["q"] && SetOf(["q"]) == {"q"} && {} + {"p"} == {"p"};
    assert [] + [["p"]] == [["p"]];
  }

  /** ... and the second marks both. */
  lemma SecondBreachResume()
    ensures ResumeAnywhere(Moment(BREACH, ["p", "q", "a"], {"q"}, ["q", "p", "a"], [["p"]], {"p"}, Waiting("p")),
                           Moment(BREACH, ["q", "p", "a"], {"p", "q"}, ["p", "q", "a"], [["p"], ["p"]], {"p"}, Running),
                           ["p", "q", "a"])
  {
    hide WorkOk, IsOrdering, ResumeAnywhere, NamesOk;
    assert SetOf(["p", "q", "a"]) == {"p", "q", "a"} == SetOf(["q", "p", "a"]);
    BreachValid(["p", "q", "a"], {"q"});
    BreachOrder(["q", "p", "a"], "p", "q");
    ResumesTo(BREACH, ["p", "q", "a"], {"q"}, ["q", "p", "a"], [["p"]], {"p"}, "p", ["p", "q", "a"]);
    assert ["p", "q", "a"][..2] == ["p", "q"] && SetOf(["p", "q"]) == {"p", "q"} && {"p"} + {"p"} == {"p"};
    assert [["p"]] + [["p"]] == [["p"], ["p"]];
  }

  lemma AgentProcessed()
    ensures ProcessAll(Work(Breach(["q", "p", "a"], {"p", "q"}), [], 0, 0), [Agent("a", ["q"])], PLANS)
         == Work(Breach(["q", "p", "a"], {"p", "q", "a"}), [], 0, 0)
  {
    assert [Agent("a", ["q"])][..0] == [];
    assert {"p", "q"} + {"a"} == {"p", "q", "a"};
  }

  lemma BreachBatch()
    ensures BatchStep(Moment(BREACH, ["q", "p", "a"], {"p", "q"}, ["p", "q", "a"], [["p"], ["p"]], {"p"}, Running),
                      Moment(BREACH, ["q", "p", "a"], {"p", "q", "a"}, ["p", "q", "a"], [["p"], ["p"], ["a"]], {"p"},
                          Running),
                      [Completed], ["a"], PLANS)
  {
    hide IsOrdering, ReadyList, ProcessAll, Breach;
    ReadyLast();
    BreachEnd(["q", "p", "a"]);
    AgentProcessed();
    BreachIs(["q", "p", "a"], {"p", "q"});
    BreachIs(["q", "p", "a"], {"p", "q", "a"});
    assert Ids([Agent("a", ["q"])]) == ["a"];
    assert GoodPrefix([Completed]) == 1;
    assert [["p"], ["p"]] + [["a"]] == [["p"], ["p"], ["a"]];
  }

  lemma BreachIs(order: seq<Id>, completed: set<Id>)
    ensures Breach(order, completed) == Graph(order, BREACH, [], completed, {})
  {
  }

  lemma BreachPauses()
    ensures Pause(Moment(BREACH, ["p", "q", "a"], {}, ["p", "q", "a"], [], {}, Running),
                  Moment(BREACH, ["p", "q", "a"], {}, ["p", "q", "a"], [], {}, Waiting("p")))
    ensures Pause(Moment(BREACH, ["p", "q", "a"], {"q"}, ["q", "p", "a"], [["p"]], {"p"}, Running),
                  Moment(BREACH, ["p", "q", "a"], {"q"}, ["q", "p", "a"], [["p"]], {"p"}, Waiting("p")))
  {
    ReadyFirst();
    ReadyNext();
    hide ReadyList;
  }

  /** The run pauses twice, both times at p, and then executes the agent below q, which nobody was asked about. */
  lemma ApprovalBreached() returns (ss: seq<State>)
    ensures IsOpenRun(ss) && |ss| == 6 && ss[5].batches == [["p"], ["p"], ["a"]]
    ensures forall i | 0 <= i < 6 :: ss[i].phase == Running || ss[i].phase == Waiting("p")
    ensures ss[5].w.g.nodes == BREACH && BREACH["q"].Approval() && DependsOn(Deps(ss[5].w.g), "a", "q")
    ensures "q" !in ss[5].granted
  {
    var s0 := Moment(BREACH, ["p", "q", "a"], {}, ["p", "q", "a"], [], {}, Running);
    var s2 := Moment(BREACH, ["p", "q", "a"], {"q"}, ["q", "p", "a"], [["p"]], {"p"}, Running);
    var s4 := Moment(BREACH, ["q", "p", "a"], {"p", "q"}, ["p", "q", "a"], [["p"], ["p"]], {"p"}, Running);
    var s5 := Moment(BREACH, ["q", "p", "a"], {"p", "q", "a"}, ["p", "q", "a"], [["p"], ["p"], ["a"]], {"p"}, Running);
    BreachStart();
    BreachPauses();
    FirstBreachResume();
    SecondBreachResume();
    BreachBatch();
    BreachDepends();
    hide Init, Pause, ResumeAnywhere, BatchStep, Deps, Breach;
    assert IsOpenRun([s0]);
    PauseThenResume([s0], s0, "p", ["q", "p", "a"], s2);
    ss := [s0] + [s0.(phase := Waiting("p")), s2];
    PauseThenResume(ss, s2, "p", ["p", "q", "a"], s4);
    ss := ss + [s2.(phase := Waiting("p")), s4];
    OneStepMore(ss, s5);
    ss := ss + [s5];
  }

  lemma BreachDepends()
    ensures DependsOn(Deps(Moment(BREACH, ["q", "p", "a"], {"p", "q", "a"}, ["p", "q", "a"],
                                  [["p"], ["p"], ["a"]], {"p"}, Running).w.g), "a", "q")
  {
    BreachDeps(["q", "p", "a"], {"p", "q", "a"});
    var d, c := Deps(Breach(["q", "p", "a"], {"p", "q", "a"})), ["q", "a"];
    assert Front(c) == ["q"] && Chain(d, ["q"]);
    assert Chain(d, c) && |c| > 1 && c[0] == "q" && Last(c) == "a";
  }

  // ---------------------------------------------------------------- an agent done without running

  /** A gate and an agent, side by side. */
  const SKIP: map<Id, Node> := map["g" := Gate("g"), "a" := Agent("a", [])]

  function Skip(order: seq<Id>, completed: set<Id>): Graph {
    Graph(order, SKIP, [], completed, {})
  }

  lemma SkipDeps(order: seq<Id>, completed: set<Id>)
    ensures Deps(Skip(order, completed)) == map["g" := {}, "a" := {}]
  {
    var d := Deps(Skip(order, completed));
    assert EdgeSources([], "g") == {} && EdgeSources([], "a") == {};
    assert d.Keys == {"g", "a"} && d["g"] == {} && d["a"] == {};
  }

  lemma SkipValid(order: seq<Id>, completed: set<Id>)
    requires NoDup(order) && SetOf(order) == {"g", "a"}
    ensures Valid(Skip(order, completed)) && WorkOk(Work(Skip(order, completed), [], 0, 0))
    ensures NamesOk(Skip(order, completed))
  {
    var g := Skip(order, completed);
    assert Mentions(g) <= {"g", "a"};
    ShortNames(g);
  }

  lemma SkipOrder(order: seq<Id>, x: Id, y: Id)
    requires {x, y} == {"g", "a"}
    ensures IsOrdering(Skip(order, {}), [x, y])
  {
    var g, layers := Skip(order, {}), [[x, y]];
    SkipDeps(order, {});
    var d := Deps(g);
    hide Deps;
    assert layers[..0] == [] && Covered([]) == {};
    assert Flatten(layers) == [x, y];
    assert Unblocked(d, {"g", "a"} - {}, {} + {}) == {"g", "a"};
    assert SetOf([x, y]) == {x, y};
  }

  lemma AmongTwo(g: Graph, x: Id, y: Id)
    ensures ReadyAmong(g, [x, y]) == IfReady(g, x) + IfReady(g, y)
  {
    hide ReadyIds;
    assert [x, y][..1] == [x] && [x][..0] == [];
    assert ReadyAmong(g, [x]) == IfReady(g, x);
  }

  lemma SkipReady()
    ensures ReadyList(Skip(["g", "a"], {})) == [Gate("g"), Agent("a", [])]
    ensures ReadyList(Skip(["g", "a"], {"a"})) == [Gate("g")]
    ensures ReadyList(Skip(["a", "g"], {"g", "a"})) == []
  {
    SkipDeps(["g", "a"], {});
    SkipDeps(["g", "a"], {"a"});
    SkipDeps(["a", "g"], {"g", "a"});
    AmongTwo(Skip(["g", "a"], {}), "g", "a");
    AmongTwo(Skip(["g", "a"], {"a"}), "g", "a");
    AmongTwo(Skip(["a", "g"], {"g", "a"}), "a", "g");
    TwoSorted(Gate("g"), Agent("a", []));
    OneSorted(Gate("g"));
    hide Deps, ReadyAmong;
  }

  lemma SkipStart()
    ensures Init(Moment(SKIP, ["g", "a"], {}, ["g", "a"], [], {}, Running))
  {
    SkipValid(["g", "a"], {}) by { assert SetOf(["g", "a"]) == {"g", "a"}; }
    SkipOrder(["g", "a"], "g", "a");
    hide WorkOk, NamesOk, IsOrdering;
  }

  lemma SkipPauses()
    ensures Pause(Moment(SKIP, ["g", "a"], {}, ["g", "a"], [], {}, Running),
                  Moment(SKIP, ["g", "a"], {}, ["g", "a"], [], {}, Waiting("g")))
    ensures Pause(Moment(SKIP, ["g", "a"], {"a"}, ["a", "g"], [["g"]], {"g"}, Running),
                  Moment(SKIP, ["g", "a"], {"a"}, ["a", "g"], [["g"]], {"g"}, Waiting("g")))
    ensures NothingReady(Moment(SKIP, ["a", "g"], {"g", "a"}, ["g", "a"], [["g"], ["g"]], {"g"}, Running),
                         Moment(SKIP, ["a", "g"], {"g", "a"}, ["g", "a"], [["g"], ["g"]], {"g"}, Finished(Completed)))
  {
    SkipReady();
    hide ReadyList;
  }

  lemma FirstSkipResume()
    ensures ResumeAnywhere(Moment(SKIP, ["g", "a"], {}, ["g", "a"], [], {}, Waiting("g")),
                           Moment(SKIP, ["g", "a"], {"a"}, ["a", "g"], [["g"]], {"g"}, Running), ["a", "g"])
  {
    hide WorkOk, IsOrdering, ResumeAnywhere, NamesOk;
    assert SetOf(["g", "a"]) == {"g", "a"};
    SkipValid(["g", "a"], {});
    SkipOrder(["g", "a"], "a", "g");
    ResumesTo(SKIP, ["g", "a"], {}, ["g", "a"], [], {}, "g", ["a", "g"]);
    assert ["a", "g"][..1] == ["a"] && SetOf(["a"]) == {"a"} && {} + {"g"} == {"g"};
    assert [] + [["g"]] == [["g"]];
  }

  lemma SecondSkipResume()
    ensures ResumeAnywhere(Moment(SKIP, ["g", "a"], {"a"}, ["a", "g"], [["g"]], {"g"}, Waiting("g")),
                           Moment(SKIP, ["a", "g"], {"g", "a"}, ["g", "a"], [["g"], ["g"]], {"g"}, Running), ["g", "a"])
  {
    hide WorkOk, IsOrdering, ResumeAnywhere, NamesOk;
    assert SetOf(["g", "a"]) == {"g", "a"} == SetOf(["a", "g"]);
    SkipValid(["g", "a"], {"a"});
    SkipOrder(["a", "g"], "g", "a");
    ResumesTo(SKIP, ["g", "a"], {"a"}, ["a", "g"], [["g"]], {"g"}, "g", ["g", "a"]);
    assert ["g", "a"][..2] == ["g", "a"] && {"g"} + {"g"} == {"g"};
    assert [["g"]] + [["g"]] == [["g"], ["g"]];
  }

  /** The run asks about the gate twice and ends completed; the agent counts as done and never ran. */
  lemma AgentSkipped() returns (ss: seq<State>)
    ensures IsOpenRun(ss) && |ss| == 6 && ss[5].phase == Finished(Completed)
    ensures ss[5].w.g.completed == {"g", "a"} == ss[5].w.g.nodes.Keys && !SKIP["a"].Approval()
    ensures History(ss[5]) == ["g", "g"]
  {
    var s0 := Moment(SKIP, ["g", "a"], {}, ["g", "a"], [], {}, Running);
    var s2 := Moment(SKIP, ["g", "a"], {"a"}, ["a", "g"], [["g"]], {"g"}, Running);
    var s4 := Moment(SKIP, ["a", "g"], {"g", "a"}, ["g", "a"], [["g"], ["g"]], {"g"}, Running);
    SkipStart();
    SkipPauses();
    FirstSkipResume();
    SecondSkipResume();
    SkipHistory();
    hide Init, Pause, ResumeAnywhere, BatchStep, NothingReady, Deps, History;
    assert IsOpenRun([s0]);
    PauseThenResume([s0], s0, "g", ["a", "g"], s2);
    ss := [s0] + [s0.(phase := Waiting("g")), s2];
    PauseThenResume(ss, s2, "g", ["g", "a"], s4);
    ss := ss + [s2.(phase := Waiting("g")), s4];
    OneStepMore(ss, s4.(phase := Finished(Completed)));
    ss := ss + [s4.(phase := Finished(Completed))];
  }

  lemma SkipHistory()
    ensures History(Moment(SKIP, ["a", "g"], {"g", "a"}, ["g", "a"], [["g"], ["g"]], {"g"}, Finished(Completed)))
        == ["g", "g"]
  {
    assert [["g"], ["g"]][..1] == [["g"]] && [["g"]][..0] == [];
    assert Flatten([["g"]]) == ["g"];
  }
}
