/** `run_tree_of_thought_async`: bounded expansion of reasoning branches, level by level.  A branch is
    named by its place in `all_branches`; scores are real numbers; `levels` stands for `MAX_TOT_DEPTH`.
    The cap of four children a parent never bites, as `_expand_branch` makes two. */
module TreeOfThought {
  import opened Wrappers

  const PRUNE_THRESHOLD: real := 0.25
  const EVIDENCE_DELTA: real := 0.05
  const RISK_DELTA: real := -0.02

  datatype Branch = Branch(parent: Option<nat>, depth: nat, score: real, pruned: bool, children: seq<nat>)

  function ChildScore(score: real, delta: real): real {
    var capped := if score + delta < 0.95 then score + delta else 0.95;
    if capped > 0.0 then capped else 0.0
  }

  /** The two children score 0.05 more and 0.02 less than their parent, kept between 0 and 0.95. */
  lemma {:induction false} ChildScores(score: real)
    ensures var up, down := ChildScore(score, EVIDENCE_DELTA), ChildScore(score, RISK_DELTA);
      && 0.0 <= down <= up <= 0.95
      && (-0.05 <= score <= 0.9 ==> up == score + 0.05) && (score > 0.9 ==> up == 0.95)
      && (0.02 <= score <= 0.97 ==> down == score - 0.02) && (score < 0.02 ==> down == 0.0)
  {
  }

  // ---------------------------------------------------------------- the ideal tree

  /** Branches below and including one of this score, with `levels` levels to go. */
  function TreeSize(score: real, levels: nat): (size: nat)
    decreases levels
  {
    if levels <= 1 || score < PRUNE_THRESHOLD then 1
    else
      1 + TreeSize(ChildScore(score, EVIDENCE_DELTA), levels - 1)
      + TreeSize(ChildScore(score, RISK_DELTA), levels - 1)
  }

  function Pow2(n: nat): (r: nat)
    ensures r >= 1
  {
    if n == 0 then 1 else 2 * Pow2(n - 1)
  }

  /** A tree never exceeds the full binary tree, and reaches it exactly when the score is high enough to
      survive a risk pass on every level but the last two. */
  lemma {:induction false} FullTreeIff(score: real, levels: nat)
    requires levels >= 1 && score <= 0.95
    ensures TreeSize(score, levels) <= Pow2(levels) - 1
    ensures TreeSize(score, levels) == Pow2(levels) - 1
       <==> levels == 1 || score >= 0.25 + 0.02 * (levels - 2) as real
    decreases levels
  {
    if levels > 1 {
      if score >= PRUNE_THRESHOLD {
        var up, down := ChildScore(score, EVIDENCE_DELTA), ChildScore(score, RISK_DELTA);
        FullTreeIff(up, levels - 1);
        FullTreeIff(down, levels - 1);
        assert levels > 2 ==> (levels - 2) as real == (levels - 3) as real + 1.0;
      } else {
        assert (levels - 2) as real >= 0.0;
        assert Pow2(levels) == 2 * Pow2(levels - 1);
      }
    }
  }

  function RootSizes(roots: seq<real>, levels: nat): nat {
    if roots == [] then 0 else TreeSize(roots[0], levels) + RootSizes(roots[1..], levels)
  }

  /** Over all roots: at most (2^levels - 1) branches each, with equality exactly when every root is high enough. */
  lemma {:induction false} ForestSize(roots: seq<real>, levels: nat)
    requires levels >= 1 && forall k | 0 <= k < |roots| :: roots[k] <= 0.95
    ensures RootSizes(roots, levels) <= |roots| * (Pow2(levels) - 1)
    ensures RootSizes(roots, levels) == |roots| * (Pow2(levels) - 1)
       <==> levels == 1 || forall k | 0 <= k < |roots| :: roots[k] >= 0.25 + 0.02 * (levels - 2) as real
  {
    if roots != [] {
      FullTreeIff(roots[0], levels);
      ForestSize(roots[1..], levels);
      assert forall k | 1 <= k < |roots| :: roots[k] == roots[1..][k - 1];
      assert |roots| * (Pow2(levels) - 1) == (|roots| - 1) * (Pow2(levels) - 1) + (Pow2(levels) - 1);
    }
  }

  // ---------------------------------------------------------------- the forest

  /** The two children of branch p, in order. */
  ghost predicate ChildrenOf(all: seq<Branch>, p: nat)
    requires p < |all|
  {
    var b := all[p];
    b.children != [] ==>
      && |b.children| == 2 && b.children[1] == b.children[0] + 1 && p < b.children[0] && b.children[1] < |all|
      && all[b.children[0]].parent == Some(p) && all[b.children[1]].parent == Some(p)
      && all[b.children[0]].score == ChildScore(b.score, EVIDENCE_DELTA)
      && all[b.children[1]].score == ChildScore(b.score, RISK_DELTA)
  }

  ghost predicate Linked(all: seq<Branch>, roots: seq<real>, i: nat)
    requires i < |all|
  {
    if i < |roots| then all[i].parent == None && all[i].depth == 0 && all[i].score == roots[i]
    else
      all[i].parent.Some? && var p := all[i].parent.value;
      p < i && all[i].depth == all[p].depth + 1 && i in all[p].children
  }

  /** Roots first; every other branch is one level below its parent; parent ids and child lists agree. */
  ghost predicate Forest(all: seq<Branch>, roots: seq<real>) {
    && |roots| <= |all|
    && (forall i: nat | i < |all| :: Linked(all, roots, i))
    && (forall p: nat | p < |all| :: ChildrenOf(all, p))
  }

  /** A branch that will not be visited again: it has children exactly when its score and depth allow, and
      it is marked pruned only as a root below the threshold. */
  ghost predicate Visited(b: Branch, levels: nat) {
    && (b.children != [] <==> b.score >= PRUNE_THRESHOLD && b.depth + 1 < levels)
    && (b.pruned <==> b.depth == 0 && b.score < PRUNE_THRESHOLD)
    && b.depth < levels
  }

  /** A branch on a frontier.  Only a root may still be below the threshold. */
  ghost predicate Waiting(b: Branch, depth: nat) {
    b.children == [] && !b.pruned && b.depth == depth && (depth > 0 ==> b.score >= PRUNE_THRESHOLD)
  }

  ghost predicate Pending(all: seq<Branch>, waiting: seq<nat>, depth: nat) {
    && (forall k | 0 <= k < |waiting| :: waiting[k] < |all| && Waiting(all[waiting[k]], depth))
    && (forall a, b | 0 <= a < b < |waiting| :: waiting[a] < waiting[b])
  }

  ghost predicate Done(all: seq<Branch>, levels: nat, current: seq<nat>, next: seq<nat>) {
    forall i: nat | i < |all| && i !in current && i !in next :: Visited(all[i], levels)
  }

  ghost predicate Within(all: seq<Branch>, waiting: seq<nat>) {
    forall k | 0 <= k < |waiting| :: waiting[k] < |all|
  }

  /** Branches still to come below the waiting ones, which have `levels` levels to go. */
  ghost function Owed(all: seq<Branch>, waiting: seq<nat>, levels: nat): int
    requires Within(all, waiting)
  {
    if waiting == [] then 0
    else TreeSize(all[waiting[0]].score, levels) - 1 + Owed(all, waiting[1..], levels)
  }

  lemma {:induction false} OwedFrame(all: seq<Branch>, more: seq<Branch>, waiting: seq<nat>, levels: nat)
    requires |all| <= |more| && Within(all, waiting)
    requires forall i | 0 <= i < |all| :: more[i].score == all[i].score
    ensures Owed(more, waiting, levels) == Owed(all, waiting, levels)
  {
    if waiting != [] { OwedFrame(all, more, waiting[1..], levels); }
  }

  lemma {:induction false} OwedAppend(all: seq<Branch>, waiting: seq<nat>, last: nat, levels: nat)
    requires last < |all| && Within(all, waiting)
    ensures Within(all, waiting + [last])
    ensures Owed(all, waiting + [last], levels) == Owed(all, waiting, levels) + TreeSize(all[last].score, levels) - 1
  {
    if waiting != [] {
      OwedAppend(all, waiting[1..], last, levels);
      assert (waiting + [last])[1..] == waiting[1..] + [last];
    }
  }

  // ---------------------------------------------------------------- one visit

  function Child(parent: nat, score: real, delta: real, depth: nat): Branch {
    Branch(Some(parent), depth, ChildScore(score, delta), false, [])
  }

  /** The branches after parent p has been given its two children. */
  function Expanded(all: seq<Branch>, p: nat, depth: nat): (more: seq<Branch>)
    requires p < |all|
    ensures |more| == |all| + 2
  {
    all[p := all[p].(children := [|all|, |all| + 1])]
      + [Child(p, all[p].score, EVIDENCE_DELTA, depth), Child(p, all[p].score, RISK_DELTA, depth)]
  }

  lemma ExpandedLinked(all: seq<Branch>, roots: seq<real>, p: nat, depth: nat, i: nat)
    requires p < |all| && Forest(all, roots) && all[p].children == [] && depth == all[p].depth + 1 && i < |all| + 2
    ensures Linked(Expanded(all, p, depth), roots, i)
  {
    if i < |all| { assert Linked(all, roots, i); }
  }

  lemma ExpandedChildren(all: seq<Branch>, roots: seq<real>, p: nat, depth: nat, i: nat)
    requires p < |all| && Forest(all, roots) && i < |all| + 2
    ensures ChildrenOf(Expanded(all, p, depth), i)
  {
    if i < |all| { assert ChildrenOf(all, i); }
  }

  lemma ExpandedForest(all: seq<Branch>, roots: seq<real>, p: nat, depth: nat)
    requires p < |all| && Forest(all, roots) && all[p].children == [] && depth == all[p].depth + 1
    ensures Forest(Expanded(all, p, depth), roots)
  {
    hide Linked, ChildrenOf, Expanded;
    var more := Expanded(all, p, depth);
    forall i: nat | i < |more| ensures Linked(more, roots, i) && ChildrenOf(more, i) {
      ExpandedLinked(all, roots, p, depth, i);
      ExpandedChildren(all, roots, p, depth, i);
    }
  }

  /** Marking a root pruned leaves the forest as it was. */
  lemma PrunedForest(all: seq<Branch>, roots: seq<real>, p: nat, mark: bool)
    requires p < |all| && Forest(all, roots)
    ensures Forest(all[p := all[p].(pruned := mark)], roots)
  {
    var more := all[p := all[p].(pruned := mark)];
    forall i: nat | i < |more| ensures Linked(more, roots, i) { assert Linked(all, roots, i); }
    forall i: nat | i < |more| ensures ChildrenOf(more, i) { assert ChildrenOf(all, i); }
  }

  /** Children come in the order of their parents. */
  ghost predicate BreadthFirst(all: seq<Branch>) {
    forall i, j | 0 <= i < j < |all| && all[i].parent.Some? && all[j].parent.Some? ::
      all[i].parent.value <= all[j].parent.value
  }

  /** The branches still to be visited stand in order, behind every parent so far. */
  ghost predicate InOrder(all: seq<Branch>, queue: seq<nat>) {
    && BreadthFirst(all)
    && (forall a, b | 0 <= a < b < |queue| :: queue[a] < queue[b])
    && (forall k | 0 <= k < |queue| :: queue[k] < |all|)
    && (forall i, k | 0 <= i < |all| && all[i].parent.Some? && 0 <= k < |queue| :: all[i].parent.value < queue[k])
  }

  lemma {:induction false} OrderPrunes(all: seq<Branch>, queue: seq<nat>)
    requires queue != [] && InOrder(all, queue)
    ensures InOrder(all[queue[0] := all[queue[0]].(pruned := true)], queue[1..])
  {
  }

  lemma {:induction false} OrderExpands(all: seq<Branch>, queue: seq<nat>, depth: nat)
    requires queue != [] && InOrder(all, queue)
    ensures InOrder(Expanded(all, queue[0], depth), queue[1..] + Kept(Expansion(all, queue[0], depth), |all|))
  {
    hide ChildScore, Kept;
    var p := queue[0];
    var c := Expansion(all, p, depth);
    KeptTwo(c[0], c[1], |all|);
    var kept, more := Kept(c, |all|), Expanded(all, p, depth);
    var queue' := queue[1..] + kept;
    assert c == [c[0], c[1]];
    assert forall k | 0 <= k < |kept| :: |all| <= kept[k] < |all| + 2;
    assert forall i | 0 <= i < |all| :: more[i].parent == all[i].parent;
    assert more[|all|].parent == Some(p) && more[|all| + 1].parent == Some(p);
  }

  /** Where one level of the loop stands: `rest` is what is left of the current frontier, `next` what has
      been put on the next one, and the branches made plus the branches owed are what the roots are due. */
  ghost predicate LevelInv(all: seq<Branch>, roots: seq<real>, levels: nat, depth: nat, rest: seq<nat>,
                           next: seq<nat>) {
    && 1 <= depth <= levels
    && Forest(all, roots) && Pending(all, rest, depth - 1) && Pending(all, next, depth)
    && Done(all, levels, rest, next) && Within(all, rest) && Within(all, next)
    && |all| + Owed(all, rest, levels - depth + 1) + Owed(all, next, levels - depth) == RootSizes(roots, levels)
  }

  /** The children that go on to the next frontier. */
  function Kept(children: seq<Branch>, base: nat): seq<nat> {
    if children == [] then []
    else Kept(children[..|children| - 1], base)
         + (if children[|children| - 1].score >= PRUNE_THRESHOLD then [base + |children| - 1] else [])
  }

  function Expansion(all: seq<Branch>, p: nat, depth: nat): seq<Branch>
    requires p < |all|
  {
    [Child(p, all[p].score, EVIDENCE_DELTA, depth), Child(p, all[p].score, RISK_DELTA, depth)]
  }

  lemma KeptTwo(c: Branch, d: Branch, base: nat)
    ensures Kept([c, d], base)
         == (if c.score >= PRUNE_THRESHOLD then [base] else [])
            + (if d.score >= PRUNE_THRESHOLD then [base + 1] else [])
  {
    assert [c, d][..1] == [c] && [c][..0] == [];
    assert Kept([], base) == [];
    assert Kept([c], base) == if c.score >= PRUNE_THRESHOLD then [base] else [];
    assert [c, d][1] == d;
  }

  lemma ExpandedPending(all: seq<Branch>, p: nat, depth: nat, waiting: seq<nat>, level: nat)
    requires p < |all| && Pending(all, waiting, level) && p !in waiting
    ensures Pending(Expanded(all, p, depth), waiting, level)
  {
    forall k | 0 <= k < |waiting| ensures waiting[k] < |all| && Expanded(all, p, depth)[waiting[k]] == all[waiting[k]] {
      assert waiting[k] in waiting;
    }
  }

  function WithKept(waiting: seq<nat>, child: Branch, i: nat): seq<nat> {
    if child.score >= PRUNE_THRESHOLD then waiting + [i] else waiting
  }

  /** The next frontier after both children of p have been looked at, one after the other. */
  lemma KeptInTurn(all: seq<Branch>, p: nat, depth: nat, next: seq<nat>)
    requires p < |all|
    ensures var more, n := Expanded(all, p, depth), |all|;
      && more[n] == Child(p, all[p].score, EVIDENCE_DELTA, depth)
      && more[n + 1] == Child(p, all[p].score, RISK_DELTA, depth)
      && next + Kept(Expansion(all, p, depth), n) == WithKept(WithKept(next, more[n], n), more[n + 1], n + 1)
  {
    hide Kept, ChildScore;
    KeptTwo(Expansion(all, p, depth)[0], Expansion(all, p, depth)[1], |all|);
  }

  lemma PendingSnoc(all: seq<Branch>, waiting: seq<nat>, i: nat, depth: nat)
    requires Pending(all, waiting, depth) && i < |all|
    requires all[i].score >= PRUNE_THRESHOLD ==> Waiting(all[i], depth)
    requires forall k | 0 <= k < |waiting| :: waiting[k] < i
    ensures Pending(all, WithKept(waiting, all[i], i), depth)
    ensures forall k | 0 <= k < |WithKept(waiting, all[i], i)| :: WithKept(waiting, all[i], i)[k] < i + 1
  {
  }

  lemma PendingWithin(all: seq<Branch>, waiting: seq<nat>, depth: nat)
    requires Pending(all, waiting, depth)
    ensures Within(all, waiting)
  {
  }

  lemma KeptPending(all: seq<Branch>, p: nat, depth: nat, next: seq<nat>)
    requires p < |all| && depth >= 1 && Pending(all, next, depth) && p !in next
    ensures Pending(Expanded(all, p, depth), next + Kept(Expansion(all, p, depth), |all|), depth)
  {
    hide Kept, ChildScore, Expanded, Expansion, WithKept, Pending;
    ExpandedPending(all, p, depth, next, depth);
    PendingWithin(all, next, depth);
    var more, n := Expanded(all, p, depth), |all|;
    KeptInTurn(all, p, depth, next);
    PendingSnoc(more, next, n, depth);
    PendingSnoc(more, WithKept(next, more[n], n), n + 1, depth);
  }

  lemma {:induction false} VisitDone(all: seq<Branch>, levels: nat, depth: nat, rest: seq<nat>, next: seq<nat>)
    requires 1 <= depth < levels && rest != [] && rest[0] < |all|
    requires Done(all, levels, rest, next) && Waiting(all[rest[0]], depth - 1)
    requires all[rest[0]].score >= PRUNE_THRESHOLD
    ensures var p := rest[0];
      Done(Expanded(all, p, depth), levels, rest[1..], next + Kept(Expansion(all, p, depth), |all|))
  {
    hide Kept, ChildScore, Expanded;
    var p := rest[0];
    var more, kept := Expanded(all, p, depth), Kept(Expansion(all, p, depth), |all|);
    forall i: nat | i < |more| && i !in rest[1..] && i !in next + kept ensures Visited(more[i], levels) {
      if i < |all| {
        assert i != p ==> i !in rest;
        assert i !in next;
        OldVisited(all, levels, depth, p, i);
      } else {
        NewVisited(all, levels, depth, p, i);
      }
    }
  }

  lemma {:induction false} OldVisited(all: seq<Branch>, levels: nat, depth: nat, p: nat, i: nat)
    requires 1 <= depth < levels && p < |all| && Waiting(all[p], depth - 1) && all[p].score >= PRUNE_THRESHOLD
    requires i < |all| && (i != p ==> Visited(all[i], levels))
    ensures Visited(Expanded(all, p, depth)[i], levels)
  {
    hide ChildScore;
  }

  lemma {:induction false} NewVisited(all: seq<Branch>, levels: nat, depth: nat, p: nat, i: nat)
    requires 1 <= depth < levels && p < |all| && |all| <= i < |all| + 2
    requires i !in Kept(Expansion(all, p, depth), |all|)
    ensures Visited(Expanded(all, p, depth)[i], levels)
  {
    hide Kept, ChildScore;
    var up, down := Expansion(all, p, depth)[0], Expansion(all, p, depth)[1];
    assert Expansion(all, p, depth) == [up, down];
    KeptTwo(up, down, |all|);
    assert Expanded(all, p, depth)[i] == if i == |all| then up else down;
    assert i in [i];
  }

  lemma LowIsLeaf(score: real, levels: nat)
    ensures score < PRUNE_THRESHOLD ==> TreeSize(score, levels) == 1
  {
  }

  lemma TreeSizeStep(score: real, levels: nat)
    requires score >= PRUNE_THRESHOLD && levels >= 1
    ensures TreeSize(score, levels + 1)
         == 1 + TreeSize(ChildScore(score, EVIDENCE_DELTA), levels) + TreeSize(ChildScore(score, RISK_DELTA), levels)
  {
  }

  lemma OwedSnoc(all: seq<Branch>, waiting: seq<nat>, i: nat, levels: nat)
    requires i < |all| && Within(all, waiting)
    ensures var more := WithKept(waiting, all[i], i);
      Within(all, more) && Owed(all, more, levels) == Owed(all, waiting, levels) + TreeSize(all[i].score, levels) - 1
  {
    hide TreeSize, Owed;
    LowIsLeaf(all[i].score, levels);
    if all[i].score >= PRUNE_THRESHOLD { OwedAppend(all, waiting, i, levels); }
  }

  lemma VisitOwed(all: seq<Branch>, p: nat, depth: nat, levels: nat, next: seq<nat>)
    requires p < |all| && Within(all, next) && 1 <= depth < levels && all[p].score >= PRUNE_THRESHOLD
    ensures var more, kept := Expanded(all, p, depth), Kept(Expansion(all, p, depth), |all|);
      && Within(more, next + kept)
      && Owed(more, next + kept, levels - depth) == Owed(all, next, levels - depth)
          + TreeSize(all[p].score, levels - depth + 1) - 3
  {
    hide TreeSize, Owed, Kept, ChildScore, Expanded, Expansion, WithKept;
    var more, n, togo := Expanded(all, p, depth), |all|, levels - depth;
    KeptInTurn(all, p, depth, next);
    TreeSizeStep(all[p].score, togo);
    ExpandedScores(all, p, depth);
    OwedFrame(all, more, next, togo);
    OwedSnoc(more, next, n, togo);
    OwedSnoc(more, WithKept(next, more[n], n), n + 1, togo);
  }

  lemma FirstWaiting(all: seq<Branch>, rest: seq<nat>, next: seq<nat>, depth: nat)
    requires depth >= 1 && rest != [] && Pending(all, rest, depth - 1) && Pending(all, next, depth)
    ensures rest[0] < |all| && Waiting(all[rest[0]], depth - 1) && rest[0] !in next
    ensures rest[0] !in rest[1..] && Pending(all, rest[1..], depth - 1)
  {
    assert Waiting(all[rest[0]], depth - 1);
    forall k | 0 <= k < |next| ensures next[k] != rest[0] { assert Waiting(all[next[k]], depth); }
    forall k | 0 <= k < |rest[1..]| ensures rest[1..][k] != rest[0] { assert rest[1..][k] == rest[k + 1]; }
  }

  lemma FirstOwed(all: seq<Branch>, more: seq<Branch>, rest: seq<nat>, levels: nat)
    requires rest != [] && Within(all, rest) && |all| <= |more|
    requires forall i | 0 <= i < |all| :: more[i].score == all[i].score
    ensures Within(more, rest[1..])
    ensures Owed(all, rest, levels) == TreeSize(all[rest[0]].score, levels) - 1 + Owed(more, rest[1..], levels)
  {
    OwedFrame(all, more, rest[1..], levels);
  }

  lemma ExpandedScores(all: seq<Branch>, p: nat, depth: nat)
    requires p < |all|
    ensures forall i | 0 <= i < |all| :: Expanded(all, p, depth)[i].score == all[i].score
  {
  }

  /** Expanding the first branch of the frontier keeps the accounts. */
  lemma VisitExpands(all: seq<Branch>, roots: seq<real>, levels: nat, depth: nat, rest: seq<nat>, next: seq<nat>)
    requires LevelInv(all, roots, levels, depth, rest, next) && rest != [] && depth < levels
    requires all[rest[0]].score >= PRUNE_THRESHOLD
    ensures var p := rest[0];
      LevelInv(Expanded(all, p, depth), roots, levels, depth, rest[1..], next + Kept(Expansion(all, p, depth), |all|))
  {
    hide Forest, Done, Kept, Expansion, Expanded, TreeSize, RootSizes, Pending, Owed;
    var p := rest[0];
    FirstWaiting(all, rest, next, depth);
    ExpandedForest(all, roots, p, depth);
    ExpandedPending(all, p, depth, rest[1..], depth - 1);
    KeptPending(all, p, depth, next);
    VisitDone(all, levels, depth, rest, next);
    VisitOwed(all, p, depth, levels, next);
    ExpandedScores(all, p, depth);
    FirstOwed(all, Expanded(all, p, depth), rest, levels - depth + 1);
  }

  lemma MarkedPending(all: seq<Branch>, p: nat, waiting: seq<nat>, level: nat)
    requires p < |all| && Pending(all, waiting, level) && p !in waiting
    ensures Pending(all[p := all[p].(pruned := true)], waiting, level)
  {
    forall k | 0 <= k < |waiting| ensures waiting[k] != p { assert waiting[k] in waiting; }
  }

  lemma MarkedDone(all: seq<Branch>, levels: nat, depth: nat, rest: seq<nat>, next: seq<nat>)
    requires 1 <= depth < levels && rest != [] && rest[0] < |all|
    requires Done(all, levels, rest, next) && Waiting(all[rest[0]], depth - 1)
    requires all[rest[0]].score < PRUNE_THRESHOLD
    ensures Done(all[rest[0] := all[rest[0]].(pruned := true)], levels, rest[1..], next)
  {
    var p := rest[0];
    var more := all[p := all[p].(pruned := true)];
    forall i: nat | i < |more| && i !in rest[1..] && i !in next ensures Visited(more[i], levels) {
      assert i != p ==> i !in rest;
    }
  }

  lemma MarkedScores(all: seq<Branch>, p: nat)
    requires p < |all|
    ensures forall i | 0 <= i < |all| :: all[p := all[p].(pruned := true)][i].score == all[i].score
  {
  }

  /** Marking a root below the threshold keeps the accounts. */
  lemma VisitPrunes(all: seq<Branch>, roots: seq<real>, levels: nat, depth: nat, rest: seq<nat>, next: seq<nat>)
    requires LevelInv(all, roots, levels, depth, rest, next) && rest != [] && depth < levels
    requires all[rest[0]].score < PRUNE_THRESHOLD
    ensures var p := rest[0];
      LevelInv(all[p := all[p].(pruned := true)], roots, levels, depth, rest[1..], next)
  {
    hide Forest, Done, TreeSize, RootSizes, Pending, Owed;
    var p := rest[0];
    FirstWaiting(all, rest, next, depth);
    PrunedForest(all, roots, p, true);
    MarkedPending(all, p, rest[1..], depth - 1);
    MarkedPending(all, p, next, depth);
    MarkedDone(all, levels, depth, rest, next);
    MarkedScores(all, p);
    LowIsLeaf(all[p].score, levels - depth + 1);
    FirstOwed(all, all[p := all[p].(pruned := true)], rest, levels - depth + 1);
    OwedFrame(all, all[p := all[p].(pruned := true)], next, levels - depth);
  }

  // ---------------------------------------------------------------- the run

  /** `_expand_branch`: an evidence pass and a risk pass. */
  method ExpandBranch(parent: Branch, p: nat, depth: nat) returns (children: seq<Branch>)
    ensures children == [Child(p, parent.score, EVIDENCE_DELTA, depth), Child(p, parent.score, RISK_DELTA, depth)]
  {
    hide ChildScore;
    var refinements := [EVIDENCE_DELTA, RISK_DELTA];
    children := [];
    for i := 0 to |refinements|
      invariant |children| == i
      invariant forall k | 0 <= k < i :: children[k] == Child(p, parent.score, refinements[k], depth)
    {
      children := children + [Child(p, parent.score, refinements[i], depth)];
    }
  }

  function Ids(start: nat, count: nat): (r: seq<nat>)
    ensures |r| == count && forall k | 0 <= k < count :: r[k] == start + k
  {
    seq(count, (k: nat) => start + k)
  }

  /** Parent p with the first of its children already attached. */
  function Attached(all: seq<Branch>, p: nat, children: seq<Branch>): (more: seq<Branch>)
    requires p < |all|
    ensures |more| == |all| + |children|
  {
    all[p := all[p].(children := Ids(|all|, |children|))] + children
  }

  /** The inner loop: each child is listed by its parent, recorded, and kept for the next level if its score
      is high enough. */
  method AttachChildren(all: seq<Branch>, p: nat, children: seq<Branch>, next: seq<nat>)
    returns (more: seq<Branch>, kept: seq<nat>)
    requires p < |all| && all[p].children == []
    ensures more == Attached(all, p, children)
    ensures kept == next + Kept(children, |all|)
  {
    more, kept := all, next;
    assert Ids(|all|, 0) == [] && all[p].(children := []) == all[p];
    assert children[..0] == [];
    for i := 0 to |children|
      invariant more == Attached(all, p, children[..i])
      invariant kept == next + Kept(children[..i], |all|)
    {
      assert children[..i + 1][..i] == children[..i];
      assert Ids(|all|, i + 1) == Ids(|all|, i) + [|all| + i];
      var id := |more|;
      more := more[p := more[p].(children := more[p].children + [id])];
      more := more + [children[i]];
      if children[i].score >= PRUNE_THRESHOLD { kept := kept + [id]; }
    }
    assert children[..|children|] == children;
  }

  method VisitBranch(all: seq<Branch>, p: nat, depth: nat, next: seq<nat>) returns (more: seq<Branch>, kept: seq<nat>)
    requires p < |all| && all[p].children == []
    ensures all[p].score < PRUNE_THRESHOLD ==> more == all[p := all[p].(pruned := true)] && kept == next
    ensures all[p].score >= PRUNE_THRESHOLD ==>
      more == Expanded(all, p, depth) && kept == next + Kept(Expansion(all, p, depth), |all|)
  {
    hide Kept, ChildScore;
    if all[p].score < PRUNE_THRESHOLD {
      return all[p := all[p].(pruned := true)], next;
    }
    var children := ExpandBranch(all[p], p, depth);
    more, kept := AttachChildren(all, p, children, next);
    assert more == Expanded(all, p, depth) by {
      assert Ids(|all|, 2) == [|all|, |all| + 1];
    }
  }

  /** One level: every branch of the current frontier is visited in order. */
  method ExpandLevel(all: seq<Branch>, ghost roots: seq<real>, ghost levels: nat, current: seq<nat>, depth: nat)
    returns (more: seq<Branch>, next: seq<nat>)
    requires depth < levels && LevelInv(all, roots, levels, depth, current, []) && InOrder(all, current)
    ensures LevelInv(more, roots, levels, depth, [], next) && InOrder(more, next)
  {
    hide LevelInv, Kept, Expansion, Expanded, InOrder;
    more, next := all, [];
    assert current[0..] == current;
    assert current + [] == current;
    for i := 0 to |current|
      invariant LevelInv(more, roots, levels, depth, current[i..], next)
      invariant InOrder(more, current[i..] + next)
    {
      LevelFirst(more, roots, levels, depth, current[i..], next);
      assert current[i..][0] == current[i] && current[i..][1..] == current[i + 1..];
      ghost var queue := current[i..] + next;
      assert queue[0] == current[i] && queue[1..] == current[i + 1..] + next;
      if more[current[i]].score < PRUNE_THRESHOLD {
        VisitPrunes(more, roots, levels, depth, current[i..], next);
        OrderPrunes(more, queue);
      } else {
        VisitExpands(more, roots, levels, depth, current[i..], next);
        OrderExpands(more, queue, depth);
        assert queue[1..] + Kept(Expansion(more, current[i], depth), |more|)
            == current[i + 1..] + (next + Kept(Expansion(more, current[i], depth), |more|));
      }
      more, next := VisitBranch(more, current[i], depth, next);
    }
    assert current[|current|..] == [];
    assert [] + next == next;
  }

  lemma LevelFirst(all: seq<Branch>, roots: seq<real>, levels: nat, depth: nat, rest: seq<nat>, next: seq<nat>)
    requires LevelInv(all, roots, levels, depth, rest, next) && rest != []
    ensures rest[0] < |all| && all[rest[0]].children == []
  {
    assert Waiting(all[rest[0]], depth - 1);
  }

  /** A finished level is the start of the next one. */
  lemma LevelTurn(all: seq<Branch>, roots: seq<real>, levels: nat, depth: nat, next: seq<nat>)
    requires depth < levels && LevelInv(all, roots, levels, depth, [], next)
    ensures LevelInv(all, roots, levels, depth + 1, next, [])
  {
    hide Forest, TreeSize, RootSizes, Visited, Waiting;
  }

  // ---------------------------------------------------------------- first and last steps

  function Initial(roots: seq<real>): seq<Branch> {
    seq(|roots|, (i: nat) requires i < |roots| => Branch(None, 0, roots[i], false, []))
  }

  lemma {:induction false} InitialOwed(roots: seq<real>, levels: nat, start: nat)
    requires start <= |roots|
    ensures Within(Initial(roots), Ids(start, |roots| - start))
    ensures Owed(Initial(roots), Ids(start, |roots| - start), levels) + |roots| - start
        == RootSizes(roots[start..], levels)
    decreases |roots| - start
  {
    if start == |roots| {
      assert roots[start..] == [];
    } else {
      InitialOwed(roots, levels, start + 1);
      assert Ids(start, |roots| - start)[1..] == Ids(start + 1, |roots| - start - 1);
      assert roots[start..][1..] == roots[start + 1..];
      assert Initial(roots)[start].score == roots[start..][0];
    }
  }

  lemma InitialLevel(roots: seq<real>, levels: nat)
    requires levels >= 1
    ensures LevelInv(Initial(roots), roots, levels, 1, Ids(0, |roots|), [])
  {
    hide TreeSize, RootSizes, Visited;
    var all, ids := Initial(roots), Ids(0, |roots|);
    InitialOwed(roots, levels, 0);
    assert roots[0..] == roots;
    forall i: nat | i < |all| ensures i in ids { assert ids[i] == i; }
  }

  /** A branch at the end of the run. */
  ghost predicate Final(b: Branch, levels: nat) {
    && (b.children != [] <==> b.score >= 0.25 && b.depth + 1 < levels)
    && (b.pruned <==> b.score < 0.25 && (b.depth > 0 || levels >= 2))
    && b.depth < levels
  }

  /** A branch when the loop over levels has ended: only roots are marked so far. */
  ghost predicate Settled(b: Branch, levels: nat) {
    && (b.children != [] <==> b.score >= PRUNE_THRESHOLD && b.depth + 1 < levels)
    && (b.pruned <==> b.depth == 0 && b.score < PRUNE_THRESHOLD && levels >= 2)
    && b.depth < levels
  }

  lemma {:induction false} OwedAtBottom(all: seq<Branch>, waiting: seq<nat>)
    requires Within(all, waiting)
    ensures Owed(all, waiting, 1) == 0
  {
    if waiting != [] { OwedAtBottom(all, waiting[1..]); }
  }

  lemma LoopEnd(all: seq<Branch>, roots: seq<real>, levels: nat, depth: nat, current: seq<nat>)
    requires LevelInv(all, roots, levels, depth, current, [])
    requires depth == levels || current == []
    requires levels == 1 ==> depth == 1 && forall i | 0 <= i < |all| :: i in current
    ensures forall i | 0 <= i < |all| :: Settled(all[i], levels)
    ensures |all| == RootSizes(roots, levels)
  {
    hide Forest, TreeSize, RootSizes;
    if current != [] { OwedAtBottom(all, current); }
    forall i: nat | i < |all| ensures Settled(all[i], levels) {
      if i in current {
        var k :| 0 <= k < |current| && current[k] == i;
        assert Waiting(all[current[k]], depth - 1);
      } else {
        assert Visited(all[i], levels);
      }
    }
  }

  /** The last pass: every branch below the roots with a low score is marked. */
  method PruneLow(all: seq<Branch>, ghost roots: seq<real>, ghost levels: nat) returns (marked: seq<Branch>)
    requires Forest(all, roots) && forall i | 0 <= i < |all| :: Settled(all[i], levels)
    ensures |marked| == |all| && Forest(marked, roots) && forall i | 0 <= i < |marked| :: Final(marked[i], levels)
    ensures BreadthFirst(all) ==> BreadthFirst(marked)
  {
    hide Forest;
    marked := all;
    for i := 0 to |all|
      invariant |marked| == |all| && Forest(marked, roots)
      invariant forall k | 0 <= k < |all| :: marked[k].parent == all[k].parent
      invariant forall k | 0 <= k < i :: Final(marked[k], levels)
      invariant forall k | i <= k < |all| :: marked[k] == all[k]
    {
      if marked[i].score < PRUNE_THRESHOLD && marked[i].depth > 0 {
        PrunedForest(marked, roots, i, true);
        marked := marked[i := marked[i].(pruned := true)];
      }
    }
  }

  /** The whole expansion from these root scores. */
  method RunTreeOfThought(roots: seq<real>, levels: nat) returns (all: seq<Branch>)
    requires levels >= 1
    ensures Forest(all, roots)
    ensures forall i | 0 <= i < |all| :: Final(all[i], levels)
    ensures |all| == RootSizes(roots, levels) && BreadthFirst(all)
  {
    hide LevelInv, RootSizes, Forest, Settled, Final, BreadthFirst, InOrder;
    all := Initial(roots);
    var current := Ids(0, |roots|);
    InitialLevel(roots, levels);
    InitialOrder(roots);
    assert forall i | 0 <= i < |all| :: i in current by {
      forall i | 0 <= i < |all| ensures i in current { assert current[i] == i; }
    }
    var depth := 1;
    while depth < levels && current != []
      invariant 1 <= depth <= levels
      invariant LevelInv(all, roots, levels, depth, current, []) && InOrder(all, current)
      invariant levels == 1 ==> depth == 1 && forall i | 0 <= i < |all| :: i in current
    {
      all, current := ExpandLevel(all, roots, levels, current, depth);
      LevelTurn(all, roots, levels, depth, current);
      depth := depth + 1;
    }
    LoopEnd(all, roots, levels, depth, current);
    LevelForest(all, roots, levels, depth, current);
    OrderedToEnd(all, current);
    all := PruneLow(all, roots, levels);
  }

  lemma {:induction false} InitialOrder(roots: seq<real>)
    ensures InOrder(Initial(roots), Ids(0, |roots|))
  {
  }

  lemma {:induction false} OrderedToEnd(all: seq<Branch>, queue: seq<nat>)
    requires InOrder(all, queue)
    ensures BreadthFirst(all)
  {
  }

  lemma LevelForest(all: seq<Branch>, roots: seq<real>, levels: nat, depth: nat, current: seq<nat>)
    requires LevelInv(all, roots, levels, depth, current, [])
    ensures Forest(all, roots)
  {
  }

  // ---------------------------------------------------------------- the graph and the best branch

  /** The (parent, child) pairs of `_build_graph`. */
  function Edges(all: seq<Branch>, count: nat): seq<(nat, nat)>
    requires count <= |all|
  {
    if count == 0 then []
    else
      var rest := Edges(all, count - 1);
      match all[count - 1].parent
      case None => rest
      case Some(p) => rest + [(p, count - 1)]
  }

  /** Edges go from parent to child: exactly one for each of the first `count` branches that has a parent, in the
      order of the branches. */
  lemma {:induction false} EdgesParentToChild(all: seq<Branch>, count: nat, a: nat, b: nat)
    requires count <= |all|
    ensures (a, b) in Edges(all, count) <==> b < count && all[b].parent == Some(a)
    ensures forall i, j | 0 <= i < j < |Edges(all, count)| :: Edges(all, count)[i].1 < Edges(all, count)[j].1
    ensures forall e | e in Edges(all, count) :: e.1 < count
  {
    if count > 0 { EdgesParentToChild(all, count - 1, a, b); }
  }

  /** One edge for every branch that is not a root. */
  lemma {:induction false} EdgesAreNonRoots(all: seq<Branch>, roots: seq<real>, count: nat)
    requires Forest(all, roots) && count <= |all|
    ensures |Edges(all, count)| == if count <= |roots| then 0 else count - |roots|
  {
    if count > 0 {
      EdgesAreNonRoots(all, roots, count - 1);
      assert Linked(all, roots, count - 1);
    }
  }

  /** The first of the highest scored branches that are not pruned. */
  ghost predicate IsBest(all: seq<Branch>, best: Option<nat>) {
    match best
    case None => forall i | 0 <= i < |all| :: all[i].pruned
    case Some(b) =>
      && b < |all| && !all[b].pruned
      && (forall i | 0 <= i < |all| && !all[i].pruned :: all[i].score <= all[b].score)
      && (forall i | 0 <= i < b && !all[i].pruned :: all[i].score < all[b].score)
  }

  method SelectBestBranch(all: seq<Branch>) returns (best: Option<nat>)
    ensures IsBest(all, best)
  {
    best := None;
    for i := 0 to |all|
      invariant IsBest(all[..i], best)
    {
      assert all[..i + 1][..i] == all[..i];
      if !all[i].pruned && (best.None? || all[best.value].score < all[i].score) { best := Some(i); }
    }
    assert all[..|all|] == all;
  }

  /** The score of the chain of evidence passes, `depth` levels below a root. */
  function Evidence(root: real, depth: nat): real {
    if root + 0.05 * depth as real < 0.95 then root + 0.05 * depth as real else 0.95
  }

  lemma EvidenceStep(root: real, depth: nat, score: real)
    requires score <= Evidence(root, depth)
    ensures root >= 0.0 ==> ChildScore(score, EVIDENCE_DELTA) <= Evidence(root, depth + 1)
    ensures root >= 0.0 ==> ChildScore(score, RISK_DELTA) <= Evidence(root, depth + 1)
    ensures root >= 0.0 && score == Evidence(root, depth) ==>
              ChildScore(score, EVIDENCE_DELTA) == Evidence(root, depth + 1)
  {
    assert (depth + 1) as real == depth as real + 1.0;
  }

  /** No branch scores above the evidence chain of the best root. */
  lemma {:induction false} EvidenceIsTop(all: seq<Branch>, roots: seq<real>, top: real, i: nat)
    requires Forest(all, roots) && 0.0 <= top <= 0.95 && i < |all|
    requires forall k | 0 <= k < |roots| :: roots[k] <= top
    ensures all[i].score <= Evidence(top, all[i].depth)
    decreases i
  {
    hide ChildScore, Evidence;
    assert Linked(all, roots, i);
    if i < |roots| {
      assert Evidence(top, 0) == top by { EvidenceAtRoot(top); }
    } else {
      var p := all[i].parent.value;
      assert ChildrenOf(all, p);
      EvidenceIsTop(all, roots, top, p);
      EvidenceStep(top, all[p].depth, all[p].score);
    }
  }

  lemma EvidenceAtRoot(root: real)
    requires root <= 0.95
    ensures Evidence(root, 0) == root
  {
  }

  /** The evidence chain of a root that is not pruned goes all the way down. */
  lemma {:induction false} EvidenceChain(all: seq<Branch>, roots: seq<real>, levels: nat, k: nat, depth: nat)
    returns (i: nat)
    requires Forest(all, roots) && (forall i | 0 <= i < |all| :: Final(all[i], levels)) && levels >= 2
    requires k < |roots| && PRUNE_THRESHOLD <= roots[k] <= 0.95 && depth < levels
    ensures i < |all| && all[i].depth == depth && all[i].score == Evidence(roots[k], depth) && !all[i].pruned
    decreases depth
  {
    hide ChildScore;
    if depth == 0 {
      i := k;
      assert Linked(all, roots, k);
    } else {
      var above := EvidenceChain(all, roots, levels, k, depth - 1);
      assert Final(all[above], levels) && ChildrenOf(all, above);
      i := all[above].children[0];
      assert Linked(all, roots, i);
      EvidenceStep(roots[k], depth - 1, all[above].score);
      assert Final(all[i], levels);
    }
  }

  lemma EvidenceDeepest(root: real, depth: nat, bound: nat)
    requires depth <= bound
    ensures Evidence(root, depth) <= Evidence(root, bound)
  {
    assert depth as real <= bound as real;
  }

  /** The branch chosen after the run: none exactly when every root is below the threshold, and otherwise
      one whose score is the best root's after an evidence pass on every level. */
  lemma {:induction false} BestIsEvidenceChain(all: seq<Branch>, roots: seq<real>, levels: nat, best: Option<nat>,
          k: nat)
    requires Forest(all, roots) && (forall i | 0 <= i < |all| :: Final(all[i], levels)) && levels >= 2
        && IsBest(all, best)
    requires k < |roots| && 0.0 <= roots[k] <= 0.95 && forall j | 0 <= j < |roots| :: roots[j] <= roots[k]
    ensures best.None? <==> roots[k] < 0.25
    ensures best.Some? ==> all[best.value].score == Evidence(roots[k], levels - 1)
  {
    hide ChildScore, Evidence, Linked, ChildrenOf;
    if roots[k] >= PRUNE_THRESHOLD {
      var i := EvidenceChain(all, roots, levels, k, levels - 1);
      var b := best.value;
      EvidenceIsTop(all, roots, roots[k], b);
      EvidenceDeepest(roots[k], all[b].depth, levels - 1);
    } else {
      forall i: nat | i < |all| ensures all[i].pruned { LowRootsAllPruned(all, roots, levels, i); }
    }
  }

  lemma LowRootsAllPruned(all: seq<Branch>, roots: seq<real>, levels: nat, i: nat)
    requires Forest(all, roots) && (forall i | 0 <= i < |all| :: Final(all[i], levels)) && levels >= 2
    requires i < |all| && forall j | 0 <= j < |roots| :: roots[j] < PRUNE_THRESHOLD
    ensures all[i].pruned
    decreases i
  {
    assert Linked(all, roots, i);
    if i >= |roots| {
      var p := all[i].parent.value;
      LowRootsAllPruned(all, roots, levels, p);
      assert false;
    }
  }
}
