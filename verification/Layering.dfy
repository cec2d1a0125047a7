/** The theory of dependency maps that the scheduler's proofs rest on.

    A dependency map sends each node to the set of ids it depends on.  A dependency need not
    itself be a node.  `Done(d, k)` is what k rounds of "run everything that is ready" finish,
    starting from nothing; `Layer(d, k)` is the k-th such round.  Chains give the independent,
    longest-path reading of the same layers.
 */
module Layering {
  import opened Sequences
  type Id = string
  type DepMap = map<Id, set<Id>>

  /** Nodes not yet done whose dependencies are all done. */
  function Ready(d: DepMap, done: set<Id>): set<Id> {
    set n | n in d && n !in done && d[n] <= done
  }

  function Done(d: DepMap, k: nat): set<Id> {
    if k == 0 then {} else Done(d, k - 1) + Ready(d, Done(d, k - 1))
  }

  function Layer(d: DepMap, k: nat): set<Id> {
    Ready(d, Done(d, k))
  }

  /** Every dependency names an existing node. */
  predicate Closed(d: DepMap) {
    forall n | n in d :: d[n] <= d.Keys
  }

  /** A chain of nodes, each a direct dependency of the next. */
  ghost predicate Chain(d: DepMap, c: seq<Id>) {
    && |c| > 0
    && Last(c) in d
    && (|c| > 1 ==> Chain(d, Front(c)) && Last(Front(c)) in d[Last(c)])
  }

  function Last<T>(s: seq<T>): T
    requires |s| > 0
  {
    s[|s| - 1]
  }

  function Front<T>(s: seq<T>): seq<T>
    requires |s| > 0
  {
    s[..|s| - 1]
  }

  ghost predicate Acyclic(d: DepMap) {
    forall c: seq<Id> | Chain(d, c) && |c| > 1 :: c[0] != Last(c)
  }

  /** `m` is reachable from `n` through one or more dependencies. */
  ghost predicate DependsOn(d: DepMap, n: Id, m: Id) {
    exists c: seq<Id> :: Chain(d, c) && |c| > 1 && c[0] == m && Last(c) == n
  }

  /** Completed sets the scheduler may reach: nodes only, closed under dependencies. */
  predicate DownClosed(d: DepMap, done: set<Id>) {
    done <= d.Keys && forall n | n in done :: d[n] <= done
  }

  // ---------------------------------------------------------------- rounds

  lemma {:induction false} DoneMonotone(d: DepMap, j: nat, k: nat)
    requires j <= k
    ensures Done(d, j) <= Done(d, k)
  {
    if j < k { DoneMonotone(d, j, k - 1); }
  }

  lemma {:induction false} DoneDownClosed(d: DepMap, k: nat)
    ensures DownClosed(d, Done(d, k))
    ensures forall n | n in Done(d, k) :: k > 0 && d[n] <= Done(d, k - 1)
  {
    if k > 0 {
      DoneDownClosed(d, k - 1);
      forall n | n in Done(d, k) ensures d[n] <= Done(d, k - 1) {
        if n in Done(d, k - 1) {
          DoneMonotone(d, k - 2, k - 1);
        }
      }
    }
  }

  /** A node belongs to at most one layer. */
  lemma LayersDisjoint(d: DepMap, j: nat, k: nat)
    requires j < k
    ensures Layer(d, j) !! Layer(d, k)
  {
    DoneMonotone(d, j + 1, k);
  }

  /** What is done within k rounds ran in one of them. */
  lemma {:induction false} InSomeLayer(d: DepMap, k: nat, n: Id) returns (j: nat)
    requires n in Done(d, k)
    ensures j < k && n in Layer(d, j)
  {
    if n in Done(d, k - 1) { j := InSomeLayer(d, k - 1, n); } else { j := k - 1; }
  }

  /** Once a round runs nothing, no later round does. */
  lemma {:induction false} Stuck(d: DepMap, j: nat, k: nat)
    requires Layer(d, j) == {} && j <= k
    ensures Done(d, k) == Done(d, j) && Layer(d, k) == {}
  {
    if j < k { Stuck(d, j, k - 1); }
  }

  lemma {:induction false} DoneGrows(d: DepMap, k: nat)
    ensures Layer(d, k) == {} || |Done(d, k)| >= k
    ensures Done(d, k) <= d.Keys
  {
    if k > 0 {
      DoneGrows(d, k - 1);
      if Layer(d, k - 1) == {} {
        Stuck(d, k - 1, k);
      } else {
        var n :| n in Layer(d, k - 1);
        SubsetCardinality(Done(d, k - 1) + {n}, Done(d, k));
      }
    }
  }

  /** |d| rounds finish everything that any number of rounds can. */
  lemma FixpointReached(d: DepMap, k: nat)
    ensures Layer(d, |d|) == {}
    ensures Done(d, k) <= Done(d, |d|)
  {
    DoneGrows(d, |d|);
    if Layer(d, |d|) != {} {
      assert |d.Keys| == |d|;
      SubsetCardinality(Done(d, |d|), d.Keys);
      assert false;
    }
    if k <= |d| { DoneMonotone(d, k, |d|); } else { Stuck(d, |d|, k); }
  }

  /** A round that runs nothing comes only after everything that can finish has. */
  lemma StuckIsFinal(d: DepMap, k: nat)
    requires Layer(d, k) == {}
    ensures Done(d, k) == Done(d, |d|)
  {
    FixpointReached(d, k);
    if k <= |d| { Stuck(d, k, |d|); } else { Stuck(d, |d|, k); }
  }

  /** Rounds that run something are not interrupted by one that does not. */
  lemma RanBefore(d: DepMap, j: nat, k: nat)
    requires Layer(d, k) != {} && j <= k
    ensures Layer(d, j) != {}
  {
    if Layer(d, j) == {} { Stuck(d, j, k); }
  }

  // ---------------------------------------------------------------- chains

  /** A node finished within k rounds ends no chain longer than k. */
  lemma {:induction false} ChainBounded(d: DepMap, k: nat, c: seq<Id>)
    requires Chain(d, c) && Last(c) in Done(d, k)
    ensures |c| <= k && c[0] in Done(d, k)
  {
    hide Done;
    DoneDownClosed(d, k);
    if |c| > 1 {
      assert Front(c)[0] == c[0];
      ChainBounded(d, k - 1, Front(c));
      DoneMonotone(d, k - 1, k);
    }
  }

  /** Along a chain of more than one node that ends in round k, the first node is done before it. */
  lemma ChainStartsEarlier(d: DepMap, k: nat, c: seq<Id>)
    requires Chain(d, c) && |c| > 1 && Last(c) in Layer(d, k)
    ensures c[0] in Done(d, k)
  {
    ChainBounded(d, k, Front(c));
  }

  lemma ChainSnoc(d: DepMap, c: seq<Id>, n: Id)
    requires Chain(d, c) && n in d && Last(c) in d[n]
    ensures Chain(d, c + [n])
  {
    assert Front(c + [n]) == c;
  }

  /** A layer-k node ends a chain of exactly k + 1 nodes. */
  lemma {:induction false} LayerHasChain(d: DepMap, k: nat, n: Id) returns (c: seq<Id>)
    requires n in Layer(d, k)
    ensures Chain(d, c) && |c| == k + 1 && Last(c) == n
  {
    if k == 0 {
      c := [n];
    } else {
      // n was not ready one round earlier, so some dependency finished in round k - 1.
      assert n !in Done(d, k - 1);
      assert !(d[n] <= Done(d, k - 1));
      var m :| m in d[n] && m !in Done(d, k - 1);
      assert m in Layer(d, k - 1);
      var c' := LayerHasChain(d, k - 1, m);
      ChainSnoc(d, c', n);
      c := c' + [n];
    }
  }

  /** `len` is the length of the longest chain that ends in `n`. */
  ghost predicate LongestChain(d: DepMap, n: Id, len: nat) {
    && (exists c: seq<Id> :: Chain(d, c) && Last(c) == n && |c| == len)
    && (forall c: seq<Id> | Chain(d, c) && Last(c) == n :: |c| <= len)
  }

  /** The layer number of a node is its longest-path depth, both ways. */
  lemma {:induction false} LayerIsDepth(d: DepMap, k: nat, n: Id)
    requires n in Done(d, |d|)
    ensures n in Layer(d, k) <==> LongestChain(d, n, k + 1)
  {
    var j := InSomeLayer(d, |d|, n);
    var c := LayerHasChain(d, j, n);
    forall c': seq<Id> | Chain(d, c') && Last(c') == n ensures |c'| <= j + 1 {
      ChainBounded(d, j + 1, c');
    }
    assert LongestChain(d, n, j + 1);
    if n in Layer(d, k) && j != k {
      if j < k { LayersDisjoint(d, j, k); } else { LayersDisjoint(d, k, j); }
    }
  }

  /** A dependency-closed set holds every start of a chain that ends in it. */
  lemma {:induction false} DownClosedReach(d: DepMap, done: set<Id>, c: seq<Id>)
    requires DownClosed(d, done) && Chain(d, c) && Last(c) in done
    ensures c[0] in done
  {
    if |c| > 1 {
      DownClosedReach(d, done, Front(c));
    }
  }

  // ---------------------------------------------------------------- completeness

  lemma {:induction false} NoRepeatFits<T>(c: seq<T>, s: set<T>)
    requires forall i | 0 <= i < |c| :: c[i] in s
    requires forall i, j | 0 <= i < j < |c| :: c[i] != c[j]
    ensures |c| <= |s|
    decreases |c|
  {
    if |c| > 0 {
      NoRepeatFits(Front(c), s - {Last(c)});
    }
  }

  /** When every node of `stuck` has a dependency in `stuck`, walk back as far as wanted. */
  lemma {:induction false} WalkBack(d: DepMap, stuck: set<Id>, n: Id, len: nat) returns (c: seq<Id>)
    requires stuck <= d.Keys && n in stuck && len > 0
    requires forall m | m in stuck :: d[m] * stuck != {}
    ensures Chain(d, c) && |c| == len && Last(c) == n
    ensures forall i | 0 <= i < len :: c[i] in stuck
    decreases len
  {
    if len == 1 {
      c := [n];
    } else {
      var m :| m in d[n] * stuck;
      var c' := WalkBack(d, stuck, m, len - 1);
      ChainSnoc(d, c', n);
      c := c' + [n];
    }
  }

  lemma {:induction false} SubChain(d: DepMap, c: seq<Id>, i: nat, j: nat)
    requires Chain(d, c) && i <= j < |c|
    ensures Chain(d, c[i..j + 1])
    decreases |c|
  {
    if j < |c| - 1 {
      SubChain(d, Front(c), i, j);
      assert Front(c)[i..j + 1] == c[i..j + 1];
    } else if i < j {
      SubChain(d, Front(c), i, j - 1);
      assert Front(c)[i..j] == c[i..j];
      ChainSnoc(d, c[i..j], c[j]);
      assert c[i..j] + [c[j]] == c[i..j + 1];
    } else {
      assert c[i..j + 1] == [c[j]];
      assert Last(c) == c[j];
    }
  }

  /** If running ready nodes finishes everything, the dependencies are acyclic and closed. */
  lemma CompleteIsSound(d: DepMap)
    requires Done(d, |d|) == d.Keys
    ensures Closed(d) && Acyclic(d)
  {
    DoneDownClosed(d, |d|);
    forall c: seq<Id> | Chain(d, c) && |c| > 1 ensures c[0] != Last(c) {
      if c[0] == Last(c) {
        var j := InSomeLayer(d, |d|, c[0]);
        ChainStartsEarlier(d, j, c);
        assert false;
      }
    }
  }

  /** A nonempty set of nodes, each with a dependency inside the set, contains a cycle. */
  lemma StuckHasCycle(d: DepMap, stuck: set<Id>)
    requires stuck != {} && stuck <= d.Keys
    requires forall m | m in stuck :: d[m] * stuck != {}
    ensures !Acyclic(d)
  {
    hide Chain;
    var n :| n in stuck;
    var c := WalkBack(d, stuck, n, |stuck| + 1);
    if forall i, j | 0 <= i < j < |c| :: c[i] != c[j] {
      NoRepeatFits(c, stuck);
    }
    var i, j :| 0 <= i < j < |c| && c[i] == c[j];
    SubChain(d, c, i, j);
    var cycle := c[i..j + 1];
    assert Chain(d, cycle) && |cycle| > 1 && cycle[0] == Last(cycle);
  }

  lemma SoundIsComplete(d: DepMap)
    requires Closed(d) && Acyclic(d)
    ensures Done(d, |d|) == d.Keys
  {
    FixpointReached(d, 0);
    DoneGrows(d, |d|);
    var stuck := d.Keys - Done(d, |d|);
    if stuck != {} {
      forall m | m in stuck ensures d[m] * stuck != {} {
        assert m !in Layer(d, |d|);
        var x :| x in d[m] && x !in Done(d, |d|);
        assert x in d[m] * stuck;
      }
      StuckHasCycle(d, stuck);
    }
  }

  /** Running ready nodes finishes everything exactly when the dependencies are acyclic and
      all name existing nodes. */
  lemma {:induction false} CompletesIffSound(d: DepMap)
    ensures Done(d, |d|) == d.Keys <==> Closed(d) && Acyclic(d)
  {
    if Done(d, |d|) == d.Keys { CompleteIsSound(d); }
    if Closed(d) && Acyclic(d) { SoundIsComplete(d); }
  }

  // ---------------------------------------------------------------- growth

  /** `c` is a new id that nothing in `d` mentions, to be hung off the node `p`. */
  ghost predicate Hangable(d: DepMap, p: Id, c: Id) {
    p in d && c !in d && c != p && forall n | n in d :: c !in d[n]
  }

  lemma ReadyAfterHang(d: DepMap, p: Id, c: Id, done: set<Id>)
    requires Hangable(d, p, c) && done <= d.Keys
    ensures Ready(d[c := {p}], done) == Ready(d, done) + (if p in done then {c} else {})
    ensures Ready(d[c := {p}], done + {c}) == Ready(d, done)
  {
    var d' := d[c := {p}];
    forall n | n in d
      ensures n in Ready(d', done) <==> n in Ready(d, done)
      ensures n in Ready(d', done + {c}) <==> n in Ready(d, done)
    {
      assert d'[n] == d[n];
    }
  }

  /** One round seen from both maps: `a`, `a'` before it and `b`, `b'` after it. */
  lemma RoundAfterHang(d: DepMap, p: Id, c: Id, hung: bool, a: set<Id>, a': set<Id>, b: set<Id>, b': set<Id>)
    requires Hangable(d, p, c) && a <= d.Keys && (hung ==> p in a)
    requires a' == a + (if hung then {c} else {})
    requires b == a + Ready(d, a) && b' == a' + Ready(d[c := {p}], a')
    ensures b' == b + (if p in a then {c} else {})
  {
    ReadyAfterHang(d, p, c, a);
  }

  /** Hanging a new node off an existing one leaves every round as it was, except that the new
      node joins the round after its parent. */
  lemma {:induction false} HangLeaf(d: DepMap, p: Id, c: Id, k: nat)
    requires Hangable(d, p, c)
    ensures Done(d[c := {p}], k) == Done(d, k) + (if k > 0 && p in Done(d, k - 1) then {c} else {})
  {
    if k == 0 {
    } else {
      var d' := d[c := {p}];
      HangLeaf(d, p, c, k - 1);
      DoneGrows(d, k - 1);
      if k > 1 { DoneMonotone(d, k - 2, k - 1); }
      RoundAfterHang(d, p, c, k > 1 && p in Done(d, k - 2), Done(d, k - 1), Done(d', k - 1), Done(d, k), Done(d', k));
    }
  }

  /** If the parent ran in round k, rounds 0..k are unchanged and the new node is in round k + 1. */
  lemma {:induction false} HangLeafAfterRound(d: DepMap, p: Id, c: Id, k: nat)
    requires Hangable(d, p, c) && p in Layer(d, k)
    ensures forall j | 0 <= j <= k + 1 :: Done(d[c := {p}], j) == Done(d, j)
    ensures forall j | 0 <= j <= k :: Layer(d[c := {p}], j) == Layer(d, j)
    ensures c in Layer(d[c := {p}], k + 1)
  {
    forall j | 0 <= j <= k + 1 ensures Done(d[c := {p}], j) == Done(d, j) {
      HangLeaf(d, p, c, j);
      if 0 < j { DoneMonotone(d, j - 1, k); }
    }
    forall j | 0 <= j <= k ensures Layer(d[c := {p}], j) == Layer(d, j) {
      DoneMonotone(d, j, k);
      DoneGrows(d, j);
      ReadyAfterHang(d, p, c, Done(d, j));
    }
    DoneGrows(d, k + 1);
    ReadyAfterHang(d, p, c, Done(d, k + 1));
  }

  lemma HangLeafCompletes(d: DepMap, p: Id, c: Id)
    requires Hangable(d, p, c) && Done(d, |d|) == d.Keys
    ensures Done(d[c := {p}], |d| + 1) == d.Keys + {c}
  {
    HangLeaf(d, p, c, |d| + 1);
    DoneGrows(d, |d| + 1);
    DoneMonotone(d, |d|, |d| + 1);
  }

  /** Hanging a new node off an existing one keeps the map acyclic and closed. */
  lemma {:induction false} HangLeafSound(d: DepMap, p: Id, c: Id)
    requires Hangable(d, p, c) && Closed(d) && Acyclic(d)
    ensures Closed(d[c := {p}]) && Acyclic(d[c := {p}])
  {
    SoundIsComplete(d);
    HangLeafCompletes(d, p, c);
    var d' := d[c := {p}];
    assert d'.Keys == d.Keys + {c} && |d'.Keys| == |d| + 1;
    CompleteIsSound(d');
  }
}
