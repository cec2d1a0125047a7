/** The ids of nodes the planner and the reflection service create: the id of an existing node
    followed by one of a fixed set of endings.  An id determines both parts, so ids generated for different
    nodes, or with different endings for one node, never collide. */
module GeneratedNames {

  /** Retry types, named as in the retry policy. */
  datatype RetryKind = Clarify | Summarize | Expand | FactualRetry | ToolRetry

  datatype Place = First | Second | Third

  /** Why a node was created: one of the up to three children of the initial decomposition, one of
      the two runtime children, or the first or second recovery. */
  datatype Tag = Initial(place: Place) | Child(second: bool) | Recovery(kind: RetryKind, again: bool)

  function KindText(k: RetryKind): string {
    match k
    case Clarify => "clarify"
    case Summarize => "summarize"
    case Expand => "expand"
    case FactualRetry => "factual_retry"
    case ToolRetry => "tool_retry"
  }

  function PlaceSuffix(p: Place): string {
    match p
    case First => "0"
    case Second => "1"
    case Third => "2"
  }

  function ChildSuffix(second: bool): string {
    if second then "rt1" else "rt0"
  }

  function AttemptText(again: bool): string {
    if again then "2" else "1"
  }

  function Ending(t: Tag): string {
    match t
    case Initial(place) => "-child-" + PlaceSuffix(place)
    case Child(second) => "-child-" + ChildSuffix(second)
    case Recovery(kind, again) => "-" + KindText(kind) + "-" + AttemptText(again)
  }

  /** The k-th character from the end. */
  function FromEnd(s: string, k: nat): char
    requires 0 < k <= |s|
  {
    s[|s| - k]
  }

  /** One of `roots`, or got from one of them by endings of generated ids. */
  ghost predicate Rooted(roots: set<string>, id: string)
    decreases |id|
  {
    id in roots || exists p: string, t: Tag :: |p| < |id| && id == p + Ending(t) && Rooted(roots, p)
  }

  /** Ids generated for a root add nothing to what is rooted. */
  lemma {:induction false} RootedBack(roots: set<string>, more: set<string>, p: string, id: string)
    requires p in roots && Rooted(more, id)
    requires forall n | n in more && n !in roots :: exists t: Tag :: n == p + Ending(t)
    ensures Rooted(roots, id)
    decreases |id|
  {
    hide Ending;
    if id in more {
      if id !in roots {
        var t: Tag :| id == p + Ending(t);
        EndingLonger(p, t);
        assert Rooted(roots, p);
      }
    } else {
      var q: string, t: Tag :| |q| < |id| && id == q + Ending(t) && Rooted(more, q);
      RootedBack(roots, more, p, q);
    }
  }

  lemma {:induction false} RootedMonotone(roots: set<string>, more: set<string>, id: string)
    requires roots <= more && Rooted(roots, id)
    ensures Rooted(more, id)
    decreases |id|
  {
    hide Ending;
    if id !in roots {
      var q: string, t: Tag :| |q| < |id| && id == q + Ending(t) && Rooted(roots, q);
      RootedMonotone(roots, more, q);
    }
  }

  lemma EndOfConcat(p: string, s: string, k: nat)
    requires 0 < k <= |s|
    ensures FromEnd(p + s, k) == FromEnd(s, k)
  {
  }

  /** The positions that tell the endings apart. */
  lemma EndingMarks(t: Tag)
    ensures |Ending(t)| >= 8 && (!t.Initial? ==> |Ending(t)| >= 9)
    ensures FromEnd(Ending(t), 2) == if t.Child? then 't' else '-'
    ensures t.Initial? ==> FromEnd(Ending(t), 1) == PlaceSuffix(t.place)[0]
    ensures t.Initial? ==> FromEnd(Ending(t), 4) == 'l'
    ensures t.Child? ==> FromEnd(Ending(t), 1) == if t.second then '1' else '0'
    ensures t.Recovery? ==> FromEnd(Ending(t), 1) == if t.again then '2' else '1'
    ensures t.Recovery? ==> FromEnd(Ending(t), 3) == match t.kind
                                                     case Clarify => 'y'
                                                     case Summarize => 'e'
                                                     case Expand => 'd'
                                                     case FactualRetry => 'y'
                                                     case ToolRetry => 'y'
    ensures t.Recovery? ==> FromEnd(Ending(t), 4) == match t.kind
                                                     case Clarify => 'f'
                                                     case Summarize => 'z'
                                                     case Expand => 'n'
                                                     case FactualRetry => 'r'
                                                     case ToolRetry => 'r'
    ensures t.Recovery? && t.kind.FactualRetry? ==> |Ending(t)| >= 10 && FromEnd(Ending(t), 10) == 'a'
    ensures t.Recovery? && t.kind.ToolRetry? ==> |Ending(t)| >= 10 && FromEnd(Ending(t), 10) == 'o'
  {
  }

  lemma SameMarks(p: string, q: string, s: Tag, t: Tag, k: nat)
    requires p + Ending(s) == q + Ending(t)
    requires 0 < k <= |Ending(s)| && k <= |Ending(t)|
    ensures FromEnd(Ending(s), k) == FromEnd(Ending(t), k)
  {
    EndOfConcat(p, Ending(s), k);
    EndOfConcat(q, Ending(t), k);
  }

  lemma EndingDetermines(p: string, s: Tag, q: string, t: Tag)
    requires p + Ending(s) == q + Ending(t)
    ensures s == t
  {
    hide Ending, FromEnd;
    EndingMarks(s);
    EndingMarks(t);
    SameMarks(p, q, s, t, 1);
    SameMarks(p, q, s, t, 2);
    SameMarks(p, q, s, t, 3);
    SameMarks(p, q, s, t, 4);
    if s.Recovery? && t.Recovery? && |Ending(s)| >= 10 && |Ending(t)| >= 10 {
      SameMarks(p, q, s, t, 10);
    }
  }

  /** A generated id determines the node it was generated for and the reason. */
  lemma NamesInjective(p: string, s: Tag, q: string, t: Tag)
    requires p + Ending(s) == q + Ending(t)
    ensures p == q && s == t
  {
    hide Ending;
    EndingDetermines(p, s, q, t);
    assert p == (p + Ending(s))[..|p|] && q == (q + Ending(t))[..|q|];
  }

  lemma EndingLonger(p: string, t: Tag)
    ensures p + Ending(t) != p && p + Ending(t) != "" && |p| < |p + Ending(t)|
  {
    EndingMarks(t);
    assert |p + Ending(t)| > |p|;
  }
}
