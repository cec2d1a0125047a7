/** `UIDetector._merge_nearby`: elements close to an earlier one are merged into one box. */
module UIMerge {

  /** `caption` is the field named label in the source. */
  datatype Element = Element(
    id: string, kind: string, caption: string, x: int, y: int, width: int, height: int,
    confidence: real, interactive: bool)

  function Distance(a: int, b: int): int {
    if a < b then b - a else a - b
  }

  predicate Near(a: Element, b: Element, threshold: int) {
    Distance(a.x, b.x) <= threshold && Distance(a.y, b.y) <= threshold
  }

  /** Near means at most the threshold apart in each coordinate. */
  lemma {:induction false} NearIs(a: Element, b: Element, threshold: int)
    ensures Near(a, b, threshold) <==>
              -threshold <= a.x - b.x <= threshold && -threshold <= a.y - b.y <= threshold
  {
  }

  // ---------------------------------------------------------------- grouping

  /** Those of `rest` near `a` (or, with `near` false, those that are not), in order. */
  function Split(a: Element, rest: seq<Element>, threshold: int, near: bool): (r: seq<Element>)
    ensures |r| <= |rest|
  {
    if rest == [] then []
    else if Near(a, rest[0], threshold) == near then [rest[0]] + Split(a, rest[1..], threshold, near)
    else Split(a, rest[1..], threshold, near)
  }

  /** The grouping without a set of used ids: the first element takes all that are near it, then the same
      again on what is left. */
  function Groups(rest: seq<Element>, threshold: int): seq<seq<Element>>
    decreases |rest|
  {
    if rest == [] then []
    else [[rest[0]] + Split(rest[0], rest[1..], threshold, true)]
         + Groups(Split(rest[0], rest[1..], threshold, false), threshold)
  }

  function Members(groups: seq<seq<Element>>): seq<Element> {
    if groups == [] then [] else groups[0] + Members(groups[1..])
  }

  lemma {:induction false} SplitCorrect(a: Element, rest: seq<Element>, threshold: int, near: bool)
    ensures forall e | e in Split(a, rest, threshold, near) :: Near(a, e, threshold) == near
  {
    hide Near;
    if rest != [] { SplitCorrect(a, rest[1..], threshold, near); }
  }

  lemma {:induction false} SplitPartitions(a: Element, rest: seq<Element>, threshold: int)
    ensures multiset(Split(a, rest, threshold, true)) + multiset(Split(a, rest, threshold, false)) == multiset(rest)
  {
    hide Near;
    if rest != [] {
      SplitPartitions(a, rest[1..], threshold);
      assert rest == [rest[0]] + rest[1..];
    }
  }

  /** Every element is in exactly one group, once. */
  lemma {:induction false} GroupsPartition(rest: seq<Element>, threshold: int)
    ensures multiset(Members(Groups(rest, threshold))) == multiset(rest)
    decreases |rest|
  {
    hide Near, Split;
    if rest != [] {
      var a := rest[0];
      var far := Split(a, rest[1..], threshold, false);
      SplitPartitions(a, rest[1..], threshold);
      GroupsPartition(far, threshold);
      assert rest == [a] + rest[1..];
      assert Groups(rest, threshold)[1..] == Groups(far, threshold);
    }
  }

  lemma {:induction false} SplitFromRest(a: Element, rest: seq<Element>, threshold: int, near: bool)
    ensures forall e | e in Split(a, rest, threshold, near) :: e in rest
  {
    hide Near;
    if rest != [] { SplitFromRest(a, rest[1..], threshold, near); }
  }

  lemma {:induction false} MemberFromRest(rest: seq<Element>, threshold: int, k: nat, e: Element)
    requires k < |Groups(rest, threshold)| && e in Groups(rest, threshold)[k]
    ensures e in rest
    decreases |rest|
  {
    hide Near, Split;
    var a := rest[0];
    var far := Split(a, rest[1..], threshold, false);
    SplitFromRest(a, rest[1..], threshold, true);
    SplitFromRest(a, rest[1..], threshold, false);
    if k > 0 { MemberFromRest(far, threshold, k - 1, e); }
  }

  /** A member is near its own leader, the first of its group, and near the leader of no earlier group:
      it joined the first leader it could. */
  lemma {:induction false} GreedyJoinsFirst(rest: seq<Element>, threshold: int, k: nat, e: Element, j: nat)
    requires threshold >= 0 && j <= k < |Groups(rest, threshold)| && e in Groups(rest, threshold)[k]
    ensures Groups(rest, threshold)[j] != []
    ensures Near(Groups(rest, threshold)[j][0], e, threshold) <==> j == k
    decreases |rest|
  {
    hide Near, Split;
    var a := rest[0];
    var far := Split(a, rest[1..], threshold, false);
    SplitCorrect(a, rest[1..], threshold, true);
    SplitCorrect(a, rest[1..], threshold, false);
    assert Groups(rest, threshold) == [[a] + Split(a, rest[1..], threshold, true)] + Groups(far, threshold);
    if j > 0 {
      GreedyJoinsFirst(far, threshold, k - 1, e, j - 1);
    } else if k == 0 {
      NearItself(a, threshold);
    } else {
      MemberFromRest(far, threshold, k - 1, e);
    }
  }

  lemma NearItself(a: Element, threshold: int)
    requires threshold >= 0
    ensures Near(a, a, threshold)
  {
  }

  // ---------------------------------------------------------------- the merged box

  function Left(g: seq<Element>): int
    requires g != []
  {
    if |g| == 1 then g[0].x else if g[0].x <= Left(g[1..]) then g[0].x else Left(g[1..])
  }

  function Top(g: seq<Element>): int
    requires g != []
  {
    if |g| == 1 then g[0].y else if g[0].y <= Top(g[1..]) then g[0].y else Top(g[1..])
  }

  function Right(g: seq<Element>): int
    requires g != []
  {
    var r := g[0].x + g[0].width;
    if |g| == 1 then r else if r >= Right(g[1..]) then r else Right(g[1..])
  }

  function Bottom(g: seq<Element>): int
    requires g != []
  {
    var r := g[0].y + g[0].height;
    if |g| == 1 then r else if r >= Bottom(g[1..]) then r else Bottom(g[1..])
  }

  function TopConfidence(g: seq<Element>): real
    requires g != []
  {
    var c := g[0].confidence;
    if |g| == 1 then c else if c >= TopConfidence(g[1..]) then c else TopConfidence(g[1..])
  }

  function Labels(g: seq<Element>): string {
    if g == [] then "" else if |g| == 1 then g[0].caption else g[0].caption + " " + Labels(g[1..])
  }

  function Merge(g: seq<Element>, id: string): Element
    requires g != []
  {
    if |g| == 1 then g[0]
    else
      var text := Labels(g);
      Element(id, g[0].kind, if |text| <= 120 then text else text[..120],
              Left(g), Top(g), Right(g) - Left(g), Bottom(g) - Top(g),
              TopConfidence(g), exists e | e in g :: e.interactive)
  }

  /** Box `m` covers element `e`. */
  predicate Covers(m: Element, e: Element) {
    m.x <= e.x && m.y <= e.y && e.x + e.width <= m.x + m.width && e.y + e.height <= m.y + m.height
  }

  lemma {:induction false} SidesCover(g: seq<Element>, e: Element)
    requires g != [] && e in g
    ensures Left(g) <= e.x && Top(g) <= e.y && e.x + e.width <= Right(g) && e.y + e.height <= Bottom(g)
    ensures e.confidence <= TopConfidence(g)
  {
    if e != g[0] { SidesCover(g[1..], e); }
  }

  lemma {:induction false} SidesTight(g: seq<Element>, left: int, top: int, right: int, bottom: int)
    requires g != []
    requires forall e | e in g :: left <= e.x && top <= e.y && e.x + e.width <= right && e.y + e.height <= bottom
    ensures left <= Left(g) && top <= Top(g) && Right(g) <= right && Bottom(g) <= bottom
  {
    if |g| > 1 { SidesTight(g[1..], left, top, right, bottom); }
  }

  lemma {:induction false} TopAttained(g: seq<Element>)
    requires g != []
    ensures exists e | e in g :: e.confidence == TopConfidence(g)
  {
    assert g[0] in g;
    if |g| > 1 {
      TopAttained(g[1..]);
      var e :| e in g[1..] && e.confidence == TopConfidence(g[1..]);
      assert e in g;
    }
  }

  lemma OneLabel(g: seq<Element>)
    requires |g| == 1
    ensures Labels(g) == g[0].caption
  {
  }

  /** The merged element is the least box over its group: it covers every member, and any box that does
      covers it too. */
  lemma {:induction false} MergeIsLeastBox(g: seq<Element>, id: string)
    requires g != []
    ensures forall e | e in g :: Covers(Merge(g, id), e) && e.confidence <= Merge(g, id).confidence
    ensures forall box: Element | (forall e | e in g :: Covers(box, e)) :: Covers(box, Merge(g, id))
    ensures Merge(g, id).interactive <==> exists e | e in g :: e.interactive
    ensures exists e | e in g :: e.confidence == Merge(g, id).confidence
    ensures Merge(g, id).kind == g[0].kind && Merge(g, id).caption <= Labels(g)
    ensures |g| == 1 ==> Merge(g, id) == g[0]
  {
    hide Left, Top, Right, Bottom, TopConfidence, Labels;
    assert |g| == 1 ==> forall e | e in g :: e == g[0];
    assert g[0] in g;
    TopAttained(g);
    assert |g| == 1 ==> Labels(g) == g[0].caption by { if |g| == 1 { OneLabel(g); } }
    forall e | e in g ensures Covers(Merge(g, id), e) && e.confidence <= Merge(g, id).confidence {
      SidesCover(g, e);
    }
    forall box: Element | forall e | e in g :: Covers(box, e) ensures Covers(box, Merge(g, id)) {
      SidesTight(g, box.x, box.y, box.x + box.width, box.y + box.height);
    }
  }

  /** The captions of a group are joined by blanks, in order ... */
  lemma {:induction false} LabelsJoined(a: seq<Element>, b: seq<Element>)
    requires a != [] && b != []
    ensures Labels(a + b) == Labels(a) + " " + Labels(b)
  {
    if |a| == 1 {
      assert (a + b)[1..] == b;
    } else {
      assert (a + b)[1..] == a[1..] + b;
      LabelsJoined(a[1..], b);
      assert Labels(a + b) == a[0].caption + " " + (Labels(a[1..]) + " " + Labels(b));
    }
  }

  /** ... and the first 120 characters of that are the merged caption. */
  lemma {:induction false} MergedCaption(g: seq<Element>, id: string)
    requires |g| > 1
    ensures var m := Merge(g, id);
      && m.id == id && m.caption <= Labels(g)
      && (|Labels(g)| >= 120 ==> |m.caption| == 120) && (|Labels(g)| < 120 ==> m.caption == Labels(g))
  {
    hide Left, Top, Right, Bottom, TopConfidence, Labels;
  }

  /** A merged box is at most two thresholds wider and higher than its largest member. */
  lemma MergeSize(g: seq<Element>, id: string, threshold: int, widest: int, highest: int)
    requires g != [] && threshold >= 0
    requires forall e | e in g :: Near(g[0], e, threshold) && e.width <= widest && e.height <= highest
    ensures Merge(g, id).width <= 2 * threshold + widest && Merge(g, id).height <= 2 * threshold + highest
  {
    hide Left, Top, Right, Bottom, TopConfidence, Labels;
    var a := g[0];
    SidesTight(g, a.x - threshold, a.y - threshold, a.x + threshold + widest, a.y + threshold + highest);
  }

  // ---------------------------------------------------------------- the loops with a set of used ids

  ghost predicate AllGroups(groups: seq<seq<Element>>) {
    forall k | 0 <= k < |groups| :: groups[k] != []
  }

  function MergeAll(groups: seq<seq<Element>>, newId: nat -> string): (merged: seq<Element>)
    requires AllGroups(groups)
    ensures |merged| == |groups|
  {
    if groups == [] then []
    else
      var n := |groups| - 1;
      MergeAll(groups[..n], newId) + [Merge(groups[n], newId(n))]
  }

  /** Merged element k comes from group k. */
  lemma {:induction false} MergeAllAt(groups: seq<seq<Element>>, newId: nat -> string, k: nat)
    requires AllGroups(groups) && k < |groups|
    ensures MergeAll(groups, newId)[k] == Merge(groups[k], newId(k))
  {
    hide Merge;
    if k < |groups| - 1 { MergeAllAt(groups[..|groups| - 1], newId, k); }
  }

  function IdsOf(elements: seq<Element>): set<string> {
    set e | e in elements :: e.id
  }

  /** Those of `rest` near `a` whose id is new, each id once. */
  function Gather(a: Element, rest: seq<Element>, used: set<string>, threshold: int): seq<Element> {
    if rest == [] then []
    else if rest[0].id !in used && Near(a, rest[0], threshold) then
      [rest[0]] + Gather(a, rest[1..], used + {rest[0].id}, threshold)
    else Gather(a, rest[1..], used, threshold)
  }

  /** The groups that the two loops form, whatever ids the elements have. */
  function IdGroups(rest: seq<Element>, used: set<string>, threshold: int): seq<seq<Element>> {
    if rest == [] then []
    else if rest[0].id in used then IdGroups(rest[1..], used, threshold)
    else
      var group := [rest[0]] + Gather(rest[0], rest[1..], used + {rest[0].id}, threshold);
      [group] + IdGroups(rest[1..], used + IdsOf(group), threshold)
  }

  lemma IdsOfConcat(a: seq<Element>, b: seq<Element>)
    ensures IdsOf(a + b) == IdsOf(a) + IdsOf(b)
  {
  }

  lemma GatherStep(a: Element, elements: seq<Element>, j: nat, used: set<string>, threshold: int)
    requires j < |elements|
    ensures Gather(a, elements[j..], used, threshold)
         == if elements[j].id !in used && Near(a, elements[j], threshold)
            then [elements[j]] + Gather(a, elements[j + 1..], used + {elements[j].id}, threshold)
            else Gather(a, elements[j + 1..], used, threshold)
  {
    hide Near;
    assert elements[j..][1..] == elements[j + 1..];
  }

  /** The inner loop, for the element at place i. */
  method GatherGroup(elements: seq<Element>, i: nat, used: set<string>, threshold: int)
    returns (group: seq<Element>, after: set<string>)
    requires i < |elements|
    ensures group == [elements[i]] + Gather(elements[i], elements[i + 1..], used + {elements[i].id}, threshold)
    ensures after == used + IdsOf(group)
  {
    hide Near, Gather, IdsOf;
    var a := elements[i];
    group, after := [a], used + {a.id};
    OneId(a);
    ghost var whole := Gather(a, elements[i + 1..], after, threshold);
    for j := i + 1 to |elements|
      invariant [a] + whole == group + Gather(a, elements[j..], after, threshold)
      invariant after == used + IdsOf(group)
    {
      var b := elements[j];
      GatherStep(a, elements, j, after, threshold);
      if b.id !in after && Near(a, b, threshold) {
        IdsOfConcat(group, [b]);
        OneId(b);
        group, after := group + [b], after + {b.id};
      }
    }
    NothingGathered(a, elements, after, threshold);
  }

  lemma OneId(a: Element)
    ensures IdsOf([a]) == {a.id}
  {
  }

  lemma NothingGathered(a: Element, elements: seq<Element>, used: set<string>, threshold: int)
    ensures Gather(a, elements[|elements|..], used, threshold) == []
    ensures IdGroups(elements[|elements|..], used, threshold) == []
  {
    assert elements[|elements|..] == [];
  }

  lemma GroupsStep(elements: seq<Element>, i: nat, used: set<string>, threshold: int)
    requires i < |elements|
    ensures IdGroups(elements[i..], used, threshold)
         == if elements[i].id in used then IdGroups(elements[i + 1..], used, threshold)
            else
              var group := [elements[i]] + Gather(elements[i], elements[i + 1..], used + {elements[i].id}, threshold);
              [group] + IdGroups(elements[i + 1..], used + IdsOf(group), threshold)
  {
    hide Gather, IdsOf;
    assert elements[i..][1..] == elements[i + 1..];
  }

  /** The method, for any elements: its loops over one list with a set of used ids form the groups, each merged. */
  method MergeNearby(elements: seq<Element>, newId: nat -> string, threshold: int := 8) returns (merged: seq<Element>)
    ensures AllGroups(IdGroups(elements, {}, threshold)) && merged == MergeAll(IdGroups(elements, {}, threshold), newId)
    ensures |elements| <= 1 ==> merged == elements
  {
    hide Near, Gather, Merge, IdGroups, IdsOf;
    if |elements| <= 1 {
      ShortList(elements, threshold, newId);
      return elements;
    }
    merged := [];
    var used: set<string> := {};
    ghost var groups: seq<seq<Element>> := [];
    assert elements[0..] == elements;
    for i := 0 to |elements|
      invariant AllGroups(groups) && merged == MergeAll(groups, newId)
      invariant IdGroups(elements, {}, threshold) == groups + IdGroups(elements[i..], used, threshold)
    {
      GroupsStep(elements, i, used, threshold);
      if elements[i].id !in used {
        var group, after := GatherGroup(elements, i, used, threshold);
        merged := merged + [Merge(group, newId(|merged|))];
        assert (groups + [group])[..|groups|] == groups;
        groups, used := groups + [group], after;
      }
    }
    NothingGathered(elements[0], elements, used, threshold);
    assert IdGroups(elements, {}, threshold) == groups;
  }

  lemma ShortList(elements: seq<Element>, threshold: int, newId: nat -> string)
    requires |elements| <= 1
    ensures AllGroups(IdGroups(elements, {}, threshold))
    ensures MergeAll(IdGroups(elements, {}, threshold), newId) == elements
  {
    if |elements| == 1 {
      var a := elements[0];
      assert elements == [a] && elements[0..] == elements && elements[1..] == [];
      GroupsStep(elements, 0, {}, threshold);
      NothingGathered(a, elements, {} + {a.id}, threshold);
      NothingGathered(a, elements, {} + IdsOf([a]), threshold);
      assert [a] + [] == [a];
      assert IdGroups(elements, {}, threshold) == [[a]];
      assert MergeAll([], newId) == [] && [[a]][..0] == [];
    }
  }

  // ---------------------------------------------------------------- with distinct ids

  ghost predicate DistinctIds(elements: seq<Element>) {
    forall i, j | 0 <= i < j < |elements| :: elements[i].id != elements[j].id
  }

  function Unused(rest: seq<Element>, used: set<string>): seq<Element> {
    if rest == [] then []
    else if rest[0].id in used then Unused(rest[1..], used)
    else [rest[0]] + Unused(rest[1..], used)
  }

  lemma {:induction false} UnusedNone(rest: seq<Element>)
    ensures Unused(rest, {}) == rest
  {
    if rest != [] { UnusedNone(rest[1..]); }
  }

  lemma {:induction false} UnusedOther(rest: seq<Element>, used: set<string>, id: string)
    requires forall k | 0 <= k < |rest| :: rest[k].id != id
    ensures Unused(rest, used + {id}) == Unused(rest, used)
  {
    if rest != [] { UnusedOther(rest[1..], used, id); }
  }

  lemma TailDistinct(rest: seq<Element>)
    requires rest != [] && DistinctIds(rest)
    ensures DistinctIds(rest[1..]) && forall k | 0 <= k < |rest[1..]| :: rest[1..][k].id != rest[0].id
  {
  }

  /** With distinct ids the inner loop takes the unused near elements ... */
  lemma {:induction false} GatherIsSplit(a: Element, rest: seq<Element>, used: set<string>, threshold: int)
    requires DistinctIds(rest)
    ensures Gather(a, rest, used, threshold) == Split(a, Unused(rest, used), threshold, true)
  {
    hide Near, DistinctIds;
    if rest != [] {
      TailDistinct(rest);
      UnusedOther(rest[1..], used, rest[0].id);
      GatherIsSplit(a, rest[1..], used + {rest[0].id}, threshold);
      GatherIsSplit(a, rest[1..], used, threshold);
    }
  }

  /** ... and what it leaves unused are the unused far ones. */
  lemma {:induction false} UnusedIsSplit(a: Element, rest: seq<Element>, used: set<string>, threshold: int)
    requires DistinctIds(rest)
    ensures Unused(rest, used + IdsOf(Gather(a, rest, used, threshold)))
        == Split(a, Unused(rest, used), threshold, false)
  {
    hide Near, DistinctIds, IdsOf;
    if rest != [] {
      var e, tail := rest[0], rest[1..];
      TailDistinct(rest);
      UnusedIsSplit(a, tail, used, threshold);
      UnusedIsSplit(a, tail, used + {e.id}, threshold);
      UnusedOther(tail, used, e.id);
      GatheredFrom(a, tail, used, threshold);
      if e.id !in used && Near(a, e, threshold) {
        IdsOfConcat([e], Gather(a, tail, used + {e.id}, threshold));
        OneId(e);
        assert used + ({e.id} + IdsOf(Gather(a, tail, used + {e.id}, threshold)))
            == used + {e.id} + IdsOf(Gather(a, tail, used + {e.id}, threshold));
      } else if e.id !in used {
        NotAmong(e.id, tail, Gather(a, tail, used, threshold));
      }
    }
  }

  lemma {:induction false} GatheredFrom(a: Element, rest: seq<Element>, used: set<string>, threshold: int)
    ensures forall e | e in Gather(a, rest, used, threshold) :: e in rest
  {
    hide Near;
    if rest != [] {
      GatheredFrom(a, rest[1..], used, threshold);
      GatheredFrom(a, rest[1..], used + {rest[0].id}, threshold);
    }
  }

  lemma NotAmong(id: string, rest: seq<Element>, part: seq<Element>)
    requires (forall e | e in part :: e in rest) && forall k | 0 <= k < |rest| :: rest[k].id != id
    ensures id !in IdsOf(part)
  {
  }

  /** On elements with distinct ids the loops form the groups of the first section. */
  lemma {:induction false} DistinctGroups(rest: seq<Element>, used: set<string>, threshold: int)
    requires DistinctIds(rest)
    ensures IdGroups(rest, used, threshold) == Groups(Unused(rest, used), threshold)
  {
    hide Near, DistinctIds, Split, Gather, IdsOf;
    if rest != [] {
      var a, tail := rest[0], rest[1..];
      TailDistinct(rest);
      if a.id in used {
        DistinctGroups(tail, used, threshold);
      } else {
        var group := [a] + Gather(a, tail, used + {a.id}, threshold);
        DistinctGroups(tail, used + IdsOf(group), threshold);
        UnusedOther(tail, used, a.id);
        GatherIsSplit(a, tail, used + {a.id}, threshold);
        UnusedIsSplit(a, tail, used + {a.id}, threshold);
        IdsOfConcat([a], Gather(a, tail, used + {a.id}, threshold));
        OneId(a);
        assert used + IdsOf(group) == used + {a.id} + IdsOf(Gather(a, tail, used + {a.id}, threshold));
        NextGroup([a] + Unused(tail, used), threshold);
      }
    }
  }

  lemma NextGroup(rest: seq<Element>, threshold: int)
    requires rest != []
    ensures Groups(rest, threshold)
         == [[rest[0]] + Split(rest[0], rest[1..], threshold, true)]
            + Groups(Split(rest[0], rest[1..], threshold, false), threshold)
  {
  }

  lemma DistinctAreGreedy(elements: seq<Element>, threshold: int)
    requires DistinctIds(elements)
    ensures IdGroups(elements, {}, threshold) == Groups(elements, threshold)
  {
    UnusedNone(elements);
    DistinctGroups(elements, {}, threshold);
  }

  // ---------------------------------------------------------------- with repeated ids

  lemma DistinctConcat(a: seq<Element>, b: seq<Element>)
    requires DistinctIds(a) && DistinctIds(b) && IdsOf(a) !! IdsOf(b)
    ensures DistinctIds(a + b)
  {
    forall i, j | 0 <= i < j < |a + b| ensures (a + b)[i].id != (a + b)[j].id {
      if i < |a| <= j {
        assert a[i].id in IdsOf(a) && b[j - |a|].id in IdsOf(b);
      } else if |a| <= i {
        assert b[i - |a|].id != b[j - |a|].id;
      }
    }
  }

  lemma {:induction false} GatherOnce(a: Element, rest: seq<Element>, used: set<string>, threshold: int)
    ensures DistinctIds(Gather(a, rest, used, threshold)) && IdsOf(Gather(a, rest, used, threshold)) !! used
    ensures IdsOf(Gather(a, rest, used, threshold)) <= IdsOf(rest)
  {
    hide Near, DistinctIds, IdsOf;
    if rest == [] {
      NoneDistinct();
    } else {
      var e, tail := rest[0], rest[1..];
      assert rest == [e] + tail;
      IdsOfConcat([e], tail);
      OneId(e);
      if e.id !in used && Near(a, e, threshold) {
        GatherOnce(a, tail, used + {e.id}, threshold);
        NoneDistinct();
        OneDistinct(e);
        DistinctConcat([e], Gather(a, tail, used + {e.id}, threshold));
        IdsOfConcat([e], Gather(a, tail, used + {e.id}, threshold));
      } else {
        GatherOnce(a, tail, used, threshold);
      }
    }
  }

  lemma NoneDistinct()
    ensures DistinctIds([]) && IdsOf([]) == {}
  {
  }

  lemma OneDistinct(e: Element)
    ensures DistinctIds([e])
  {
  }

  /** Whatever the ids: every id of the list that is not used yet is in the groups exactly once. */
  lemma {:induction false} EachIdOnce(rest: seq<Element>, used: set<string>, threshold: int)
    ensures DistinctIds(Members(IdGroups(rest, used, threshold)))
    ensures IdsOf(Members(IdGroups(rest, used, threshold))) == IdsOf(rest) - used
  {
    hide Near, DistinctIds, IdsOf, Gather;
    if rest == [] {
      NoneDistinct();
    } else {
      var a, tail := rest[0], rest[1..];
      assert rest == [a] + tail;
      IdsOfConcat([a], tail);
      OneId(a);
      if a.id in used {
        EachIdOnce(tail, used, threshold);
      } else {
        var gathered := Gather(a, tail, used + {a.id}, threshold);
        var group := [a] + gathered;
        var later := IdGroups(tail, used + IdsOf(group), threshold);
        GatherOnce(a, tail, used + {a.id}, threshold);
        OneDistinct(a);
        DistinctConcat([a], gathered);
        IdsOfConcat([a], gathered);
        EachIdOnce(tail, used + IdsOf(group), threshold);
        assert ([group] + later)[1..] == later;
        DistinctConcat(group, Members(later));
        IdsOfConcat(group, Members(later));
      }
    }
  }

  lemma CountsTwice<T(!new)>(s: seq<T>, i: nat, j: nat)
    requires i < j < |s| && s[i] == s[j]
    ensures multiset(s)[s[i]] >= 2
  {
    assert s == s[..j] + [s[j]] + s[j + 1..];
    assert s[..j][i] == s[i];
    assert multiset(s) == multiset(s[..j]) + multiset{s[j]} + multiset(s[j + 1..]);
    assert s[i] in multiset(s[..j]);
  }

  lemma {:induction false} CountsOnce(s: seq<Element>, e: Element)
    requires DistinctIds(s)
    ensures multiset(s)[e] <= 1
  {
    if s != [] {
      CountsOnce(s[1..], e);
      assert s == [s[0]] + s[1..];
      if e == s[0] { assert forall k | 0 <= k < |s[1..]| :: s[1..][k] != e; }
    }
  }

  lemma SameDistinct(a: seq<Element>, b: seq<Element>)
    requires multiset(a) == multiset(b) && DistinctIds(a)
    ensures DistinctIds(b)
  {
    forall i, j | 0 <= i < j < |b| ensures b[i].id != b[j].id {
      assert b[i] in multiset(b) && b[j] in multiset(b);
      assert b[i] in a && b[j] in a;
      if b[i] == b[j] {
        CountsTwice(b, i, j);
        CountsOnce(a, b[i]);
      }
    }
  }

  /** The groups hold every element exactly once if and only if no two share an id; otherwise
      elements whose id another one has are lost. */
  lemma AllGroupedIff(elements: seq<Element>, threshold: int)
    ensures multiset(Members(IdGroups(elements, {}, threshold))) == multiset(elements) <==> DistinctIds(elements)
  {
    hide DistinctIds, Near, IdsOf, IdGroups, Groups;
    if DistinctIds(elements) {
      DistinctAreGreedy(elements, threshold);
      GroupsPartition(elements, threshold);
    } else if multiset(Members(IdGroups(elements, {}, threshold))) == multiset(elements) {
      EachIdOnce(elements, {}, threshold);
      SameDistinct(Members(IdGroups(elements, {}, threshold)), elements);
    }
  }

  // ---------------------------------------------------------------- leaders, whatever the ids

  lemma GroupsCons(rest: seq<Element>, used: set<string>, threshold: int)
    requires rest != [] && rest[0].id !in used
    ensures var group := [rest[0]] + Gather(rest[0], rest[1..], used + {rest[0].id}, threshold);
      IdGroups(rest, used, threshold) == [group] + IdGroups(rest[1..], used + IdsOf(group), threshold)
  {
    hide Gather, IdsOf;
  }

  lemma {:induction false} GatheredNear(a: Element, rest: seq<Element>, used: set<string>, threshold: int)
    ensures forall e | e in Gather(a, rest, used, threshold) :: Near(a, e, threshold)
  {
    hide Near;
    if rest != [] {
      GatheredNear(a, rest[1..], used, threshold);
      GatheredNear(a, rest[1..], used + {rest[0].id}, threshold);
    }
  }

  /** Whatever is near and comes later has its id used by the time the inner loop ends. */
  lemma {:induction false} NearIsUsed(a: Element, rest: seq<Element>, used: set<string>, threshold: int, e: Element)
    requires e in rest && Near(a, e, threshold)
    ensures e.id in used + IdsOf(Gather(a, rest, used, threshold))
  {
    hide Near, IdsOf;
    var first, tail := rest[0], rest[1..];
    if first.id !in used && Near(a, first, threshold) {
      IdsOfConcat([first], Gather(a, tail, used + {first.id}, threshold));
      OneId(first);
      if e != first { NearIsUsed(a, tail, used + {first.id}, threshold, e); }
    } else if e != first {
      NearIsUsed(a, tail, used, threshold, e);
    }
  }

  /** A member comes from the list, with an id not used before. */
  lemma {:induction false} MemberIsNew(rest: seq<Element>, used: set<string>, threshold: int, k: nat, e: Element)
    requires k < |IdGroups(rest, used, threshold)| && e in IdGroups(rest, used, threshold)[k]
    ensures e in rest && e.id !in used
  {
    hide Near, IdsOf, Gather;
    var a, tail := rest[0], rest[1..];
    if a.id in used {
      MemberIsNew(tail, used, threshold, k, e);
    } else {
      var group := [a] + Gather(a, tail, used + {a.id}, threshold);
      if k == 0 {
        GatheredFrom(a, tail, used + {a.id}, threshold);
        GatherOnce(a, tail, used + {a.id}, threshold);
        if e != a { IdIn(e, Gather(a, tail, used + {a.id}, threshold)); }
      } else {
        MemberIsNew(tail, used + IdsOf(group), threshold, k - 1, e);
      }
    }
  }

  lemma IdIn(e: Element, s: seq<Element>)
    requires e in s
    ensures e.id in IdsOf(s)
  {
  }

  /** For any elements: a member is near its own leader, the first of its group, and near the leader of no
      earlier group.  It joined the first leader it could. */
  lemma {:induction false} JoinsFirstLeader(rest: seq<Element>, used: set<string>, threshold: int, k: nat,
          e: Element, j: nat)
    requires threshold >= 0 && j <= k < |IdGroups(rest, used, threshold)| && e in IdGroups(rest, used, threshold)[k]
    ensures IdGroups(rest, used, threshold)[j] != []
    ensures Near(IdGroups(rest, used, threshold)[j][0], e, threshold) <==> j == k
  {
    hide Near, IdsOf, Gather;
    var a, tail := rest[0], rest[1..];
    if a.id in used {
      JoinsFirstLeader(tail, used, threshold, k, e, j);
    } else {
      var gathered := Gather(a, tail, used + {a.id}, threshold);
      var group := [a] + gathered;
      GroupsCons(rest, used, threshold);
      if j > 0 {
        JoinsFirstLeader(tail, used + IdsOf(group), threshold, k - 1, e, j - 1);
      } else if k == 0 {
        NearItself(a, threshold);
        GatheredNear(a, tail, used + {a.id}, threshold);
      } else {
        MemberIsNew(tail, used + IdsOf(group), threshold, k - 1, e);
        IdsOfConcat([a], gathered);
        OneId(a);
        if Near(a, e, threshold) { NearIsUsed(a, tail, used + {a.id}, threshold, e); }
      }
    }
  }

  // ---------------------------------------------------------------- order

  lemma {:induction false} GatheredPlace(a: Element, rest: seq<Element>, used: set<string>, threshold: int, i: nat)
    returns (p: nat)
    requires i < |Gather(a, rest, used, threshold)|
    ensures p < |rest| && rest[p] == Gather(a, rest, used, threshold)[i]
  {
    GatheredFrom(a, rest, used, threshold);
    var e := Gather(a, rest, used, threshold)[i];
    assert e in rest;
    p :| 0 <= p < |rest| && rest[p] == e;
  }

  lemma {:induction false} GatheredPlaces(a: Element, rest: seq<Element>, used: set<string>, threshold: int,
                                          i: nat, j: nat) returns (p: nat, q: nat)
    requires i < j < |Gather(a, rest, used, threshold)|
    ensures p < q < |rest|
    ensures rest[p] == Gather(a, rest, used, threshold)[i] && rest[q] == Gather(a, rest, used, threshold)[j]
  {
    hide Near;
    var tail := rest[1..];
    if rest[0].id !in used && Near(a, rest[0], threshold) {
      if i == 0 {
        p := 0;
        q := GatheredPlace(a, tail, used + {rest[0].id}, threshold, j - 1);
      } else {
        p, q := GatheredPlaces(a, tail, used + {rest[0].id}, threshold, i - 1, j - 1);
        p := p + 1;
      }
    } else {
      p, q := GatheredPlaces(a, tail, used, threshold, i, j);
      p := p + 1;
    }
    q := q + 1;
  }

  /** Members of a group stand in the order of the list. */
  lemma {:induction false} GroupKeepsOrder(rest: seq<Element>, used: set<string>, threshold: int, k: nat,
                                           i: nat, j: nat)
    returns (p: nat, q: nat)
    requires k < |IdGroups(rest, used, threshold)| && i < j < |IdGroups(rest, used, threshold)[k]|
    ensures p < q < |rest|
    ensures rest[p] == IdGroups(rest, used, threshold)[k][i] && rest[q] == IdGroups(rest, used, threshold)[k][j]
  {
    hide Near, IdsOf, Gather;
    var a, tail := rest[0], rest[1..];
    if a.id in used {
      p, q := GroupKeepsOrder(tail, used, threshold, k, i, j);
      p := p + 1;
    } else {
      var group := [a] + Gather(a, tail, used + {a.id}, threshold);
      GroupsCons(rest, used, threshold);
      if k > 0 {
        p, q := GroupKeepsOrder(tail, used + IdsOf(group), threshold, k - 1, i, j);
        p := p + 1;
      } else if i > 0 {
        p, q := GatheredPlaces(a, tail, used + {a.id}, threshold, i - 1, j - 1);
        p := p + 1;
      } else {
        p := 0;
        q := GatheredPlace(a, tail, used + {a.id}, threshold, j - 1);
      }
    }
    q := q + 1;
  }

  /** So do the leaders of the groups, hence the merged elements. */
  lemma {:induction false} LeadersKeepOrder(rest: seq<Element>, used: set<string>, threshold: int, k: nat, l: nat)
    returns (p: nat, q: nat)
    requires k < l < |IdGroups(rest, used, threshold)|
    ensures IdGroups(rest, used, threshold)[k] != [] && IdGroups(rest, used, threshold)[l] != []
    ensures p < q < |rest|
    ensures rest[p] == IdGroups(rest, used, threshold)[k][0] && rest[q] == IdGroups(rest, used, threshold)[l][0]
  {
    hide Near, IdsOf, Gather;
    var a, tail := rest[0], rest[1..];
    if a.id in used {
      p, q := LeadersKeepOrder(tail, used, threshold, k, l);
      p := p + 1;
    } else {
      var group := [a] + Gather(a, tail, used + {a.id}, threshold);
      GroupsCons(rest, used, threshold);
      if k > 0 {
        p, q := LeadersKeepOrder(tail, used + IdsOf(group), threshold, k - 1, l - 1);
        p := p + 1;
      } else {
        p := 0;
        q := LeaderPlace(tail, used + IdsOf(group), threshold, l - 1);
      }
    }
    q := q + 1;
  }

  lemma {:induction false} LeaderPlace(rest: seq<Element>, used: set<string>, threshold: int, k: nat) returns (p: nat)
    requires k < |IdGroups(rest, used, threshold)|
    ensures IdGroups(rest, used, threshold)[k] != []
    ensures p < |rest| && rest[p] == IdGroups(rest, used, threshold)[k][0]
  {
    hide Near, IdsOf, Gather;
    var a, tail := rest[0], rest[1..];
    if a.id in used {
      p := LeaderPlace(tail, used, threshold, k);
      p := p + 1;
    } else {
      GroupsCons(rest, used, threshold);
      var group := [a] + Gather(a, tail, used + {a.id}, threshold);
      if k == 0 {
        p := 0;
      } else {
        p := LeaderPlace(tail, used + IdsOf(group), threshold, k - 1);
        p := p + 1;
      }
    }
  }
}
