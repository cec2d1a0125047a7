/** Python's `sorted` and `list.sort` with a key: the stable sort of a sequence under a total
    preorder, as a function, and the facts that pin it down. */
module StableSort {

  ghost predicate TotalPreorder<T(!new)>(le: (T, T) -> bool) {
    && (forall a, b :: le(a, b) || le(b, a))
    && (forall a, b, c :: le(a, b) && le(b, c) ==> le(a, c))
  }

  predicate SortedBy<T>(le: (T, T) -> bool, s: seq<T>) {
    forall i, j | 0 <= i < j < |s| :: le(s[i], s[j])
  }

  function Insert<T>(le: (T, T) -> bool, x: T, s: seq<T>): seq<T> {
    if s == [] then [x]
    else if le(x, s[0]) then [x] + s
    else [s[0]] + Insert(le, x, s[1..])
  }

  function Sort<T>(le: (T, T) -> bool, s: seq<T>): seq<T> {
    if s == [] then [] else Insert(le, s[0], Sort(le, s[1..]))
  }

  lemma {:induction false} InsertKeeps<T(!new)>(le: (T, T) -> bool, x: T, s: seq<T>)
    ensures multiset(Insert(le, x, s)) == multiset(s) + multiset{x}
    ensures |Insert(le, x, s)| == |s| + 1
  {
    if s != [] && !le(x, s[0]) {
      InsertKeeps(le, x, s[1..]);
      assert s == [s[0]] + s[1..];
    }
  }

  lemma {:induction false} InsertSorted<T(!new)>(le: (T, T) -> bool, x: T, s: seq<T>)
    requires TotalPreorder(le) && SortedBy(le, s)
    ensures SortedBy(le, Insert(le, x, s))
  {
    if s == [] {
    } else if le(x, s[0]) {
      forall j | 0 <= j < |s| ensures le(x, s[j]) {
        assert le(s[0], s[j]);
      }
    } else {
      InsertSorted(le, x, s[1..]);
      var t := Insert(le, x, s[1..]);
      InsertKeeps(le, x, s[1..]);
      forall j | 0 <= j < |t| ensures le(s[0], t[j]) {
        assert t[j] in multiset(t);
        if t[j] != x {
          assert t[j] in multiset(s[1..]);
          assert t[j] in s[1..];
        }
      }
    }
  }

  /** Sorting permutes its input into order. */
  lemma {:induction false} SortCorrect<T(!new)>(le: (T, T) -> bool, s: seq<T>)
    requires TotalPreorder(le)
    ensures SortedBy(le, Sort(le, s))
    ensures multiset(Sort(le, s)) == multiset(s) && |Sort(le, s)| == |s|
  {
    if s != [] {
      hide SortedBy, Insert, TotalPreorder;
      SortCorrect(le, s[1..]);
      InsertSorted(le, s[0], Sort(le, s[1..]));
      InsertKeeps(le, s[0], Sort(le, s[1..]));
      assert s == [s[0]] + s[1..];
    }
  }

  lemma SameElements<T(!new)>(a: seq<T>, b: seq<T>, x: T)
    requires multiset(a) == multiset(b)
    ensures x in a <==> x in b
  {
    assert x in a <==> x in multiset(a);
    assert x in b <==> x in multiset(b);
  }

  function TieOf<T>(le: (T, T) -> bool, x: T, y: T): seq<T> {
    if le(x, y) && le(y, x) then [y] else []
  }

  /** The elements of `s` that tie with `x`, in order. */
  function Ties<T>(le: (T, T) -> bool, x: T, s: seq<T>): seq<T> {
    if s == [] then [] else TieOf(le, x, s[0]) + Ties(le, x, s[1..])
  }

  lemma {:induction false} InsertStable<T(!new)>(le: (T, T) -> bool, x: T, y: T, s: seq<T>)
    requires TotalPreorder(le)
    ensures Ties(le, x, Insert(le, y, s)) == TieOf(le, x, y) + Ties(le, x, s)
  {
    if s == [] {
    } else if le(y, s[0]) {
      assert ([y] + s)[1..] == s;
    } else {
      InsertStable(le, x, y, s[1..]);
      var t := Insert(le, y, s[1..]);
      assert ([s[0]] + t)[1..] == t;
    }
  }

  /** Ties keep their input order. */
  lemma {:induction false} SortStable<T(!new)>(le: (T, T) -> bool, x: T, s: seq<T>)
    requires TotalPreorder(le)
    ensures Ties(le, x, Sort(le, s)) == Ties(le, x, s)
  {
    hide TieOf, Insert, TotalPreorder;
    if s != [] {
      SortStable(le, x, s[1..]);
      InsertStable(le, x, s[0], Sort(le, s[1..]));
    }
  }

  lemma LeastFirst<T(!new)>(le: (T, T) -> bool, s: seq<T>, x: T)
    requires TotalPreorder(le) && SortedBy(le, s) && x in s
    ensures le(s[0], x)
  {
    var i :| 0 <= i < |s| && s[i] == x;
    if i == 0 { assert le(x, x) || le(x, x); }
  }

  lemma SameHead<T(!new)>(le: (T, T) -> bool, a: seq<T>, b: seq<T>)
    requires TotalPreorder(le) && SortedBy(le, a) && SortedBy(le, b) && multiset(a) == multiset(b) && a != []
    requires forall x, y | x in a && y in a && le(x, y) && le(y, x) :: x == y
    ensures b != [] && a[0] == b[0]
  {
    SameElements(a, b, a[0]);
    SameElements(a, b, b[0]);
    LeastFirst(le, a, b[0]);
    LeastFirst(le, b, a[0]);
  }

  lemma TailMultiset<T(!new)>(s: seq<T>)
    requires s != []
    ensures multiset(s[1..]) == multiset(s) - multiset{s[0]}
  {
    assert s == [s[0]] + s[1..];
  }

  lemma TailSorted<T(!new)>(le: (T, T) -> bool, s: seq<T>)
    requires SortedBy(le, s) && s != []
    ensures SortedBy(le, s[1..])
  {
  }

  /** Two orderings of the same elements agree when only equal elements tie. */
  lemma {:induction false} SortedUnique<T(!new)>(le: (T, T) -> bool, a: seq<T>, b: seq<T>)
    requires TotalPreorder(le) && SortedBy(le, a) && SortedBy(le, b) && multiset(a) == multiset(b)
    requires forall x, y | x in a && y in a && le(x, y) && le(y, x) :: x == y
    ensures a == b
  {
    hide TotalPreorder, SortedBy;
    if a == [] {
      assert |multiset(b)| == 0;
    } else {
      SameHead(le, a, b);
      TailSorted(le, a);
      TailSorted(le, b);
      TailMultiset(a);
      TailMultiset(b);
      SortedUnique(le, a[1..], b[1..]);
      assert a == [a[0]] + a[1..] && b == [b[0]] + b[1..];
    }
  }
}
