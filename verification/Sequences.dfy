/** Small facts about sequences read as sets, shared by the modules of this project. */
module Sequences {

  predicate NoDup<T(==)>(s: seq<T>) {
    forall i, j | 0 <= i < j < |s| :: s[i] != s[j]
  }

  function SetOf<T>(s: seq<T>): set<T> {
    set x | x in s
  }

  function Flatten<T>(ss: seq<seq<T>>): seq<T> {
    if ss == [] then [] else Flatten(ss[..|ss| - 1]) + ss[|ss| - 1]
  }

  /** Python's `s[:k]`. */
  function SliceTo<T>(s: seq<T>, k: int): (r: seq<T>)
    ensures r <= s
    ensures |r| == if k >= 0 then (if k <= |s| then k else |s|) else (if |s| + k >= 0 then |s| + k else 0)
  {
    if k >= 0 then (if k <= |s| then s[..k] else s)
    else if |s| + k >= 0 then s[..|s| + k] else []
  }

  lemma SetOfConcat<T>(a: seq<T>, b: seq<T>)
    ensures SetOf(a + b) == SetOf(a) + SetOf(b)
  {
  }

  lemma FlattenSnoc<T>(ss: seq<seq<T>>, s: seq<T>)
    ensures Flatten(ss + [s]) == Flatten(ss) + s
  {
    assert (ss + [s])[..|ss|] == ss;
  }

  lemma {:induction false} FlattenPrefix<T>(ss: seq<seq<T>>, i: nat)
    requires i <= |ss|
    ensures Flatten(ss[..i]) <= Flatten(ss)
    decreases |ss| - i
  {
    if i < |ss| {
      FlattenPrefix(ss, i + 1);
      assert ss[..i + 1] == ss[..i] + [ss[i]];
      FlattenSnoc(ss[..i], ss[i]);
    } else {
      assert ss[..i] == ss;
    }
  }

  lemma {:induction false} InFlatten<T>(ss: seq<seq<T>>, x: T) returns (j: nat)
    requires x in Flatten(ss)
    ensures j < |ss| && x in ss[j]
  {
    var n := |ss| - 1;
    if x in ss[n] { j := n; } else { j := InFlatten(ss[..n], x); }
  }

  lemma NoDupConcat<T>(a: seq<T>, b: seq<T>)
    requires NoDup(a) && NoDup(b) && SetOf(a) !! SetOf(b)
    ensures NoDup(a + b)
  {
    forall i, j | 0 <= i < j < |a + b| ensures (a + b)[i] != (a + b)[j] {
      if i < |a| <= j {
        assert a[i] in SetOf(a) && b[j - |a|] in SetOf(b);
      }
    }
  }

  lemma {:induction false} NoDupCardinality<T>(s: seq<T>)
    requires NoDup(s)
    ensures |SetOf(s)| == |s|
  {
    if s == [] {
      assert SetOf(s) == {};
    } else {
      var init, last := s[..|s| - 1], s[|s| - 1];
      NoDupCardinality(init);
      assert s == init + [last];
      assert SetOf(s) == SetOf(init) + {last};
    }
  }

  lemma {:induction false} NoDupCount<T>(s: seq<T>, x: T)
    requires NoDup(s)
    ensures multiset(s)[x] <= 1
  {
    if s != [] {
      var init, last := s[..|s| - 1], s[|s| - 1];
      NoDupCount(init, x);
      assert s == init + [last];
      assert last !in init;
    }
  }

  lemma NoDupPermuted<T>(a: seq<T>, b: seq<T>)
    requires NoDup(a) && multiset(a) == multiset(b)
    ensures NoDup(b)
  {
    forall i, j | 0 <= i < j < |b| ensures b[i] != b[j] {
      NoDupCount(a, b[i]);
      assert b == b[..j] + [b[j]] + b[j + 1..];
      assert b[i] in b[..j];
    }
  }

  lemma {:induction false} SetEnumerated<T>(xs: set<T>) returns (s: seq<T>)
    ensures NoDup(s) && SetOf(s) == xs
  {
    if xs == {} {
      s := [];
    } else {
      var x :| x in xs;
      s := SetEnumerated(xs - {x});
      NoDupConcat([x], s);
      SetOfConcat([x], s);
      s := [x] + s;
    }
  }

  lemma {:induction false} SubsetCardinality<T>(a: set<T>, b: set<T>)
    requires a <= b
    ensures |a| <= |b|
    ensures |a| == |b| ==> a == b
    decreases a
  {
    if a != {} {
      var x :| x in a;
      SubsetCardinality(a - {x}, b - {x});
      assert a == (a - {x}) + {x} && b == (b - {x}) + {x};
    }
  }
}
