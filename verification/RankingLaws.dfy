/** What decides a score and the order of a ranking, in the terms of the records themselves. */
module RankingLaws {
  import opened Sequences
  import opened StableSort
  import opened MemoryRanking
  import opened Wrappers

  // ---------------------------------------------------------------- scores

  /** Rounding goes to the nearest multiple of 1/10000, and to an even one when two are nearest. */
  lemma {:induction false} RoundNearest(r: real) returns (k: int)
    ensures Round4(r) == k as real / 10000.0
    ensures -0.5 <= r * 10000.0 - k as real <= 0.5
    ensures r * 10000.0 - k as real == 0.5 || r * 10000.0 - k as real == -0.5 ==> k % 2 == 0
  {
    var scaled := r * 10000.0;
    var rest := scaled - scaled.Floor as real;
    k := if rest < 0.5 || (rest == 0.5 && scaled.Floor % 2 == 0) then scaled.Floor else scaled.Floor + 1;
  }

  ghost predicate Unit(c: real) {
    0.0 <= c <= 1.0
  }

  /** What distinguishes two records, in tenths of a point: three for confidence, two for recency, one for usefulness,
      and the flags. */
  ghost function Lead(r: Record, s: Record, isSynthesis: bool): real {
    3.0 * (r.confidence - s.confidence) + 2.0 * (r.recency - s.recency) + (r.usefulness - s.usefulness)
    + (FlagWeight(r, isSynthesis) - FlagWeight(s, isSynthesis)) as real / 10.0
  }

  lemma RawLead(r: Record, s: Record, isSynthesis: bool, now: real)
    requires Unit(r.confidence) && Unit(s.confidence) && r.recency != 0.5 && s.recency != 0.5
    ensures RawScore(r, isSynthesis, now) - RawScore(s, isSynthesis, now) == Lead(r, s, isSynthesis) / 10.0
  {
    assert Clamp(r.confidence) == r.confidence && Clamp(s.confidence) == s.confidence;
    hide Clamp, RecencyWeight;
  }

  /** Three parts confidence, two parts recency and one part usefulness are weighed against each other and against
      the flags; a lead shows in the score as soon as rounding cannot hide it, and is never reversed. */
  lemma {:induction false} LeadDecides(r: Record, s: Record, isSynthesis: bool, now: real)
    requires Unit(r.confidence) && Unit(s.confidence) && r.recency != 0.5 && s.recency != 0.5
    ensures var a, b := ScoreRecord(r, isSynthesis, now).score, ScoreRecord(s, isSynthesis, now).score;
      && (Lead(r, s, isSynthesis) >= 0.002 ==> a > b)
      && (Lead(r, s, isSynthesis) >= 0.0 ==> a >= b)
      && -0.0001 <= (a - b) - Lead(r, s, isSynthesis) / 10.0 <= 0.0001
  {
    hide RawScore, Round4, Lead;
    RawLead(r, s, isSynthesis, now);
    var x, y := RawScore(r, isSynthesis, now), RawScore(s, isSynthesis, now);
    Round4Keeps(y, x);
    var j := RoundNearest(x);
    var k := RoundNearest(y);
  }

  /** Confidence counts within [0, 1] only: below 0 as 0, above 1 as 1. */
  lemma {:induction false} ConfidenceClamped(r: Record, isSynthesis: bool, now: real)
    ensures r.confidence <= 0.0 ==>
              ScoreRecord(r, isSynthesis, now).score == ScoreRecord(r.(confidence := 0.0), isSynthesis, now).score
    ensures r.confidence >= 1.0 ==>
              ScoreRecord(r, isSynthesis, now).score == ScoreRecord(r.(confidence := 1.0), isSynthesis, now).score
  {
    hide Round4, RecencyWeight;
  }

  /** A recency of one half stands for none: the age of the record decides, as if its weight had been given. */
  lemma {:induction false} RecencyFromAge(r: Record, isSynthesis: bool, now: real)
    requires r.recency == 0.5
    ensures var w := RecencyWeight(r.timestamp, now);
      w != 0.5 ==>
        ScoreRecord(r, isSynthesis, now).score == ScoreRecord(r.(recency := w), isSynthesis, now).score
  {
    hide Round4, RecencyWeight, Clamp;
  }

  /** Two records weigh the same exactly when neither or both are younger than an hour, a day and a week. */
  lemma {:induction false} RecencyBands(a: real, b: real, now: real)
    requires a > 0.0 && b > 0.0
    ensures RecencyWeight(a, now) == RecencyWeight(b, now) <==>
              && (now - a < 3600.0 <==> now - b < 3600.0)
              && (now - a < 86400.0 <==> now - b < 86400.0)
              && (now - a < 604800.0 <==> now - b < 604800.0)
  {
    BandsOf(a, now);
    BandsOf(b, now);
    hide RecencyWeight;
  }

  lemma BandsOf(t: real, now: real)
    requires t > 0.0
    ensures RecencyWeight(t, now) == 1.0 <==> now - t < 3600.0
    ensures RecencyWeight(t, now) == 0.8 <==> 3600.0 <= now - t < 86400.0
    ensures RecencyWeight(t, now) == 0.5 <==> 86400.0 <= now - t < 604800.0
    ensures RecencyWeight(t, now) == 0.2 <==> 604800.0 <= now - t
  {
    var age := now - t;
    assert age / 3600.0 < 1.0 <==> age < 3600.0;
    assert age / 3600.0 < 24.0 <==> age < 86400.0;
    assert age / 3600.0 < 168.0 <==> age < 604800.0;
  }

  // ---------------------------------------------------------------- the order

  const NAMESPACES: seq<string> :=
    ["evidence", "tool_results", "research", "workflow_outputs", "hierarchical", "reasoning", "cognitive", "shared",
     "general"]

  lemma NamespacePlaces(i: nat)
    requires i < |NAMESPACES|
    ensures Priority(NAMESPACES[i]) == i
  {
  }

  lemma OtherNamespaces(namespace: string)
    requires namespace !in NAMESPACES
    ensures Priority(namespace) == 99
  {
    assert forall n | n in NAMESPACE_PRIORITY :: n in NAMESPACES;
  }

  /** Ids compare at the first place where they differ; a beginning comes before what continues it. */
  lemma {:induction false} StringLeIs(a: string, b: string)
    ensures StringLe(a, b) <==>
              a <= b || exists k :: 0 <= k < |a| && k < |b| && a[..k] == b[..k] && a[k] < b[k]
  {
    if a != [] && b != [] && a[0] == b[0] {
      var s, t := a[1..], b[1..];
      StringLeIs(s, t);
      assert a == [a[0]] + s && b == [b[0]] + t;
      if k :| 0 <= k < |s| && k < |t| && s[..k] == t[..k] && s[k] < t[k] {
        assert a[..k + 1] == [a[0]] + s[..k] && b[..k + 1] == [b[0]] + t[..k];
        assert a[k + 1] < b[k + 1];
      }
      if k :| 0 <= k < |a| && k < |b| && a[..k] == b[..k] && a[k] < b[k] {
        assert k > 0 && s[..k - 1] == a[..k][1..] && t[..k - 1] == b[..k][1..];
        assert s[k - 1] < t[k - 1];
      }
    } else if a != [] && b != [] && a[0] < b[0] {
      assert a[..0] == b[..0];
    }
  }

  /** A ranking goes by score, the highest first, then by the listed order of namespaces with all others last, then
      by id. */
  lemma {:induction false} RankedInOrder(records: seq<Record>, isSynthesis: bool, limit: Option<int>, now: real,
                                         i: nat, j: nat)
    requires i < j < |Rank(records, isSynthesis, limit, now)|
    ensures var a, b := Rank(records, isSynthesis, limit, now)[i], Rank(records, isSynthesis, limit, now)[j];
      var m, n := Priority(a.record.namespace), Priority(b.record.namespace);
      && a.score >= b.score
      && (a.score == b.score ==> m <= n)
      && (a.score == b.score && m == n ==> StringLe(a.record.id, b.record.id))
      && a.record in records && a.score == ScoreRecord(a.record, isSynthesis, now).score
  {
    hide ScoreRecord, Priority, StringLe, ScoreAll, Rank;
    RankIsSortedPrefix(records, isSynthesis, limit, now);
    var whole := Rank(records, isSynthesis, None, now);
    assert whole[i] in multiset(whole);
    assert whole[i] in ScoreAll(records, isSynthesis, now);
    ScoredRecord(records, isSynthesis, now, whole[i]);
  }

  /** Two records are duplicates exactly when their normalized contents agree in the first 200 characters. */
  lemma {:induction false} SameKeyIff(r: Record, s: Record, normalize: string -> string)
    ensures var a, b := normalize(r.content), normalize(s.content);
      DedupeKey(r, normalize) == DedupeKey(s, normalize) <==>
        && (|a| == |b| || (|a| >= 200 && |b| >= 200))
        && (forall i | 0 <= i < 200 && i < |a| && i < |b| :: a[i] == b[i])
  {
    var a, b := normalize(r.content), normalize(s.content);
    var k, l := DedupeKey(r, normalize), DedupeKey(s, normalize);
    if k == l {
      forall i | 0 <= i < 200 && i < |a| && i < |b| ensures a[i] == b[i] { assert k[i] == a[i] && l[i] == b[i]; }
    }
  }

  /** The limits of a plan add up. */
  lemma {:induction false} SumAdds(a: seq<int>, b: seq<int>)
    ensures Sum(a + b) == Sum(a) + Sum(b)
    ensures |a| == 1 ==> Sum(a) == a[0]
  {
    if a == [] {
      assert a + b == b;
    } else {
      assert (a + b)[1..] == a[1..] + b;
      SumAdds(a[1..], b);
    }
  }
}
