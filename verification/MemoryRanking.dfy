/** `MemoryRanker` and the tail of a retrieval, `_finalize_retrieval`.  Scores are real numbers, a record's
    timestamp is already parsed (0 when it is missing or malformed) and the clock is an input. */
module MemoryRanking {
  import opened Sequences
  import opened StableSort
  import opened Wrappers

  datatype Record = Record(
    id: string, namespace: string, content: string, confidence: real, recency: real, timestamp: real,
    usefulness: real, isEvidence: bool, isRetry: bool, isHallucinationRisk: bool, isSynthesisRelevant: bool)

  datatype Ranked = Ranked(record: Record, score: real)

  // ---------------------------------------------------------------- scores

  /** Four decimal places, a tie going to the even neighbour. */
  function Round4(r: real): real {
    var scaled := r * 10000.0;
    var down := scaled.Floor;
    var rest := scaled - down as real;
    (if rest < 0.5 || (rest == 0.5 && down % 2 == 0) then down else down + 1) as real / 10000.0
  }

  function RecencyWeight(timestamp: real, now: real): real {
    if timestamp <= 0.0 then 0.3
    else
      var age := if now - timestamp > 0.0 then (now - timestamp) / 3600.0 else 0.0;
      if age < 1.0 then 1.0 else if age < 24.0 then 0.8 else if age < 168.0 then 0.5 else 0.2
  }

  function Clamp(c: real): real {
    if c <= 0.0 then 0.0 else if c >= 1.0 then 1.0 else c
  }

  function RawScore(r: Record, isSynthesis: bool, now: real): real {
    var recency := if r.recency != 0.5 then r.recency else RecencyWeight(r.timestamp, now);
    Clamp(r.confidence) * 0.30 + recency * 0.20
      + (if r.isEvidence then 0.25 else 0.0)
      + (if isSynthesis && r.isSynthesisRelevant then 0.15 else 0.0)
      - (if r.isRetry then 0.20 else 0.0)
      - (if r.isHallucinationRisk then 0.15 else 0.0)
      + r.usefulness * 0.10
  }

  function ScoreRecord(r: Record, isSynthesis: bool, now: real): Ranked {
    Ranked(r, Round4(RawScore(r, isSynthesis, now)))
  }

  // ---------------------------------------------------------------- what the score says

  lemma Round4Keeps(a: real, b: real)
    ensures a <= b ==> Round4(a) <= Round4(b)
    ensures a + 0.0002 <= b ==> Round4(a) < Round4(b)
  {
    var x, y := a * 10000.0, b * 10000.0;
    if a <= b { assert x <= y && x.Floor <= y.Floor; }
    if a + 0.0002 <= b { assert x + 2.0 <= y && x.Floor + 2 <= y.Floor; }
  }

  /** The weight of a record's flags, in hundredths. */
  function FlagWeight(r: Record, isSynthesis: bool): int {
    (if r.isEvidence then 25 else 0) + (if isSynthesis && r.isSynthesisRelevant then 15 else 0)
    - (if r.isRetry then 20 else 0) - (if r.isHallucinationRisk then 15 else 0)
  }

  lemma RawIsFlags(r: Record, s: Record, isSynthesis: bool, now: real)
    requires r.confidence == s.confidence && r.recency == s.recency && r.timestamp == s.timestamp
        && r.usefulness == s.usefulness
    ensures RawScore(r, isSynthesis, now) - RawScore(s, isSynthesis, now)
         == (FlagWeight(r, isSynthesis) - FlagWeight(s, isSynthesis)) as real / 100.0
  {
    hide RecencyWeight, Clamp;
  }

  /** Of two records alike but for their flags the one whose flags weigh more scores higher, and equal weights
      score equally: evidence makes up for a retry, though not for a retry that risks hallucination. */
  lemma {:induction false} FlagsDecide(r: Record, s: Record, isSynthesis: bool, now: real)
    requires r.confidence == s.confidence && r.recency == s.recency && r.timestamp == s.timestamp
        && r.usefulness == s.usefulness
    ensures ScoreRecord(r, isSynthesis, now).score > ScoreRecord(s, isSynthesis, now).score
       <==> FlagWeight(r, isSynthesis) > FlagWeight(s, isSynthesis)
  {
    hide RawScore, Round4, FlagWeight;
    RawIsFlags(r, s, isSynthesis, now);
    var a, b := RawScore(r, isSynthesis, now), RawScore(s, isSynthesis, now);
    var f, g := FlagWeight(r, isSynthesis), FlagWeight(s, isSynthesis);
    Round4Keeps(a, b);
    Round4Keeps(b, a);
    if f > g { assert (f - g) as real >= 1.0; } else { assert (f - g) as real <= 0.0; }
  }

  /** A later timestamp never weighs less; but a missing one weighs more than any a week or more old, and
      less than every other. */
  lemma {:induction false} RecencyOrder(earlier: real, later: real, now: real)
    requires 0.0 < earlier <= later
    ensures RecencyWeight(earlier, now) <= RecencyWeight(later, now)
    ensures RecencyWeight(0.0, now) > RecencyWeight(earlier, now) <==> now - earlier >= 604800.0
    ensures RecencyWeight(0.0, now) != RecencyWeight(earlier, now)
  {
    var a, b := now - later, now - earlier;
    assert a <= b;
    assert b >= 604800.0 <==> b / 3600.0 >= 168.0;
    assert a / 3600.0 <= b / 3600.0;
  }

  /** With recency and usefulness between 0 and 1 a score lies between -0.35 and 1. */
  lemma {:induction false} ScoreRange(r: Record, isSynthesis: bool, now: real)
    requires 0.0 <= r.recency <= 1.0 && 0.0 <= r.usefulness <= 1.0
    ensures -0.35 <= ScoreRecord(r, isSynthesis, now).score <= 1.0
  {
    var raw := RawScore(r, isSynthesis, now);
    assert -0.35 <= raw <= 1.0 by { RawRange(r, isSynthesis, now); }
    hide RawScore;
    Round4Keeps(-0.35, raw);
    Round4Keeps(raw, 1.0);
    assert Round4(-0.35) == -0.35 && Round4(1.0) == 1.0;
  }

  lemma RawRange(r: Record, isSynthesis: bool, now: real)
    requires 0.0 <= r.recency <= 1.0 && 0.0 <= r.usefulness <= 1.0
    ensures -0.35 <= RawScore(r, isSynthesis, now) <= 1.0
  {
    assert 0.0 <= Clamp(r.confidence) <= 1.0 && 0.2 <= RecencyWeight(r.timestamp, now) <= 1.0;
  }

  // ---------------------------------------------------------------- the sort key

  const NAMESPACE_PRIORITY: map<string, int> :=
    map["evidence" := 0, "tool_results" := 1, "research" := 2, "workflow_outputs" := 3, "hierarchical" := 4,
        "reasoning" := 5, "cognitive" := 6, "shared" := 7, "general" := 8]

  function Priority(namespace: string): int {
    if namespace in NAMESPACE_PRIORITY then NAMESPACE_PRIORITY[namespace] else 99
  }

  /** Strings compare character by character. */
  predicate StringLe(a: string, b: string) {
    a == [] || (b != [] && (a[0] < b[0] || (a[0] == b[0] && StringLe(a[1..], b[1..]))))
  }

  lemma {:induction false} StringTotal(a: string, b: string)
    ensures StringLe(a, b) || StringLe(b, a)
    ensures StringLe(a, b) && StringLe(b, a) ==> a == b
  {
    if a != [] && b != [] && a[0] == b[0] {
      StringTotal(a[1..], b[1..]);
      assert a == [a[0]] + a[1..] && b == [b[0]] + b[1..];
    }
  }

  lemma {:induction false} StringTransitive(a: string, b: string, c: string)
    requires StringLe(a, b) && StringLe(b, c)
    ensures StringLe(a, c)
  {
    if a != [] && a[0] == b[0] && b[0] == c[0] { StringTransitive(a[1..], b[1..], c[1..]); }
  }

  /** Order of the keys (-score, namespace priority, id). */
  predicate KeyLe(a: Ranked, b: Ranked) {
    if a.score != b.score then a.score > b.score
    else if Priority(a.record.namespace) != Priority(b.record.namespace)
    then Priority(a.record.namespace) < Priority(b.record.namespace)
    else StringLe(a.record.id, b.record.id)
  }

  lemma KeyTransitive(a: Ranked, b: Ranked, c: Ranked)
    requires KeyLe(a, b) && KeyLe(b, c)
    ensures KeyLe(a, c)
  {
    hide Priority, StringLe;
    if StringLe(a.record.id, b.record.id) && StringLe(b.record.id, c.record.id) {
      StringTransitive(a.record.id, b.record.id, c.record.id);
    }
  }

  lemma KeyOrder()
    ensures TotalPreorder(KeyLe)
  {
    hide Priority, StringLe;
    forall a: Ranked, b: Ranked ensures KeyLe(a, b) || KeyLe(b, a) { StringTotal(a.record.id, b.record.id); }
    forall a: Ranked, b: Ranked, c: Ranked | KeyLe(a, b) && KeyLe(b, c) ensures KeyLe(a, c) { KeyTransitive(a, b, c); }
  }

  /** Two entries tie exactly when score, namespace priority and id all agree. */
  lemma TieIff(a: Ranked, b: Ranked)
    ensures KeyLe(a, b) && KeyLe(b, a)
       <==> (a.score == b.score && Priority(a.record.namespace) == Priority(b.record.namespace)
             && a.record.id == b.record.id)
  {
    StringTotal(a.record.id, b.record.id);
    StringTotal(a.record.id, a.record.id);
  }

  // ---------------------------------------------------------------- ranking

  function ScoreAll(records: seq<Record>, isSynthesis: bool, now: real): (r: seq<Ranked>)
    ensures |r| == |records|
  {
    if records == [] then []
    else [ScoreRecord(records[0], isSynthesis, now)] + ScoreAll(records[1..], isSynthesis, now)
  }

  /** Python's `s[:limit]`, all of `s` without a limit. */
  function UpTo<T>(s: seq<T>, limit: Option<int>): (r: seq<T>)
    ensures r <= s
  {
    match limit
    case None => s
    case Some(n) => SliceTo(s, n)
  }

  function Rank(records: seq<Record>, isSynthesis: bool, limit: Option<int>, now: real): seq<Ranked> {
    UpTo(Sort(KeyLe, ScoreAll(records, isSynthesis, now)), limit)
  }

  lemma {:induction false} ScoredRecord(records: seq<Record>, isSynthesis: bool, now: real, e: Ranked)
    ensures e in ScoreAll(records, isSynthesis, now) <==>
            e.record in records && e == ScoreRecord(e.record, isSynthesis, now)
  {
    hide ScoreRecord;
    if records != [] {
      ScoredRecord(records[1..], isSynthesis, now, e);
      assert records == [records[0]] + records[1..];
      ScoreKeepsRecord(records[0], isSynthesis, now);
    }
  }

  lemma ScoreKeepsRecord(r: Record, isSynthesis: bool, now: real)
    ensures ScoreRecord(r, isSynthesis, now).record == r
  {
  }

  /** How many of so many entries a limit leaves; a negative one counts from the end. */
  function LengthUpTo(count: nat, limit: Option<int>): nat {
    match limit
    case None => count
    case Some(n) => if n >= count then count else if n >= 0 then n else if count + n >= 0 then count + n else 0
  }

  /** A ranking is the front of the sorted permutation of all scored records; a limit only cuts its length. */
  lemma RankIsSortedPrefix(records: seq<Record>, isSynthesis: bool, limit: Option<int>, now: real)
    ensures var whole := Rank(records, isSynthesis, None, now);
      && SortedBy(KeyLe, whole) && multiset(whole) == multiset(ScoreAll(records, isSynthesis, now))
      && Rank(records, isSynthesis, limit, now) <= whole
    ensures |Rank(records, isSynthesis, limit, now)| == LengthUpTo(|records|, limit)
  {
    hide KeyLe, ScoreAll, SortedBy;
    KeyOrder();
    SortCorrect(KeyLe, ScoreAll(records, isSynthesis, now));
  }

  lemma {:induction false} ScoreConcat(a: seq<Record>, b: seq<Record>, isSynthesis: bool, now: real)
    ensures ScoreAll(a + b, isSynthesis, now) == ScoreAll(a, isSynthesis, now) + ScoreAll(b, isSynthesis, now)
  {
    hide ScoreRecord;
    if a == [] {
      assert a + b == b;
    } else {
      ScoreConcat(a[1..], b, isSynthesis, now);
      assert (a + b)[1..] == a[1..] + b;
    }
  }

  lemma CutOne<T(!new)>(b: seq<T>, x: T) returns (i: nat)
    requires x in multiset(b)
    ensures i < |b| && b[i] == x && b == b[..i] + [x] + b[i + 1..]
    ensures multiset(b[..i] + b[i + 1..]) == multiset(b) - multiset{x}
  {
    assert x in b;
    var k :| 0 <= k < |b| && b[k] == x;
    i := k;
    assert b == b[..i] + [x] + b[i + 1..];
    assert multiset(b) == multiset(b[..i]) + multiset{x} + multiset(b[i + 1..]);
  }

  lemma ScoreMiddle(front: seq<Record>, x: Record, back: seq<Record>, isSynthesis: bool, now: real)
    ensures multiset(ScoreAll(front + [x] + back, isSynthesis, now))
         == multiset{ScoreRecord(x, isSynthesis, now)} + multiset(ScoreAll(front + back, isSynthesis, now))
  {
    hide ScoreRecord;
    ScoreConcat(front + [x], back, isSynthesis, now);
    ScoreConcat(front, [x], isSynthesis, now);
    ScoreConcat(front, back, isSynthesis, now);
    assert ScoreAll([x], isSynthesis, now) == [ScoreRecord(x, isSynthesis, now)];
  }

  /** Scoring does not depend on the order of the records. */
  lemma {:induction false} ScorePermutes(a: seq<Record>, b: seq<Record>, isSynthesis: bool, now: real)
    requires multiset(a) == multiset(b)
    ensures multiset(ScoreAll(a, isSynthesis, now)) == multiset(ScoreAll(b, isSynthesis, now))
  {
    hide ScoreRecord, ScoreAll;
    if a == [] {
      assert |multiset(b)| == 0;
    } else {
      TailMultiset(a);
      assert a == [] + [a[0]] + a[1..] && [] + a[1..] == a[1..];
      assert a[0] in multiset(a);
      var i := CutOne(b, a[0]);
      ScorePermutes(a[1..], b[..i] + b[i + 1..], isSynthesis, now);
      ScoreMiddle([], a[0], a[1..], isSynthesis, now);
      ScoreMiddle(b[..i], a[0], b[i + 1..], isSynthesis, now);
    }
  }

  /** No two different records share score, namespace priority and id. */
  ghost predicate KeysDistinguish(records: seq<Record>, isSynthesis: bool, now: real) {
    forall x, y | x in records && y in records && x != y ::
      !(KeyLe(ScoreRecord(x, isSynthesis, now), ScoreRecord(y, isSynthesis, now))
        && KeyLe(ScoreRecord(y, isSynthesis, now), ScoreRecord(x, isSynthesis, now)))
  }

  /** With distinct ids the key always distinguishes. */
  lemma DistinctIdsDistinguish(records: seq<Record>, isSynthesis: bool, now: real)
    requires forall x, y | x in records && y in records && x != y :: x.id != y.id
    ensures KeysDistinguish(records, isSynthesis, now)
  {
    hide KeyLe, Round4, RawScore;
    forall x, y | x in records && y in records && x != y
      ensures !(KeyLe(ScoreRecord(x, isSynthesis, now), ScoreRecord(y, isSynthesis, now))
                && KeyLe(ScoreRecord(y, isSynthesis, now), ScoreRecord(x, isSynthesis, now)))
    {
      TieIff(ScoreRecord(x, isSynthesis, now), ScoreRecord(y, isSynthesis, now));
    }
  }

  ghost predicate SameRankingInAnyOrder(records: seq<Record>, isSynthesis: bool, now: real) {
    forall other: seq<Record> | multiset(other) == multiset(records) ::
      Rank(other, isSynthesis, None, now) == Rank(records, isSynthesis, None, now)
  }

  /** A permutation of records the key distinguishes ranks the same, for every limit. */
  lemma RankReplay(a: seq<Record>, b: seq<Record>, isSynthesis: bool, limit: Option<int>, now: real)
    requires multiset(a) == multiset(b) && KeysDistinguish(a, isSynthesis, now)
    ensures Rank(a, isSynthesis, limit, now) == Rank(b, isSynthesis, limit, now)
  {
    hide KeyLe, ScoreRecord, ScoreAll, SortedBy, Sort;
    var x, y := ScoreAll(a, isSynthesis, now), ScoreAll(b, isSynthesis, now);
    KeyOrder();
    ScorePermutes(a, b, isSynthesis, now);
    SortCorrect(KeyLe, x);
    SortCorrect(KeyLe, y);
    forall e, f | e in Sort(KeyLe, x) && f in Sort(KeyLe, x) && KeyLe(e, f) && KeyLe(f, e) ensures e == f {
      SameElements(Sort(KeyLe, x), x, e);
      SameElements(Sort(KeyLe, x), x, f);
      ScoredRecord(a, isSynthesis, now, e);
      ScoredRecord(a, isSynthesis, now, f);
    }
    SortedUnique(KeyLe, Sort(KeyLe, x), Sort(KeyLe, y));
  }

  lemma TiesOfPair(x: Ranked, y: Ranked, rest: seq<Ranked>)
    requires KeyLe(x, y) && KeyLe(y, x) && KeyLe(x, x) && KeyLe(y, y)
    ensures Ties(KeyLe, x, [x, y] + rest) == [x, y] + Ties(KeyLe, x, rest)
    ensures Ties(KeyLe, x, [y, x] + rest) == [y, x] + Ties(KeyLe, x, rest)
  {
    hide KeyLe;
    assert ([x, y] + rest)[1..] == [y] + rest && ([y] + rest)[1..] == rest;
    assert ([y, x] + rest)[1..] == [x] + rest && ([x] + rest)[1..] == rest;
  }

  lemma ScorePair(x: Record, y: Record, rest: seq<Record>, isSynthesis: bool, now: real)
    ensures ScoreAll([x, y] + rest, isSynthesis, now)
         == [ScoreRecord(x, isSynthesis, now), ScoreRecord(y, isSynthesis, now)] + ScoreAll(rest, isSynthesis, now)
  {
    hide ScoreRecord;
    assert ([x, y] + rest)[1..] == [y] + rest && ([y] + rest)[1..] == rest;
  }

  /** Swapping two tied records at the front changes the ranking. */
  lemma TiedSwapShows(x: Record, y: Record, rest: seq<Record>, isSynthesis: bool, now: real)
    requires x != y
    requires KeyLe(ScoreRecord(x, isSynthesis, now), ScoreRecord(y, isSynthesis, now))
    requires KeyLe(ScoreRecord(y, isSynthesis, now), ScoreRecord(x, isSynthesis, now))
    ensures Rank([x, y] + rest, isSynthesis, None, now) != Rank([y, x] + rest, isSynthesis, None, now)
  {
    hide KeyLe, ScoreRecord, ScoreAll, Sort, Ties;
    var e, f := ScoreRecord(x, isSynthesis, now), ScoreRecord(y, isSynthesis, now);
    var tail := ScoreAll(rest, isSynthesis, now);
    ScoreKeepsRecord(x, isSynthesis, now);
    ScoreKeepsRecord(y, isSynthesis, now);
    KeyOrder();
    assert KeyLe(e, e) && KeyLe(f, f);
    ScorePair(x, y, rest, isSynthesis, now);
    ScorePair(y, x, rest, isSynthesis, now);
    SortStable(KeyLe, e, [e, f] + tail);
    SortStable(KeyLe, e, [f, e] + tail);
    TiesOfPair(e, f, tail);
    assert ([e, f] + Ties(KeyLe, e, tail))[0] == e && ([f, e] + Ties(KeyLe, e, tail))[0] == f;
  }

  lemma PairFront<T(!new)>(x: T, y: T, rest: seq<T>)
    ensures multiset([x, y] + rest) == multiset{x} + (multiset{y} + multiset(rest))
  {
  }

  lemma WithoutOne<T(!new)>(s: seq<T>, x: T) returns (rest: seq<T>)
    requires x in multiset(s)
    ensures multiset(s) == multiset{x} + multiset(rest)
  {
    var i := CutOne(s, x);
    rest := s[..i] + s[i + 1..];
  }

  lemma BringForward<T(!new)>(records: seq<T>, x: T, y: T) returns (rest: seq<T>)
    requires x in records && y in records && x != y
    ensures multiset([x, y] + rest) == multiset(records) && multiset([y, x] + rest) == multiset(records)
  {
    var without := WithoutOne(records, x);
    assert y in multiset(records);
    rest := WithoutOne(without, y);
    PairFront(x, y, rest);
    PairFront(y, x, rest);
  }

  /** Replay is stable exactly when no two different records share the whole sort key. */
  lemma ReplayStableIff(records: seq<Record>, isSynthesis: bool, now: real)
    ensures SameRankingInAnyOrder(records, isSynthesis, now) <==> KeysDistinguish(records, isSynthesis, now)
  {
    hide KeyLe, ScoreRecord, Rank;
    if KeysDistinguish(records, isSynthesis, now) {
      forall other: seq<Record> | multiset(other) == multiset(records)
        ensures Rank(other, isSynthesis, None, now) == Rank(records, isSynthesis, None, now)
      {
        RankReplay(records, other, isSynthesis, None, now);
      }
    } else {
      var x, y :| x in records && y in records && x != y
        && KeyLe(ScoreRecord(x, isSynthesis, now), ScoreRecord(y, isSynthesis, now))
        && KeyLe(ScoreRecord(y, isSynthesis, now), ScoreRecord(x, isSynthesis, now));
      var rest := BringForward(records, x, y);
      TiedSwapShows(x, y, rest, isSynthesis, now);
    }
  }

  // ---------------------------------------------------------------- duplicates

  /** The first 200 characters of the content, stripped and lower-cased by `normalize`. */
  function DedupeKey(r: Record, normalize: string -> string): string {
    var text := normalize(r.content);
    if |text| <= 200 then text else text[..200]
  }

  function Keys(records: seq<Record>, normalize: string -> string): set<string> {
    set r | r in records :: DedupeKey(r, normalize)
  }

  /** Each record whose key no earlier record has, in order. */
  function Dedupe(records: seq<Record>, normalize: string -> string): (unique: seq<Record>)
    ensures |unique| <= |records|
  {
    if records == [] then []
    else
      var init, last := records[..|records| - 1], records[|records| - 1];
      if DedupeKey(last, normalize) in Keys(init, normalize) then Dedupe(init, normalize)
      else Dedupe(init, normalize) + [last]
  }

  lemma KeysSnoc(records: seq<Record>, r: Record, normalize: string -> string)
    ensures Keys(records + [r], normalize) == Keys(records, normalize) + {DedupeKey(r, normalize)}
  {
    hide DedupeKey;
    assert DedupeKey(r, normalize) in Keys(records + [r], normalize) by { assert r in records + [r]; }
    forall k | k in Keys(records, normalize) ensures k in Keys(records + [r], normalize) {
      var e :| e in records && DedupeKey(e, normalize) == k;
      assert e in records + [r];
    }
  }

  lemma DedupeSnoc(records: seq<Record>, r: Record, normalize: string -> string)
    ensures Dedupe(records + [r], normalize)
         == if DedupeKey(r, normalize) in Keys(records, normalize) then Dedupe(records, normalize)
            else Dedupe(records, normalize) + [r]
  {
    assert (records + [r])[..|records|] == records;
  }

  /** `dedupe`: the loop with its set of seen keys. */
  method DedupeRecords(records: seq<Record>, normalize: string -> string) returns (unique: seq<Record>, dupes: nat)
    ensures unique == Dedupe(records, normalize) && dupes == |records| - |unique|
  {
    hide DedupeKey, Keys;
    unique, dupes := [], 0;
    var seen: set<string> := {};
    KeysNone(normalize);
    for i := 0 to |records|
      invariant seen == Keys(records[..i], normalize)
      invariant unique == Dedupe(records[..i], normalize) && dupes == i - |unique|
    {
      assert records[..i + 1] == records[..i] + [records[i]];
      DedupeSnoc(records[..i], records[i], normalize);
      KeysSnoc(records[..i], records[i], normalize);
      var key := DedupeKey(records[i], normalize);
      if key in seen {
        dupes := dupes + 1;
        assert seen == seen + {key};
        continue;
      }
      seen := seen + {key};
      unique := unique + [records[i]];
    }
    assert records[..|records|] == records;
  }

  lemma KeysNone(normalize: string -> string)
    ensures Keys([], normalize) == {}
  {
  }

  /** Record i is the first with its key. */
  ghost predicate IsFirst(records: seq<Record>, i: nat, normalize: string -> string)
    requires i < |records|
  {
    forall j | 0 <= j < i :: DedupeKey(records[j], normalize) != DedupeKey(records[i], normalize)
  }

  lemma FirstByKeys(records: seq<Record>, normalize: string -> string)
    requires records != []
    ensures var n := |records| - 1;
      IsFirst(records, n, normalize) <==> DedupeKey(records[n], normalize) !in Keys(records[..n], normalize)
  {
    hide DedupeKey;
    var n := |records| - 1;
    forall j | 0 <= j < n ensures records[j] in records[..n] { assert records[..n][j] == records[j]; }
  }

  /** What is kept is exactly the first occurrences. */
  lemma {:induction false} DedupeKeepsFirsts(records: seq<Record>, normalize: string -> string, e: Record)
    ensures e in Dedupe(records, normalize)
       <==> exists i: nat | i < |records| && records[i] == e :: IsFirst(records, i, normalize)
  {
    hide DedupeKey, Keys;
    if records != [] {
      var n := |records| - 1;
      var init := records[..n];
      DedupeKeepsFirsts(init, normalize, e);
      FirstByKeys(records, normalize);
      assert forall i: nat | i < n :: IsFirst(records, i, normalize) <==> IsFirst(init, i, normalize);
    }
  }

  lemma {:induction false} DedupeKeySet(records: seq<Record>, normalize: string -> string)
    ensures Keys(Dedupe(records, normalize), normalize) == Keys(records, normalize)
  {
    hide DedupeKey, Keys;
    if records != [] {
      var init, last := records[..|records| - 1], records[|records| - 1];
      assert records == init + [last];
      DedupeKeySet(init, normalize);
      KeysSnoc(init, last, normalize);
      KeysSnoc(Dedupe(init, normalize), last, normalize);
      assert DedupeKey(last, normalize) in Keys(init, normalize) ==>
        Keys(init, normalize) + {DedupeKey(last, normalize)} == Keys(init, normalize);
    }
  }

  ghost predicate DistinctKeys(records: seq<Record>, normalize: string -> string) {
    forall i, j | 0 <= i < j < |records| :: DedupeKey(records[i], normalize) != DedupeKey(records[j], normalize)
  }

  lemma DistinctSnoc(records: seq<Record>, r: Record, normalize: string -> string)
    requires DistinctKeys(records, normalize) && DedupeKey(r, normalize) !in Keys(records, normalize)
    ensures DistinctKeys(records + [r], normalize)
  {
    hide DedupeKey;
    forall i | 0 <= i < |records| ensures DedupeKey(records[i], normalize) != DedupeKey(r, normalize) {
      assert records[i] in records;
    }
  }

  lemma {:induction false} DedupeDistinct(records: seq<Record>, normalize: string -> string)
    ensures DistinctKeys(Dedupe(records, normalize), normalize)
  {
    hide DedupeKey, Keys;
    if records != [] {
      var init, last := records[..|records| - 1], records[|records| - 1];
      DedupeDistinct(init, normalize);
      DedupeKeySet(init, normalize);
      if DedupeKey(last, normalize) !in Keys(init, normalize) {
        DistinctSnoc(Dedupe(init, normalize), last, normalize);
      }
    }
  }

  /** The duplicate count is zero, and the list is returned as it is, exactly when all keys differ. */
  lemma {:induction false} NoDupesIff(records: seq<Record>, normalize: string -> string)
    ensures |Dedupe(records, normalize)| == |records| <==> DistinctKeys(records, normalize)
    ensures DistinctKeys(records, normalize) ==> Dedupe(records, normalize) == records
  {
    hide DedupeKey, Keys;
    if records != [] {
      var n := |records| - 1;
      var init := records[..n];
      NoDupesIff(init, normalize);
      FirstByKeys(records, normalize);
      assert records == init + [records[n]];
      assert DistinctKeys(records, normalize) <==> DistinctKeys(init, normalize) && IsFirst(records, n, normalize);
    }
  }

  /** Removing duplicates twice is removing them once. */
  lemma DedupeIdempotent(records: seq<Record>, normalize: string -> string)
    ensures Dedupe(Dedupe(records, normalize), normalize) == Dedupe(records, normalize)
  {
    DedupeDistinct(records, normalize);
    NoDupesIff(Dedupe(records, normalize), normalize);
  }

  // ---------------------------------------------------------------- which duplicates depend on order

  /** Records with the same content key are the same record. */
  ghost predicate KeysIdentify(records: seq<Record>, normalize: string -> string) {
    forall x, y | x in records && y in records && DedupeKey(x, normalize) == DedupeKey(y, normalize) :: x == y
  }

  ghost predicate SameKeptInAnyOrder(records: seq<Record>, normalize: string -> string) {
    forall other: seq<Record> | multiset(other) == multiset(records) ::
      multiset(Dedupe(other, normalize)) == multiset(Dedupe(records, normalize))
  }

  lemma {:induction false} DedupeFromRecords(records: seq<Record>, normalize: string -> string, e: Record)
    requires e in Dedupe(records, normalize)
    ensures e in records
  {
    hide DedupeKey, Keys;
    if e != records[|records| - 1] { DedupeFromRecords(records[..|records| - 1], normalize, e); }
  }

  lemma KeptIfIdentified(records: seq<Record>, normalize: string -> string, e: Record)
    requires KeysIdentify(records, normalize) && e in records
    ensures e in Dedupe(records, normalize)
  {
    hide Dedupe, DedupeKey;
    DedupeKeySet(records, normalize);
    assert DedupeKey(e, normalize) in Keys(records, normalize);
    var kept :| kept in Dedupe(records, normalize) && DedupeKey(kept, normalize) == DedupeKey(e, normalize);
    DedupeFromRecords(records, normalize, kept);
  }

  lemma {:induction false} OnceEach<T(!new)>(s: seq<T>, e: T)
    requires forall i, j | 0 <= i < j < |s| :: s[i] != s[j]
    ensures multiset(s)[e] == if e in s then 1 else 0
  {
    if s != [] {
      OnceEach(s[1..], e);
      assert s == [s[0]] + s[1..];
    }
  }

  lemma KeptOnce(records: seq<Record>, normalize: string -> string, e: Record)
    ensures multiset(Dedupe(records, normalize))[e] == if e in Dedupe(records, normalize) then 1 else 0
  {
    hide Dedupe, DedupeKey;
    DedupeDistinct(records, normalize);
    OnceEach(Dedupe(records, normalize), e);
  }

  /** With records identified by their content key, any order keeps the same ones. */
  lemma DedupePermutes(a: seq<Record>, b: seq<Record>, normalize: string -> string)
    requires multiset(a) == multiset(b) && KeysIdentify(a, normalize)
    ensures multiset(Dedupe(a, normalize)) == multiset(Dedupe(b, normalize))
  {
    hide Dedupe, DedupeKey;
    assert KeysIdentify(b, normalize) by {
      forall x | x in b ensures x in a { SameElements(a, b, x); }
    }
    forall e: Record ensures multiset(Dedupe(a, normalize))[e] == multiset(Dedupe(b, normalize))[e] {
      KeptOnce(a, normalize, e);
      KeptOnce(b, normalize, e);
      SameElements(a, b, e);
      if e in a {
        KeptIfIdentified(a, normalize, e);
        KeptIfIdentified(b, normalize, e);
      } else {
        if e in Dedupe(a, normalize) { DedupeFromRecords(a, normalize, e); }
        if e in Dedupe(b, normalize) { DedupeFromRecords(b, normalize, e); }
      }
    }
  }

  /** Of two different records with one key, the later is dropped. */
  lemma LaterDropped(x: Record, y: Record, rest: seq<Record>, normalize: string -> string)
    requires x != y && DedupeKey(x, normalize) == DedupeKey(y, normalize)
    ensures x in Dedupe([x, y] + rest, normalize) && y !in Dedupe([x, y] + rest, normalize)
  {
    hide Dedupe, DedupeKey;
    var records := [x, y] + rest;
    DedupeKeepsFirsts(records, normalize, x);
    DedupeKeepsFirsts(records, normalize, y);
    assert records[0] == x && records[1] == y && IsFirst(records, 0, normalize);
  }

  /** What survives is independent of the order of retrieval exactly when the content key identifies records. */
  lemma DedupeReplayIff(records: seq<Record>, normalize: string -> string)
    ensures SameKeptInAnyOrder(records, normalize) <==> KeysIdentify(records, normalize)
  {
    hide Dedupe, DedupeKey;
    if KeysIdentify(records, normalize) {
      forall other: seq<Record> | multiset(other) == multiset(records)
        ensures multiset(Dedupe(other, normalize)) == multiset(Dedupe(records, normalize))
      {
        DedupePermutes(records, other, normalize);
      }
    } else {
      var x, y :| x in records && y in records && DedupeKey(x, normalize) == DedupeKey(y, normalize) && x != y;
      var rest := BringForward(records, x, y);
      LaterDropped(x, y, rest, normalize);
      LaterDropped(y, x, rest, normalize);
      assert x in multiset(Dedupe([x, y] + rest, normalize)) && x !in multiset(Dedupe([y, x] + rest, normalize));
    }
  }

  // ---------------------------------------------------------------- the tail of a retrieval

  /** `limits` holds the values of the plan's limits, in their order. */
  datatype Plan = Plan(synthesis: bool, limits: seq<int>, deprioritizeRetries: bool)

  datatype Trace = Trace(retrieved: nat, afterDedup: nat, afterRank: nat)

  function Sum(limits: seq<int>): int {
    if limits == [] then 0 else limits[0] + Sum(limits[1..])
  }

  /** The entries that are retries, or those that are not, in order. */
  function OfRetry(ranked: seq<Ranked>, retry: bool): (r: seq<Ranked>)
    ensures forall e | e in r :: e in ranked && e.record.isRetry == retry
  {
    if ranked == [] then []
    else if ranked[0].record.isRetry == retry then [ranked[0]] + OfRetry(ranked[1..], retry)
    else OfRetry(ranked[1..], retry)
  }

  function Retrieved(plan: Plan, records: seq<Record>, normalize: string -> string, now: real): seq<Ranked> {
    var ranked := Rank(Dedupe(records, normalize), plan.synthesis, Some(Sum(plan.limits)), now);
    if plan.deprioritizeRetries then OfRetry(ranked, false) + OfRetry(ranked, true) else ranked
  }

  class MemoryCoordinator {
    var lastTrace: Option<Trace>

    constructor ()
      ensures lastTrace == None
    {
      lastTrace := None;
    }

    method FinalizeRetrieval(plan: Plan, records: seq<Record>, normalize: string -> string, now: real)
      returns (ranked: seq<Ranked>)
      modifies this
      ensures ranked == Retrieved(plan, records, normalize, now)
      ensures lastTrace == Some(Trace(|records|, |Dedupe(records, normalize)|, |ranked|))
    {
      hide *;
      var deduped, dupes := DedupeRecords(records, normalize);
      ranked := Rank(deduped, plan.synthesis, Some(Sum(plan.limits)), now);
      assert plan.deprioritizeRetries ==>
        OfRetry(ranked, false) + OfRetry(ranked, true) == Retrieved(plan, records, normalize, now) by {
        RetrievedParts(plan, records, normalize, now);
      }
      assert !plan.deprioritizeRetries ==> ranked == Retrieved(plan, records, normalize, now) by {
        RetrievedParts(plan, records, normalize, now);
      }
      if plan.deprioritizeRetries { ranked := OfRetry(ranked, false) + OfRetry(ranked, true); }
      lastTrace := Some(Trace(|records|, |deduped|, |ranked|));
    }
  }

  lemma RetrievedParts(plan: Plan, records: seq<Record>, normalize: string -> string, now: real)
    ensures var ranked := Rank(Dedupe(records, normalize), plan.synthesis, Some(Sum(plan.limits)), now);
      Retrieved(plan, records, normalize, now)
        == if plan.deprioritizeRetries then OfRetry(ranked, false) + OfRetry(ranked, true) else ranked
  {
    hide Rank, Dedupe, Sum, OfRetry;
  }

  lemma {:induction false} RetrySplit(ranked: seq<Ranked>)
    ensures multiset(OfRetry(ranked, false) + OfRetry(ranked, true)) == multiset(ranked)
    ensures |OfRetry(ranked, false) + OfRetry(ranked, true)| == |ranked|
  {
    if ranked != [] {
      RetrySplit(ranked[1..]);
      assert ranked == [ranked[0]] + ranked[1..];
    }
  }

  lemma {:induction false} OfRetrySorted(ranked: seq<Ranked>, retry: bool)
    requires SortedBy(KeyLe, ranked)
    ensures SortedBy(KeyLe, OfRetry(ranked, retry))
  {
    hide KeyLe;
    if ranked != [] {
      OfRetrySorted(ranked[1..], retry);
      forall e | e in ranked[1..] ensures KeyLe(ranked[0], e) {}
    }
  }

  /** The order of a retrieval's result: retries last if the plan says so, and otherwise by the key. */
  predicate ResultLe(plan: Plan, a: Ranked, b: Ranked) {
    if plan.deprioritizeRetries && a.record.isRetry != b.record.isRetry then b.record.isRetry else KeyLe(a, b)
  }

  /** The result holds the best of what survives deduplication, as many as the sum of the limits allows, in order
      with retries last; the trace's counts differ by the duplicates, and by what the limit cut. */
  lemma RetrievalOrder(plan: Plan, records: seq<Record>, normalize: string -> string, now: real)
    ensures var result, unique := Retrieved(plan, records, normalize, now), Dedupe(records, normalize);
      && multiset(result) == multiset(Rank(unique, plan.synthesis, Some(Sum(plan.limits)), now))
      && |result| == LengthUpTo(|unique|, Some(Sum(plan.limits)))
      && SortedBy((a, b) => ResultLe(plan, a, b), result)
  {
    hide Dedupe, Sum, Rank, SortedBy, KeyLe, Retrieved;
    var unique := Dedupe(records, normalize);
    var limit := Some(Sum(plan.limits));
    var ranked := Rank(unique, plan.synthesis, limit, now);
    RankIsSortedPrefix(unique, plan.synthesis, limit, now);
    PrefixSorted(ranked, Rank(unique, plan.synthesis, None, now));
    RetrievedParts(plan, records, normalize, now);
    RetrySplit(ranked);
    if plan.deprioritizeRetries {
      OfRetrySorted(ranked, false);
      OfRetrySorted(ranked, true);
      TwoPartsSorted(plan, OfRetry(ranked, false), OfRetry(ranked, true));
    } else {
      PlainSorted(plan, ranked);
    }
  }

  lemma PrefixSorted(a: seq<Ranked>, b: seq<Ranked>)
    requires a <= b && SortedBy(KeyLe, b)
    ensures SortedBy(KeyLe, a)
  {
    hide KeyLe;
  }

  lemma PlainSorted(plan: Plan, s: seq<Ranked>)
    requires !plan.deprioritizeRetries && SortedBy(KeyLe, s)
    ensures SortedBy((a, b) => ResultLe(plan, a, b), s)
  {
    hide KeyLe;
  }

  lemma TwoPartsSorted(plan: Plan, front: seq<Ranked>, back: seq<Ranked>)
    requires plan.deprioritizeRetries && SortedBy(KeyLe, front) && SortedBy(KeyLe, back)
    requires (forall e | e in front :: !e.record.isRetry) && (forall e | e in back :: e.record.isRetry)
    ensures SortedBy((a, b) => ResultLe(plan, a, b), front + back)
  {
    hide KeyLe;
  }

  /** A retrieval is the same for any order of the records, when content keys identify them and the sort
      key distinguishes them. */
  lemma RetrievalReplay(plan: Plan, a: seq<Record>, b: seq<Record>, normalize: string -> string, now: real)
    requires multiset(a) == multiset(b) && KeysIdentify(a, normalize) && KeysDistinguish(a, plan.synthesis, now)
    ensures Retrieved(plan, a, normalize, now) == Retrieved(plan, b, normalize, now)
  {
    hide Dedupe, Sum, Rank, KeyLe, DedupeKey, ScoreRecord;
    DedupePermutes(a, b, normalize);
    forall e | e in Dedupe(a, normalize) ensures e in a { DedupeFromRecords(a, normalize, e); }
    RankReplay(Dedupe(a, normalize), Dedupe(b, normalize), plan.synthesis, Some(Sum(plan.limits)), now);
  }
}
