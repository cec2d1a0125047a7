/** `ContextBudgetManager.truncate_section` and `assemble_sections`: fitting named sections into a
    character budget, with Python's slices, negative bounds included. */
module ContextBudget {
  import opened Sequences

  /** What `str.strip` removes. */
  predicate IsSpace(c: char) {
    || '\t' <= c <= '\r' || c == ' ' || '\U{1C}' <= c <= '\U{1F}' || c == '\U{85}' || c == '\U{A0}'
    || c == '\U{1680}' || '\U{2000}' <= c <= '\U{200A}' || c == '\U{2028}' || c == '\U{2029}'
    || c == '\U{202F}' || c == '\U{205F}' || c == '\U{3000}'
  }

  /** By code points: tabs and line ends, the separators 28 to 31, and every kind of blank. */
  lemma {:induction false} SpaceCodes(c: char)
    ensures IsSpace(c) <==>
              var n := c as int;
              || 9 <= n <= 13 || 28 <= n <= 32 || n == 133 || n == 160 || n == 5760 || 8192 <= n <= 8202
              || n == 8232 || n == 8233 || n == 8239 || n == 8287 || n == 12288
  {
  }

  predicate Blank(s: string) {
    forall c | c in s :: IsSpace(c)
  }

  // ---------------------------------------------------------------- truncate_section

  function Suffix(title: string): string {
    "\n... [" + (if title == "" then "truncated" else title) + "]"
  }

  function Truncate(text: string, maxChars: int, title: string): (string, bool) {
    if |text| <= maxChars then (text, false)
    else (SliceTo(text, maxChars - |Suffix(title)|) + Suffix(title), true)
  }

  /** The result is as long as the limit when the suffix fits into it; otherwise the slice counts from
      the end, and at limit 0 a text at least as long as the suffix does not get shorter at all. */
  lemma {:induction false} TruncateLength(text: string, maxChars: int, title: string)
    ensures var (r, cut) := Truncate(text, maxChars, title);
      && (cut <==> |text| > maxChars)
      && (!cut ==> r == text)
      && (cut && maxChars >= |Suffix(title)| ==> |r| == maxChars)
      && (cut && maxChars < |Suffix(title)| ==>
            |r| == if |text| + maxChars >= |Suffix(title)| then |text| + maxChars else |Suffix(title)|)
  {
  }

  /** The limit is respected if and only if nothing is cut or the suffix fits into the limit. */
  lemma {:induction false} TruncateRespectsLimit(text: string, maxChars: int, title: string)
    ensures |Truncate(text, maxChars, title).0| <= maxChars <==> |text| <= maxChars || |Suffix(title)| <= maxChars
  {
    TruncateLength(text, maxChars, title);
  }

  // ---------------------------------------------------------------- assemble_sections

  datatype Section = Section(name: string, content: string, preserve: bool)

  const TOTAL_MARK: string := "\n... [context truncated]"

  /** The parts, truncated names and remaining budget while going through the sections. */
  datatype Progress = Progress(parts: seq<string>, truncated: seq<string>, remaining: int)

  function PreservedChars(ss: seq<Section>): nat {
    if ss == [] then 0
    else PreservedChars(ss[..|ss| - 1])
         + (if ss[|ss| - 1].preserve && !Blank(ss[|ss| - 1].content) then |ss[|ss| - 1].content| else 0)
  }

  function Budget(ss: seq<Section>, cap: int): int {
    var left := cap - PreservedChars(ss);
    if left >= cap / 3 then left else cap / 3
  }

  function Step(p: Progress, s: Section): Progress {
    if Blank(s.content) then p
    else if s.preserve then p.(parts := p.parts + [s.content])
    else if |s.content| <= p.remaining then
      p.(parts := p.parts + [s.content], remaining := p.remaining - (|s.content| + 2))
    else
      Progress(p.parts + [Truncate(s.content, p.remaining, s.name).0], p.truncated + [s.name], 0)
  }

  function Steps(ss: seq<Section>, start: int): Progress {
    if ss == [] then Progress([], [], start) else Step(Steps(ss[..|ss| - 1], start), ss[|ss| - 1])
  }

  function Join(parts: seq<string>): string {
    if parts == [] then ""
    else if |parts| == 1 then parts[0]
    else Join(parts[..|parts| - 1]) + "\n\n" + parts[|parts| - 1]
  }

  datatype Assembled = Assembled(text: string, truncated: seq<string>, removed: int)

  function Assemble(ss: seq<Section>, cap: int): Assembled {
    var p := Steps(ss, Budget(ss, cap));
    var combined := Join(p.parts);
    if |combined| > cap then
      Assembled(SliceTo(combined, cap - 20) + TOTAL_MARK, p.truncated + ["_total_"], |combined| - cap)
    else
      Assembled(combined, p.truncated, 0)
  }

  method AssembleSections(ss: seq<Section>, cap: int) returns (r: Assembled)
    ensures r == Assemble(ss, cap)
  {
    var preserved := 0;
    for i := 0 to |ss|
      invariant preserved == PreservedChars(ss[..i])
    {
      assert ss[..i + 1][..i] == ss[..i];
      if ss[i].preserve && !Blank(ss[i].content) { preserved := preserved + |ss[i].content|; }
    }
    assert ss[..|ss|] == ss;
    var parts: seq<string>, truncated: seq<string> := [], [];
    var remaining := if cap - preserved >= cap / 3 then cap - preserved else cap / 3;
    for i := 0 to |ss|
      invariant Progress(parts, truncated, remaining) == Steps(ss[..i], Budget(ss, cap))
    {
      assert ss[..i + 1][..i] == ss[..i];
      var s := ss[i];
      if Blank(s.content) { continue; }
      if s.preserve {
        parts := parts + [s.content];
        continue;
      }
      if |s.content| <= remaining {
        parts := parts + [s.content];
        remaining := remaining - (|s.content| + 2);
      } else {
        var (text, cut) := Truncate(s.content, remaining, s.name);
        parts := parts + [text];
        if cut { truncated := truncated + [s.name]; }
        remaining := 0;
      }
    }
    var combined := Join(parts);
    var removed := 0;
    if |combined| > cap {
      removed := |combined| - cap;
      combined := SliceTo(combined, cap - 20) + TOTAL_MARK;
      truncated := truncated + ["_total_"];
    }
    return Assembled(combined, truncated, removed);
  }

  // ---------------------------------------------------------------- the cap

  /** What the final cut puts at the end. */
  ghost const FINAL_NOTE: string := "\n... [context truncated]"

  /** When the parts do not fit, the result is exactly four characters over a cap of at least 20. */
  lemma {:induction false} OverCapLength(ss: seq<Section>, cap: int)
    ensures var combined, r := Join(Steps(ss, Budget(ss, cap)).parts), Assemble(ss, cap);
      && (|combined| <= cap ==> r.text == combined && r.removed == 0)
      && (|combined| > cap && cap >= 20 ==> |r.text| == cap + 4)
      && (|combined| > cap && cap < 20 ==> |r.text| >= 24)
      && (|combined| > cap ==>
            && r.text == SliceTo(combined, cap - 20) + FINAL_NOTE
            && r.removed == |combined| - cap)
  {
    assert |TOTAL_MARK| == 24;
  }

  /** The documented hard cap holds if and only if the parts fit without the final cut. */
  lemma {:induction false} CapHeldIffPartsFit(ss: seq<Section>, cap: int)
    ensures |Assemble(ss, cap).text| <= cap <==> |Join(Steps(ss, Budget(ss, cap)).parts)| <= cap
  {
    OverCapLength(ss, cap);
  }

  lemma OnePreserved(text: string, cap: int)
    requires !Blank(text)
    ensures Join(Steps([Section("a", text, true)], Budget([Section("a", text, true)], cap)).parts) == text
  {
    assert [Section("a", text, true)][..0] == [];
  }

  /** The cap is exceeded, by one preserved section that is longer than the cap ... */
  lemma PreservedOverCap(text: string, cap: int)
    requires !Blank(text) && |text| > cap >= 20
    ensures |Assemble([Section("a", text, true)], cap).text| == cap + 4
  {
    OnePreserved(text, cap);
    OverCapLength([Section("a", text, true)], cap);
  }

  lemma TwoParts(first: string, second: string, name: string, cap: int)
    requires !Blank(first) && !Blank(second) && |first| == cap
    ensures var ss := [Section("a", first, false), Section(name, second, false)];
      Steps(ss, Budget(ss, cap)).parts == [first, Truncate(second, -2, name).0]
  {
    var ss := [Section("a", first, false), Section(name, second, false)];
    assert ss[..1] == [ss[0]] && ss[..1][..0] == [];
    assert PreservedChars([]) == PreservedChars(ss[..1]) == PreservedChars(ss) == 0;
    assert Steps(ss[..1], cap) == Progress([first], [], -2);
  }

  /** ... and by two that need not be preserved, whenever the first fills the cap: the second is then truncated
      to a negative limit, which leaves at least its suffix. */
  lemma LooseOverCap(first: string, second: string, name: string, cap: int)
    requires !Blank(first) && !Blank(second) && |first| == cap >= 20
    ensures |Assemble([Section("a", first, false), Section(name, second, false)], cap).text| == cap + 4
  {
    hide Steps, Truncate, Budget;
    var ss := [Section("a", first, false), Section(name, second, false)];
    TwoParts(first, second, name, cap);
    var cut := Truncate(second, -2, name).0;
    assert [first, cut][..1] == [first] && [first, cut][1] == cut;
    OverCapLength(ss, cap);
  }

  // ---------------------------------------------------------------- which sections are altered

  function Nonblank(ss: seq<Section>): seq<Section> {
    if ss == [] then []
    else Nonblank(ss[..|ss| - 1]) + (if Blank(ss[|ss| - 1].content) then [] else [ss[|ss| - 1]])
  }

  function Contents(ss: seq<Section>): seq<string> {
    seq(|ss|, i requires 0 <= i < |ss| => ss[i].content)
  }

  /** One part per nonblank section, in order: verbatim if the section is to be preserved, and
      otherwise either verbatim or its truncation, in which case its name is listed. */
  lemma {:induction false} PartsMatchSections(ss: seq<Section>, start: int)
    ensures var p, kept := Steps(ss, start), Nonblank(ss);
      && |p.parts| == |kept|
      && (forall i | 0 <= i < |kept| && kept[i].preserve :: p.parts[i] == kept[i].content)
      && (forall i | 0 <= i < |kept| && p.parts[i] != kept[i].content ::
            kept[i].name in p.truncated && exists m: int :: p.parts[i] == Truncate(kept[i].content, m, kept[i].name).0)
  {
    if ss != [] {
      var init, last := ss[..|ss| - 1], ss[|ss| - 1];
      PartsMatchSections(init, start);
      var p0, p, kept0, kept := Steps(init, start), Steps(ss, start), Nonblank(init), Nonblank(ss);
      forall i | 0 <= i < |kept| && p.parts[i] != kept[i].content
        ensures kept[i].name in p.truncated && exists m: int ::
            p.parts[i] == Truncate(kept[i].content, m, kept[i].name).0
      {
        if i < |kept0| {
          assert kept[i] == kept0[i] && p.parts[i] == p0.parts[i];
        } else {
          assert p.parts[i] == Truncate(kept[i].content, p0.remaining, kept[i].name).0;
          assert p.truncated[|p.truncated| - 1] == kept[i].name;
        }
      }
    }
  }

  /** A section that may be cut: neither blank nor to be preserved. */
  predicate Loose(s: Section) {
    !s.preserve && !Blank(s.content)
  }

  /** Each loose section fits what the ones before it leave of the budget, two characters more counted for each. */
  ghost predicate AllFit(ss: seq<Section>, start: int) {
    forall j | 0 <= j < |ss| && Loose(ss[j]) :: |ss[j].content| <= start - LooseChars(ss[..j])
  }

  /** What a loose section after these may be long: what is left of the budget, and nothing once one was cut. */
  ghost function Limit(before: seq<Section>, start: int): int {
    if AllFit(before, start) then start - LooseChars(before) else 0
  }

  lemma AllFitSnoc(ss: seq<Section>, start: int)
    requires ss != []
    ensures var init, last := ss[..|ss| - 1], ss[|ss| - 1];
      AllFit(ss, start) <==>
        AllFit(init, start) && (Loose(last) ==> |last.content| <= start - LooseChars(init))
  {
    hide LooseChars;
    var init := ss[..|ss| - 1];
    forall j | 0 <= j < |init| ensures ss[j] == init[j] && ss[..j] == init[..j] {
    }
    if AllFit(ss, start) {
      forall j | 0 <= j < |init| && Loose(init[j]) ensures |init[j].content| <= start - LooseChars(init[..j]) {
        assert Loose(ss[j]);
      }
    }
  }

  lemma {:induction false} RemainingIsLimit(ss: seq<Section>, start: int)
    ensures Steps(ss, start).remaining == Limit(ss, start)
  {
    if ss != [] {
      var init, last := ss[..|ss| - 1], ss[|ss| - 1];
      RemainingIsLimit(init, start);
      AllFitSnoc(ss, start);
      hide AllFit, Truncate;
      if Loose(last) { NotEmpty(last.content); }
    }
  }

  lemma NotEmpty(s: string)
    requires !Blank(s)
    ensures |s| > 0
  {
  }

  /** What a cut section ends with. */
  ghost function Note(name: string): string {
    if name == "" then "\n... [truncated]" else "\n... [" + name + "]"
  }

  /** The part made of a section: the section itself when it is to be preserved or within its limit; otherwise
      its front, so that the note at the end fits the limit too, where the slice may count from the end. */
  lemma {:induction false} PartIs(ss: seq<Section>, start: int, i: nat)
    requires i < |ss| && !Blank(ss[i].content)
    ensures var parts, k := Steps(ss, start).parts, |Nonblank(ss[..i])|;
      var s, limit := ss[i], Limit(ss[..i], start);
      var note := Note(s.name);
      && k < |parts|
      && parts[k] == if s.preserve || |s.content| <= limit then s.content
                     else SliceTo(s.content, limit - |note|) + note
  {
    var init, last := ss[..|ss| - 1], ss[|ss| - 1];
    if i == |ss| - 1 {
      NoteIsSuffix(last.name);
      RemainingIsLimit(init, start);
      PartsMatchSections(init, start);
    } else {
      PartIs(init, start, i);
      assert init[..i] == ss[..i];
      PartKept(Steps(init, start), last, |Nonblank(ss[..i])|);
    }
  }

  lemma {:induction false} NoteIsSuffix(name: string)
    ensures Note(name) == Suffix(name)
  {
    assert "\n... [" + "truncated" + "]" == "\n... [truncated]";
  }

  lemma PartKept(p: Progress, s: Section, k: nat)
    requires k < |p.parts|
    ensures |Step(p, s).parts| > k && Step(p, s).parts[k] == p.parts[k]
  {
  }

  /** The names of the sections that are cut: the loose ones longer than their limit, in order. */
  ghost function CutNames(ss: seq<Section>, start: int): seq<string> {
    if ss == [] then []
    else
      var init, last := ss[..|ss| - 1], ss[|ss| - 1];
      CutNames(init, start) + (if Loose(last) && |last.content| > Limit(init, start) then [last.name] else [])
  }

  lemma {:induction false} TruncatedAreCut(ss: seq<Section>, start: int)
    ensures Steps(ss, start).truncated == CutNames(ss, start)
  {
    if ss != [] {
      TruncatedAreCut(ss[..|ss| - 1], start);
      RemainingIsLimit(ss[..|ss| - 1], start);
      hide Limit, Truncate;
    }
  }

  /** Loose sections start with what the preserved ones leave of the cap, but at least a third of it, rounded down. */
  lemma {:induction false} BudgetIs(ss: seq<Section>, cap: int)
    ensures var b, left := Budget(ss, cap), cap - PreservedChars(ss);
      && b >= left && 3 * b + 2 >= cap
      && (b == left || (3 * b <= cap && b > left))
  {
  }

  /** Parts are joined by blank lines. */
  lemma {:induction false} JoinSplits(a: seq<string>, b: seq<string>)
    requires a != [] && b != []
    ensures Join(a + b) == Join(a) + "\n\n" + Join(b)
    ensures |b| == 1 ==> Join(b) == b[0]
  {
    if |b| == 1 {
      assert (a + b)[..|a|] == a;
    } else {
      var front, last := b[..|b| - 1], b[|b| - 1];
      assert (a + b)[..|a + b| - 1] == a + front;
      JoinSplits(a, front);
      assert Join(a + b) == Join(a) + "\n\n" + (Join(front) + "\n\n" + last);
    }
  }

  // ---------------------------------------------------------------- nothing is lost when everything fits

  lemma {:induction false} JoinLength(parts: seq<string>)
    ensures |Join(parts)| == TotalLength(parts) + (if parts == [] then 0 else 2 * (|parts| - 1))
  {
    if |parts| > 1 { JoinLength(parts[..|parts| - 1]); }
    else if |parts| == 1 { assert TotalLength(parts[..0]) == 0; }
  }

  function TotalLength(parts: seq<string>): nat {
    if parts == [] then 0 else TotalLength(parts[..|parts| - 1]) + |parts[|parts| - 1]|
  }

  /** Characters of the nonblank sections that may be cut, with two more for each of them. */
  function LooseChars(ss: seq<Section>): nat {
    if ss == [] then 0
    else LooseChars(ss[..|ss| - 1])
         + (if !ss[|ss| - 1].preserve && !Blank(ss[|ss| - 1].content) then |ss[|ss| - 1].content| + 2 else 0)
  }

  function LooseCount(ss: seq<Section>): nat {
    if ss == [] then 0
    else LooseCount(ss[..|ss| - 1]) + (if !ss[|ss| - 1].preserve && !Blank(ss[|ss| - 1].content) then 1 else 0)
  }

  lemma {:induction false} LengthSplits(ss: seq<Section>)
    ensures TotalLength(Contents(Nonblank(ss))) + 2 * LooseCount(ss) == PreservedChars(ss) + LooseChars(ss)
    ensures LooseCount(ss) <= |Nonblank(ss)|
  {
    if ss != [] {
      var init, last := ss[..|ss| - 1], ss[|ss| - 1];
      LengthSplits(init);
      if !Blank(last.content) {
        var cs := Contents(Nonblank(ss));
        assert cs[..|cs| - 1] == Contents(Nonblank(init));
      } else {
        assert Nonblank(ss) == Nonblank(init);
      }
    }
  }

  /** With a budget for all the loose sections, nothing is cut. */
  lemma {:induction false} NothingCut(ss: seq<Section>, start: int)
    requires LooseChars(ss) <= start + 2
    ensures Steps(ss, start) == Progress(Contents(Nonblank(ss)), [], start - LooseChars(ss))
  {
    if ss != [] {
      var init, last := ss[..|ss| - 1], ss[|ss| - 1];
      NothingCut(init, start);
      if !Blank(last.content) {
        var cs := Contents(Nonblank(ss));
        assert cs == Contents(Nonblank(init)) + [last.content];
      } else {
        assert Nonblank(ss) == Nonblank(init);
      }
    }
  }

  /** Whenever the plain blank-line join of the nonblank sections fits the cap, that join is the result
      and nothing is reported as truncated. */
  lemma AssembleIsPlainJoin(ss: seq<Section>, cap: int)
    requires |Join(Contents(Nonblank(ss)))| <= cap
    ensures Assemble(ss, cap) == Assembled(Join(Contents(Nonblank(ss))), [], 0)
  {
    var parts := Contents(Nonblank(ss));
    JoinLength(parts);
    LengthSplits(ss);
    if LooseCount(ss) == 0 { NoLoose(ss); }
    NothingCut(ss, Budget(ss, cap));
  }

  lemma {:induction false} NoLoose(ss: seq<Section>)
    requires LooseCount(ss) == 0
    ensures LooseChars(ss) == 0
  {
    if ss != [] { NoLoose(ss[..|ss| - 1]); }
  }
}
