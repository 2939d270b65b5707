/** The heading sections of a Markdown document and their line ranges. */
module Sections {
  import opened Text
  import opened HeadingLine
  import opened SectionIds

  // ---- lines ---------------------------------------------------------------------------

  /** `content.splitlines(keepends=True)`. */
  function KeepLines(t: string): (lines: seq<string>)
    ensures |lines| <= |t|
    decreases |t|
  {
    if t == [] then []
    else
      var k := Seek(t, 0, LineBreak);
      if k == |t| then [t] else [t[..AfterBreak(t, k)]] + KeepLines(t[AfterBreak(t, k)..])
  }

  /** `"".join(lines)`. */
  function Joined(lines: seq<string>): string { if lines == [] then "" else lines[0] + Joined(lines[1..]) }

  lemma {:induction false} KeptWhole(t: string)
    ensures Joined(KeepLines(t)) == t
    decreases |t|
  {
    if t != [] {
      var k := Seek(t, 0, LineBreak);
      if k == |t| {
        assert [t][1..] == [];
      } else {
        var j := AfterBreak(t, k);
        KeptWhole(t[j..]);
        assert ([t[..j]] + KeepLines(t[j..]))[1..] == KeepLines(t[j..]);
        assert t[..j] + t[j..] == t;
      }
    }
  }

  lemma {:induction false} TextConcat(a: seq<string>, b: seq<string>)
    ensures Joined(a + b) == Joined(a) + Joined(b)
  {
    if a == [] {
      assert a + b == b;
    } else {
      assert (a + b)[1..] == a[1..] + b;
      TextConcat(a[1..], b);
    }
  }

  // ---- headings --------------------------------------------------------------------------

  /** `raw.rstrip("\r\n")`. */
  function Bare(line: string): string {
    if line != "" && (line[|line| - 1] == '\r' || line[|line| - 1] == '\n') then Bare(line[..|line| - 1]) else line
  }

  /** `^[ \t]*(```|~~~)`: the marker's character. */
  function FenceMark(line: string): Option<char> {
    var rest := line[Indent(line, 0)..];
    if StartsWith(rest, "```") then Some('`') else if StartsWith(rest, "~~~") then Some('~') else Option.None
  }

  /** The marker of the fence that is open before line `n`. */
  function Fence(lines: seq<string>, n: nat): Option<char>
    requires n <= |lines|
  {
    if n == 0 then Option.None
    else
      var open, mark := Fence(lines, n - 1), FenceMark(Bare(lines[n - 1]));
      if mark.None? then open else if open.None? then mark else if open == mark then Option.None else open
  }

  function HeadingAt(lines: seq<string>, n: nat): Option<Parsed>
    requires n < |lines|
  {
    if FenceMark(Bare(lines[n])).Some? || Fence(lines, n).Some? then Option.None else Parse(Bare(lines[n]))
  }

  /** A line number, from 0, and what the heading there says. */
  datatype Mark = Mark(line: nat, parsed: Parsed)

  function MarksOf(lines: seq<string>, n: nat): (marks: seq<Mark>)
    requires n <= |lines|
    ensures forall i :: 0 <= i < |marks| ==> marks[i].line < n
    ensures forall i, j :: 0 <= i < j < |marks| ==> marks[i].line < marks[j].line
  {
    if n == 0 then []
    else MarksOf(lines, n - 1) + match HeadingAt(lines, n - 1) case None => [] case Some(parsed) => [Mark(n - 1, parsed)]
  }

  /** The explicit identifier, or a slug of the title. */
  function Base(parsed: Parsed, slug: string -> string): string {
    match parsed.explicit case Some(id) => id case None => slug(parsed.title)
  }

  function Bases(marks: seq<Mark>, slug: string -> string): (bases: seq<string>)
    ensures |bases| == |marks| && forall i :: 0 <= i < |marks| ==> bases[i] == Base(marks[i].parsed, slug)
  {
    seq(|marks|, i requires 0 <= i < |marks| => Base(marks[i].parsed, slug))
  }

  datatype Heading = Heading(line: nat, level: nat, title: string, id: string, explicit: bool)

  function HeadingOf(mark: Mark, id: string): Heading {
    Heading(mark.line, mark.parsed.level, mark.parsed.title, id, mark.parsed.explicit.Some?)
  }

  /** The headings with their identifiers. */
  function Headings(marks: seq<Mark>, slug: string -> string): (h: seq<Heading>)
    ensures |h| == |marks| && forall i :: 0 <= i < |h| ==> h[i] == HeadingOf(marks[i], Id(Bases(marks, slug), i))
  {
    seq(|marks|, i requires 0 <= i < |marks| => HeadingOf(marks[i], Id(Bases(marks, slug), i)))
  }

  /** The headings of a document. */
  function HeadingsOf(content: string, slug: string -> string): (h: seq<Heading>)
    ensures Increasing(h, |KeepLines(content)|)
  {
    var lines := KeepLines(content);
    Headings(MarksOf(lines, |lines|), slug)
  }

  lemma {:induction false} HeadingsAre(content: string, slug: string -> string)
    ensures var lines := KeepLines(content);
            var h, bases := HeadingsOf(content, slug), Bases(MarksOf(lines, |lines|), slug);
            && h == Headings(MarksOf(lines, |lines|), slug)
            && |h| == |bases| && forall i :: 0 <= i < |h| ==> h[i].id == Id(bases, i)
  {
    hide KeepLines, MarksOf, Bases, Id;
  }

  ghost predicate Increasing(h: seq<Heading>, n: nat) {
    && (forall i :: 0 <= i < |h| ==> h[i].line < n)
    && (forall i, j :: 0 <= i < j < |h| ==> h[i].line < h[j].line)
  }

  /** How many headings had base `b`. */
  function Seen(marks: seq<Mark>, slug: string -> string, b: string): nat { Count(Bases(marks, slug), |marks|, b) }

  /** A new heading leaves the identifiers before it, and is numbered by how often its base came before. */
  lemma {:induction false} HeadingAdded(marks: seq<Mark>, mark: Mark, slug: string -> string)
    ensures var base := Base(mark.parsed, slug);
            && Headings(marks + [mark], slug) == Headings(marks, slug) + [HeadingOf(mark, Numbered(base, Seen(marks, slug, base)))]
            && forall b :: Seen(marks + [mark], slug, b) == Seen(marks, slug, b) + if b == base then 1 else 0
  {
    var before, after := Bases(marks, slug), Bases(marks + [mark], slug);
    hide Base, Bases, Headings, Numbered;
    assert before <= after;
    forall i, b | 0 <= i <= |marks| ensures Count(before, i, b) == Count(after, i, b) { CountPrefix(before, after, i, b); }
    assert Headings(marks + [mark], slug)[..|marks|] == Headings(marks, slug);
  }

  /** What line `n` adds. */
  lemma {:induction false} NextLine(lines: seq<string>, n: nat)
    requires n < |lines|
    ensures var line, open := Bare(lines[n]), Fence(lines, n);
            var fence := FenceMark(line);
            && Fence(lines, n + 1) == (if fence.None? then open else if open.None? then fence else if open == fence then Option.None else open)
            && MarksOf(lines, n + 1) ==
               if fence.Some? || open.Some? || Parse(line).None? then MarksOf(lines, n) else MarksOf(lines, n) + [Mark(n, Parse(line).value)]
  {
    hide Parse, Bare, FenceMark;
  }

  function Recorded(counts: map<string, nat>, b: string): nat { if b in counts then counts[b] else 0 }

  ghost predicate Tallied(counts: map<string, nat>, marks: seq<Mark>, slug: string -> string) {
    forall b :: Recorded(counts, b) == Seen(marks, slug, b)
  }

  lemma {:induction false} FirstLine(lines: seq<string>, slug: string -> string)
    ensures MarksOf(lines, 0) == [] && Fence(lines, 0).None? && Tallied(map[], MarksOf(lines, 0), slug)
  {}

  /** The scan over the lines, with its `in_fence`, `fence_marker` and `slug_counts`. */
  method ScanHeadings(lines: seq<string>, slug: string -> string) returns (headings: seq<Heading>)
    ensures headings == Headings(MarksOf(lines, |lines|), slug)
  {
    hide *;
    headings := [];
    var inFence, marker := false, ' ';
    var slugCounts: map<string, nat> := map[];
    FirstLine(lines, slug);
    for index := 0 to |lines|
      invariant headings == Headings(MarksOf(lines, index), slug)
      invariant Fence(lines, index) == if inFence then Some(marker) else Option.None
      invariant Tallied(slugCounts, MarksOf(lines, index), slug)
    {
      NextLine(lines, index);
      var line := Bare(lines[index]);
      var fence := FenceMark(line);
      if fence.Some? {
        if !inFence {
          inFence, marker := true, fence.value;
        } else if fence.value == marker {
          inFence := false;
        }
      } else if !inFence {
        var parsed := Parse(line);
        if parsed.Some? {
          headings, slugCounts := AddHeading(MarksOf(lines, index), headings, slugCounts, index, parsed.value, slug);
        }
      }
    }
  }

  /** The body of the scan for a heading. */
  method AddHeading(ghost marks: seq<Mark>, headings: seq<Heading>, slugCounts: map<string, nat>, index: nat, parsed: Parsed, slug: string -> string)
    returns (longer: seq<Heading>, counts: map<string, nat>)
    requires headings == Headings(marks, slug) && Tallied(slugCounts, marks, slug)
    ensures longer == Headings(marks + [Mark(index, parsed)], slug)
    ensures Tallied(counts, marks + [Mark(index, parsed)], slug)
  {
    HeadingAdded(marks, Mark(index, parsed), slug);
    hide Base, Headings, Seen;
    var base := Base(parsed, slug);
    assert Recorded(slugCounts, base) == Seen(marks, slug, base);
    var count := if base in slugCounts then slugCounts[base] else 0;
    counts := slugCounts[base := count + 1];
    var headingId := if count == 0 then base else base + "-" + Decimal(count);
    longer := headings + [Heading(index, parsed.level, parsed.title, headingId, parsed.explicit.Some?)];
    forall b ensures Recorded(counts, b) == Seen(marks + [Mark(index, parsed)], slug, b) {
      assert Recorded(slugCounts, b) == Seen(marks, slug, b);
    }
  }

  // ---- ranges ------------------------------------------------------------------------------

  /** The first heading after `i` that is not deeper. */
  function NextOuter(h: seq<Heading>, i: nat, j: nat): (k: nat)
    requires i < |h| && i < j <= |h|
    ensures j <= k <= |h| && (k < |h| ==> h[k].level <= h[i].level)
    ensures forall m :: j <= m < k ==> h[m].level > h[i].level
    decreases |h| - j
  {
    if j == |h| || h[j].level <= h[i].level then j else NextOuter(h, i, j + 1)
  }

  function Start(h: seq<Heading>, n: nat, i: nat): nat { if i < |h| then h[i].line else n }

  /** Where section `i` ends, among `n` lines. */
  function End(h: seq<Heading>, n: nat, i: nat): nat
    requires i < |h|
  {
    Start(h, n, NextOuter(h, i, i + 1))
  }

  datatype Section =
    Section(headingId: string, title: string, level: nat, startLine: nat, endLine: nat, content: string, contentHash: string, explicitId: bool)

  /** Section `i`: its lines run to the next heading that is not deeper; they are numbered from 1. */
  function SectionOf(lines: seq<string>, h: seq<Heading>, i: nat, digest: string -> string): (s: Section)
    requires Increasing(h, |lines|) && i < |h|
  {
    var content := Joined(lines[h[i].line..EndIn(lines, h, i)]);
    Section(h[i].id, h[i].title, h[i].level, h[i].line + 1, EndIn(lines, h, i), content, digest(content), h[i].explicit)
  }

  function EndIn(lines: seq<string>, h: seq<Heading>, i: nat): (e: nat)
    requires Increasing(h, |lines|) && i < |h|
    ensures h[i].line < e <= |lines| && e == End(h, |lines|, i)
  {
    End(h, |lines|, i)
  }

  /** `sections`. */
  method SectionsOf(content: string, slug: string -> string, digest: string -> string) returns (sections: seq<Section>)
    ensures var h := HeadingsOf(content, slug);
            |sections| == |h| && forall i :: 0 <= i < |h| ==> sections[i] == SectionOf(KeepLines(content), h, i, digest)
  {
    hide *;
    var lines := KeepLines(content);
    var headings := ScanHeadings(lines, slug);
    HeadingsAre(content, slug);
    sections := [];
    for position := 0 to |headings|
      invariant |sections| == position
      invariant forall i :: 0 <= i < position ==> sections[i] == SectionOf(lines, headings, i, digest)
    {
      var section := SectionAt(lines, headings, position, digest);
      sections := sections + [section];
    }
  }

  /** The inner loop: the section ends at the first later heading that is not deeper. */
  method SectionAt(lines: seq<string>, headings: seq<Heading>, position: nat, digest: string -> string) returns (s: Section)
    requires Increasing(headings, |lines|) && position < |headings|
    ensures s == SectionOf(lines, headings, position, digest)
  {
    var candidate := position + 1;
    while candidate < |headings| && headings[candidate].level > headings[position].level
      invariant position < candidate <= |headings|
      invariant NextOuter(headings, position, position + 1) == NextOuter(headings, position, candidate)
    {
      candidate := candidate + 1;
    }
    var start, end := headings[position].line, if candidate < |headings| then headings[candidate].line else |lines|;
    var heading, text := headings[position], Joined(lines[start..end]);
    s := Section(heading.id, heading.title, heading.level, start + 1, end, text, digest(text), heading.explicit);
  }

  // ---- how the ranges lie --------------------------------------------------------------------

  /**
   * Two sections are nested or apart, and they are nested exactly when every
   * heading after the first one, up to the second, is deeper than the first.
   */
  lemma {:induction false} Laminar(h: seq<Heading>, n: nat, i: nat, j: nat)
    requires Increasing(h, n) && i < j < |h|
    ensures End(h, n, j) <= End(h, n, i) || End(h, n, i) <= h[j].line
    ensures h[j].line < End(h, n, i) <==> forall k :: i < k <= j ==> h[k].level > h[i].level
    ensures h[j].line < End(h, n, i) ==> End(h, n, j) <= End(h, n, i)
  {
    var a, b := NextOuter(h, i, i + 1), NextOuter(h, j, j + 1);
    if j < a {
      assert a < |h| ==> h[a].level <= h[i].level < h[j].level;
      assert b <= a;
    }
  }

  /** The outermost sections from heading `i` on: each starts where the one before ends. */
  function Outermost(h: seq<Heading>, i: nat): (r: seq<nat>)
    requires i <= |h|
    ensures forall k :: 0 <= k < |r| ==> i <= r[k] < |h|
    decreases |h| - i
  {
    if i == |h| then [] else [i] + Outermost(h, NextOuter(h, i, i + 1))
  }

  function TextOf(lines: seq<string>, h: seq<Heading>, which: seq<nat>): string
    requires Increasing(h, |lines|) && forall k :: 0 <= k < |which| ==> which[k] < |h|
  {
    if which == [] then ""
    else
      var i := which[0];
      Joined(lines[h[i].line..EndIn(lines, h, i)]) + TextOf(lines, h, which[1..])
  }

  lemma {:induction false} OutermostText(lines: seq<string>, h: seq<Heading>, i: nat)
    requires Increasing(h, |lines|) && i <= |h|
    ensures TextOf(lines, h, Outermost(h, i)) == Joined(lines[Start(h, |lines|, i)..])
    decreases |h| - i
  {
    if i == |h| {
      assert lines[|lines|..] == [];
    } else {
      var j := NextOuter(h, i, i + 1);
      OutermostText(lines, h, j);
      OutermostStep(lines, h, i);
    }
  }

  lemma {:induction false} OutermostStep(lines: seq<string>, h: seq<Heading>, i: nat)
    requires Increasing(h, |lines|) && i < |h|
    ensures var j := NextOuter(h, i, i + 1);
            && TextOf(lines, h, Outermost(h, i)) == Joined(lines[h[i].line..EndIn(lines, h, i)]) + TextOf(lines, h, Outermost(h, j))
            && Joined(lines[h[i].line..]) == Joined(lines[h[i].line..EndIn(lines, h, i)]) + Joined(lines[Start(h, |lines|, j)..])
  {
    var j := NextOuter(h, i, i + 1);
    var s, e := h[i].line, EndIn(lines, h, i);
    TextConcat(lines[s..e], lines[e..]);
    assert lines[s..] == lines[s..e] + lines[e..];
    hide Joined, NextOuter, Increasing;
    assert ([i] + Outermost(h, j))[1..] == Outermost(h, j);
  }

  /** The outermost sections are the ones inside no other. */
  lemma {:induction false} OutermostAre(h: seq<Heading>, n: nat, i: nat, j: nat)
    requires Increasing(h, n) && i <= j < |h|
    ensures j in Outermost(h, i) <==> forall k :: i <= k < j ==> End(h, n, k) <= h[j].line
    decreases |h| - i
  {
    var next := NextOuter(h, i, i + 1);
    if j == i {
      assert j in Outermost(h, i);
    } else if j < next {
      assert h[j].line < End(h, n, i);
      assert forall k :: 0 <= k < |Outermost(h, next)| ==> Outermost(h, next)[k] >= next;
    } else {
      OutermostAre(h, n, next, j);
      forall k | i <= k < next ensures End(h, n, k) <= h[j].line {
        if k > i { Laminar(h, n, i, k); }
      }
    }
  }

  /**
   * The text before the first heading and the outermost sections in order are
   * the whole document.
   */
  lemma {:induction false} SectionsCover(content: string, slug: string -> string)
    ensures var lines, h := KeepLines(content), HeadingsOf(content, slug);
            Joined(lines[..Start(h, |lines|, 0)]) + TextOf(lines, h, Outermost(h, 0)) == content
  {
    var lines, h := KeepLines(content), HeadingsOf(content, slug);
    hide HeadingsOf;
    KeptWhole(content);
    OutermostText(lines, h, 0);
    var s := Start(h, |lines|, 0);
    TextConcat(lines[..s], lines[s..]);
    assert lines == lines[..s] + lines[s..];
  }

  // ---- finding a section ------------------------------------------------------------------------

  /** The first heading from `i` on with identifier `id`. */
  function First(h: seq<Heading>, id: string, i: nat): (k: nat)
    requires i <= |h|
    ensures i <= k <= |h| && (k < |h| ==> h[k].id == id)
    ensures forall m :: i <= m < k ==> h[m].id != id
    decreases |h| - i
  {
    if i == |h| || h[i].id == id then i else First(h, id, i + 1)
  }

  /** `find_section`. */
  method FindSection(content: string, headingId: string, slug: string -> string, digest: string -> string) returns (found: Option<Section>)
    ensures var h := HeadingsOf(content, slug);
            var k := First(h, headingId, 0);
            found == if k < |h| then Some(SectionOf(KeepLines(content), h, k, digest)) else Option.None
  {
    var items := SectionsOf(content, slug, digest);
    ghost var h := HeadingsOf(content, slug);
    hide HeadingsOf, KeepLines, Increasing;
    for k := 0 to |items|
      invariant First(h, headingId, 0) == First(h, headingId, k)
    {
      if items[k].headingId == headingId {
        return Some(items[k]);
      }
    }
    found := Option.None;
  }

  lemma {:induction false} FirstsExactly(h: seq<Heading>)
    ensures (forall i :: 0 <= i < |h| ==> First(h, h[i].id, 0) == i) <==> forall i, j :: 0 <= i < j < |h| ==> h[i].id != h[j].id
  {
    if forall i :: 0 <= i < |h| ==> First(h, h[i].id, 0) == i {
      forall i, j | 0 <= i < j < |h| ensures h[i].id != h[j].id { assert First(h, h[j].id, 0) == j; }
    }
  }

  /** Every section is found by its own identifier exactly when no base is spelled like the number of another. */
  lemma {:induction false} AllFoundExactly(content: string, slug: string -> string)
    ensures var lines, h := KeepLines(content), HeadingsOf(content, slug);
            (forall i :: 0 <= i < |h| ==> First(h, h[i].id, 0) == i) <==> Apart(Bases(MarksOf(lines, |lines|), slug))
  {
    hide *;
    var lines, h := KeepLines(content), HeadingsOf(content, slug);
    HeadingsAre(content, slug);
    UniqueExactly(Bases(MarksOf(lines, |lines|), slug));
    FirstsExactly(h);
  }

  /**
   * An explicit identifier leads to its heading exactly when no heading before
   * has it as its base, or as a number given to its base.
   */
  lemma {:induction false} ExplicitFoundExactly(content: string, slug: string -> string, i: nat)
    requires var lines := KeepLines(content); i < |MarksOf(lines, |lines|)| && MarksOf(lines, |lines|)[i].parsed.explicit.Some?
    ensures var lines, h := KeepLines(content), HeadingsOf(content, slug);
            var marks := MarksOf(lines, |lines|);
            var bases, id := Bases(marks, slug), marks[i].parsed.explicit.value;
            First(h, id, 0) == i <==> forall k, c :: 0 <= k < i && 0 <= c < Count(bases, i, bases[k]) ==> Numbered(bases[k], c) != id
  {
    hide MarksOf, KeepLines, Bases, Count, HeadingsOf, Increasing, Numbered;
    var lines, h := KeepLines(content), HeadingsOf(content, slug);
    var bases, id := Bases(MarksOf(lines, |lines|), slug), MarksOf(lines, |lines|)[i].parsed.explicit.value;
    HeadingsAre(content, slug);
    assert bases[i] == id;
    TakenAre(bases, i, id);
    if Count(bases, i, id) > 0 { BaseTaken(bases, i); } else { assert Id(bases, i) == id by { FirstNumber(bases, i); } }
  }

  lemma {:induction false} FirstNumber(bases: seq<string>, i: nat)
    requires i < |bases| && Count(bases, i, bases[i]) == 0
    ensures Id(bases, i) == bases[i]
  {}

  lemma {:induction false} BaseTaken(bases: seq<string>, i: nat)
    requires i < |bases| && Count(bases, i, bases[i]) > 0
    ensures Taken(bases, i, bases[i])
  {
    var k := Occurrence(bases, i, bases[i], 0);
    assert Id(bases, k) == bases[i];
  }
}
