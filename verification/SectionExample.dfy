/** A page with an explicit identifier that leads to another section. */
module SectionExample {
  import opened Text
  import opened HeadingLine
  import opened SectionIds
  import opened Sections

  function LineA(): string { Written(1, "A", "a") }
  function LineB(): string { Written(1, "B", "a") }
  function LineC(): string { Written(1, "C", "a-1") }

  /** `# A {#a}`, `# B {#a}` and `# C {#a-1}`. */
  function Sheet(): string { LineA() + "\n" + (LineB() + "\n" + LineC()) }

  predicate Ruled(line: string) { line != "" && line[0] == '#' && Free(LineBreak, line) }

  lemma {:induction false} KeepFirst(line: string, rest: string)
    requires Ruled(line)
    ensures KeepLines(line + "\n" + rest) == [line + "\n"] + KeepLines(rest)
  {
    var t := line + "\n" + rest;
    assert forall q :: 0 <= q < |line| ==> t[q] == line[q] && !In(LineBreak, t[q]);
    assert t[|line|] == '\n' && In(LineBreak, t[|line|]);
    assert Seek(t, 0, LineBreak) == |line|;
    assert AfterBreak(t, |line|) == |line| + 1;
    assert t[..|line| + 1] == line + "\n" && t[|line| + 1..] == rest;
  }

  lemma {:induction false} KeepLast(line: string)
    requires Ruled(line)
    ensures KeepLines(line) == [line]
  {
    assert Seek(line, 0, LineBreak) == |line|;
  }

  /** With or without its line break, such a line is read as what it says. */
  lemma {:induction false} BareLine(line: string)
    requires Ruled(line)
    ensures Bare(line) == Bare(line + "\n") == line && FenceMark(line).None?
  {
    var c := line[|line| - 1];
    assert !In(LineBreak, c);
    assert (line + "\n")[..|line|] == line;
    assert Indent(line, 0) == 0 && line[0..] == line;
  }

  lemma {:induction false} WrittenRuled(title: string, id: string)
    requires Free(LineBreak, title) && Free(LineBreak, id)
    ensures Ruled(Written(1, title, id))
  {
    var line, mid := Written(1, title, id), "# " + title;
    assert Hashes(1) == "#";
    assert line == mid + " {#" + id + "}";
    assert forall q :: 0 <= q < |line| ==>
      line[q] == if q < 2 then "# "[q] else if q < |mid| then title[q - 2] else if q < |mid| + 3 then " {#"[q - |mid|]
                 else if q < |line| - 1 then id[q - |mid| - 3] else '}';
  }

  lemma {:induction false} Letter(title: string)
    requires |title| == 1 && !IsSpace(title[0])
    ensures Strip(title) == title
  {
    assert Seek(title, 0, NonSpace) == 0 && title[0..] == title;
  }

  lemma {:induction false} Read(title: string, id: string)
    requires |title| == 1 && !IsSpace(title[0]) && id != "" && forall i :: 0 <= i < |id| ==> IdChar(id[i])
    ensures var line := Written(1, title, id);
            Ruled(line) && Parse(line) == Some(Parsed(1, title, Some(id)))
  {
    hide Written, Parse, Strip, Ruled;
    Letter(title);
    ReadsBack(1, title, id);
    WrittenRuled(title, id);
  }

  function Says(title: string, id: string): Parsed { Parsed(1, title, Some(id)) }

  lemma {:induction false} LinesRead()
    ensures Ruled(LineA()) && Ruled(LineB()) && Ruled(LineC())
    ensures Parse(LineA()) == Some(Says("A", "a")) && Parse(LineB()) == Some(Says("B", "a")) && Parse(LineC()) == Some(Says("C", "a-1"))
  {
    hide Written, Parse, Ruled;
    Read("A", "a");
    Read("B", "a");
    Read("C", "a-1");
  }

  lemma {:induction false} SheetLines()
    ensures KeepLines(Sheet()) == [LineA() + "\n", LineB() + "\n", LineC()]
  {
    LinesRead();
    hide Written, Parse, Ruled, KeepLines, LineA, LineB, LineC, Says;
    KeepFirst(LineA(), LineB() + "\n" + LineC());
    KeepFirst(LineB(), LineC());
    KeepLast(LineC());
  }

  /** A heading line outside fences. */
  lemma {:induction false} MarkedNext(lines: seq<string>, n: nat, line: string, parsed: Parsed)
    requires n < |lines| && (lines[n] == line || lines[n] == line + "\n") && Ruled(line) && Parse(line) == Some(parsed) && Fence(lines, n).None?
    ensures Fence(lines, n + 1).None? && MarksOf(lines, n + 1) == MarksOf(lines, n) + [Mark(n, parsed)]
  {
    hide *;
    BareLine(line);
    NextLine(lines, n);
  }

  lemma {:induction false} SheetMarks()
    ensures |KeepLines(Sheet())| == 3
    ensures MarksOf(KeepLines(Sheet()), 3) == [Mark(0, Says("A", "a")), Mark(1, Says("B", "a")), Mark(2, Says("C", "a-1"))]
  {
    hide *;
    var lines := KeepLines(Sheet());
    FirstLine(lines, s => s);
    SheetLines();
    LinesRead();
    MarkedNext(lines, 0, LineA(), Says("A", "a"));
    MarkedNext(lines, 1, LineB(), Says("B", "a"));
    MarkedNext(lines, 2, LineC(), Says("C", "a-1"));
  }

  /** The third heading's identifier was given to the second one, so looking for it finds that one. */
  lemma {:induction false} ExplicitMisleads(slug: string -> string)
    ensures var marks, h := MarksOf(KeepLines(Sheet()), |KeepLines(Sheet())|), HeadingsOf(Sheet(), slug);
            && |h| == |marks| == 3 && marks[2].parsed == Says("C", "a-1")
            && First(h, "a-1", 0) == 1 && h[1].title == "B"
  {
    SheetMarks();
    HeadingsAre(Sheet(), slug);
    var bases := Bases(MarksOf(KeepLines(Sheet()), 3), slug);
    hide Sheet, KeepLines, MarksOf, LineA, LineB, LineC, HeadingsOf, Increasing;
    assert bases == ["a", "a", "a-1"];
    Ids(bases);
  }

  lemma {:induction false} Ids(bases: seq<string>)
    requires bases == ["a", "a", "a-1"]
    ensures Id(bases, 0) == "a" && Id(bases, 1) == "a-1"
  {
    assert Count(bases, 0, "a") == 0 && Count(bases, 1, "a") == 1;
    assert Decimal(1) == "1";
  }
}
