/** The generated head of a page, and why augmenting an augmented page starts over. */
module Augment {
  import opened Text

  const GENERATOR_STAMP := "<!-- Generated by DocPlane; edit through the API -->"
  const BADGE_OPENING := "<p class=\"dp-badges\""

  // ---- the lines that augmenting itself adds -----------------------------------------------

  /** `^\*[Ll]ast updated:.*\*$`. */
  predicate IsLegacyMarker(s: string) {
    && |s| >= 15 && s[0] == '*' && (s[1] == 'L' || s[1] == 'l') && s[2..14] == "ast updated:" && s[|s| - 1] == '*'
  }

  predicate Injected(line: string) {
    Strip(line) == GENERATOR_STAMP || StartsWith(LStrip(line), BADGE_OPENING) || IsLegacyMarker(Strip(line))
  }

  /** The lines that are not injected. */
  function Keep(lines: seq<string>): seq<string> {
    if lines == [] then [] else (if Injected(lines[0]) then [] else [lines[0]]) + Keep(lines[1..])
  }

  // ---- the body ------------------------------------------------------------------------------

  predicate Blank(line: string) { Strip(line) == "" }

  function DropBlank(lines: seq<string>): (r: seq<string>)
    ensures |r| <= |lines| && (r != [] ==> !Blank(r[0]))
  {
    if lines != [] && Blank(lines[0]) then DropBlank(lines[1..]) else lines
  }

  predicate IsTitle(line: string) { StartsWith(line, "# ") }

  /** The number of lines before the first title. */
  function TitleAt(lines: seq<string>): (i: nat)
    ensures i <= |lines| && (i < |lines| ==> IsTitle(lines[i]))
    ensures forall k :: 0 <= k < i ==> !IsTitle(lines[k])
  {
    if lines == [] || IsTitle(lines[0]) then 0 else 1 + TitleAt(lines[1..])
  }

  /** The lines with the badges below the title, or on top when there is none. */
  function Body(lines: seq<string>, badges: string): seq<string> {
    var i := TitleAt(lines);
    if i < |lines| then lines[..i + 1] + ["", badges, ""] + DropBlank(lines[i + 1..])
    else [badges, ""] + DropBlank(lines)
  }

  /** `"\n".join(lines)`. */
  function Lines(lines: seq<string>): string {
    if lines == [] then "" else if |lines| == 1 then lines[0] else lines[0] + "\n" + Lines(lines[1..])
  }

  /** `_augment_content`, for a page with this content and this badge markup. */
  function Augmented(content: string, badges: string): string {
    GENERATOR_STAMP + "\n" + RStrip(Lines(Body(Keep(SplitLines(content)), badges))) + "\n"
  }

  /** Skips blank lines, as the inner loop does. */
  method SkipBlank(lines: seq<string>, from: nat) returns (index: nat)
    requires from <= |lines|
    ensures from <= index <= |lines| && lines[index..] == DropBlank(lines[from..])
  {
    hide Blank;
    index := from;
    while index < |lines| && Blank(lines[index])
      invariant from <= index <= |lines| && DropBlank(lines[index..]) == DropBlank(lines[from..])
    {
      assert lines[index..][1..] == lines[index + 1..];
      index := index + 1;
    }
  }

  method AugmentContent(content: string, badges: string) returns (r: string)
    ensures r == Augmented(content, badges)
  {
    hide *;
    var lines := Keep(SplitLines(content));
    var output := InsertBadges(lines, badges);
    r := GENERATOR_STAMP + "\n" + RStrip(Lines(output)) + "\n";
    AugmentedIs(content, badges);
  }

  method InsertBadges(lines: seq<string>, badges: string) returns (output: seq<string>)
    ensures output == Body(lines, badges)
  {
    hide IsTitle, Blank, DropBlank;
    var head := ["", badges, ""];
    var inserted, index := false, 0;
    output := [];
    while index < |lines|
      invariant index <= |lines|
      invariant !inserted ==> output == lines[..index] && forall k :: 0 <= k < index ==> !IsTitle(lines[k])
      invariant inserted ==> output + lines[index..] == Body(lines, badges)
    {
      var line := lines[index];
      assert lines[index..] == [line] + lines[index + 1..];
      output := output + [line];
      index := index + 1;
      if !inserted && IsTitle(line) {
        TitleIs(lines, index - 1);
        assert output == lines[..index];
        output := output + head;
        index := SkipBlank(lines, index);
        inserted := true;
      }
    }
    assert lines[|lines|..] == [];
    if !inserted {
      TitleIs(lines, |lines|);
      assert output == lines && lines[0..] == lines;
      var first := SkipBlank(output, 0);
      output := head[1..] + output[first..];
    }
  }

  lemma {:induction false} AugmentedIs(content: string, badges: string)
    ensures Augmented(content, badges)
      == GENERATOR_STAMP + "\n" + RStrip(Lines(Body(Keep(SplitLines(content)), badges))) + "\n"
  {}

  lemma {:induction false} TitleIs(lines: seq<string>, i: nat)
    requires i <= |lines| && (i < |lines| ==> IsTitle(lines[i])) && forall k :: 0 <= k < i ==> !IsTitle(lines[k])
    ensures TitleAt(lines) == i
  {
    hide IsTitle;
    if i > 0 {
      TitleIs(lines[1..], i - 1);
    }
  }

  // ---- trailing white space ------------------------------------------------------------------

  lemma {:induction false} RStripIs(s: string, r: string)
    requires r <= s && (r != [] ==> !IsSpace(r[|r| - 1]))
    requires forall p :: |r| <= p < |s| ==> IsSpace(s[p])
    ensures RStrip(s) == r
  {
    hide IsSpace;
    var q := RStrip(s);
    assert q == s[..|q|] && r == s[..|r|];
    assert q != [] ==> q[|q| - 1] == s[|q| - 1];
    assert r != [] ==> r[|r| - 1] == s[|r| - 1];
  }

  lemma {:induction false} BlankIs(s: string)
    ensures Blank(s) <==> forall p :: 0 <= p < |s| ==> IsSpace(s[p])
    ensures Blank(s) <==> RStrip(s) == ""
  {
    hide IsSpace;
    var k := Seek(s, 0, NonSpace);
    if k < |s| {
      assert !IsSpace(s[k]);
      assert LStrip(s)[0] == s[k];
    } else {
      assert forall p :: 0 <= p < |s| ==> IsSpace(s[p]);
    }
  }

  /** The lines without the blank ones at the end and without the last one's trailing space. */
  function Trim(lines: seq<string>): (r: seq<string>) {
    if lines == [] then []
    else
      var front, end := lines[..|lines| - 1], lines[|lines| - 1];
      if Blank(end) then Trim(front) else front + [RStrip(end)]
  }

  /** What joining puts before a last line. */
  function Above(front: seq<string>): string { if front == [] then "" else Lines(front) + "\n" }

  lemma {:induction false} LinesSnoc(front: seq<string>, x: string)
    ensures Lines(front + [x]) == Above(front) + x
  {
    if |front| > 1 {
      assert (front + [x])[1..] == front[1..] + [x];
      LinesSnoc(front[1..], x);
    }
  }

  lemma {:induction false} LinesOne(x: string)
    ensures Lines([]) == "" && Lines([x]) == x
  {}

  lemma {:induction false} LinesFirst(lines: seq<string>)
    requires |lines| > 1
    ensures Lines(lines) == lines[0] + "\n" + Lines(lines[1..])
  {}

  /** `"\n".join(lines).rstrip()`, line by line. */
  lemma {:induction false} TrimmedText(lines: seq<string>)
    ensures RStrip(Lines(lines)) == Lines(Trim(lines))
  {
    LinesOne("");
    hide IsSpace, Blank, Lines, Above;
    if lines != [] {
      var front, end := lines[..|lines| - 1], lines[|lines| - 1];
      assert lines == front + [end];
      BlankIs(end);
      LinesSnoc(front, end);
      if Blank(end) {
        TrimmedText(front);
        AboveSpace(front, end);
      } else {
        LinesSnoc(front, RStrip(end));
        RStripIs(Above(front) + end, Above(front) + RStrip(end));
      }
    }
  }

  lemma {:induction false} AboveSpace(front: seq<string>, end: string)
    requires forall p :: 0 <= p < |end| ==> IsSpace(end[p])
    ensures RStrip(Above(front) + end) == RStrip(Lines(front))
  {
    assert IsSpace('\n');
    LinesOne("");
    hide IsSpace, Lines;
    RStripTail(Lines(front), Above(front) + end);
  }

  lemma {:induction false} RStripTail(s: string, t: string)
    requires s <= t && forall p :: |s| <= p < |t| ==> IsSpace(t[p])
    ensures RStrip(t) == RStrip(s)
  {
    hide IsSpace;
    assert forall p :: |RStrip(s)| <= p < |s| ==> s[p] == t[p];
    RStripIs(t, RStrip(s));
  }

  /** The lines of the text that lists them. */
  lemma {:induction false} SplitListed(lines: seq<string>, tail: string)
    requires lines != [] && (forall l <- lines :: Free(LineBreak, l))
    ensures SplitLines(Lines(lines) + "\n" + tail) == lines + SplitLines(tail)
  {
    hide Free, SplitLines, Lines;
    if |lines| == 1 {
      LinesOne(lines[0]);
      assert lines == [lines[0]];
      FirstLine(lines[0], tail);
    } else {
      LinesFirst(lines);
      var rest := Lines(lines[1..]) + "\n" + tail;
      assert Lines(lines) + "\n" + tail == lines[0] + "\n" + rest;
      FirstLine(lines[0], rest);
      SplitListed(lines[1..], tail);
      assert lines == [lines[0]] + lines[1..];
    }
  }

  lemma {:induction false} FirstLine(line: string, tail: string)
    requires Free(LineBreak, line)
    ensures SplitLines(line + "\n" + tail) == [line] + SplitLines(tail)
  {
    hide IsSpace;
    var t := line + "\n" + tail;
    var k := Seek(t, 0, LineBreak);
    assert t[|line|] == '\n';
    assert forall p :: 0 <= p < |line| ==> t[p] == line[p];
    assert k == |line|;
    assert t[..k] == line && t[k + 1..] == tail;
  }

  lemma {:induction false} LinesFree(t: string)
    ensures forall l <- SplitLines(t) :: Free(LineBreak, l)
    decreases |t|
  {
    if t != [] {
      var k := Seek(t, 0, LineBreak);
      if k < |t| {
        LinesFree(t[AfterBreak(t, k)..]);
      }
    }
  }

  // ---- trimming and keeping, line by line ------------------------------------------------------

  lemma {:induction false} TrimAppend(a: seq<string>, b: seq<string>)
    ensures Trim(a + b) == if Trim(b) == [] then Trim(a) else a + Trim(b)
  {
    hide Blank, RStrip;
    if b == [] {
      assert a + b == a;
    } else {
      var c := b[..|b| - 1];
      assert (a + b)[..|a + b| - 1] == a + c;
      TrimAppend(a, c);
    }
  }

  lemma {:induction false} TrimTwice(lines: seq<string>)
    ensures Trim(Trim(lines)) == Trim(lines)
  {
    if lines != [] {
      var front, end := lines[..|lines| - 1], lines[|lines| - 1];
      if Blank(end) {
        TrimTwice(front);
      } else {
        BlankIs(end);
        BlankIs(RStrip(end));
        RStripIs(RStrip(end), RStrip(end));
        assert (front + [RStrip(end)])[..|front|] == front;
      }
    }
  }

  /** What trimming leaves starts as the lines did, and has the same kind of lines. */
  lemma {:induction false} TrimKinds(lines: seq<string>)
    ensures (forall l <- lines :: !Injected(l)) ==> forall l <- Trim(lines) :: !Injected(l)
    ensures (forall l <- lines :: Free(LineBreak, l)) ==> forall l <- Trim(lines) :: Free(LineBreak, l)
    ensures (forall l <- lines :: !IsTitle(l)) ==> forall l <- Trim(lines) :: !IsTitle(l)
  {
    hide Blank, Injected, Free, IsTitle, RStrip;
    if lines != [] {
      var front, end := lines[..|lines| - 1], lines[|lines| - 1];
      TrimKinds(front);
      LastKind(end);
      assert end in lines;
    }
  }

  lemma {:induction false} LastKind(line: string)
    ensures Free(LineBreak, line) ==> Free(LineBreak, RStrip(line))
    ensures Injected(RStrip(line)) ==> Injected(line)
    ensures IsTitle(RStrip(line)) ==> IsTitle(line)
  {
    hide IsSpace, IsLegacyMarker, RStrip, LStrip;
    var r := RStrip(line);
    StripRight(line);
    assert forall p :: 0 <= p < |r| ==> r[p] == line[p];
    PrefixStarts(r, line, "# ");
    PrefixStarts(LStrip(r), LStrip(line), BADGE_OPENING);
  }

  lemma {:induction false} PrefixStarts(s: string, t: string, p: string)
    requires s <= t
    ensures StartsWith(s, p) ==> StartsWith(t, p)
  {
    if StartsWith(s, p) {
      assert s[..|p|] == t[..|p|];
    }
  }

  lemma {:induction false} StripRight(line: string)
    ensures LStrip(RStrip(line)) <= LStrip(line) && Strip(RStrip(line)) == Strip(line)
  {
    hide IsSpace;
    var r := RStrip(line);
    var k, m := Seek(r, 0, NonSpace), Seek(line, 0, NonSpace);
    assert forall p :: 0 <= p < |r| ==> r[p] == line[p];
    if r != "" {
      assert In(NonSpace, r[|r| - 1]);
      assert k < |r|;
      assert In(NonSpace, line[k]) && k == m;
      var s, u := LStrip(r), LStrip(line);
      assert s == line[k..|r|] && u == line[k..];
      assert forall p :: |s| <= p < |u| ==> u[p] == line[p + k];
      RStripTail(s, u);
    } else {
      assert forall p :: 0 <= p < |line| ==> IsSpace(line[p]) && !In(NonSpace, line[p]);
      assert m == |line|;
    }
  }

  lemma {:induction false} TrimStarts(lines: seq<string>)
    requires lines != [] && !Blank(lines[0])
    ensures Trim(lines) != [] && !Blank(Trim(lines)[0])
  {
    hide Blank, RStrip;
    var front, end := lines[..|lines| - 1], lines[|lines| - 1];
    if front == [] {
      BlankIs(end);
      BlankIs(RStrip(end));
      RStripTwice(end);
    } else if Blank(end) {
      TrimStarts(front);
    }
  }

  lemma {:induction false} RStripTwice(s: string)
    ensures RStrip(RStrip(s)) == RStrip(s)
  {}

  lemma {:induction false} KeepAppend(a: seq<string>, b: seq<string>)
    ensures Keep(a + b) == Keep(a) + Keep(b)
  {
    hide Injected;
    if a == [] {
      assert a + b == b;
    } else {
      assert (a + b)[1..] == a[1..] + b;
      KeepAppend(a[1..], b);
    }
  }

  lemma {:induction false} KeepAll(lines: seq<string>)
    requires forall l <- lines :: !Injected(l)
    ensures Keep(lines) == lines
  {
    hide Injected;
    if lines != [] {
      KeepAll(lines[1..]);
      assert lines[0] in lines;
    }
  }

  lemma {:induction false} KeepKinds(lines: seq<string>)
    requires forall l <- lines :: Free(LineBreak, l)
    ensures forall l <- Keep(lines) :: !Injected(l) && Free(LineBreak, l)
  {
    hide Injected, Free;
    if lines != [] {
      KeepKinds(lines[1..]);
      assert lines[0] in lines;
    }
  }

  // ---- augmenting again ------------------------------------------------------------------------

  /** What `_badge_markup` returns: one line, from the opening tag to the closing one. */
  predicate IsMarkup(badges: string) {
    StartsWith(badges, BADGE_OPENING) && EndsWith(badges, "</p>") && Free(LineBreak, badges)
  }

  lemma {:induction false} MarkupIs(badges: string)
    requires IsMarkup(badges)
    ensures Injected(badges) && !Blank(badges) && RStrip(badges) == badges
  {
    assert badges[0] == badges[..|BADGE_OPENING|][0] == '<';
    assert badges[|badges| - 1] == badges[|badges| - 4..][3] == '>';
    assert Seek(badges, 0, NonSpace) == 0;
    assert LStrip(badges) == badges;
    RStripIs(badges, badges);
  }

  lemma {:induction false} StampPieces()
    ensures GENERATOR_STAMP == "<!-- Generated by " + "DocPlane; edit " + "through the API -->"
  {}

  lemma {:induction false} StampText(s: string)
    requires s == "<!-- Generated by " + "DocPlane; edit " + "through the API -->"
    ensures Strip(s) == s && Free(LineBreak, s)
  {
    var a, b, c := "<!-- Generated by ", "DocPlane; edit ", "through the API -->";
    assert s[0] == a[0] && s[|s| - 1] == c[|c| - 1];
    assert Free(LineBreak, a) && Free(LineBreak, b) && Free(LineBreak, c);
    RStripIs(s, s);
    assert LStrip(s) == s;
  }

  lemma {:induction false} StampIs()
    ensures Injected(GENERATOR_STAMP) && Free(LineBreak, GENERATOR_STAMP)
  {
    hide Strip, Free;
    StampPieces();
    StampText(GENERATOR_STAMP);
  }

  lemma {:induction false} DropBlankIn(lines: seq<string>)
    ensures forall l <- DropBlank(lines) :: l in lines
  {
    hide Blank;
    if lines != [] {
      DropBlankIn(lines[1..]);
    }
  }

  lemma {:induction false} DropBlankAbove(lines: seq<string>)
    requires lines == [] || !Blank(lines[0])
    ensures DropBlank([""] + lines) == DropBlank(["", ""] + lines) == DropBlank(lines) == lines
  {
    BlankIs("");
    hide Blank;
    assert ([""] + lines)[1..] == lines && (["", ""] + lines)[1..] == [""] + lines;
  }

  /** The body below its first title, or all of it. */
  lemma {:induction false} BodyIs(lines: seq<string>, i: nat, badges: string)
    requires i < |lines| && IsTitle(lines[i]) && forall k :: 0 <= k < i ==> !IsTitle(lines[k])
    ensures Body(lines, badges) == lines[..i + 1] + ["", badges, ""] + DropBlank(lines[i + 1..])
  {
    hide IsTitle, DropBlank;
    TitleIs(lines, i);
  }

  lemma {:induction false} BodyUntitled(lines: seq<string>, badges: string)
    requires forall l <- lines :: !IsTitle(l)
    ensures Body(lines, badges) == [badges, ""] + DropBlank(lines)
  {
    TitleIs(lines, |lines|);
  }

  /** The trimmed body: the badges end it when nothing follows. */
  function Written(above: seq<string>, badges: string, below: seq<string>): seq<string> {
    if below == [] then above + [badges] else above + [badges, ""] + Trim(below)
  }

  predicate Clean(lines: seq<string>) { forall l <- lines :: !Injected(l) && Free(LineBreak, l) }

  lemma {:induction false} TrimmedBody(above: seq<string>, badges: string, below: seq<string>)
    requires IsMarkup(badges) && (below == [] || !Blank(below[0]))
    ensures Trim(above + [badges, ""] + below) == Written(above, badges, below)
  {
    MarkupIs(badges);
    BlankIs("");
    hide IsMarkup, Blank, RStrip;
    if below == [] {
      assert above + [badges, ""] + below == above + [badges, ""];
      assert [badges, ""][..1] == [badges] && [badges][..0] == [];
      TrimAppend(above, [badges, ""]);
    } else {
      TrimStarts(below);
      TrimAppend(above + [badges, ""], below);
    }
  }

  /** What augmenting keeps of the lines it wrote before. */
  lemma {:induction false} KeptOfWritten(above: seq<string>, q: string, below: seq<string>)
    requires IsMarkup(q) && Clean(above) && Clean(below)
    ensures Keep([GENERATOR_STAMP] + Written(above, q, below)) == above + ReadBack(below)
  {
    StampIs();
    MarkupIs(q);
    TrimKinds(below);
    EmptyIs();
    assert forall l <- ReadBack(below) :: !Injected(l);
    hide Injected, IsMarkup, Trim, Blank, RStrip, Free, Keep;
    hide Written, ReadBack;
    WrittenIs(above, q, below);
    KeptBetween(GENERATOR_STAMP, above, q, ReadBack(below));
  }

  lemma {:induction false} WrittenIs(above: seq<string>, q: string, below: seq<string>)
    ensures Written(above, q, below) == above + ([q] + ReadBack(below))
  {
    hide Trim;
  }

  lemma {:induction false} KeptBetween(stamp: string, above: seq<string>, q: string, rest: seq<string>)
    requires Injected(stamp) && Injected(q)
    requires forall l <- above :: !Injected(l)
    requires forall l <- rest :: !Injected(l)
    ensures Keep([stamp] + (above + ([q] + rest))) == above + rest
  {
    hide Injected, Keep;
    DropInjected(stamp, above + ([q] + rest));
    KeepAppend(above, [q] + rest);
    DropInjected(q, rest);
    KeepAll(above);
    KeepAll(rest);
  }

  /** What is read back of what was written below the badges. */
  function ReadBack(below: seq<string>): seq<string> { if below == [] then [] else [""] + Trim(below) }

  lemma {:induction false} DropInjected(line: string, rest: seq<string>)
    requires Injected(line)
    ensures Keep([line] + rest) == Keep(rest)
  {
    assert ([line] + rest)[1..] == rest;
  }

  lemma {:induction false} EmptyIs()
    ensures !Injected("") && Free(LineBreak, "") && !IsTitle("") && Blank("")
  {}

  lemma {:induction false} CleanMore(lines: seq<string>)
    requires Clean(lines)
    ensures Clean(lines + [""])
  {
    EmptyIs();
  }

  /** Reading back and writing again, with a title that ends `above`. */
  lemma {:induction false} AgainTitled(above: seq<string>, q: string, p: string, below: seq<string>)
    requires IsMarkup(q) && IsMarkup(p) && Clean(above) && Clean(below) && (below == [] || !Blank(below[0]))
    requires above != [] && IsTitle(above[|above| - 1])
    requires forall k :: 0 <= k < |above| - 1 ==> !IsTitle(above[k])
    ensures Trim(Body(Keep([GENERATOR_STAMP] + Written(above + [""], q, below)), p)) == Written(above + [""], p, below)
  {
    EmptyIs();
    CleanMore(above);
    hide IsMarkup, Injected, Blank, IsTitle, Free, RStrip, Trim, Keep, TitleAt, Body, DropBlank, Clean;
    hide Written, ReadBack;
    KeptOfWritten(above + [""], q, below);
    ReadBackIs(above, below, p);
    if below == [] {
      TitledOnce(above + [""], above, [], p);
    } else {
      TrimStarts(below);
      TitledOnce(above + ["", ""] + Trim(below), above, Trim(below), p);
    }
  }

  lemma {:induction false} ReadBackIs(above: seq<string>, below: seq<string>, p: string)
    ensures above + [""] + ReadBack(below) == if below == [] then above + [""] else above + ["", ""] + Trim(below)
    ensures below != [] && Trim(below) != [] ==> Written(above + [""], p, Trim(below)) == Written(above + [""], p, below)
  {
    TrimTwice(below);
    hide Trim;
  }

  lemma {:induction false} TitledOnce(kept: seq<string>, above: seq<string>, below: seq<string>, p: string)
    requires IsMarkup(p) && (below == [] || !Blank(below[0]))
    requires kept == if below == [] then above + [""] else above + ["", ""] + below
    requires above != [] && IsTitle(above[|above| - 1])
    requires forall k :: 0 <= k < |above| - 1 ==> !IsTitle(above[k])
    ensures Trim(Body(kept, p)) == Written(above + [""], p, below)
  {
    hide IsMarkup, Blank, IsTitle, Trim, TitleAt, Body, DropBlank, Written;
    KeptSplits(kept, above, below);
    BodyIs(kept, |above| - 1, p);
    DropBlankAbove(below);
    assert Body(kept, p) == above + [""] + [p, ""] + below;
    TrimmedBody(above + [""], p, below);
  }

  lemma {:induction false} KeptSplits(kept: seq<string>, above: seq<string>, below: seq<string>)
    requires kept == if below == [] then above + [""] else above + ["", ""] + below
    ensures |above| <= |kept| && kept[..|above|] == above
    ensures kept[|above|..] == if below == [] then [""] else ["", ""] + below
    ensures [""] + [] == [""]
  {}

  /** The same when no line is a title. */
  lemma {:induction false} AgainUntitled(q: string, p: string, below: seq<string>)
    requires IsMarkup(q) && IsMarkup(p) && Clean(below) && (below == [] || !Blank(below[0]))
    requires forall l <- below :: !IsTitle(l)
    ensures Trim(Body(Keep([GENERATOR_STAMP] + Written([], q, below)), p)) == Written([], p, below)
  {
    EmptyIs();
    TrimKinds(below);
    hide IsMarkup, Injected, Blank, IsTitle, Free, RStrip, Trim, Keep, TitleAt, Body, DropBlank;
    assert Clean([]);
    KeptOfWritten([], q, below);
    assert [] + ReadBack(below) == ReadBack(below);
    if below == [] {
      UntitledOnce([], [], p);
    } else {
      TrimStarts(below);
      TrimTwice(below);
      UntitledOnce([""] + Trim(below), Trim(below), p);
    }
  }

  lemma {:induction false} UntitledOnce(kept: seq<string>, below: seq<string>, p: string)
    requires IsMarkup(p) && (kept == below == [] || (kept == [""] + below && below != [] && !Blank(below[0])))
    requires forall l <- kept :: !IsTitle(l)
    ensures Trim(Body(kept, p)) == Written([], p, below)
  {
    hide IsMarkup, Blank, IsTitle, Trim, TitleAt, Body, DropBlank;
    BodyUntitled(kept, p);
    DropBlankAbove(below);
    assert Body(kept, p) == [] + [p, ""] + below;
    TrimmedBody([], p, below);
  }

  /** The trimmed body of the lines, with the part above the badges and the part below them. */
  lemma {:induction false} BodyWritten(lines: seq<string>, badges: string)
    returns (above: seq<string>, below: seq<string>)
    requires IsMarkup(badges)
    ensures Trim(Body(lines, badges)) == Written(above, badges, below)
    ensures below == [] || !Blank(below[0])
    ensures forall l <- above + below :: l in lines || l == ""
    ensures above == (if TitleAt(lines) == |lines| then [] else lines[..TitleAt(lines) + 1] + [""])
    ensures below == if TitleAt(lines) == |lines| then DropBlank(lines) else DropBlank(lines[TitleAt(lines) + 1..])
  {
    hide IsMarkup, Blank, IsTitle, Trim, TitleAt, DropBlank;
    var i := TitleAt(lines);
    if i < |lines| {
      above, below := lines[..i + 1] + [""], DropBlank(lines[i + 1..]);
      DropBlankIn(lines[i + 1..]);
      assert Body(lines, badges) == above + [badges, ""] + below;
    } else {
      above, below := [], DropBlank(lines);
      DropBlankIn(lines);
      assert Body(lines, badges) == above + [badges, ""] + below;
    }
    TrimmedBody(above, badges, below);
  }

  /** Augmenting what augmenting wrote, on lines. */
  lemma {:induction false} AgainOnLines(lines: seq<string>, q: string, p: string)
    requires IsMarkup(q) && IsMarkup(p) && Clean(lines)
    ensures Trim(Body(Keep([GENERATOR_STAMP] + Trim(Body(lines, q))), p)) == Trim(Body(lines, p))
  {
    EmptyIs();
    hide IsMarkup, Injected, Blank, IsTitle, Free, RStrip, Trim, Keep, DropBlank, Body, Written;
    var above, below := BodyWritten(lines, q);
    var _, _ := BodyWritten(lines, p);
    var i := TitleAt(lines);
    if i < |lines| {
      AgainTitled(lines[..i + 1], q, p, below);
    } else {
      assert forall l <- below :: l in above + below;
      assert forall l <- lines :: !IsTitle(l);
      AgainUntitled(q, p, below);
    }
  }

  /** The lines of an augmented page. */
  lemma {:induction false} LinesOfAugmented(content: string, badges: string)
    requires IsMarkup(badges)
    ensures Clean(Keep(SplitLines(content)))
    ensures SplitLines(Augmented(content, badges)) == [GENERATOR_STAMP] + Trim(Body(Keep(SplitLines(content)), badges))
  {
    LinesFree(content);
    KeepKinds(SplitLines(content));
    StampIs();
    hide Free, Injected, SplitLines, Keep, Trim, Lines, RStrip, IsMarkup, Body;
    var lines := Keep(SplitLines(content));
    var trimmed := Trim(Body(lines, badges));
    WrittenFree(lines, badges);
    TrimmedText(Body(lines, badges));
    LinesFirst([GENERATOR_STAMP] + trimmed);
    assert ([GENERATOR_STAMP] + trimmed)[1..] == trimmed;
    AugmentedIs(content, badges);
    ListedOnly([GENERATOR_STAMP] + trimmed);
  }

  lemma {:induction false} ListedOnly(lines: seq<string>)
    requires lines != [] && (forall l <- lines :: Free(LineBreak, l))
    ensures SplitLines(Lines(lines) + "\n") == lines
  {
    SplitListed(lines, "");
    assert SplitLines("") == [];
    assert Lines(lines) + "\n" + "" == Lines(lines) + "\n";
  }

  lemma {:induction false} WrittenFree(lines: seq<string>, badges: string)
    requires IsMarkup(badges) && forall l <- lines :: Free(LineBreak, l)
    ensures Trim(Body(lines, badges)) != []
    ensures forall l <- Trim(Body(lines, badges)) :: Free(LineBreak, l)
  {
    EmptyIs();
    assert Free(LineBreak, badges);
    hide IsMarkup, Free, Body, Trim;
    var above, below := BodyWritten(lines, badges);
    assert forall l <- above :: l in above + below;
    assert forall l <- below :: l in above + below;
    TrimKinds(below);
  }

  /** Augmenting is a fixed point, also across changes of the page's metadata. */
  lemma {:induction false} AugmentAgain(content: string, q: string, p: string)
    requires IsMarkup(q) && IsMarkup(p)
    ensures Augmented(Augmented(content, q), p) == Augmented(content, p)
  {
    hide *;
    var lines := Keep(SplitLines(content));
    LinesOfAugmented(content, q);
    AgainOnLines(lines, q, p);
    TrimmedText(Body(lines, p));
    TrimmedText(Body(Keep(SplitLines(Augmented(content, q))), p));
    AugmentedIs(content, p);
    AugmentedIs(Augmented(content, q), p);
  }

  // ---- the page's own text ---------------------------------------------------------------------

  /** The lines with text, each without its trailing space. */
  function Substance(lines: seq<string>): seq<string> {
    if lines == [] then []
    else (if Blank(lines[0]) then [] else [RStrip(lines[0])]) + Substance(lines[1..])
  }

  lemma {:induction false} SubstanceAppend(a: seq<string>, b: seq<string>)
    ensures Substance(a + b) == Substance(a) + Substance(b)
  {
    hide Blank, RStrip;
    if a == [] {
      assert a + b == b;
    } else {
      assert (a + b)[1..] == a[1..] + b;
      SubstanceAppend(a[1..], b);
    }
  }

  lemma {:induction false} SubstanceDropBlank(lines: seq<string>)
    ensures Substance(DropBlank(lines)) == Substance(lines)
  {
    hide Blank, RStrip;
    if lines != [] && Blank(lines[0]) {
      SubstanceDropBlank(lines[1..]);
    }
  }

  lemma {:induction false} SubstanceOne(line: string)
    ensures Substance([line]) == if Blank(line) then [] else [RStrip(line)]
  {
    hide Blank, RStrip;
    assert [line][1..] == [];
  }

  lemma {:induction false} SubstanceTrim(lines: seq<string>)
    ensures Substance(Trim(lines)) == Substance(lines)
  {
    hide Blank, RStrip, Substance;
    if lines != [] {
      var front, end := lines[..|lines| - 1], lines[|lines| - 1];
      assert lines == front + [end];
      SubstanceAppend(front, [end]);
      SubstanceOne(end);
      if Blank(end) {
        SubstanceTrim(front);
      } else {
        BlankIs(end);
        BlankIs(RStrip(end));
        RStripTwice(end);
        SubstanceOne(RStrip(end));
        SubstanceAppend(front, [RStrip(end)]);
      }
    }
  }

  /** The badges go on top, or below the first title and one empty line. */
  predicate TopOrTitle(above: seq<string>, below: seq<string>) {
    if above == [] then forall l <- below :: !IsTitle(l)
    else
      var i := |above| - 2;
      i >= 0 && IsTitle(above[i]) && above[i + 1] == "" && forall k :: 0 <= k < i ==> !IsTitle(above[k])
  }

  /** An augmented page is the stamp, the badges once and directly below the title, and the page's own text. */
  lemma {:induction false} AugmentKeepsText(content: string, badges: string)
    returns (above: seq<string>, below: seq<string>)
    requires IsMarkup(badges)
    ensures SplitLines(Augmented(content, badges)) == [GENERATOR_STAMP] + Written(above, badges, below)
    ensures Clean(above) && Clean(below)
    ensures TopOrTitle(above, below)
    ensures Substance(above + below) == Substance(Keep(SplitLines(content)))
  {
    hide *;
    LinesOfAugmented(content, badges);
    above, below := BodyKeepsText(Keep(SplitLines(content)), badges);
  }

  lemma {:induction false} BodyKeepsText(lines: seq<string>, badges: string)
    returns (above: seq<string>, below: seq<string>)
    requires IsMarkup(badges) && Clean(lines)
    ensures Trim(Body(lines, badges)) == Written(above, badges, below)
    ensures Clean(above) && Clean(below)
    ensures TopOrTitle(above, below)
    ensures Substance(above + below) == Substance(lines)
  {
    hide *;
    above, below := BodyWritten(lines, badges);
    LayoutIs(lines, above, below);
    SubstanceOfParts(lines, TitleAt(lines));
  }

  lemma {:induction false} LayoutIs(lines: seq<string>, above: seq<string>, below: seq<string>)
    requires Clean(lines)
    requires above == if TitleAt(lines) == |lines| then [] else lines[..TitleAt(lines) + 1] + [""]
    requires below == if TitleAt(lines) == |lines| then DropBlank(lines) else DropBlank(lines[TitleAt(lines) + 1..])
    ensures Clean(above) && Clean(below) && TopOrTitle(above, below)
  {
    EmptyIs();
    hide IsTitle, DropBlank, Injected, Free;
    var i := TitleAt(lines);
    if i == |lines| {
      DropBlankIn(lines);
    } else {
      DropBlankIn(lines[i + 1..]);
    }
  }

  lemma {:induction false} SubstanceOfParts(lines: seq<string>, i: nat)
    requires i <= |lines|
    ensures i < |lines| ==> Substance(lines[..i + 1] + [""] + DropBlank(lines[i + 1..])) == Substance(lines)
    ensures Substance([] + DropBlank(lines)) == Substance(lines)
  {
    hide Substance, DropBlank;
    if i < |lines| {
      SubstanceDropBlank(lines[i + 1..]);
      SubstanceBlank(lines[..i + 1], DropBlank(lines[i + 1..]));
      SubstanceAppend(lines[..i + 1], lines[i + 1..]);
      assert lines[..i + 1] + lines[i + 1..] == lines;
    }
    SubstanceDropBlank(lines);
    assert [] + DropBlank(lines) == DropBlank(lines);
  }

  lemma {:induction false} SubstanceBlank(a: seq<string>, b: seq<string>)
    ensures Substance(a + [""] + b) == Substance(a) + Substance(b)
  {
    EmptyIs();
    hide Substance, Blank;
    SubstanceAppend(a + [""], b);
    SubstanceAppend(a, [""]);
    SubstanceOne("");
  }
}
