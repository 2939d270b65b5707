/** What an augmented page reads like, said of the lines of the page it was made from. */
module AugmentMeaning {
  import opened Text
  import opened Augment

  ghost predicate AllSpace(s: string) { forall i :: 0 <= i < |s| ==> IsSpace(s[i]) }

  predicate HasText(line: string) { exists i :: 0 <= i < |line| && !IsSpace(line[i]) }

  /** A line that an earlier run put there: the stamp, the meta strip, or the old marker. */
  ghost predicate PutThere(line: string) {
    || (exists before, after :: AllSpace(before) && AllSpace(after)
                                && line == before + ("<!-- Generated by " + "DocPlane; edit " + "through the API -->") + after)
    || (exists before, rest :: AllSpace(before) && line == before + "<p class=\"dp-badges\"" + rest)
    || (exists before, when, after :: AllSpace(before) && AllSpace(after) && MarkedAs(line, before, when, after))
  }

  predicate MarkedAs(line: string, before: string, when: string, after: string) {
    line == before + ("*Last updated:" + when + "*") + after || line == before + ("*last updated:" + when + "*") + after
  }

  /** A line of the page's own with text in it. */
  ghost predicate Own(line: string) { HasText(line) && !PutThere(line) }

  predicate Heads(line: string) { |line| >= 2 && line[0] == '#' && line[1] == ' ' }

  /** The page's own lines with text, each without the white space at its end. */
  ghost function OwnText(lines: seq<string>): seq<string> {
    if lines == [] then [] else (if Own(lines[0]) then [RStrip(lines[0])] else []) + OwnText(lines[1..])
  }

  // ---- the lines put there are the ones left out ---------------------------------------------------

  lemma {:induction false} LStripIs(before: string, s: string)
    requires AllSpace(before) && s != "" && !IsSpace(s[0])
    ensures LStrip(before + s) == s
  {
    hide IsSpace;
    var t := before + s;
    assert forall i :: 0 <= i < |before| ==> t[i] == before[i];
    assert t[|before|] == s[0];
    assert Seek(t, 0, NonSpace) == |before|;
  }

  lemma {:induction false} StripIs(before: string, core: string, after: string)
    requires AllSpace(before) && AllSpace(after) && core != "" && !IsSpace(core[0]) && !IsSpace(core[|core| - 1])
    ensures Strip(before + core + after) == core
  {
    hide IsSpace;
    assert before + core + after == before + (core + after);
    LStripIs(before, core + after);
    assert forall p :: |core| <= p < |core + after| ==> (core + after)[p] == after[p - |core|];
    RStripIs(core + after, core);
  }

  lemma {:induction false} StripSplits(line: string) returns (before: string, after: string)
    ensures AllSpace(before) && AllSpace(after) && line == before + Strip(line) + after
  {
    before, after := StripMeans(line);
  }

  lemma {:induction false} StampTrim(s: string)
    requires s == "<!-- Generated by " + "DocPlane; edit " + "through the API -->"
    ensures s != "" && !IsSpace(s[0]) && !IsSpace(s[|s| - 1])
  {
    var a, c := "<!-- Generated by ", "through the API -->";
    assert s[0] == a[0] && s[|s| - 1] == c[|c| - 1];
  }

  lemma {:induction false} StampPutThere(line: string)
    ensures Strip(line) == GENERATOR_STAMP
            <==> exists before, after :: AllSpace(before) && AllSpace(after)
                                         && line == before + ("<!-- Generated by " + "DocPlane; edit " + "through the API -->") + after
  {
    StampPieces();
    StampTrim(GENERATOR_STAMP);
    hide IsSpace, Strip, AllSpace;
    var before, after := StripSplits(line);
    var stamp := "<!-- Generated by " + "DocPlane; edit " + "through the API -->";
    if b, a :| AllSpace(b) && AllSpace(a) && line == b + stamp + a { StripIs(b, stamp, a); }
  }

  lemma {:induction false} BadgePutThere(line: string, opening: string)
    requires opening != "" && !IsSpace(opening[0])
    ensures StartsWith(LStrip(line), opening) <==> exists before, rest :: AllSpace(before) && line == before + opening + rest
  {
    hide IsSpace;
    var s, k := LStrip(line), Seek(line, 0, NonSpace);
    if StartsWith(s, opening) {
      assert forall p :: 0 <= p < k ==> !In(NonSpace, line[p]);
      assert AllSpace(line[..k]);
      assert line == line[..k] + opening + s[|opening|..];
    }
    if b, rest :| AllSpace(b) && line == b + opening + rest {
      assert line == b + (opening + rest);
      LStripIs(b, opening + rest);
    }
  }

  lemma {:induction false} MarkerMade(head: string, tail: string, when: string)
    requires |head| == 2 && |tail| == 12 && head[0] == '*' && (head[1] == 'L' || head[1] == 'l') && tail == "ast updated:"
    ensures IsLegacyMarker(head + tail + when + "*")
  {
    var s := head + tail + when + "*";
    assert s[0] == head[0] && s[1] == head[1] && s[2..14] == tail && s[|s| - 1] == '*';
  }

  lemma {:induction false} MarkerIs(s: string)
    ensures IsLegacyMarker(s) <==> exists when: string :: s == "*Last updated:" + when + "*" || s == "*last updated:" + when + "*"
  {
    assert "*L" + "ast updated:" == "*Last updated:" && "*l" + "ast updated:" == "*last updated:";
    if IsLegacyMarker(s) {
      var head, tail, when, star := s[..2], s[2..14], s[14..|s| - 1], s[|s| - 1..];
      assert head == [s[0], s[1]] && star == "*";
      assert s == head + tail + when + star;
      if s[1] == 'L' {
        assert head + tail == "*Last updated:";
      } else {
        assert head + tail == "*last updated:";
      }
    }
    if when: string :| s == "*Last updated:" + when + "*" || s == "*last updated:" + when + "*" {
      MarkerMade("*L", "ast updated:", when);
      MarkerMade("*l", "ast updated:", when);
      assert s == (if s == "*Last updated:" + when + "*" then "*L" + "ast updated:" else "*l" + "ast updated:") + when + "*";
    }
  }

  lemma {:induction false} MarkerPutThere(line: string)
    ensures IsLegacyMarker(Strip(line)) <==> exists before, when, after :: AllSpace(before) && AllSpace(after) && MarkedAs(line, before, when, after)
  {
    MarkerIs(Strip(line));
    if IsLegacyMarker(Strip(line)) {
      hide IsLegacyMarker, Strip, AllSpace;
      var before, after := StripSplits(line);
      var when: string :| Strip(line) == "*Last updated:" + when + "*" || Strip(line) == "*last updated:" + when + "*";
      assert MarkedAs(line, before, when, after);
    }
    if before, when, after :| AllSpace(before) && AllSpace(after) && MarkedAs(line, before, when, after) {
      hide IsLegacyMarker, Strip, AllSpace;
      var s := if line == before + ("*Last updated:" + when + "*") + after then "*Last updated:" + when + "*" else "*last updated:" + when + "*";
      StripIs(before, s, after);
    }
  }

  lemma {:induction false} PutThereIs(line: string)
    ensures PutThere(line) <==> Injected(line)
  {
    StampPutThere(line);
    assert !IsSpace(BADGE_OPENING[0]);
    BadgePutThere(line, BADGE_OPENING);
    MarkerPutThere(line);
    hide Strip, LStrip, StartsWith, IsLegacyMarker, AllSpace, MarkedAs;
  }

  lemma {:induction false} OwnTextIs(lines: seq<string>)
    ensures OwnText(lines) == Substance(Keep(lines))
  {
    if lines != [] {
      OwnTextIs(lines[1..]);
      PutThereIs(lines[0]);
      BlankIs(lines[0]);
      hide PutThere, Injected, Blank, RStrip;
      SubstanceAppend(if Injected(lines[0]) then [] else [lines[0]], Keep(lines[1..]));
      SubstanceOne(lines[0]);
    }
  }

  // ---- the page that is written ---------------------------------------------------------------------

  /** Where the first title of its own is: the first `n` lines end with it. */
  ghost predicate TitleEnds(lines: seq<string>, n: nat) {
    && n <= |lines|
    && (n > 0 ==> Own(lines[n - 1]) && Heads(lines[n - 1]))
    && (forall k :: 0 <= k < (if n > 0 then n - 1 else |lines|) ==> !(Own(lines[k]) && Heads(lines[k])))
  }

  lemma {:induction false} HeadsHasText(line: string)
    ensures IsTitle(line) <==> Heads(line)
    ensures Heads(line) ==> HasText(line)
    ensures Heads(line) ==> (Own(line) <==> !Injected(line))
  {
    if |line| >= 2 { assert line[..2] == [line[0], line[1]]; }
    if Heads(line) { assert !IsSpace(line[0]); }
    PutThereIs(line);
    hide PutThere, Injected;
  }

  /** Kept lines in two parts, of which the first ends with the first title. */
  ghost predicate Parted(kept: seq<string>, above: seq<string>, below: seq<string>) {
    above != [] && kept == above + below && TitleAt(kept) == |above| - 1
  }

  /** The first title among the kept lines is the first own one. */
  lemma {:induction false} TitleOf(lines: seq<string>) returns (n: nat)
    ensures n <= |lines| && TitleEnds(lines, n)
    ensures n == 0 ==> TitleAt(Keep(lines)) == |Keep(lines)|
    ensures n > 0 ==> Parted(Keep(lines), Keep(lines[..n]), Keep(lines[n..]))
  {
    if lines == [] {
      return 0;
    }
    HeadsHasText(lines[0]);
    var rest := Keep(lines[1..]);
    hide Injected, IsTitle, HasText, PutThere, Own, Heads;
    if !Injected(lines[0]) && IsTitle(lines[0]) {
      assert lines[..1] == [lines[0]] && Keep([lines[0]]) == [lines[0]] by { assert [lines[0]][1..] == []; }
      assert Keep(lines) == [lines[0]] + rest;
      return 1;
    }
    var m := TitleOf(lines[1..]);
    n := if m == 0 then 0 else m + 1;
    TitleEndsNext(lines, m);
    KeptNext(lines, m);
  }

  lemma {:induction false} TitleEndsNext(lines: seq<string>, m: nat)
    requires lines != [] && TitleEnds(lines[1..], m) && !(Own(lines[0]) && Heads(lines[0]))
    ensures TitleEnds(lines, if m == 0 then 0 else m + 1)
  {
    hide Own, Heads;
    assert forall k :: 0 < k < |lines| ==> lines[k] == lines[1..][k - 1];
  }

  lemma {:induction false} KeptNext(lines: seq<string>, m: nat)
    requires lines != [] && m < |lines| && !(!Injected(lines[0]) && IsTitle(lines[0]))
    ensures m == 0 && TitleAt(Keep(lines[1..])) == |Keep(lines[1..])| ==> TitleAt(Keep(lines)) == |Keep(lines)|
    ensures m > 0 && Parted(Keep(lines[1..]), Keep(lines[1..][..m]), Keep(lines[1..][m..])) ==>
              Parted(Keep(lines), Keep(lines[..m + 1]), Keep(lines[m + 1..]))
  {
    hide Injected, IsTitle, TitleAt, Parted;
    assert lines[..m + 1][1..] == lines[1..][..m] && lines[m + 1..] == lines[1..][m..];
    if !Injected(lines[0]) {
      TitleAtNext(lines[0], Keep(lines[1..]));
      PartedNext(lines[0], Keep(lines[1..]), Keep(lines[1..][..m]), Keep(lines[1..][m..]));
      assert Keep(lines) == [lines[0]] + Keep(lines[1..]) && Keep(lines[..m + 1]) == [lines[0]] + Keep(lines[1..][..m]);
    } else {
      assert Keep(lines) == Keep(lines[1..]) && Keep(lines[..m + 1]) == Keep(lines[1..][..m]);
    }
  }

  lemma {:induction false} PartedNext(line: string, kept: seq<string>, above: seq<string>, below: seq<string>)
    requires !IsTitle(line)
    ensures Parted(kept, above, below) ==> Parted([line] + kept, [line] + above, below)
  {
    hide IsTitle, TitleAt;
    TitleAtNext(line, kept);
  }

  lemma {:induction false} TitleAtNext(line: string, rest: seq<string>)
    requires !IsTitle(line)
    ensures TitleAt([line] + rest) == 1 + TitleAt(rest)
  {
    hide IsTitle;
    assert ([line] + rest)[1..] == rest;
  }

  lemma {:induction false} SubstanceOfBody(above: seq<string>, badges: string, below: seq<string>)
    requires IsMarkup(badges)
    ensures Substance(above + ["", badges, ""] + DropBlank(below)) == Substance(above) + [badges] + Substance(below)
    ensures Substance([badges, ""] + DropBlank(below)) == [badges] + Substance(below)
  {
    MarkupIs(badges);
    EmptyIs();
    SubstanceDropBlank(below);
    SubstanceOne("");
    SubstanceOne(badges);
    SubstanceSplit(above, "", badges, DropBlank(below));
  }

  lemma {:induction false} SubstanceSplit(above: seq<string>, blank: string, badges: string, rest: seq<string>)
    requires Substance([blank]) == [] && Substance([badges]) == [badges]
    ensures Substance([badges, blank] + rest) == [badges] + Substance(rest)
    ensures Substance(above + [blank, badges, blank] + rest) == Substance(above) + [badges] + Substance(rest)
  {
    hide *;
    assert [badges, blank] + rest == [badges] + ([blank] + rest);
    SubstanceAppend([badges], [blank] + rest);
    SubstanceAppend([blank], rest);
    assert above + [blank, badges, blank] + rest == above + ([blank] + ([badges, blank] + rest));
    SubstanceAppend(above, [blank] + ([badges, blank] + rest));
    SubstanceAppend([blank], [badges, blank] + rest);
  }

  /** Lines that each end with a line feed, and no other line break. */
  predicate PlainLines(t: string) { t != "" && t[|t| - 1] == '\n' && forall i :: 0 <= i < |t| && IsLineBreak(t[i]) ==> t[i] == '\n' }

  lemma {:induction false} LinesPlain(lines: seq<string>)
    requires lines != [] && forall l <- lines :: Free(LineBreak, l)
    ensures PlainLines(Lines(lines) + "\n")
  {
    hide IsLineBreak;
    assert forall i :: 0 <= i < |lines[0]| ==> In(LineBreak, lines[0][i]) == IsLineBreak(lines[0][i]);
    assert lines[0] in lines;
    if |lines| > 1 {
      LinesPlain(lines[1..]);
      var tail := Lines(lines[1..]) + "\n";
      assert Lines(lines) + "\n" == lines[0] + "\n" + tail;
    }
  }

  /**
   * An augmented page reads: the stamp, the page's own lines up to its first
   * title, the badges, and the rest of its own lines; without a title the badges
   * come first.
   */
  lemma {:induction false} AugmentMeans(content: string, badges: string) returns (n: nat)
    requires IsMarkup(badges)
    ensures PlainLines(Augmented(content, badges))
    ensures var lines := SplitLines(content);
            && TitleEnds(lines, n)
            && Substance(SplitLines(Augmented(content, badges)))
               == ["<!-- Generated by " + "DocPlane; edit " + "through the API -->"] + OwnText(lines[..n]) + [badges] + OwnText(lines[n..])
  {
    hide *;
    var lines := SplitLines(content);
    var kept := Keep(lines);
    n := TitleOf(lines);
    LinesOfAugmented(content, badges);
    WrittenPlain(content, badges);
    OwnTextIs(lines[..n]);
    OwnTextIs(lines[n..]);
    SubstanceTrim(Body(kept, badges));
    BodySubstance(lines, kept, n, badges);
    StampFirst(Trim(Body(kept, badges)));
  }

  lemma {:induction false} WrittenPlain(content: string, badges: string)
    requires IsMarkup(badges) && SplitLines(Augmented(content, badges)) == [GENERATOR_STAMP] + Trim(Body(Keep(SplitLines(content)), badges))
    ensures PlainLines(Augmented(content, badges))
  {
    hide *;
    var trimmed := Trim(Body(Keep(SplitLines(content)), badges));
    AugmentedIs(content, badges);
    LinesFree(content);
    KeepKinds(SplitLines(content));
    WrittenFree(Keep(SplitLines(content)), badges);
    TrimmedText(Body(Keep(SplitLines(content)), badges));
    LinesFree(Augmented(content, badges));
    LinesPlain([GENERATOR_STAMP] + trimmed);
    LinesFirst([GENERATOR_STAMP] + trimmed);
    assert ([GENERATOR_STAMP] + trimmed)[1..] == trimmed;
  }

  lemma {:induction false} BodySubstance(lines: seq<string>, kept: seq<string>, n: nat, badges: string)
    requires IsMarkup(badges) && n <= |lines| && kept == Keep(lines)
    requires if n == 0 then TitleAt(kept) == |kept| else Parted(kept, Keep(lines[..n]), Keep(lines[n..]))
    ensures Substance(Body(kept, badges)) == Substance(Keep(lines[..n])) + [badges] + Substance(Keep(lines[n..]))
  {
    hide IsMarkup, Substance, DropBlank, TitleAt;
    var i := TitleAt(kept);
    if n == 0 {
      assert lines[..0] == [] && lines[0..] == lines;
      SubstanceOfBody([], badges, kept);
      assert Substance(Keep([])) == [] by { assert Keep([]) == []; NoSubstance(); }
    } else {
      SubstanceOfBody(kept[..i + 1], badges, kept[i + 1..]);
    }
  }

  lemma {:induction false} NoSubstance()
    ensures Substance([]) == []
  {}

  lemma {:induction false} StampFirst(rest: seq<string>)
    ensures Substance([GENERATOR_STAMP] + rest) == ["<!-- Generated by " + "DocPlane; edit " + "through the API -->"] + Substance(rest)
  {
    StampPieces();
    StampTrim(GENERATOR_STAMP);
    BlankIs(GENERATOR_STAMP);
    RStripIs(GENERATOR_STAMP, GENERATOR_STAMP);
    hide Substance, Blank, RStrip;
    SubstanceAppend([GENERATOR_STAMP], rest);
    SubstanceOne(GENERATOR_STAMP);
  }
}
