/** The lines that are headings are those a declarative reading of the pattern allows, read as it says. */
module HeadingPattern {
  import opened Text
  import opened HeadingLine

  predicate Blanks(s: string) { forall i :: 0 <= i < |s| ==> s[i] == ' ' || s[i] == '\t' }

  predicate Identifier(s: string) {
    s != "" && forall i :: 0 <= i < |s| ==> 'a' <= s[i] <= 'z' || 'A' <= s[i] <= 'Z' || '0' <= s[i] <= '9' || s[i] == '_' || s[i] == '-'
  }

  /** What may follow a title: blanks, or blanks and an identifier in braces and blanks. */
  ghost predicate TailIs(tail: string, id: Option<string>) {
    if id.None? then Blanks(tail)
    else exists before, after :: before != "" && Blanks(before) && Blanks(after) && Identifier(id.value) && tail == before + "{#" + id.value + "}" + after
  }

  /** The line in its parts: hashes, blanks, the title and what follows it, the title as short as can be. */
  ghost predicate InParts(line: string, level: nat, gap: string, title: string, tail: string, id: Option<string>) {
    && 1 <= level <= 6 && line == Hashes(level) + gap + title + tail
    && gap != "" && Blanks(gap) && (title + tail == "" || !Blanks([(title + tail)[0]]))
    && TailIs(tail, id)
    && Shortest(title, tail)
  }

  ghost predicate Shortest(title: string, tail: string) { forall k, other :: 0 <= k < |title| ==> !TailIs(title[k..] + tail, other) }

  function IdOf(tail: Tail): Option<string> { if tail.Explicit? then Some(tail.id) else Option.None }

  /** A line is a heading at this level when its hashes are followed by a blank. */
  predicate Marked(line: string, level: nat) {
    1 <= level <= 6 && level < |line| && line[..level] == Hashes(level) && Blanks([line[level]])
  }

  lemma {:induction false} BlankTail(line: string, e: nat)
    requires e <= |line|
    ensures Blanks(line[e..]) <==> Indent(line, e) == |line|
  {
    var j := Indent(line, e);
    assert forall q :: e <= q < |line| ==> line[q] == line[e..][q - e];
    if j < |line| { assert !Blank(line[j]) && line[e..][j - e] == line[j]; }
  }

  lemma {:induction false} IdAt(line: string, from: nat, k: nat)
    requires from < k <= |line| && (forall q :: from <= q < k ==> IdChar(line[q]))
    ensures Identifier(line[from..k])
  {
    assert forall q :: 0 <= q < k - from ==> line[from..k][q] == line[from + q];
  }

  lemma {:induction false} BlanksAt(line: string, from: nat, k: nat)
    requires from <= k <= |line| && (forall q :: from <= q < k ==> Blank(line[q]))
    ensures Blanks(line[from..k])
  {
    assert forall q :: 0 <= q < k - from ==> line[from..k][q] == line[from + q];
  }

  lemma {:induction false} TailSplits(line: string, e: nat)
    requires e <= |line| && TailAt(line, e).Explicit?
    ensures TailIs(line[e..], Some(TailAt(line, e).id))
  {
    var j := Indent(line, e);
    var k := IdEnd(line, j + 2);
    assert line[j..][..2] == "{#" && line[j..][..2] == line[j..j + 2];
    BlankTail(line, k + 1);
    BlanksAt(line, e, j);
    IdAt(line, j + 2, k);
    hide Blanks, Identifier, IdEnd, Indent, TailAt;
    assert line[e..] == line[e..j] + "{#" + line[j + 2..k] + "}" + line[k + 1..];
  }

  /** Where the parts of such a tail are. */
  lemma {:induction false} TailPlaces(line: string, e: nat, before: string, id: string, after: string)
    requires e <= |line| && line[e..] == before + "{#" + id + "}" + after
    ensures var j, k := e + |before|, e + |before| + 2 + |id|;
            && j + 2 <= k < |line| && line[e..j] == before && line[j..][..2] == "{#" && line[j + 2..k] == id && line[k] == '}' && line[k + 1..] == after
  {
    var t, j, k := line[e..], |before|, |before| + 2 + |id|;
    assert t[..j] == before && t[j..j + 2] == "{#" && t[j + 2..k] == id && t[k] == '}' && t[k + 1..] == after;
    assert line[e..e + j] == t[..j] && line[e + j..][..2] == t[j..j + 2] && line[e + j + 2..e + k] == t[j + 2..k] && line[e + k + 1..] == t[k + 1..];
  }

  lemma {:induction false} IndentEnds(line: string, e: nat, j: nat)
    requires e <= j && j + 2 <= |line| && Blanks(line[e..j]) && line[j..][..2] == "{#"
    ensures Indent(line, e) == j
  {
    assert forall q :: e <= q < j ==> line[q] == line[e..j][q - e];
    assert line[j] == line[j..][..2][0];
  }

  lemma {:induction false} IdEnds(line: string, from: nat, k: nat)
    requires from <= k < |line| && Identifier(line[from..k]) && line[k] == '}'
    ensures IdEnd(line, from) == k
  {
    assert forall q :: from <= q < k ==> line[q] == line[from..k][q - from];
  }

  lemma {:induction false} TailRead(line: string, e: nat, before: string, id: string, after: string)
    requires e <= |line| && line[e..] == before + "{#" + id + "}" + after && before != "" && Blanks(before) && Blanks(after)
    requires id != "" && Identifier(id)
    ensures TailAt(line, e) == Explicit(id)
  {
    hide Blanks, Identifier, IdEnd, Indent, TailAt, ClosesAt;
    var j, k := e + |before|, e + |before| + 2 + |id|;
    TailPlaces(line, e, before, id, after);
    IndentEnds(line, e, j);
    IdEnds(line, j + 2, k);
    BlankTail(line, k + 1);
    ExplicitAt(line, e, j, k);
  }

  lemma {:induction false} ExplicitAt(line: string, e: nat, j: nat, k: nat)
    requires e < j && j + 2 < k < |line| && Indent(line, e) == j && line[j..][..2] == "{#" && IdEnd(line, j + 2) == k && line[k] == '}'
    requires Indent(line, k + 1) == |line|
    ensures TailAt(line, e) == Explicit(line[j + 2..k])
  {
    hide Indent, IdEnd;
  }

  lemma {:induction false} TailAtIs(line: string, e: nat)
    requires e <= |line|
    ensures TailAt(line, e) == HeadingLine.Blanks <==> TailIs(line[e..], Option.None)
    ensures forall id :: TailAt(line, e) == Explicit(id) <==> TailIs(line[e..], Some(id))
    ensures TailAt(line, e) == NoTail <==> forall id :: !TailIs(line[e..], id)
  {
    BlankTail(line, e);
    if TailAt(line, e).Explicit? { TailSplits(line, e); }
    forall id | TailIs(line[e..], Some(id)) ensures TailAt(line, e) == Explicit(id) {
      var before, after :| before != "" && Blanks(before) && Blanks(after) && Identifier(id) && line[e..] == before + "{#" + id + "}" + after;
      TailRead(line, e, before, id, after);
    }
    hide Blanks, Identifier, IdEnd, Indent, ClosesAt;
    NothingElse(line, e);
  }

  lemma {:induction false} NothingElse(line: string, e: nat)
    requires e <= |line|
    ensures Indent(line, e) == |line| ==> TailAt(line, e) == HeadingLine.Blanks
    ensures TailAt(line, e) == HeadingLine.Blanks ==> Indent(line, e) == |line|
  {}

  // ---- the whole line --------------------------------------------------------------------------

  lemma {:induction false} MarkedIs(line: string)
    ensures Parse(line).Some? <==> exists level: nat :: Marked(line, level)
    ensures forall level: nat :: Marked(line, level) ==> level == Marks(line, 0)
  {
    hide TailAt, TitleEnd, Strip;
    var n := Marks(line, 0);
    forall level: nat | Marked(line, level) ensures level == n && Blank(line[n]) {
      assert forall q :: 0 <= q < level ==> line[q] == line[..level][q];
      assert [line[level]][0] == line[level];
    }
    assert line[..n] == Hashes(n);
    assert Parse(line).Some? ==> Marked(line, n);
  }

  /** A heading is read as its parts say, and it has parts exactly when it is marked as one. */
  lemma {:induction false} HeadingIsThePattern(line: string) returns (gap: string, title: string, tail: string)
    ensures Parse(line).Some? <==> exists level: nat :: Marked(line, level)
    ensures Parse(line).Some? ==>
              var h := Parse(line).value; InParts(line, h.level, gap, title, tail, h.explicit) && h.title == Strip(title)
  {
    MarkedIs(line);
    if Parse(line).None? {
      return "", "", "";
    }
    var n := Marks(line, 0);
    var b := Indent(line, n);
    var e := TitleEnd(line, b);
    gap, title, tail := line[n..b], line[b..e], line[e..];
    HeadingParts(line, n, b, e);
  }

  lemma {:induction false} LinePieces(line: string, n: nat, b: nat, e: nat)
    requires n <= b <= e <= |line| && forall q :: 0 <= q < n ==> line[q] == '#'
    ensures line == Hashes(n) + line[n..b] + line[b..e] + line[e..] && line[b..e] + line[e..] == line[b..]
    ensures forall k :: 0 <= k < e - b ==> line[b..e][k..] + line[e..] == line[b + k..]
  {
    assert line[..n] == Hashes(n);
  }

  lemma {:induction false} HeadingParts(line: string, n: nat, b: nat, e: nat)
    requires 1 <= n <= 6 && n < |line| && n == Marks(line, 0) && Blank(line[n]) && b == Indent(line, n) && e == TitleEnd(line, b)
    ensures InParts(line, n, line[n..b], line[b..e], line[e..], IdOf(TailAt(line, e)))
  {
    LinePieces(line, n, b, e);
    BlanksAt(line, n, b);
    TailAtIs(line, e);
    TitleShortest(line, b, e);
    assert b > n;
    assert b < |line| ==> !Blank(line[b]) && line[b..][0] == line[b] && [line[b]][0] == line[b];
    hide Hashes, TailIs, TailAt, Indent, Marks, Shortest, TitleEnd;
  }

  lemma {:induction false} TitleShortest(line: string, b: nat, e: nat)
    requires b <= e <= |line| && e == TitleEnd(line, b)
    ensures Shortest(line[b..e], line[e..])
  {
    hide TailIs, TailAt;
    forall k, other | 0 <= k < e - b ensures !TailIs(line[b..e][k..] + line[e..], other) {
      TailAtIs(line, b + k);
      assert line[b..e][k..] + line[e..] == line[b + k..];
    }
  }
}
