/** The lines that are Markdown headings, with the title and the identifier written on them. */
module HeadingLine {
  import opened Text

  predicate Blank(c: char) { c == ' ' || c == '\t' }

  predicate IdChar(c: char) { 'a' <= c <= 'z' || 'A' <= c <= 'Z' || Digit(c) || c == '_' || c == '-' }

  function Indent(line: string, i: nat): (j: nat)
    requires i <= |line|
    ensures i <= j <= |line| && (j < |line| ==> !Blank(line[j]))
    ensures forall q :: i <= q < j ==> Blank(line[q])
    decreases |line| - i
  {
    if i < |line| && Blank(line[i]) then Indent(line, i + 1) else i
  }

  function IdEnd(line: string, i: nat): (j: nat)
    requires i <= |line|
    ensures i <= j <= |line| && (j < |line| ==> !IdChar(line[j]))
    ensures forall q :: i <= q < j ==> IdChar(line[q])
    decreases |line| - i
  {
    if i < |line| && IdChar(line[i]) then IdEnd(line, i + 1) else i
  }

  function Marks(line: string, i: nat): (j: nat)
    requires i <= |line|
    ensures i <= j <= |line| && (j < |line| ==> line[j] != '#')
    ensures forall q :: i <= q < j ==> line[q] == '#'
    decreases |line| - i
  {
    if i < |line| && line[i] == '#' then Marks(line, i + 1) else i
  }

  /** What may follow a title. */
  datatype Tail = NoTail | Blanks | Explicit(id: string)

  /** `(?:[ \t]+\{#(?P<explicit>[a-zA-Z0-9_-]+)\})?[ \t]*$` at position `e`. */
  function TailAt(line: string, e: nat): Tail
    requires e <= |line|
  {
    var j := Indent(line, e);
    if e < j && StartsWith(line[j..], "{#") && ClosesAt(line, IdEnd(line, j + 2), j + 2) then Explicit(line[j + 2..IdEnd(line, j + 2)])
    else if j == |line| then Blanks
    else NoTail
  }

  predicate ClosesAt(line: string, k: nat, from: nat) { from < k < |line| && line[k] == '}' && Indent(line, k + 1) == |line| }

  /** Where the lazy `.*?` stops. */
  function TitleEnd(line: string, e: nat): (r: nat)
    requires e <= |line|
    ensures e <= r <= |line| && TailAt(line, r) != NoTail
    ensures forall q :: e <= q < r ==> TailAt(line, q) == NoTail
    decreases |line| - e
  {
    if TailAt(line, e) != NoTail then e else TitleEnd(line, e + 1)
  }

  datatype Parsed = Parsed(level: nat, title: string, explicit: Option<string>)

  /** `_HEADING_RE.match`, and the title stripped. */
  function Parse(line: string): Option<Parsed> {
    var n := Marks(line, 0);
    if 1 <= n <= 6 && n < |line| && Blank(line[n]) then
      var b := Indent(line, n);
      var e := TitleEnd(line, b);
      Some(Parsed(n, Strip(line[b..e]), match TailAt(line, e) case Explicit(id) => Some(id) case _ => Option.None))
    else Option.None
  }

  // ---- headings that carry their identifier ------------------------------------------------------

  function Hashes(n: nat): string { seq(n, _ => '#') }

  function Written(level: nat, title: string, id: string): string { Hashes(level) + " " + title + " {#" + id + "}" }

  /** A heading written with an identifier is read with just that title and identifier. */
  lemma {:induction false} ReadsBack(level: nat, title: string, id: string)
    requires 1 <= level <= 6 && title != "" && Strip(title) == title
    requires id != "" && forall i :: 0 <= i < |id| ==> IdChar(id[i])
    ensures Parse(Written(level, title, id)) == Some(Parsed(level, title, Some(id)))
  {
    var line, e := Written(level, title, id), level + 1 + |title|;
    Layout(level, title, id);
    hide *;
    MarksHere(line, level, e, id);
    TitleHere(line, level, e, id);
    ParsedHere(line, level, e, title, id);
  }

  /** How such a line looks: its title ends at `e`. */
  ghost predicate LooksSo(line: string, level: nat, e: nat, id: string) {
    && level + 1 < e < |line| && (forall i :: 0 <= i < level ==> line[i] == '#') && line[level] == ' '
    && line[e..] == " {#" + id + "}" && !IsSpace(line[level + 1]) && !IsSpace(line[e - 1])
  }

  lemma {:induction false} Layout(level: nat, title: string, id: string)
    requires title != "" && Strip(title) == title
    ensures var line, e := Written(level, title, id), level + 1 + |title|; LooksSo(line, level, e, id) && line[level + 1..e] == title
  {
    StrippedEnds(title);
    var line, e := Written(level, title, id), level + 1 + |title|;
    hide IsSpace, Strip;
    assert line[level + 1] == title[0] && line[e - 1] == title[|title| - 1];
  }

  lemma {:induction false} StrippedEnds(s: string)
    requires s != "" && Strip(s) == s
    ensures !IsSpace(s[0]) && !IsSpace(s[|s| - 1])
  {
    var k := Seek(s, 0, NonSpace);
    assert |s| <= |LStrip(s)| == |s| - k;
  }

  lemma {:induction false} MarksHere(line: string, level: nat, e: nat, id: string)
    requires LooksSo(line, level, e, id)
    ensures Marks(line, 0) == level && level + 1 < e < |line| && Blank(line[level]) && Indent(line, level) == level + 1
  {
    hide Marks, Indent;
    assert !Blank(line[level + 1]);
  }

  lemma {:induction false} TitleHere(line: string, level: nat, e: nat, id: string)
    requires LooksSo(line, level, e, id)
    requires id != "" && forall i :: 0 <= i < |id| ==> IdChar(id[i])
    ensures TitleEnd(line, level + 1) == e && TailAt(line, e) == Explicit(id)
  {
    hide TailAt;
    TailHere(line, e, id);
    assert line[e] == line[e..][0] == ' ' && line[|line| - 1] == line[e..][|line| - 1 - e] == '}';
    forall q | level + 1 <= q < e ensures TailAt(line, q) == NoTail { NoTailYet(line, q, e); }
    hide TitleEnd;
  }

  lemma {:induction false} ParsedHere(line: string, level: nat, e: nat, title: string, id: string)
    requires 1 <= level <= 6 && level + 1 < e <= |line| && Marks(line, 0) == level && Blank(line[level]) && Indent(line, level) == level + 1
    requires TitleEnd(line, level + 1) == e && TailAt(line, e) == Explicit(id)
    requires line[level + 1..e] == title && Strip(title) == title
    ensures Parse(line) == Some(Parsed(level, title, Some(id)))
  {
    hide Marks, Indent, TitleEnd, TailAt, Strip;
  }

  lemma {:induction false} TailHere(line: string, e: nat, id: string)
    requires e <= |line| && line[e..] == " {#" + id + "}" && id != "" && forall i :: 0 <= i < |id| ==> IdChar(id[i])
    ensures TailAt(line, e) == Explicit(id)
  {
    var t := " {#" + id + "}";
    assert forall i :: 0 <= i < |t| ==> line[e + i] == t[i];
    assert Indent(line, e) == e + 1;
    assert line[e + 1..][..2] == "{#";
    forall i | 0 <= i < |id| ensures line[e + 3 + i] == id[i] { assert t[3 + i] == id[i]; }
    assert line[e + 3 + |id|] == '}';
    assert IdEnd(line, e + 3) == e + 3 + |id|;
    assert line[e + 3..e + 3 + |id|] == id;
  }

  /** Before the end of the title, what follows runs into the blank before the identifier. */
  lemma {:induction false} NoTailYet(line: string, q: nat, e: nat)
    requires q < e && e + 1 < |line| && !Blank(line[e - 1]) && line[e] == ' ' && line[|line| - 1] == '}'
    ensures TailAt(line, q) == NoTail
  {
    var j := Indent(line, q);
    assert j < e;
    if StartsWith(line[j..], "{#") {
      assert line[j + 1] == line[j..][..2][1] == '#';
      assert j + 2 <= e && IdEnd(line, j + 2) <= e;
      assert Indent(line, IdEnd(line, j + 2) + 1) < |line|;
    }
  }
}
