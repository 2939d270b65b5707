/** The placeholders the three patterns protect, written out. */
module RedactionPatterns {
  import opened Text
  import opened RedactionMask

  predicate CapitalName(s: string) {
    && s != "" && ('A' <= s[0] <= 'Z' || s[0] == '_')
    && forall i :: 0 < i < |s| ==> 'A' <= s[i] <= 'Z' || '0' <= s[i] <= '9' || s[i] == '_'
  }

  /** A dollar sign and a name in capitals, with a brace before it or none, and after it or none. */
  ghost predicate EnvText(v: string) { exists open, name, close :: EnvParts(v, open, name, close) }

  predicate EnvParts(v: string, open: string, name: string, close: string) {
    (open == "" || open == "{") && CapitalName(name) && (close == "" || close == "}") && v == "$" + open + name + close
  }

  predicate DashedName(s: string) {
    && s != "" && ('a' <= s[0] <= 'z' || 'A' <= s[0] <= 'Z')
    && forall i :: 0 < i < |s| ==> 'a' <= s[i] <= 'z' || 'A' <= s[i] <= 'Z' || '0' <= s[i] <= '9' || s[i] == '_' || s[i] == '-'
  }

  /** A name in angle brackets. */
  ghost predicate AngleText(v: string) { exists name :: DashedName(name) && v == "<" + name + ">" }

  predicate Spaces(s: string) { forall i :: 0 <= i < |s| ==> IsSpace(s[i]) }

  predicate Phrase(s: string) {
    && s != ""
    && forall i :: 0 <= i < |s| ==>
         'a' <= s[i] <= 'z' || 'A' <= s[i] <= 'Z' || '0' <= s[i] <= '9' || s[i] == '_' || s[i] == '.' || s[i] == '-' || s[i] == ' '
  }

  /** A phrase in double braces, with white space around it. */
  ghost predicate MustacheText(v: string) { exists before, phrase, after :: MustacheParts(v, before, phrase, after) }

  predicate MustacheParts(v: string, before: string, phrase: string, after: string) {
    Spaces(before) && Phrase(phrase) && Spaces(after) && v == "{{" + before + phrase + after + "}}"
  }

  // ---- spans -------------------------------------------------------------------------------

  /** A span goes as far as it can. */
  lemma {:induction false} SpanIs(t: string, i: nat, ok: char -> bool, j: nat)
    requires i <= j <= |t| && (forall p :: i <= p < j ==> ok(t[p])) && (j < |t| ==> !ok(t[j]))
    ensures Span(t, i, ok) == j
    decreases j - i
  {
    if i < j { SpanIs(t, i + 1, ok, j); }
  }

  // ---- angle brackets ----------------------------------------------------------------------

  lemma {:induction false} AngleSplits(t: string)
    requires AngleAt(t) > 0
    ensures AngleText(t[..AngleAt(t)])
  {
    var n := AngleAt(t);
    var name := t[1..n - 1];
    assert forall i :: 0 <= i < |name| ==> name[i] == t[i + 1];
    assert t[..n] == "<" + name + ">";
  }

  lemma {:induction false} AngleRead(t: string, name: string)
    requires |name| + 2 <= |t| && DashedName(name) && t[..|name| + 2] == "<" + name + ">"
    ensures AngleAt(t) == |name| + 2
  {
    var n := |name| + 2;
    assert forall i :: 0 <= i < n ==> t[i] == t[..n][i];
    assert forall i :: 0 <= i < |name| ==> t[i + 1] == name[i];
    SpanIs(t, 2, AngleChar, n - 1);
  }

  /** The angle pattern matches exactly those. */
  lemma {:induction false} AngleIsThePattern(t: string, n: nat)
    requires n > 0
    ensures AngleAt(t) == n <==> n <= |t| && AngleText(t[..n])
  {
    if AngleAt(t) == n { AngleSplits(t); }
    if n <= |t| && AngleText(t[..n]) {
      var name :| DashedName(name) && t[..n] == "<" + name + ">";
      AngleRead(t, name);
    }
  }

  // ---- dollar signs --------------------------------------------------------------------------

  lemma {:induction false} EnvSplits(t: string)
    requires EnvAt(t) > 0
    ensures EnvText(t[..EnvAt(t)])
  {
    var i := if 1 < |t| && t[1] == '{' then 2 else 1;
    var j := Span(t, i + 1, c => RedactionMask.Upper(c) || Digit(c));
    var open, name, close := t[1..i], t[i..j], t[j..EnvAt(t)];
    assert forall k :: 0 <= k < |name| ==> name[k] == t[i + k];
    assert t[..EnvAt(t)] == "$" + open + name + close;
    assert EnvParts(t[..EnvAt(t)], open, name, close);
  }

  /** No such text at the front is longer. */
  lemma {:induction false} EnvBound(t: string, n: nat)
    requires n <= |t| && EnvText(t[..n])
    ensures n <= EnvAt(t)
  {
    var open, name, close :| EnvParts(t[..n], open, name, close);
    assert forall k :: 0 <= k < n ==> t[k] == t[..n][k];
    var i := 1 + |open|;
    assert forall k :: 0 <= k < |name| ==> t[i + k] == name[k];
    assert open == "{" ==> t[1] == '{';
    assert t[i] == name[0];
    SpanReaches(t, i + 1, i + |name|);
    assert close == "}" ==> t[i + |name|] == '}';
  }

  lemma {:induction false} SpanReaches(t: string, i: nat, j: nat)
    requires i <= j <= |t| && forall p :: i <= p < j ==> RedactionMask.Upper(t[p]) || Digit(t[p])
    ensures Span(t, i, c => RedactionMask.Upper(c) || Digit(c)) >= j
    ensures j < |t| && !RedactionMask.Upper(t[j]) && !Digit(t[j]) ==> Span(t, i, c => RedactionMask.Upper(c) || Digit(c)) == j
    decreases j - i
  {
    if i < j { SpanReaches(t, i + 1, j); }
  }

  /** The dollar pattern matches the longest of those, if there is one. */
  lemma {:induction false} EnvIsThePattern(t: string)
    ensures EnvAt(t) > 0 ==> EnvText(t[..EnvAt(t)])
    ensures forall n: nat :: n <= |t| && EnvText(t[..n]) ==> n <= EnvAt(t)
  {
    if EnvAt(t) > 0 { EnvSplits(t); }
    forall n: nat | n <= |t| && EnvText(t[..n]) ensures n <= EnvAt(t) { EnvBound(t, n); }
  }

  // ---- double braces ---------------------------------------------------------------------------

  lemma {:induction false} MustacheSplits(t: string)
    requires MustacheAt(t) > 0
    ensures MustacheText(t[..MustacheAt(t)])
  {
    var n := MustacheAt(t);
    var u := t[2..n - 2];
    var i, j :| 0 <= i < j <= |u| && AllIn(u, 0, i, IsSpace) && AllIn(u, i, j, MustacheChar) && AllIn(u, j, |u|, IsSpace);
    assert u == u[..i] + u[i..j] + u[j..];
    assert t[..n] == "{{" + u + "}}";
    InnerParts(u, i, j);
    assert MustacheParts(t[..n], u[..i], u[i..j], u[j..]);
  }

  lemma {:induction false} InnerParts(u: string, i: nat, j: nat)
    requires i < j <= |u| && AllIn(u, 0, i, IsSpace) && AllIn(u, i, j, MustacheChar) && AllIn(u, j, |u|, IsSpace)
    ensures Spaces(u[..i]) && Phrase(u[i..j]) && Spaces(u[j..])
  {
    hide IsSpace;
  }

  lemma {:induction false} MustacheRead(t: string, n: nat, before: string, phrase: string, after: string)
    requires n <= |t| && MustacheParts(t[..n], before, phrase, after)
    ensures MustacheAt(t) == n
  {
    var u := before + phrase + after;
    assert t[..n] == "{{" + u + "}}";
    assert forall k :: 0 <= k < n ==> t[k] == t[..n][k];
    assert t[2..n - 2] == u;
    UsableInner(u, before, phrase, after);
    SpanIs(t, 2, c => IsSpace(c) || MustacheChar(c), n - 2);
  }

  lemma {:induction false} UsableInner(u: string, before: string, phrase: string, after: string)
    requires u == before + phrase + after && Spaces(before) && Phrase(phrase) && Spaces(after)
    ensures MustacheInner(u) && forall k :: 0 <= k < |u| ==> IsSpace(u[k]) || MustacheChar(u[k])
  {
    hide IsSpace;
    var i, j := |before|, |before| + |phrase|;
    assert AllIn(u, 0, i, IsSpace) && AllIn(u, i, j, MustacheChar) && AllIn(u, j, |u|, IsSpace);
  }

  /** The brace pattern matches exactly those. */
  lemma {:induction false} MustacheIsThePattern(t: string, n: nat)
    requires n > 0
    ensures MustacheAt(t) == n <==> n <= |t| && MustacheText(t[..n])
  {
    if MustacheAt(t) == n { MustacheSplits(t); }
    if n <= |t| && MustacheText(t[..n]) {
      var before, phrase, after :| MustacheParts(t[..n], before, phrase, after);
      MustacheRead(t, n, before, phrase, after);
    }
  }
}
