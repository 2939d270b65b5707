/** Hiding approved placeholders behind sentinels before redaction, and putting them back. */
module Redaction {
  import opened Text

  const NUL := 0 as char

  predicate NulFree(s: string) { forall i :: 0 <= i < |s| ==> s[i] != NUL }

  // ---- sentinels -------------------------------------------------------------------------

  /** What a sentinel holds between its two NUL characters. */
  function Inner(n: nat): string { "PH" + Decimal(n) }

  /** `"\x00PH{}\x00".format(n)`. */
  function Token(n: nat): string { [NUL] + Inner(n) + [NUL] }

  predicate Plain(c: char) { c == 'P' || c == 'H' || Digit(c) }

  lemma {:induction false} InnerPlain(n: nat)
    ensures Inner(n) != "" && forall i :: 0 <= i < |Inner(n)| ==> Plain(Inner(n)[i]) && Inner(n)[i] != NUL
  {
    DecimalDigits(n);
    forall i | 0 <= i < |Inner(n)| ensures Plain(Inner(n)[i]) && Inner(n)[i] != NUL {
      if i >= 2 { assert Inner(n)[i] == Decimal(n)[i - 2]; }
    }
  }

  lemma {:induction false} InnerApart(n: nat, m: nat)
    requires Inner(n) == Inner(m)
    ensures n == m
  {
    assert Decimal(n) == Inner(n)[2..] == Inner(m)[2..] == Decimal(m);
    DecimalApart(n, m);
  }

  // ---- matchers --------------------------------------------------------------------------

  /** A pattern anchored at the start of a text: the length of its match, 0 for none. */
  type Matcher = string -> nat

  /** A match lies in the text, holds no NUL, and some character no sentinel has. */
  ghost predicate Approved(m: Matcher) {
    forall t :: m(t) <= |t| && (m(t) > 0 ==> IsValue(t[..m(t)]))
  }

  predicate IsValue(v: string) { NulFree(v) && exists i :: 0 <= i < |v| && !Plain(v[i]) }

  /** Characters and sentinels in turn: what a partly masked text is. */
  datatype Atom = Ch(c: char) | Mark(n: nat)

  function Shown(a: Atom): string {
    match a case Ch(c) => [c] case Mark(n) => Token(n)
  }

  function Render(atoms: seq<Atom>): string {
    if atoms == [] then "" else Shown(atoms[0]) + Render(atoms[1..])
  }

  function Meant(a: Atom, values: seq<string>): string {
    match a case Ch(c) => [c] case Mark(n) => if n < |values| then values[n] else ""
  }

  /** The text behind the sentinels. */
  function Flatten(atoms: seq<Atom>, values: seq<string>): string {
    if atoms == [] then "" else Meant(atoms[0], values) + Flatten(atoms[1..], values)
  }

  /** No bare NUL, and only sentinels below `k`. */
  predicate Below(atoms: seq<Atom>, k: nat) { forall i :: 0 <= i < |atoms| ==> Under(atoms[i], k) }

  predicate Under(a: Atom, k: nat) {
    match a case Ch(c) => c != NUL case Mark(n) => n < k
  }

  function Atoms(t: string): seq<Atom> { if t == "" then [] else [Ch(t[0])] + Atoms(t[1..]) }

  lemma {:induction false} AtomsRender(t: string, values: seq<string>)
    requires NulFree(t)
    ensures Render(Atoms(t)) == t && Flatten(Atoms(t), values) == t && Below(Atoms(t), 0)
    ensures |Atoms(t)| == |t| && forall i :: 0 <= i < |t| ==> Atoms(t)[i] == Ch(t[i])
  {
    if t != "" {
      AtomsRender(t[1..], values);
      assert t == [t[0]] + t[1..];
      assert Atoms(t)[1..] == Atoms(t[1..]);
    }
  }

  /** `text.replace(token, value)`: leftmost occurrences, which do not overlap. */
  function Replace(t: string, token: string, value: string): string
    requires token != ""
    decreases |t|
  {
    if t == "" then ""
    else if StartsWith(t, token) then value + Replace(t[|token|..], token, value)
    else [t[0]] + Replace(t[1..], token, value)
  }

  /** No place in `t` where `m` matches. */
  ghost predicate NoMatch(m: Matcher, t: string) { forall i :: 0 <= i < |t| ==> m(t[i..]) == 0 }

  // ---- one masking pass ------------------------------------------------------------------

  /** `pattern.sub(store, text)` when sentinels from `k` on are free; a literal keeps to one sentinel. */
  function Sub(m: Matcher, t: string, k: nat, literal: bool): string
    requires Approved(m)
    decreases |t|
  {
    if t == "" then ""
    else if m(t) > 0 then Token(k) + Sub(m, t[m(t)..], if literal then k else k + 1, literal)
    else [t[0]] + Sub(m, t[1..], k, literal)
  }

  /** The matched texts, in order. */
  function Stored(m: Matcher, t: string): seq<string>
    requires Approved(m)
    decreases |t|
  {
    if t == "" then [] else if m(t) > 0 then [t[..m(t)]] + Stored(m, t[m(t)..]) else Stored(m, t[1..])
  }

  /** The same pass seen on characters and sentinels. */
  function SubAtoms(m: Matcher, atoms: seq<Atom>, k: nat, literal: bool): seq<Atom>
    requires Approved(m)
    decreases |atoms|
  {
    if atoms == [] then []
    else
      var n := m(Render(atoms));
      if 0 < n <= |atoms| then [Mark(k)] + SubAtoms(m, atoms[n..], if literal then k else k + 1, literal)
      else [atoms[0]] + SubAtoms(m, atoms[1..], k, literal)
  }

  /** Text without NUL at the front of a rendering is characters, not sentinels. */
  lemma {:induction false} FrontIsPlain(atoms: seq<Atom>, n: nat, values: seq<string>)
    requires n <= |Render(atoms)| && NulFree(Render(atoms)[..n])
    ensures n <= |atoms| && Render(atoms[n..]) == Render(atoms)[n..]
    ensures Flatten(atoms, values) == Render(atoms)[..n] + Flatten(atoms[n..], values)
  {
    hide Render, NulFree, Flatten;
    if n == 0 {
      assert atoms[0..] == atoms;
    } else {
      var t := Render(atoms);
      FrontIsCh(atoms, n);
      FrontIsPlain(atoms[1..], n - 1, values);
      assert atoms == [atoms[0]] + atoms[1..];
      FlattenHead(atoms[0], atoms[1..], values);
      assert atoms[1..][n - 1..] == atoms[n..];
      assert t[1..][n - 1..] == t[n..];
      Front(t, n, Flatten(atoms[n..], values));
    }
  }

  lemma {:induction false} Front(t: string, n: nat, rest: string)
    requires 0 < n <= |t|
    ensures t[..n] + rest == [t[0]] + (t[1..][..n - 1] + rest)
  {}

  lemma {:induction false} FrontIsCh(atoms: seq<Atom>, n: nat)
    requires 0 < n <= |Render(atoms)| && NulFree(Render(atoms)[..n])
    ensures atoms != [] && atoms[0] == Ch(Render(atoms)[0]) && Render(atoms)[1..] == Render(atoms[1..])
    ensures n - 1 <= |Render(atoms[1..])| && NulFree(Render(atoms[1..])[..n - 1])
  {
    var t := Render(atoms);
    assert t[..n][0] == t[0];
    assert atoms[0].Ch?;
    assert t[1..] == Render(atoms[1..]);
    var front := t[1..][..n - 1];
    forall i | 0 <= i < |front| ensures front[i] != NUL { assert front[i] == t[..n][i + 1]; }
  }

  /** No match starts inside a sentinel. */
  lemma {:induction false} SkipSentinel(m: Matcher, w: string, rest: string, k: nat, literal: bool)
    requires Approved(m) && (forall i :: 0 <= i < |w| ==> Plain(w[i]))
    ensures Sub(m, w + [NUL] + rest, k, literal) == w + [NUL] + Sub(m, rest, k, literal)
    decreases |w|
  {
    hide Approved, Plain, Token;
    var t := w + [NUL] + rest;
    NoMatchInside(m, w, rest);
    if w == "" {
      SubStep(m, t, NUL, rest, k, literal);
    } else {
      var left := w[1..] + [NUL] + rest;
      SubStep(m, t, w[0], left, k, literal);
      hide Sub;
      SkipSentinel(m, w[1..], rest, k, literal);
      assert [w[0]] + w[1..] == w;
    }
  }

  lemma {:induction false} SubStep(m: Matcher, t: string, c: char, rest: string, k: nat, literal: bool)
    requires Approved(m) && t == [c] + rest && m(t) == 0
    ensures Sub(m, t, k, literal) == [c] + Sub(m, rest, k, literal)
  {
    assert t[1..] == rest;
  }

  lemma {:induction false} MatchIs(m: Matcher, t: string)
    requires Approved(m)
    ensures m(t) <= |t| && (m(t) > 0 ==> IsValue(t[..m(t)]))
  {}

  /** A value reaches past characters that sentinels have too. */
  lemma {:induction false} ValueFront(t: string, n: nat, k: nat)
    requires n <= |t| && IsValue(t[..n]) && k < |t| && forall i :: 0 <= i < k ==> Plain(t[i])
    ensures n > k && t[k] != NUL
  {
    var i :| 0 <= i < |t[..n]| && !Plain(t[..n][i]);
    assert t[..n][i] == t[i];
    assert t[..n][k] == t[k];
  }

  lemma {:induction false} NoMatchInside(m: Matcher, w: string, rest: string)
    requires Approved(m) && (forall i :: 0 <= i < |w| ==> Plain(w[i]))
    ensures m(w + [NUL] + rest) == 0
  {
    var t := w + [NUL] + rest;
    MatchIs(m, t);
    hide Approved, IsValue, Plain;
    assert t[|w|] == NUL;
    if m(t) > 0 { ValueFront(t, m(t), |w|); }
  }

  lemma {:induction false} SubToken(m: Matcher, n: nat, rest: string, k: nat, literal: bool)
    requires Approved(m)
    ensures m(Token(n) + rest) == 0
    ensures Sub(m, Token(n) + rest, k, literal) == Token(n) + Sub(m, rest, k, literal)
  {
    InnerPlain(n);
    TokenIs(n, rest);
    hide Approved, Token, Inner, Sub;
    var inner := Inner(n);
    SkipSentinel(m, "", inner + [NUL] + rest, k, literal);
    NoMatchInside(m, "", inner + [NUL] + rest);
    SkipSentinel(m, inner, rest, k, literal);
    TokenIs(n, Sub(m, rest, k, literal));
  }

  lemma {:induction false} TokenIs(n: nat, rest: string)
    ensures Token(n) + rest == "" + [NUL] + (Inner(n) + [NUL] + rest)
  {}

  /** A pass over a partly masked text masks more characters and leaves the sentinels alone. */
  lemma {:induction false} SubRenders(m: Matcher, atoms: seq<Atom>, k: nat, literal: bool)
    requires Approved(m)
    ensures Sub(m, Render(atoms), k, literal) == Render(SubAtoms(m, atoms, k, literal))
    decreases |atoms|
  {
    if atoms != [] {
      var t, n := Render(atoms), m(Render(atoms));
      if n > 0 {
        FrontIsPlain(atoms, n, []);
        SubRenders(m, atoms[n..], if literal then k else k + 1, literal);
        SubHead(Mark(k), SubAtoms(m, atoms[n..], if literal then k else k + 1, literal));
      } else {
        SubRenders(m, atoms[1..], k, literal);
        SubHead(atoms[0], SubAtoms(m, atoms[1..], k, literal));
        match atoms[0]
        case Ch(c) => assert t[1..] == Render(atoms[1..]);
        case Mark(j) => SubToken(m, j, Render(atoms[1..]), k, literal);
      }
    }
  }

  lemma {:induction false} SubHead(a: Atom, rest: seq<Atom>)
    ensures Render([a] + rest) == Shown(a) + Render(rest)
  {
    assert ([a] + rest)[1..] == rest;
  }

  lemma {:induction false} FlattenHead(a: Atom, rest: seq<Atom>, values: seq<string>)
    ensures Flatten([a] + rest, values) == Meant(a, values) + Flatten(rest, values)
  {
    assert ([a] + rest)[1..] == rest;
  }

  lemma {:induction false} FlattenMore(atoms: seq<Atom>, values: seq<string>, extra: seq<string>)
    requires Below(atoms, |values|)
    ensures Flatten(atoms, values + extra) == Flatten(atoms, values)
  {
    if atoms != [] {
      BelowRest(atoms, |values|, 1);
      FlattenMore(atoms[1..], values, extra);
    }
  }

  lemma {:induction false} BelowRest(atoms: seq<Atom>, k: nat, n: nat)
    requires Below(atoms, k) && n <= |atoms|
    ensures Below(atoms[n..], k)
  {}

  /** Masking with a pattern hides nothing for good: the stored texts are what the sentinels stand for. */
  lemma {:induction false} SubFlattens(m: Matcher, atoms: seq<Atom>, values: seq<string>)
    requires Approved(m) && Below(atoms, |values|)
    ensures var stored := Stored(m, Render(atoms));
            var after := SubAtoms(m, atoms, |values|, false);
            Flatten(after, values + stored) == Flatten(atoms, values) && Below(after, |values| + |stored|)
    decreases |atoms|
  {
    hide Below, Flatten, Approved, Render, Stored;
    if atoms == [] {
      NothingMasked(m, values);
    } else if m(Render(atoms)) > 0 {
      SubFlattensMatch(m, atoms, values);
    } else {
      BelowRest(atoms, |values|, 1);
      SubFlattens(m, atoms[1..], values);
      StoredSkips(m, atoms);
      assert SubAtoms(m, atoms, |values|, false) == [atoms[0]] + SubAtoms(m, atoms[1..], |values|, false);
      assert atoms == [atoms[0]] + atoms[1..];
      FlattenHead(atoms[0], atoms[1..], values);
      HeadBelow(atoms, |values|);
      hide SubAtoms;
      var after, stored := SubAtoms(m, atoms[1..], |values|, false), Stored(m, Render(atoms[1..]));
      FlattenHead(atoms[0], after, values + stored);
      BelowHead(atoms[0], after, |values| + |stored|);
    }
  }

  lemma {:induction false} NothingMasked(m: Matcher, values: seq<string>)
    requires Approved(m)
    ensures Stored(m, Render([])) == [] && SubAtoms(m, [], |values|, false) == [] && Below([], |values|)
    ensures Flatten([], values) == "" == Flatten([], values + [])
  {}

  lemma {:induction false} StoredStep(m: Matcher, t: string)
    requires Approved(m) && t != "" && m(t) > 0
    ensures Stored(m, t) == [t[..m(t)]] + Stored(m, t[m(t)..])
  {}

  lemma {:induction false} ValueIsNulFree(v: string)
    requires IsValue(v)
    ensures NulFree(v)
  {}

  lemma {:induction false} SubFlattensMatch(m: Matcher, atoms: seq<Atom>, values: seq<string>)
    requires Approved(m) && Below(atoms, |values|) && atoms != [] && m(Render(atoms)) > 0
    ensures var stored := Stored(m, Render(atoms));
            var after := SubAtoms(m, atoms, |values|, false);
            Flatten(after, values + stored) == Flatten(atoms, values) && Below(after, |values| + |stored|)
    decreases |atoms|, 0
  {
    hide Below, Flatten, Approved, IsValue, Render;
    var t, n := Render(atoms), m(Render(atoms));
    MatchIs(m, t);
    ValueIsNulFree(t[..n]);
    FrontIsPlain(atoms, n, values);
    BelowRest(atoms, |values|, n);
    var one, rest := [t[..n]], Stored(m, t[n..]);
    BelowMore(atoms[n..], |values|, |values| + 1);
    SubFlattens(m, atoms[n..], values + one);
    var after := SubAtoms(m, atoms[n..], |values| + 1, false);
    assert SubAtoms(m, atoms, |values|, false) == [Mark(|values|)] + after;
    StoredStep(m, t);
    hide Stored, SubAtoms;
    assert values + one + rest == values + (one + rest);
    FlattenMore(atoms[n..], values, one);
    FlattenHead(Mark(|values|), after, values + (one + rest));
    BelowHead(Mark(|values|), after, |values| + 1 + |rest|);
  }

  lemma {:induction false} HeadBelow(atoms: seq<Atom>, k: nat)
    requires atoms != [] && Below(atoms, k)
    ensures Under(atoms[0], k)
  {}

  lemma {:induction false} BelowMore(atoms: seq<Atom>, k: nat, l: nat)
    requires Below(atoms, k) && k <= l
    ensures Below(atoms, l)
  {}

  lemma {:induction false} BelowHead(a: Atom, rest: seq<Atom>, k: nat)
    requires Below(rest, k) && Under(a, k)
    ensures Below([a] + rest, k)
  {
    assert forall i :: 0 < i < |[a] + rest| ==> ([a] + rest)[i] == rest[i - 1];
  }

  lemma {:induction false} StoredSkips(m: Matcher, atoms: seq<Atom>)
    requires Approved(m) && atoms != [] && m(Render(atoms)) == 0
    ensures Stored(m, Render(atoms)) == Stored(m, Render(atoms[1..]))
  {
    hide Approved, Inner, Token;
    match atoms[0]
    case Ch(c) => assert Render(atoms)[1..] == Render(atoms[1..]);
    case Mark(j) =>
      InnerPlain(j);
      TokenIs(j, Render(atoms[1..]));
      hide Stored;
      StoredPast(m, "", Inner(j) + [NUL] + Render(atoms[1..]));
      StoredPast(m, Inner(j), Render(atoms[1..]));
  }

  lemma {:induction false} StoredPast(m: Matcher, w: string, rest: string)
    requires Approved(m) && (forall i :: 0 <= i < |w| ==> Plain(w[i]))
    ensures Stored(m, w + [NUL] + rest) == Stored(m, rest)
    decreases |w|
  {
    NoMatchInside(m, w, rest);
    assert (w + [NUL] + rest)[1..] == if w == "" then rest else w[1..] + [NUL] + rest;
    if w != "" { StoredPast(m, w[1..], rest); }
  }
}
