/** The masking passes in their order, unmasking, and when unmasking undoes masking. */
module RedactionMask {
  import opened Text
  import opened Redaction

  // ---- the approved placeholders ---------------------------------------------------------

  const APPROVED_PLACEHOLDERS := ["{{password}}", "{{ password }}", "<VAR>", "changeme"]

  function LiteralAt(literal: string): Matcher { t => if StartsWith(t, literal) then |literal| else 0 }

  predicate Upper(c: char) { 'A' <= c <= 'Z' || c == '_' }

  predicate Letter(c: char) { 'a' <= c <= 'z' || 'A' <= c <= 'Z' }

  predicate AngleChar(c: char) { Letter(c) || Digit(c) || c == '_' || c == '-' }

  predicate MustacheChar(c: char) { Letter(c) || Digit(c) || c == '_' || c == '.' || c == '-' || c == ' ' }

  /** How many characters from `i` on satisfy `ok`. */
  function Span(t: string, i: nat, ok: char -> bool): (j: nat)
    requires i <= |t|
    ensures i <= j <= |t|
    ensures forall p :: i <= p < j ==> ok(t[p])
    decreases |t| - i
  {
    if i < |t| && ok(t[i]) then Span(t, i + 1, ok) else i
  }

  /** `\$\{?[A-Z_][A-Z0-9_]*\}?`. */
  function EnvAt(t: string): nat {
    if t == "" || t[0] != '$' then 0
    else
      var i := if 1 < |t| && t[1] == '{' then 2 else 1;
      if i >= |t| || !Upper(t[i]) then 0
      else
        var j := Span(t, i + 1, c => Upper(c) || Digit(c));
        if j < |t| && t[j] == '}' then j + 1 else j
  }

  /** `<[a-zA-Z][a-zA-Z0-9_-]*>`. */
  function AngleAt(t: string): nat {
    if |t| < 2 || t[0] != '<' || !Letter(t[1]) then 0
    else
      var j := Span(t, 2, AngleChar);
      if j < |t| && t[j] == '>' then j + 1 else 0
  }

  /** Spaces, then at least one character of the class, then spaces. */
  predicate MustacheInner(u: string) {
    exists i, j :: 0 <= i < j <= |u| && AllIn(u, 0, i, IsSpace) && AllIn(u, i, j, MustacheChar) && AllIn(u, j, |u|, IsSpace)
  }

  predicate AllIn(u: string, i: nat, j: nat, ok: char -> bool)
    requires i <= j <= |u|
  {
    forall p :: i <= p < j ==> ok(u[p])
  }

  /** `\{\{\s*[a-zA-Z0-9_.\- ]+\s*\}\}`. */
  function MustacheAt(t: string): nat {
    if |t| < 2 || t[0] != '{' || t[1] != '{' then 0
    else
      var j := Span(t, 2, c => IsSpace(c) || MustacheChar(c));
      if j + 1 < |t| && t[j] == '}' && t[j + 1] == '}' && MustacheInner(t[2..j]) then j + 2 else 0
  }

  lemma {:induction false} ValueOf(v: string, i: nat)
    requires i < |v| && !Plain(v[i]) && forall p :: 0 <= p < |v| ==> v[p] != NUL
    ensures IsValue(v)
  {}

  lemma {:induction false} LiteralApproved(literal: string)
    requires IsValue(literal)
    ensures Approved(LiteralAt(literal))
  {}

  lemma {:induction false} EnvApproved()
    ensures Approved(EnvAt)
  {
    forall t ensures EnvAt(t) <= |t| && (EnvAt(t) > 0 ==> IsValue(t[..EnvAt(t)])) {
      if EnvAt(t) > 0 { ValueOf(t[..EnvAt(t)], 0); }
    }
  }

  lemma {:induction false} AngleApproved()
    ensures Approved(AngleAt)
  {
    forall t ensures AngleAt(t) <= |t| && (AngleAt(t) > 0 ==> IsValue(t[..AngleAt(t)])) {
      if AngleAt(t) > 0 { ValueOf(t[..AngleAt(t)], 0); }
    }
  }

  lemma {:induction false} MustacheApproved()
    ensures Approved(MustacheAt)
  {
    forall t ensures MustacheAt(t) <= |t| && (MustacheAt(t) > 0 ==> IsValue(t[..MustacheAt(t)])) {
      if MustacheAt(t) > 0 { ValueOf(t[..MustacheAt(t)], 0); }
    }
  }

  lemma {:induction false} PlaceholdersAreValues()
    ensures forall i :: 0 <= i < |APPROVED_PLACEHOLDERS| ==> IsValue(APPROVED_PLACEHOLDERS[i])
  {
    ValueOf("{{password}}", 0);
    ValueOf("{{ password }}", 0);
    ValueOf("<VAR>", 0);
    ValueOf("changeme", 0);
  }

  // ---- the passes ------------------------------------------------------------------------

  /** The text as masked so far, and what its sentinels stand for. */
  datatype Stage = Stage(text: string, protected: seq<string>)

  /** `literal in text`. */
  predicate Occurs(literal: string, t: string) { exists i :: 0 <= i <= |t| && StartsWith(t[i..], literal) }

  /** `text.replace(literal, store(literal))`, where the literal occurs. */
  function LiteralPass(s: Stage, literal: string): Stage
    requires literal != ""
  {
    if Occurs(literal, s.text) then Stage(Replace(s.text, literal, Token(|s.protected|)), s.protected + [literal]) else s
  }

  /** `pattern.sub(lambda m: store(m.group(0)), text)`. */
  function PatternPass(s: Stage, m: Matcher): Stage
    requires Approved(m)
  {
    Stage(Sub(m, s.text, |s.protected|, false), s.protected + Stored(m, s.text))
  }

  /** The first `n` literals masked. */
  function Literals(original: string, n: nat): Stage
    requires n <= |APPROVED_PLACEHOLDERS|
  {
    if n == 0 then Stage(original, [])
    else
      PlaceholdersAreValues();
      LiteralPass(Literals(original, n - 1), APPROVED_PLACEHOLDERS[n - 1])
  }

  /** `_mask_protected`: the literals in turn, then the three patterns. */
  function Masking(original: string): Stage {
    MustacheApproved();
    EnvApproved();
    AngleApproved();
    PatternPass(PatternPass(PatternPass(Literals(original, |APPROVED_PLACEHOLDERS|), MustacheAt), EnvAt), AngleAt)
  }

  method MaskProtected(original: string) returns (text: string, protected: seq<string>)
    ensures Stage(text, protected) == Masking(original)
  {
    hide IsValue, Approved, LiteralPass, PatternPass;
    text, protected := original, [];
    PlaceholdersAreValues();
    var i := 0;
    while i < |APPROVED_PLACEHOLDERS|
      invariant i <= |APPROVED_PLACEHOLDERS| && Stage(text, protected) == Literals(original, i)
    {
      text, protected := MaskLiteral(text, protected, APPROVED_PLACEHOLDERS[i]);
      i := i + 1;
    }
    MustacheApproved();
    text, protected := MaskPattern(text, protected, MustacheAt);
    EnvApproved();
    text, protected := MaskPattern(text, protected, EnvAt);
    AngleApproved();
    text, protected := MaskPattern(text, protected, AngleAt);
  }

  method MaskLiteral(text: string, protected: seq<string>, literal: string) returns (masked: string, stored: seq<string>)
    requires literal != ""
    ensures Stage(masked, stored) == LiteralPass(Stage(text, protected), literal)
  {
    masked, stored := text, protected;
    if Occurs(literal, text) {
      masked, stored := Replace(text, literal, Token(|protected|)), protected + [literal];
    }
  }

  method MaskPattern(text: string, protected: seq<string>, m: Matcher) returns (masked: string, stored: seq<string>)
    requires Approved(m)
    ensures Stage(masked, stored) == PatternPass(Stage(text, protected), m)
  {
    masked, stored := Sub(m, text, |protected|, false), protected + Stored(m, text);
  }

  // ---- masking hides nothing for good ------------------------------------------------------

  /** The text is characters and sentinels, behind which the original stands. */
  ghost predicate Masked(original: string, s: Stage, atoms: seq<Atom>) {
    && s.text == Render(atoms) && Flatten(atoms, s.protected) == original && Below(atoms, |s.protected|)
    && forall i :: 0 <= i < |s.protected| ==> IsValue(s.protected[i])
  }

  lemma {:induction false} LiteralFlattens(m: Matcher, literal: string, atoms: seq<Atom>, values: seq<string>, k: nat)
    requires Approved(m) && (forall t :: m(t) > 0 ==> t[..m(t)] == literal)
    requires Below(atoms, k) && |values| == k + 1 && values[k] == literal
    ensures Flatten(SubAtoms(m, atoms, k, true), values) == Flatten(atoms, values) && Below(SubAtoms(m, atoms, k, true), k + 1)
    decreases |atoms|
  {
    hide Below, Flatten, Approved, Render, IsValue;
    if atoms == [] {
      EmptyBelow(k + 1);
    } else {
      var t, n := Render(atoms), m(Render(atoms));
      MatchIs(m, t);
      if n > 0 {
        ValueIsNulFree(t[..n]);
        FrontIsPlain(atoms, n, values);
        BelowRest(atoms, k, n);
        LiteralFlattens(m, literal, atoms[n..], values, k);
        FlattenHead(Mark(k), SubAtoms(m, atoms[n..], k, true), values);
        BelowHead(Mark(k), SubAtoms(m, atoms[n..], k, true), k + 1);
      } else {
        BelowRest(atoms, k, 1);
        HeadBelow(atoms, k);
        LiteralFlattens(m, literal, atoms[1..], values, k);
        assert atoms == [atoms[0]] + atoms[1..];
        FlattenHead(atoms[0], atoms[1..], values);
        FlattenHead(atoms[0], SubAtoms(m, atoms[1..], k, true), values);
        BelowHead(atoms[0], SubAtoms(m, atoms[1..], k, true), k + 1);
      }
    }
  }

  lemma {:induction false} EmptyBelow(k: nat)
    ensures Below([], k)
  {}

  /** A literal is replaced where it matches. */
  lemma {:induction false} ReplaceIsSub(t: string, literal: string, k: nat)
    requires literal != "" && Approved(LiteralAt(literal))
    ensures Replace(t, literal, Token(k)) == Sub(LiteralAt(literal), t, k, true)
    decreases |t|
  {
    hide Approved, Token;
    if t != "" {
      if StartsWith(t, literal) {
        ReplaceIsSub(t[|literal|..], literal, k);
      } else {
        ReplaceIsSub(t[1..], literal, k);
      }
    }
  }

  lemma {:induction false} LiteralOnly(literal: string)
    requires IsValue(literal)
    ensures literal != "" && Approved(LiteralAt(literal))
    ensures forall t :: LiteralAt(literal)(t) > 0 ==> t[..LiteralAt(literal)(t)] == literal
  {
    LiteralApproved(literal);
  }

  lemma {:induction false} LiteralMasks(original: string, s: Stage, atoms: seq<Atom>, literal: string) returns (after: seq<Atom>)
    requires Masked(original, s, atoms) && IsValue(literal)
    ensures literal != "" && Masked(original, LiteralPass(s, literal), after)
  {
    LiteralApproved(literal);
    LiteralOnly(literal);
    hide Approved, Below, IsValue, Sub, SubAtoms, Render, Flatten, LiteralAt, Replace, Occurs;
    if !Occurs(literal, s.text) {
      return atoms;
    }
    var m, k := LiteralAt(literal), |s.protected|;
    after := SubAtoms(m, atoms, k, true);
    ReplaceIsSub(s.text, literal, k);
    SubRenders(m, atoms, k, true);
    FlattenMore(atoms, s.protected, [literal]);
    LiteralFlattens(m, literal, atoms, s.protected + [literal], k);
  }

  lemma {:induction false} PatternMasks(original: string, s: Stage, atoms: seq<Atom>, m: Matcher) returns (after: seq<Atom>)
    requires Masked(original, s, atoms) && Approved(m)
    ensures Masked(original, PatternPass(s, m), after)
  {
    hide Approved, Below, IsValue, Sub, SubAtoms, Render, Flatten;
    after := SubAtoms(m, atoms, |s.protected|, false);
    SubRenders(m, atoms, |s.protected|, false);
    SubFlattens(m, atoms, s.protected);
    StoredAreValues(m, s.text);
  }

  lemma {:induction false} StoredAreValues(m: Matcher, t: string)
    requires Approved(m)
    ensures forall i :: 0 <= i < |Stored(m, t)| ==> IsValue(Stored(m, t)[i])
    decreases |t|
  {
    hide IsValue, Approved;
    MatchIs(m, t);
    if t != "" {
      if m(t) > 0 { StoredAreValues(m, t[m(t)..]); } else { StoredAreValues(m, t[1..]); }
    }
  }

  lemma {:induction false} LiteralsMask(original: string, n: nat) returns (atoms: seq<Atom>)
    requires NulFree(original) && n <= |APPROVED_PLACEHOLDERS|
    ensures Masked(original, Literals(original, n), atoms)
  {
    if n == 0 {
      AtomsRender(original, []);
      return Atoms(original);
    }
    PlaceholdersAreValues();
    hide Masked, IsValue, LiteralPass;
    var before := LiteralsMask(original, n - 1);
    atoms := LiteralMasks(original, Literals(original, n - 1), before, APPROVED_PLACEHOLDERS[n - 1]);
  }

  /** What masking leaves, as characters and sentinels. */
  lemma {:induction false} MaskingMasks(original: string) returns (atoms: seq<Atom>)
    requires NulFree(original)
    ensures Masked(original, Masking(original), atoms)
  {
    MustacheApproved();
    EnvApproved();
    AngleApproved();
    hide Masked, Literals, PatternPass;
    atoms := LiteralsMask(original, |APPROVED_PLACEHOLDERS|);
    atoms := PatternMasks(original, Literals(original, |APPROVED_PLACEHOLDERS|), atoms, MustacheAt);
    var s := PatternPass(Literals(original, |APPROVED_PLACEHOLDERS|), MustacheAt);
    atoms := PatternMasks(original, s, atoms, EnvAt);
    atoms := PatternMasks(original, PatternPass(s, EnvAt), atoms, AngleAt);
  }
}
