/** Masking leaves no approved placeholder for the detectors to find. */
module RedactionHides {
  import opened Text
  import opened Redaction
  import opened RedactionMask

  /** What matches in front of a text matches in front of any text that starts the same. */
  ghost predicate Local(m: Matcher) {
    forall t, u {:trigger m(t), m(u)} :: 0 < m(t) <= |t| && m(t) <= |u| && t[..m(t)] == u[..m(t)] ==> m(u) > 0
  }

  lemma {:induction false} LiteralLocal(literal: string)
    ensures Local(LiteralAt(literal))
  {}

  lemma {:induction false} SpanSame(t: string, u: string, i: nat, n: nat, ok: char -> bool)
    requires i <= n <= |t| && n <= |u| && t[..n] == u[..n]
    ensures Span(t, i, ok) < n ==> Span(u, i, ok) == Span(t, i, ok)
    ensures Span(t, i, ok) >= n ==> Span(u, i, ok) >= n
    decreases n - i
  {
    if i < n {
      assert t[i] == t[..n][i] == u[..n][i] == u[i];
      if ok(t[i]) { SpanSame(t, u, i + 1, n, ok); }
    }
  }

  lemma {:induction false} SameFront(t: string, u: string, n: nat)
    requires n <= |t| && n <= |u| && t[..n] == u[..n]
    ensures forall i :: 0 <= i < n ==> t[i] == u[i]
  {
    forall i | 0 <= i < n ensures t[i] == u[i] { assert t[..n][i] == u[..n][i]; }
  }

  lemma {:induction false} EnvSame(t: string, u: string)
    requires 0 < EnvAt(t) <= |t| && EnvAt(t) <= |u| && t[..EnvAt(t)] == u[..EnvAt(t)]
    ensures EnvAt(u) > 0
  {
    SameFront(t, u, EnvAt(t));
  }

  lemma {:induction false} AngleSame(t: string, u: string)
    requires 0 < AngleAt(t) <= |t| && AngleAt(t) <= |u| && t[..AngleAt(t)] == u[..AngleAt(t)]
    ensures AngleAt(u) > 0
  {
    SameFront(t, u, AngleAt(t));
    SpanSame(t, u, 2, AngleAt(t), AngleChar);
  }

  lemma {:induction false} MustacheSame(t: string, u: string)
    requires 0 < MustacheAt(t) <= |t| && MustacheAt(t) <= |u| && t[..MustacheAt(t)] == u[..MustacheAt(t)]
    ensures MustacheAt(u) > 0
  {
    var n := MustacheAt(t);
    SameFront(t, u, n);
    SpanSame(t, u, 2, n, c => IsSpace(c) || MustacheChar(c));
    assert t[2..n - 2] == t[..n][2..n - 2] == u[..n][2..n - 2] == u[2..n - 2];
  }

  lemma {:induction false} PatternsLocal()
    ensures Local(MustacheAt) && Local(EnvAt) && Local(AngleAt)
  {
    hide MustacheAt, EnvAt, AngleAt;
    forall t, u | 0 < MustacheAt(t) <= |t| && MustacheAt(t) <= |u| && t[..MustacheAt(t)] == u[..MustacheAt(t)]
      ensures MustacheAt(u) > 0 { MustacheSame(t, u); }
    forall t, u | 0 < EnvAt(t) <= |t| && EnvAt(t) <= |u| && t[..EnvAt(t)] == u[..EnvAt(t)] ensures EnvAt(u) > 0 { EnvSame(t, u); }
    forall t, u | 0 < AngleAt(t) <= |t| && AngleAt(t) <= |u| && t[..AngleAt(t)] == u[..AngleAt(t)] ensures AngleAt(u) > 0 { AngleSame(t, u); }
  }

  // ---- one pass ------------------------------------------------------------------------------

  /** Where what a pass leaves holds no NUL, the pass copied it. */
  lemma {:induction false} FrontCopied(m: Matcher, t: string, k: nat, literal: bool, n: nat)
    requires Approved(m) && n <= |Sub(m, t, k, literal)| && NulFree(Sub(m, t, k, literal)[..n])
    ensures n <= |t| && t[..n] == Sub(m, t, k, literal)[..n]
    decreases |t|
  {
    hide Approved, Inner;
    if n > 0 {
      var out := Sub(m, t, k, literal);
      assert out[0] == out[..n][0] && out[0] != NUL;
      assert m(t) == 0 && out == [t[0]] + Sub(m, t[1..], k, literal);
      var rest := Sub(m, t[1..], k, literal);
      var front := rest[..n - 1];
      forall i | 0 <= i < |front| ensures front[i] != NUL { assert rest[i] == out[..n][i + 1]; }
      FrontCopied(m, t[1..], k, literal, n - 1);
      assert t[..n] == [t[0]] + t[1..][..n - 1] && out[..n] == [t[0]] + rest[..n - 1];
    }
  }

  lemma {:induction false} NoneInToken(m: Matcher, k: nat, rest: string)
    requires Approved(m) && NoMatch(m, rest)
    ensures NoMatch(m, Token(k) + rest)
  {
    var t := Token(k) + rest;
    forall i | 0 <= i < |t| ensures m(t[i..]) == 0 {
      if i < |Token(k)| {
        NoneWithin(m, k, rest, i);
      } else {
        assert t[i..] == rest[i - |Token(k)|..];
      }
    }
  }

  lemma {:induction false} NoneWithin(m: Matcher, k: nat, rest: string, i: nat)
    requires Approved(m) && i < |Token(k)|
    ensures m((Token(k) + rest)[i..]) == 0
  {
    hide Approved;
    var t := Token(k) + rest;
    InnerPlain(k);
    if i == 0 {
      assert t[0..] == "" + [NUL] + (Inner(k) + [NUL] + rest);
      NoMatchInside(m, "", Inner(k) + [NUL] + rest);
    } else {
      var w := Inner(k)[i - 1..];
      assert t[i..] == w + [NUL] + rest;
      NoMatchInside(m, w, rest);
    }
  }

  lemma {:induction false} NoneInFront(m: Matcher, c: char, rest: string)
    requires m([c] + rest) == 0 && NoMatch(m, rest)
    ensures NoMatch(m, [c] + rest)
  {
    var t := [c] + rest;
    forall i | 0 <= i < |t| ensures m(t[i..]) == 0 {
      assert t[i..] == if i == 0 then t else rest[i - 1..];
    }
  }

  /** Where `m` leaves something alone, `other` does not match it. */
  ghost predicate Covers(m: Matcher, other: Matcher, t: string) {
    forall i :: 0 <= i < |t| && m(t[i..]) == 0 ==> other(t[i..]) == 0
  }

  lemma {:induction false} CoversRest(m: Matcher, other: Matcher, t: string, n: nat)
    requires Covers(m, other, t) && n <= |t|
    ensures Covers(m, other, t[n..])
  {
    forall i | 0 <= i < |t[n..]| && m(t[n..][i..]) == 0 ensures other(t[n..][i..]) == 0 {
      assert t[n..][i..] == t[n + i..];
    }
  }

  /** After a pass `other` matches nowhere, if it matched nowhere but where the pass did. */
  lemma {:induction false} PassHides(m: Matcher, other: Matcher, t: string, k: nat, literal: bool)
    requires Approved(m) && Approved(other) && Local(other) && Covers(m, other, t)
    ensures NoMatch(other, Sub(m, t, k, literal))
    decreases |t|
  {
    hide Approved, Local, Covers, NoMatch, Token;
    var out := Sub(m, t, k, literal);
    if t == "" {
      EmptyNoMatch(other);
    } else if m(t) > 0 {
      MatchIs(m, t);
      CoversRest(m, other, t, m(t));
      PassHides(m, other, t[m(t)..], if literal then k else k + 1, literal);
      NoneInToken(other, k, Sub(m, t[m(t)..], if literal then k else k + 1, literal));
    } else {
      CoversRest(m, other, t, 1);
      PassHides(m, other, t[1..], k, literal);
      StillNone(m, other, t, k, literal);
      NoneInFront(other, t[0], Sub(m, t[1..], k, literal));
    }
  }

  lemma {:induction false} EmptyNoMatch(m: Matcher)
    ensures NoMatch(m, "")
  {}

  lemma {:induction false} StillNone(m: Matcher, other: Matcher, t: string, k: nat, literal: bool)
    requires Approved(m) && Approved(other) && Local(other) && Covers(m, other, t) && t != "" && m(t) == 0
    ensures other(Sub(m, t, k, literal)) == 0
  {
    hide Approved, Sub;
    var out := Sub(m, t, k, literal);
    assert t[0..] == t && other(t) == 0;
    MatchIs(other, out);
    var n := other(out);
    if n > 0 {
      ValueIsNulFree(out[..n]);
      FrontCopied(m, t, k, literal, n);
    }
  }

  lemma {:induction false} OwnPass(m: Matcher, t: string, k: nat, literal: bool)
    requires Approved(m) && Local(m)
    ensures NoMatch(m, Sub(m, t, k, literal))
  {
    PassHides(m, m, t, k, literal);
  }

  lemma {:induction false} OtherPass(m: Matcher, other: Matcher, t: string, k: nat, literal: bool)
    requires Approved(m) && Approved(other) && Local(other) && NoMatch(other, t)
    ensures NoMatch(other, Sub(m, t, k, literal))
  {
    PassHides(m, other, t, k, literal);
  }

  // ---- all passes ----------------------------------------------------------------------------

  lemma {:induction false} OccursAt(literal: string, t: string)
    requires literal != ""
    ensures NoMatch(LiteralAt(literal), t) <==> !Occurs(literal, t)
  {
    assert !StartsWith(t[|t|..], literal);
    if Occurs(literal, t) {
      var i :| 0 <= i <= |t| && StartsWith(t[i..], literal);
      assert i < |t| && LiteralAt(literal)(t[i..]) > 0;
    }
  }

  lemma {:induction false} LiteralHides(s: Stage, literal: string)
    requires IsValue(literal)
    ensures literal != "" && NoMatch(LiteralAt(literal), LiteralPass(s, literal).text)
  {
    LiteralApproved(literal);
    LiteralLocal(literal);
    hide IsValue, Approved, Local, Occurs, LiteralAt, Replace, NoMatch;
    OccursAt(literal, s.text);
    ReplaceIsSub(s.text, literal, |s.protected|);
    OwnPass(LiteralAt(literal), s.text, |s.protected|, true);
  }

  lemma {:induction false} LiteralKeeps(s: Stage, literal: string, other: Matcher)
    requires IsValue(literal) && Approved(other) && Local(other) && NoMatch(other, s.text)
    ensures literal != "" && NoMatch(other, LiteralPass(s, literal).text)
  {
    LiteralApproved(literal);
    hide IsValue, Approved, Local, Occurs, LiteralAt, Replace, NoMatch;
    ReplaceIsSub(s.text, literal, |s.protected|);
    OtherPass(LiteralAt(literal), other, s.text, |s.protected|, true);
  }

  lemma {:induction false} LiteralKept(s: Stage, literal: string, earlier: string)
    requires IsValue(literal) && IsValue(earlier) && NoMatch(LiteralAt(earlier), s.text)
    ensures literal != "" && NoMatch(LiteralAt(earlier), LiteralPass(s, literal).text)
  {
    LiteralApproved(earlier);
    LiteralLocal(earlier);
    LiteralKeeps(s, literal, LiteralAt(earlier));
  }

  /** After the first `n` literals, none of them is left. */
  lemma {:induction false} LiteralsHide(original: string, n: nat, i: nat)
    requires i < n <= |APPROVED_PLACEHOLDERS|
    ensures NoMatch(LiteralAt(APPROVED_PLACEHOLDERS[i]), Literals(original, n).text)
  {
    PlaceholdersAreValues();
    hide IsValue, NoMatch, LiteralPass, LiteralAt;
    if i == n - 1 {
      LiteralHides(Literals(original, n - 1), APPROVED_PLACEHOLDERS[i]);
    } else {
      LiteralsHide(original, n - 1, i);
      LiteralKept(Literals(original, n - 1), APPROVED_PLACEHOLDERS[n - 1], APPROVED_PLACEHOLDERS[i]);
    }
  }

  lemma {:induction false} PatternKeeps(s: Stage, m: Matcher, other: Matcher)
    requires Approved(m) && Approved(other) && Local(other) && NoMatch(other, s.text)
    ensures NoMatch(other, PatternPass(s, m).text)
  {
    OtherPass(m, other, s.text, |s.protected|, false);
  }

  lemma {:induction false} PatternsKeep(s: Stage, other: Matcher)
    requires Approved(other) && Local(other) && NoMatch(other, s.text)
    ensures Approved(MustacheAt) && Approved(EnvAt) && Approved(AngleAt)
    ensures NoMatch(other, PatternPass(PatternPass(PatternPass(s, MustacheAt), EnvAt), AngleAt).text)
  {
    MustacheApproved();
    EnvApproved();
    AngleApproved();
    hide Approved, Local, NoMatch, PatternPass, MustacheAt, EnvAt, AngleAt;
    PatternKeeps(s, MustacheAt, other);
    PatternKeeps(PatternPass(s, MustacheAt), EnvAt, other);
    PatternKeeps(PatternPass(PatternPass(s, MustacheAt), EnvAt), AngleAt, other);
  }

  lemma {:induction false} LiteralHidden(original: string, i: nat)
    requires i < |APPROVED_PLACEHOLDERS|
    ensures !Occurs(APPROVED_PLACEHOLDERS[i], Masking(original).text)
  {
    PlaceholdersAreValues();
    LiteralsHide(original, |APPROVED_PLACEHOLDERS|, i);
    LiteralHiddenStill(original, APPROVED_PLACEHOLDERS[i]);
  }

  lemma {:induction false} LiteralHiddenStill(original: string, literal: string)
    requires literal != "" && IsValue(literal) && NoMatch(LiteralAt(literal), Literals(original, |APPROVED_PLACEHOLDERS|).text)
    ensures !Occurs(literal, Masking(original).text)
  {
    hide IsValue, Approved, Local, NoMatch, Literals, LiteralAt, MustacheAt, EnvAt, AngleAt, Occurs, PatternPass;
    LiteralApproved(literal);
    LiteralLocal(literal);
    PatternsKeep(Literals(original, |APPROVED_PLACEHOLDERS|), LiteralAt(literal));
    OccursAt(literal, Masking(original).text);
  }

  lemma {:induction false} PatternsHide(s: Stage)
    ensures Approved(MustacheAt) && Approved(EnvAt) && Approved(AngleAt)
    ensures var text := PatternPass(PatternPass(PatternPass(s, MustacheAt), EnvAt), AngleAt).text;
            NoMatch(MustacheAt, text) && NoMatch(EnvAt, text) && NoMatch(AngleAt, text)
  {
    MustacheApproved();
    EnvApproved();
    AngleApproved();
    PatternsLocal();
    hide Approved, Local, NoMatch, MustacheAt, EnvAt, AngleAt, Sub;
    var a := PatternPass(s, MustacheAt);
    var b := PatternPass(a, EnvAt);
    OwnPass(MustacheAt, s.text, |s.protected|, false);
    OwnPass(EnvAt, a.text, |a.protected|, false);
    OwnPass(AngleAt, b.text, |b.protected|, false);
    PatternKeeps(a, EnvAt, MustacheAt);
    PatternKeeps(b, AngleAt, MustacheAt);
    PatternKeeps(b, AngleAt, EnvAt);
  }

  /** No literal placeholder occurs in a masked text, and no placeholder pattern matches anywhere in it. */
  lemma {:induction false} MaskingHidesAll(original: string)
    ensures forall i :: 0 <= i < |APPROVED_PLACEHOLDERS| ==> !Occurs(APPROVED_PLACEHOLDERS[i], Masking(original).text)
    ensures NoMatch(MustacheAt, Masking(original).text)
    ensures NoMatch(EnvAt, Masking(original).text)
    ensures NoMatch(AngleAt, Masking(original).text)
  {
    PatternsHide(Literals(original, |APPROVED_PLACEHOLDERS|));
    hide Approved, NoMatch, Literals, MustacheAt, EnvAt, AngleAt, Occurs, PatternPass;
    forall i | 0 <= i < |APPROVED_PLACEHOLDERS| ensures !Occurs(APPROVED_PLACEHOLDERS[i], Masking(original).text) {
      LiteralHidden(original, i);
    }
  }
}
