/** Unmasking, and when it gives the masked text back. */
module RedactionUnmask {
  import opened Text
  import opened Redaction
  import opened RedactionMask

  lemma {:induction false} TokenNotEmpty(n: nat)
    ensures Token(n) != "" && Token(n)[0] == NUL
  {}

  /** `_unmask_protected` from index `n` on. */
  function UnmaskFrom(t: string, protected: seq<string>, n: nat): string
    requires n <= |protected|
    decreases |protected| - n
  {
    if n == |protected| then t
    else
      TokenNotEmpty(n);
      UnmaskFrom(Replace(t, Token(n), protected[n]), protected, n + 1)
  }

  method UnmaskProtected(masked: string, protected: seq<string>) returns (text: string)
    ensures text == UnmaskFrom(masked, protected, 0)
  {
    text := masked;
    var index := 0;
    while index < |protected|
      invariant index <= |protected| && UnmaskFrom(text, protected, index) == UnmaskFrom(masked, protected, 0)
    {
      TokenNotEmpty(index);
      text := Replace(text, Token(index), protected[index]);
      index := index + 1;
    }
  }

  // ---- ghosts ----------------------------------------------------------------------------

  /** The characters `w` and right after them a sentinel not below `n`. */
  predicate Spelled(atoms: seq<Atom>, w: string, n: nat) {
    if w == "" then atoms != [] && atoms[0].Mark? && atoms[0].n >= n
    else atoms != [] && atoms[0] == Ch(w[0]) && Spelled(atoms[1..], w[1..], n)
  }

  /** A sentinel `j`, then exactly the inside of sentinel `q`, then a sentinel, both to be replaced no earlier than `q`. */
  predicate GhostAfter(j: nat, rest: seq<Atom>, q: nat) { q < j && Spelled(rest, Inner(q), q) }

  /** No two neighbouring sentinels form a third, from `n` on, that unmasking would take for real. */
  ghost predicate NoGhosts(atoms: seq<Atom>, n: nat) {
    atoms == [] || (NoGhosts(atoms[1..], n) && (atoms[0].Mark? ==> forall q :: q >= n ==> !GhostAfter(atoms[0].n, atoms[1..], q)))
  }

  /** The same for sentinel `q` alone. */
  predicate NoGhostsAt(atoms: seq<Atom>, q: nat) {
    atoms == [] || (NoGhostsAt(atoms[1..], q) && (atoms[0].Mark? ==> !GhostAfter(atoms[0].n, atoms[1..], q)))
  }

  lemma {:induction false} NoneAt(atoms: seq<Atom>, n: nat, q: nat)
    requires NoGhosts(atoms, n) && q >= n
    ensures NoGhostsAt(atoms, q)
  {
    if atoms != [] { NoneAt(atoms[1..], n, q); }
  }

  /** No bare NUL, and no sentinel below `n`. */
  predicate Above(atoms: seq<Atom>, n: nat) {
    atoms == [] || (Above(atoms[1..], n) && match atoms[0] case Ch(c) => c != NUL case Mark(j) => j >= n)
  }

  /** Sentinel `n` replaced by the characters of its value. */
  function Subst(atoms: seq<Atom>, n: nat, v: string): seq<Atom> {
    if atoms == [] then []
    else (if atoms[0] == Mark(n) then Atoms(v) else [atoms[0]]) + Subst(atoms[1..], n, v)
  }

  lemma {:induction false} RenderConcat(a: seq<Atom>, b: seq<Atom>)
    ensures Render(a + b) == Render(a) + Render(b)
  {
    RenderNone();
    hide Render, Token;
    if a == [] {
      assert a + b == b && "" + Render(b) == Render(b);
    } else {
      assert a + b == [a[0]] + (a[1..] + b) && a == [a[0]] + a[1..];
      SubHead(a[0], a[1..] + b);
      SubHead(a[0], a[1..]);
      RenderConcat(a[1..], b);
    }
  }

  lemma {:induction false} RenderNone()
    ensures Render([]) == ""
  {}

  lemma {:induction false} FlattenConcat(a: seq<Atom>, b: seq<Atom>, values: seq<string>)
    ensures Flatten(a + b, values) == Flatten(a, values) + Flatten(b, values)
  {
    if a == [] {
      assert a + b == b;
    } else {
      assert a + b == [a[0]] + (a[1..] + b) && a == [a[0]] + a[1..];
      FlattenHead(a[0], a[1..] + b, values);
      FlattenHead(a[0], a[1..], values);
      FlattenConcat(a[1..], b, values);
      hide Flatten;
    }
  }

  lemma {:induction false} StartsSame(t: string, p: string)
    requires StartsWith(t, p) && p != ""
    ensures t != "" && t[0] == p[0]
  {
    assert t[..|p|][0] == t[0];
  }

  /** Characters before the next NUL are copied. */
  lemma {:induction false} ReplaceCopies(w: string, rest: string, token: string, value: string)
    requires token != "" && token[0] == NUL && NulFree(w)
    ensures Replace(w + rest, token, value) == w + Replace(rest, token, value)
  {
    if w == "" {
      assert w + rest == rest;
    } else {
      assert (w + rest)[0] == w[0] && (w + rest)[1..] == w[1..] + rest;
      if StartsWith(w + rest, token) { StartsSame(w + rest, token); }
      ReplaceCopies(w[1..], rest, token, value);
      assert [w[0]] + w[1..] == w;
    }
  }

  /** A text that goes on with one sentinel does not go on with another. */
  lemma {:induction false} TokensApart(j: nat, rest: string, n: nat)
    requires StartsWith(Token(j) + rest, Token(n))
    ensures j == n
  {
    InnerPlain(j);
    InnerPlain(n);
    var t := Token(j) + rest;
    SameRun(t, Inner(j), Inner(n));
    InnerApart(j, n);
  }

  lemma {:induction false} SameRun(t: string, a: string, b: string)
    requires (forall i :: 0 <= i < |a| ==> a[i] != NUL) && (forall i :: 0 <= i < |b| ==> b[i] != NUL)
    requires StartsWith(t, [NUL] + a + [NUL]) && StartsWith(t, [NUL] + b + [NUL])
    ensures a == b
  {
    var x, y := [NUL] + a + [NUL], [NUL] + b + [NUL];
    assert forall i :: 0 <= i < |x| ==> t[i] == t[..|x|][i] == x[i];
    assert forall i :: 0 <= i < |y| ==> t[i] == t[..|y|][i] == y[i];
    assert x[|a| + 1] == NUL && y[|b| + 1] == NUL;
    assert forall i :: 0 <= i < |a| ==> x[i + 1] == a[i];
    assert forall i :: 0 <= i < |b| ==> y[i + 1] == b[i];
    assert |a| == |b|;
  }

  /** What a rendering spells out up to a NUL it spells out in characters up to a sentinel. */
  lemma {:induction false} ReadsSpelled(atoms: seq<Atom>, w: string, n: nat)
    requires Above(atoms, n) && NulFree(w) && StartsWith(Render(atoms), w + [NUL])
    ensures Spelled(atoms, w, n)
  {
    var t := Render(atoms);
    assert t[0] == t[..|w| + 1][0];
    if w != "" {
      assert t[0] == w[0];
      assert t[1..] == Render(atoms[1..]);
      assert t[1..][..|w|] == t[..|w| + 1][1..] == (w + [NUL])[1..] == w[1..] + [NUL];
      ReadsSpelled(atoms[1..], w[1..], n);
    }
  }

  // ---- one replacement -------------------------------------------------------------------

  lemma {:induction false} ReplaceStep(t: string, token: string, value: string)
    requires token != "" && t != "" && !StartsWith(t, token)
    ensures Replace(t, token, value) == [t[0]] + Replace(t[1..], token, value)
  {}

  /** Another sentinel is copied, its own closing NUL included, unless a ghost starts there. */
  lemma {:induction false} ReplaceOther(j: nat, rest: seq<Atom>, n: nat, value: string)
    requires j > n && Above(rest, n) && !GhostAfter(j, rest, n)
    ensures Replace(Token(j) + Render(rest), Token(n), value) == Token(j) + Replace(Render(rest), Token(n), value)
  {
    hide Replace, Inner, Above, Render, Spelled;
    var token, tail := Token(n), [NUL] + Render(rest);
    TokenNotEmpty(n);
    InnerPlain(j);
    InnerPlain(n);
    TokenIs(j, Render(rest));
    var t := Token(j) + Render(rest);
    var after := Inner(j) + [NUL] + Render(rest);
    assert t == [NUL] + after && after == Inner(j) + tail;
    if StartsWith(t, token) { TokensApart(j, Render(rest), n); }
    assert t[0] == NUL && t[1..] == after;
    ReplaceStep(t, token, value);
    ReplaceCopies(Inner(j), tail, token, value);
    if StartsWith(tail, token) {
      assert StartsWith(Render(rest), Inner(n) + [NUL]) by { TailStarts(Render(rest), Inner(n)); }
      ReadsSpelled(rest, Inner(n), n);
    }
    assert tail[1..] == Render(rest);
    ReplaceStep(tail, token, value);
    CopyAll(j, Replace(Render(rest), token, value));
  }

  lemma {:induction false} TailStarts(r: string, inner: string)
    requires StartsWith([NUL] + r, [NUL] + inner + [NUL])
    ensures StartsWith(r, inner + [NUL])
  {
    var p := [NUL] + inner + [NUL];
    assert p[1..] == inner + [NUL];
    assert ([NUL] + r)[..|p|][1..] == r[..|p| - 1];
  }

  lemma {:induction false} CopyAll(j: nat, r: string)
    ensures [NUL] + (Inner(j) + ([NUL] + r)) == Token(j) + r
  {}

  /** Without ghosts, replacing a sentinel's text replaces that sentinel and nothing else. */
  lemma {:induction false} ReplaceRenders(atoms: seq<Atom>, n: nat, v: string)
    requires Above(atoms, n) && NoGhostsAt(atoms, n) && NulFree(v)
    ensures Token(n) != "" && Replace(Render(atoms), Token(n), v) == Render(Subst(atoms, n, v))
  {
    TokenNotEmpty(n);
    RenderNone();
    if atoms != [] {
      var rest := atoms[1..];
      ReplaceRenders(rest, n, v);
      assert atoms == [atoms[0]] + rest;
      SubHead(atoms[0], rest);
      if atoms[0] == Mark(n) {
        ReplaceOwn(n, rest, v);
      } else {
        SubHead(atoms[0], Subst(rest, n, v));
        hide Render, Token;
        match atoms[0]
        case Ch(c) =>
          if StartsWith([c] + Render(rest), Token(n)) { StartsSame([c] + Render(rest), Token(n)); }
          assert ([c] + Render(rest))[1..] == Render(rest);
        case Mark(j) =>
          hide Replace;
          ReplaceOther(j, rest, n, v);
      }
    }
  }

  lemma {:induction false} ReplaceOwn(n: nat, rest: seq<Atom>, v: string)
    requires Token(n) != "" && NulFree(v)
    requires Replace(Render(rest), Token(n), v) == Render(Subst(rest, n, v))
    ensures Replace(Token(n) + Render(rest), Token(n), v) == Render(Atoms(v) + Subst(rest, n, v))
  {
    var t := Token(n) + Render(rest);
    hide Token, Render, Subst;
    assert t[..|Token(n)|] == Token(n) && t[|Token(n)|..] == Render(rest);
    AtomsRender(v, []);
    RenderConcat(Atoms(v), Subst(rest, n, v));
  }

  // ---- replacement by replacement ----------------------------------------------------------

  lemma {:induction false} SubstFlattens(atoms: seq<Atom>, n: nat, values: seq<string>)
    requires n < |values| && NulFree(values[n])
    ensures Flatten(Subst(atoms, n, values[n]), values) == Flatten(atoms, values)
  {
    if atoms != [] {
      var rest := Subst(atoms[1..], n, values[n]);
      SubstFlattens(atoms[1..], n, values);
      assert atoms == [atoms[0]] + atoms[1..];
      FlattenHead(atoms[0], atoms[1..], values);
      if atoms[0] == Mark(n) {
        AtomsRender(values[n], values);
        FlattenConcat(Atoms(values[n]), rest, values);
      } else {
        FlattenHead(atoms[0], rest, values);
      }
      hide Flatten;
    }
  }

  lemma {:induction false} CharsAbove(v: string, atoms: seq<Atom>, n: nat)
    requires NulFree(v)
    ensures Above(atoms, n) ==> Above(Atoms(v) + atoms, n)
    ensures NoGhosts(atoms, n) ==> NoGhosts(Atoms(v) + atoms, n)
  {
    if v == "" {
      assert Atoms(v) + atoms == atoms;
    } else {
      CharsAbove(v[1..], atoms, n);
      assert (Atoms(v) + atoms)[1..] == Atoms(v[1..]) + atoms;
    }
  }

  lemma {:induction false} SubstAbove(atoms: seq<Atom>, n: nat, v: string)
    requires Above(atoms, n) && NulFree(v)
    ensures Above(Subst(atoms, n, v), n + 1)
  {
    if atoms != [] {
      var rest := Subst(atoms[1..], n, v);
      SubstAbove(atoms[1..], n, v);
      if atoms[0] == Mark(n) { CharsAbove(v, rest, n + 1); } else { assert ([atoms[0]] + rest)[1..] == rest; }
    }
  }

  /** A value in a gap keeps the gap from spelling a sentinel. */
  lemma {:induction false} ValueNotSpelled(v: string, atoms: seq<Atom>, w: string, q: nat)
    requires v != "" && Spelled(Atoms(v) + atoms, w, q) && (forall i :: 0 <= i < |w| ==> Plain(w[i]))
    ensures forall i :: 0 <= i < |v| ==> Plain(v[i])
  {
    assert (Atoms(v) + atoms)[0] == Ch(v[0]);
    assert w != "" && v[0] == w[0];
    if |v| > 1 {
      assert (Atoms(v) + atoms)[1..] == Atoms(v[1..]) + atoms;
      ValueNotSpelled(v[1..], atoms, w[1..], q);
      assert forall i :: 1 <= i < |v| ==> v[i] == v[1..][i - 1];
    }
  }

  lemma {:induction false} SubstSpelled(atoms: seq<Atom>, n: nat, v: string, w: string, q: nat)
    requires Spelled(Subst(atoms, n, v), w, q) && IsValue(v) && n < q && (forall i :: 0 <= i < |w| ==> Plain(w[i]))
    ensures Spelled(atoms, w, q)
  {
    if atoms != [] {
      var rest := Subst(atoms[1..], n, v);
      if atoms[0] == Mark(n) {
        ValueNotSpelled(v, rest, w, q);
      } else {
        assert ([atoms[0]] + rest)[1..] == rest;
        if w != "" { SubstSpelled(atoms[1..], n, v, w[1..], q); }
      }
    }
  }

  lemma {:induction false} SubstNoGhosts(atoms: seq<Atom>, n: nat, v: string)
    requires NoGhosts(atoms, n) && IsValue(v)
    ensures NoGhosts(Subst(atoms, n, v), n + 1)
  {
    if atoms != [] {
      var rest := Subst(atoms[1..], n, v);
      SubstNoGhosts(atoms[1..], n, v);
      if atoms[0] == Mark(n) {
        CharsAbove(v, rest, n + 1);
      } else {
        assert ([atoms[0]] + rest)[1..] == rest;
        if atoms[0].Mark? {
          forall q | q >= n + 1 ensures !GhostAfter(atoms[0].n, rest, q) {
            if GhostAfter(atoms[0].n, rest, q) { GhostWas(atoms, n, v, q); }
          }
        }
      }
    }
  }

  lemma {:induction false} GhostWas(atoms: seq<Atom>, n: nat, v: string, q: nat)
    requires atoms != [] && atoms[0].Mark? && IsValue(v) && q > n && GhostAfter(atoms[0].n, Subst(atoms[1..], n, v), q)
    ensures GhostAfter(atoms[0].n, atoms[1..], q)
  {
    InnerPlain(q);
    SubstSpelled(atoms[1..], n, v, Inner(q), q);
  }

  lemma {:induction false} SubstBelow(atoms: seq<Atom>, n: nat, v: string, k: nat)
    requires Below(atoms, k) && NulFree(v)
    ensures Below(Subst(atoms, n, v), k)
  {
    if atoms != [] {
      var rest := Subst(atoms[1..], n, v);
      BelowRest(atoms, k, 1);
      HeadBelow(atoms, k);
      SubstBelow(atoms[1..], n, v, k);
      if atoms[0] == Mark(n) {
        AtomsRender(v, []);
        BelowConcat(Atoms(v), rest, k);
      } else {
        BelowHead(atoms[0], rest, k);
      }
    }
  }

  lemma {:induction false} BelowConcat(a: seq<Atom>, b: seq<Atom>, k: nat)
    requires Below(a, 0) && Below(b, k)
    ensures Below(a + b, k)
  {}

  /** With no sentinel left the text is the original. */
  lemma {:induction false} NoneLeft(atoms: seq<Atom>, k: nat, values: seq<string>)
    requires Above(atoms, k) && Below(atoms, k)
    ensures Render(atoms) == Flatten(atoms, values)
  {
    if atoms != [] {
      BelowRest(atoms, k, 1);
      NoneLeft(atoms[1..], k, values);
    }
  }

  lemma {:induction false} UnmaskRenders(atoms: seq<Atom>, protected: seq<string>, n: nat)
    requires n <= |protected| && Above(atoms, n) && Below(atoms, |protected|) && NoGhosts(atoms, n)
    requires forall i :: 0 <= i < |protected| ==> IsValue(protected[i])
    ensures UnmaskFrom(Render(atoms), protected, n) == Flatten(atoms, protected)
    decreases |protected| - n
  {
    hide Above, Below, NoGhosts, Render, Flatten, IsValue;
    if n == |protected| {
      NoneLeft(atoms, n, protected);
    } else {
      var v := protected[n];
      ValueIsNulFree(v);
      NoneAt(atoms, n, n);
      ReplaceRenders(atoms, n, v);
      SubstAbove(atoms, n, v);
      SubstBelow(atoms, n, v, |protected|);
      SubstNoGhosts(atoms, n, v);
      SubstFlattens(atoms, n, protected);
      UnmaskRenders(Subst(atoms, n, v), protected, n + 1);
    }
  }

  lemma {:induction false} AboveZero(atoms: seq<Atom>, k: nat)
    requires Below(atoms, k)
    ensures Above(atoms, 0)
  {
    if atoms != [] {
      BelowRest(atoms, k, 1);
      HeadBelow(atoms, k);
      AboveZero(atoms[1..], k);
    }
  }

  // ---- the round trip ------------------------------------------------------------------------

  /** "PH" followed by a digit. */
  predicate MentionsPH(t: string) { exists i :: 0 <= i && i + 2 < |t| && t[i] == 'P' && t[i + 1] == 'H' && Digit(t[i + 2]) }

  lemma {:induction false} SpelledFlat(atoms: seq<Atom>, w: string, n: nat, values: seq<string>)
    requires Spelled(atoms, w, n)
    ensures StartsWith(Flatten(atoms, values), w)
  {
    if w != "" {
      SpelledFlat(atoms[1..], w[1..], n, values);
      assert atoms == [atoms[0]] + atoms[1..];
      FlattenHead(atoms[0], atoms[1..], values);
      assert w == [w[0]] + w[1..];
    }
  }

  lemma {:induction false} GhostMentions(rest: seq<Atom>, q: nat, values: seq<string>)
    requires Spelled(rest, Inner(q), q)
    ensures MentionsPH(Flatten(rest, values))
  {
    SpelledFlat(rest, Inner(q), q, values);
    DecimalDigits(q);
    var t := Flatten(rest, values);
    assert forall i :: 0 <= i < |Inner(q)| ==> t[i] == t[..|Inner(q)|][i];
    assert Inner(q)[2] == Decimal(q)[0];
    assert t[0] == 'P' && t[1] == 'H' && Digit(t[2]);
    assert t[0 + 1] == 'H' && Digit(t[0 + 2]);
  }

  lemma {:induction false} MentionedLater(a: string, t: string)
    requires MentionsPH(t)
    ensures MentionsPH(a + t)
  {
    var i :| 0 <= i && i + 2 < |t| && t[i] == 'P' && t[i + 1] == 'H' && Digit(t[i + 2]);
    var j := |a| + i;
    assert (a + t)[j] == 'P' && (a + t)[j + 1] == 'H' && Digit((a + t)[j + 2]);
  }

  /** A text without "PH" and a digit leaves no room for a ghost. */
  lemma {:induction false} NoRoomForGhosts(atoms: seq<Atom>, values: seq<string>, n: nat)
    requires !MentionsPH(Flatten(atoms, values))
    ensures NoGhosts(atoms, n)
  {
    if atoms != [] {
      assert atoms == [atoms[0]] + atoms[1..];
      FlattenHead(atoms[0], atoms[1..], values);
      hide Flatten, MentionsPH;
      var head := match atoms[0] case Ch(c) => [c] case Mark(j) => if j < |values| then values[j] else "";
      if MentionsPH(Flatten(atoms[1..], values)) { MentionedLater(head, Flatten(atoms[1..], values)); }
      NoRoomForGhosts(atoms[1..], values, n);
      if atoms[0].Mark? {
        forall q | q >= n ensures !GhostAfter(atoms[0].n, atoms[1..], q) {
          if GhostAfter(atoms[0].n, atoms[1..], q) { GhostMentions(atoms[1..], q, values); }
        }
      }
    }
  }

  /** `_unmask_protected(*_mask_protected(text))`. */
  function MaskedAndBack(original: string): string {
    UnmaskFrom(Masking(original).text, Masking(original).protected, 0)
  }

  lemma {:induction false} Unmasked(original: string, s: Stage, atoms: seq<Atom>)
    requires Masked(original, s, atoms) && NoGhosts(atoms, 0)
    ensures UnmaskFrom(s.text, s.protected, 0) == original
  {
    AboveZero(atoms, |s.protected|);
    UnmaskRenders(atoms, s.protected, 0);
  }

  /** Masking and unmasking gives back any text with no NUL and no "PH" followed by a digit. */
  lemma {:induction false} RoundTrip(original: string)
    requires NulFree(original) && !MentionsPH(original)
    ensures MaskedAndBack(original) == original
  {
    hide Masking;
    var atoms := MaskingMasks(original);
    NoRoomForGhosts(atoms, Masking(original).protected, 0);
    Unmasked(original, Masking(original), atoms);
  }

  // ---- and only then ---------------------------------------------------------------------

  /** The text after each sentinel but `k` does not complete sentinel `k`. */
  predicate Unfooled(atoms: seq<Atom>, k: nat) {
    atoms == [] || (Unfooled(atoms[1..], k) && (atoms[0].Mark? && atoms[0].n != k ==> !StartsWith([NUL] + Render(atoms[1..]), Token(k))))
  }

  lemma {:induction false} SpelledRenders(atoms: seq<Atom>, w: string, n: nat)
    requires Spelled(atoms, w, n)
    ensures StartsWith(Render(atoms), w + [NUL])
  {
    assert atoms == [atoms[0]] + atoms[1..];
    SubHead(atoms[0], atoms[1..]);
    if w == "" {
      TokenNotEmpty(atoms[0].n);
      assert Render(atoms)[..1] == [NUL];
    } else {
      SpelledRenders(atoms[1..], w[1..], n);
      assert Render(atoms) == [w[0]] + Render(atoms[1..]);
      assert Render(atoms)[..|w| + 1] == [w[0]] + Render(atoms[1..])[..|w|];
      assert w + [NUL] == [w[0]] + (w[1..] + [NUL]);
    }
  }

  lemma {:induction false} UnfooledHasNone(atoms: seq<Atom>, k: nat)
    requires Unfooled(atoms, k)
    ensures NoGhostsAt(atoms, k)
  {
    if atoms != [] {
      UnfooledHasNone(atoms[1..], k);
      if atoms[0].Mark? && GhostAfter(atoms[0].n, atoms[1..], k) {
        SpelledRenders(atoms[1..], Inner(k), k);
        Completed(Render(atoms[1..]), Inner(k));
      }
    }
  }

  lemma {:induction false} Completed(r: string, inner: string)
    requires StartsWith(r, inner + [NUL])
    ensures StartsWith([NUL] + r, [NUL] + inner + [NUL])
  {
    var p := [NUL] + inner + [NUL];
    assert ([NUL] + r)[..|p|] == [NUL] + r[..|p| - 1];
    assert p == [NUL] + (inner + [NUL]);
  }

  /** A plain front of what a replacement gives was there before. */
  lemma {:induction false} FrontWasThere(t: string, k: nat, v: string, w: string, rest: string)
    requires Token(k) != "" && IsValue(v) && (forall i :: 0 <= i < |w| ==> Plain(w[i]) && w[i] != NUL)
    requires Replace(t, Token(k), v) == w + [NUL] + rest
    ensures StartsWith(t, w + [NUL]) && !StartsWith(t[|w|..], Token(k)) && Replace(t[|w| + 1..], Token(k), v) == rest
    decreases |w|
  {
    hide IsValue;
    var r := w + [NUL] + rest;
    if StartsWith(t, Token(k)) { ValueFirst(v, Replace(t[|Token(k)|..], Token(k), v), w, rest); }
    assert t != "";
    ReplaceStep(t, Token(k), v);
    assert r[1..] == if w == "" then rest else w[1..] + [NUL] + rest;
    assert ([t[0]] + Replace(t[1..], Token(k), v))[1..] == Replace(t[1..], Token(k), v);
    assert t[0] == r[0] == if w == "" then NUL else w[0];
    if w == "" {
      assert t[..1] == [NUL] && t[0..] == t;
    } else {
      FrontWasThere(t[1..], k, v, w[1..], rest);
      assert t[1..][|w[1..]|..] == t[|w|..] && t[1..][|w[1..]| + 1..] == t[|w| + 1..];
      FrontIs(t, w);
    }
  }

  lemma {:induction false} FrontIs(t: string, w: string)
    requires w != "" && t != "" && t[0] == w[0] && StartsWith(t[1..], w[1..] + [NUL])
    ensures StartsWith(t, w + [NUL])
  {
    assert t[..|w| + 1] == [t[0]] + t[1..][..|w|];
    assert w + [NUL] == [w[0]] + (w[1..] + [NUL]);
  }

  /** A value does not come out as plain characters up to a NUL: impossible. */
  lemma {:induction false} ValueFirst(v: string, r: string, w: string, rest: string)
    requires IsValue(v) && v + r == w + [NUL] + rest
    ensures exists i :: 0 <= i < |w| && !Plain(w[i])
  {
    var t := w + [NUL] + rest;
    var i :| 0 <= i < |v| && !Plain(v[i]);
    assert t[i] == v[i] && v[i] != NUL;
    assert t[|w|] == NUL;
    assert forall p :: 0 <= p < |v| ==> (v + r)[p] == v[p];
    assert i < |w|;
    assert t[i] == w[i];
  }

  /** Characters that are no NUL, and any sentinels. */
  predicate Proper(atoms: seq<Atom>) {
    atoms == [] || (Proper(atoms[1..]) && (atoms[0].Ch? ==> atoms[0].c != NUL))
  }

  /** When a replacement gives characters and sentinels, it was given characters and sentinels, and no ghost among them. */
  lemma {:induction false} ReplacedFrom(t: string, k: nat, v: string, after: seq<Atom>) returns (atoms: seq<Atom>)
    requires Token(k) != "" && IsValue(v) && Proper(after) && Replace(t, Token(k), v) == Render(after)
    ensures t == Render(atoms) && Proper(atoms) && Unfooled(atoms, k)
    decreases |t|
  {
    if t == "" {
      atoms := [];
    } else if StartsWith(t, Token(k)) {
      atoms := ReplacedOwn(t, k, v, after);
    } else {
      ReplaceStep(t, Token(k), v);
      assert t == [t[0]] + t[1..];
      if t[0] == NUL {
        atoms := ReplacedOther(t, k, v, after);
      } else {
        SomeAtoms(after);
        assert after == [after[0]] + after[1..];
        SubHead(after[0], after[1..]);
        RenderSome(after);
        assert after[0].Ch?;
        assert Render(after)[1..] == Render(after[1..]);
        assert ([t[0]] + Replace(t[1..], Token(k), v))[1..] == Replace(t[1..], Token(k), v);
        var rest := ReplacedFrom(t[1..], k, v, after[1..]);
        atoms := [Ch(t[0])] + rest;
        SubHead(Ch(t[0]), rest);
        assert atoms[1..] == rest;
      }
    }
  }

  lemma {:induction false} SomeAtoms(atoms: seq<Atom>)
    requires Render(atoms) != ""
    ensures atoms != []
  {}

  lemma {:induction false} ProperRest(atoms: seq<Atom>, n: nat)
    requires Proper(atoms) && n <= |atoms|
    ensures Proper(atoms[n..])
  {
    if n == 0 {
      assert atoms[0..] == atoms;
    } else {
      ProperRest(atoms[1..], n - 1);
      assert atoms[1..][n - 1..] == atoms[n..];
    }
  }

  lemma {:induction false} ReplacedOwn(t: string, k: nat, v: string, after: seq<Atom>) returns (atoms: seq<Atom>)
    requires Token(k) != "" && IsValue(v) && Proper(after) && StartsWith(t, Token(k)) && Replace(t, Token(k), v) == Render(after)
    ensures t == Render(atoms) && Proper(atoms) && Unfooled(atoms, k)
    decreases |t|, 0
  {
    var tail := t[|Token(k)|..];
    var r := Replace(tail, Token(k), v);
    assert Render(after) == v + r;
    assert Render(after)[..|v|] == v && Render(after)[|v|..] == r;
    ValueIsNulFree(v);
    FrontIsPlain(after, |v|, []);
    ProperRest(after, |v|);
    var rest := ReplacedFrom(tail, k, v, after[|v|..]);
    atoms := [Mark(k)] + rest;
    SubHead(Mark(k), rest);
    assert atoms[1..] == rest;
    assert t == t[..|Token(k)|] + tail;
  }

  lemma {:induction false} ReplacedOther(t: string, k: nat, v: string, after: seq<Atom>) returns (atoms: seq<Atom>)
    requires Token(k) != "" && IsValue(v) && Proper(after) && t != "" && t[0] == NUL && !StartsWith(t, Token(k))
    requires Replace(t, Token(k), v) == Render(after)
    ensures t == Render(atoms) && Proper(atoms) && Unfooled(atoms, k)
    decreases |t|, 0
  {
    hide IsValue, Replace;
    ReplaceStep(t, Token(k), v);
    var r := Replace(t[1..], Token(k), v);
    assert Render(after) == [NUL] + r;
    SomeAtoms(after);
    assert after == [after[0]] + after[1..];
    SubHead(after[0], after[1..]);
    RenderSome(after);
    assert after[0].Mark?;
    var j, tail := after[0].n, Render(after[1..]);
    InnerPlain(j);
    CopyAll(j, tail);
    assert ([NUL] + r)[1..] == r && ([NUL] + (Inner(j) + ([NUL] + tail)))[1..] == Inner(j) + ([NUL] + tail);
    assert Inner(j) + ([NUL] + tail) == Inner(j) + [NUL] + tail;
    FrontWasThere(t[1..], k, v, Inner(j), tail);
    var left := t[1..][|Inner(j)| + 1..];
    var rest := ReplacedFrom(left, k, v, after[1..]);
    atoms := [Mark(j)] + rest;
    SubHead(Mark(j), rest);
    assert atoms[1..] == rest;
    Reassembled(t, j, left);
  }

  lemma {:induction false} Reassembled(t: string, j: nat, left: string)
    requires t != "" && t[0] == NUL && StartsWith(t[1..], Inner(j) + [NUL]) && left == t[1..][|Inner(j)| + 1..]
    ensures t == Token(j) + left && t[1..][|Inner(j)|..] == [NUL] + left
  {
    var inner, u := Inner(j), t[1..];
    assert t == [NUL] + u;
    hide Inner;
    assert u == u[..|inner| + 1] + left;
    assert u == inner + ([NUL] + left);
    CopyAll(j, left);
  }

  /** A text is characters and sentinels in one way only. */
  lemma {:induction false} OneReading(a: seq<Atom>, b: seq<Atom>)
    requires Proper(a) && Proper(b) && Render(a) == Render(b)
    ensures a == b
  {
    RenderNone();
    if a == [] {
      if b != [] { RenderSome(b); }
    } else {
      RenderSome(a);
      SomeAtoms(b);
      RenderSome(b);
      assert a == [a[0]] + a[1..] && b == [b[0]] + b[1..];
      SubHead(a[0], a[1..]);
      SubHead(b[0], b[1..]);
      hide Render, Token;
      if a[0].Mark? {
        SameMark(a[0].n, Render(a[1..]), b[0].n, Render(b[1..]));
      } else {
        assert Render(a)[1..] == Render(a[1..]) && Render(b)[1..] == Render(b[1..]);
      }
      OneReading(a[1..], b[1..]);
    }
  }

  lemma {:induction false} SameMark(j: nat, r: string, n: nat, s: string)
    requires Token(j) + r == Token(n) + s
    ensures j == n && r == s
  {
    var t := Token(j) + r;
    assert t[..|Token(n)|] == Token(n);
    TokensApart(j, r, n);
    assert t[|Token(j)|..] == r && t[|Token(n)|..] == s;
  }

  lemma {:induction false} RenderSome(a: seq<Atom>)
    requires a != []
    ensures Render(a) != ""
    ensures a[0].Mark? ==> Render(a)[0] == NUL
    ensures a[0].Ch? ==> Render(a)[0] == a[0].c
  {}

  lemma {:induction false} FreeIsProper(t: string)
    requires NulFree(t)
    ensures Proper(Atoms(t)) && Render(Atoms(t)) == t
  {
    AtomsRender(t, []);
    BelowProper(Atoms(t), 0);
  }

  lemma {:induction false} BelowProper(atoms: seq<Atom>, k: nat)
    requires Below(atoms, k)
    ensures Proper(atoms)
  {
    if atoms != [] {
      BelowRest(atoms, k, 1);
      HeadBelow(atoms, k);
      BelowProper(atoms[1..], k);
    }
  }

  /** When unmasking ends without a NUL, every stage was characters and sentinels. */
  lemma {:induction false} StageIsProper(t: string, protected: seq<string>, n: nat) returns (atoms: seq<Atom>)
    requires n <= |protected| && NulFree(UnmaskFrom(t, protected, n))
    requires forall i :: 0 <= i < |protected| ==> IsValue(protected[i])
    ensures t == Render(atoms) && Proper(atoms)
    decreases |protected| - n
  {
    hide IsValue, NulFree, Render, Token;
    if n == |protected| {
      FreeIsProper(t);
      atoms := Atoms(t);
    } else {
      TokenNotEmpty(n);
      var after := StageIsProper(Replace(t, Token(n), protected[n]), protected, n + 1);
      atoms := ReplacedFrom(t, n, protected[n], after);
    }
  }

  lemma {:induction false} SpelledStays(atoms: seq<Atom>, n: nat, v: string, w: string, q: nat)
    requires Spelled(atoms, w, q) && n < q
    ensures Spelled(Subst(atoms, n, v), w, q)
  {
    var rest := Subst(atoms[1..], n, v);
    assert ([atoms[0]] + rest)[1..] == rest;
    if w != "" { SpelledStays(atoms[1..], n, v, w[1..], q); }
  }

  /** A later ghost is still there after an earlier replacement. */
  lemma {:induction false} GhostsStay(atoms: seq<Atom>, n: nat, v: string)
    requires NoGhostsAt(atoms, n) && NoGhosts(Subst(atoms, n, v), n + 1)
    ensures NoGhosts(atoms, n)
  {
    if atoms != [] {
      var rest := Subst(atoms[1..], n, v);
      if atoms[0] == Mark(n) {
        CharsDropped(v, rest, n + 1);
      } else {
        assert ([atoms[0]] + rest)[1..] == rest;
      }
      GhostsStay(atoms[1..], n, v);
      if atoms[0].Mark? {
        forall q | q >= n ensures !GhostAfter(atoms[0].n, atoms[1..], q) {
          if q > n && GhostAfter(atoms[0].n, atoms[1..], q) {
            SpelledStays(atoms[1..], n, v, Inner(q), q);
            assert GhostAfter(atoms[0].n, rest, q);
          }
        }
      }
    }
  }

  lemma {:induction false} CharsDropped(v: string, atoms: seq<Atom>, n: nat)
    requires NoGhosts(Atoms(v) + atoms, n)
    ensures NoGhosts(atoms, n)
  {
    if v == "" {
      assert Atoms(v) + atoms == atoms;
    } else {
      assert (Atoms(v) + atoms)[1..] == Atoms(v[1..]) + atoms;
      CharsDropped(v[1..], atoms, n);
    }
  }

  lemma {:induction false} UnmaskedHadNone(atoms: seq<Atom>, protected: seq<string>, n: nat)
    requires n <= |protected| && Above(atoms, n) && Below(atoms, |protected|) && Proper(atoms)
    requires (forall i :: 0 <= i < |protected| ==> IsValue(protected[i])) && NulFree(UnmaskFrom(Render(atoms), protected, n))
    ensures NoGhosts(atoms, n)
    decreases |protected| - n
  {
    hide Render, Token, IsValue, NulFree, Unfooled, Below, Replace;
    if n == |protected| {
      OnlyCharacters(atoms, n);
    } else {
      var v := protected[n];
      TokenNotEmpty(n);
      ValueIsNulFree(v);
      var after := StageIsProper(Replace(Render(atoms), Token(n), v), protected, n + 1);
      var same := ReplacedFrom(Render(atoms), n, v, after);
      OneReading(atoms, same);
      UnfooledHasNone(atoms, n);
      ReplaceRenders(atoms, n, v);
      SubstAbove(atoms, n, v);
      SubstBelow(atoms, n, v, |protected|);
      BelowProper(Subst(atoms, n, v), |protected|);
      UnmaskedHadNone(Subst(atoms, n, v), protected, n + 1);
      GhostsStay(atoms, n, v);
    }
  }

  lemma {:induction false} OnlyCharacters(atoms: seq<Atom>, k: nat)
    requires Above(atoms, k) && Below(atoms, k)
    ensures NoGhosts(atoms, k)
  {
    if atoms != [] {
      BelowRest(atoms, k, 1);
      HeadBelow(atoms, k);
      OnlyCharacters(atoms[1..], k);
    }
  }

  /**
   * For any text without NUL, masking and unmasking gives it back exactly when no two
   * neighbouring sentinels of the masked text form a ghost. `atoms` is the one reading
   * of the masked text as characters and sentinels.
   */
  lemma {:induction false} RoundTripExactly(original: string) returns (atoms: seq<Atom>)
    requires NulFree(original)
    ensures Masked(original, Masking(original), atoms)
    ensures forall other :: Proper(other) && Render(other) == Masking(original).text ==> other == atoms
    ensures MaskedAndBack(original) == original <==> NoGhosts(atoms, 0)
  {
    hide Masking, Render, Flatten;
    atoms := MaskingMasks(original);
    var s := Masking(original);
    AboveZero(atoms, |s.protected|);
    BelowProper(atoms, |s.protected|);
    if NoGhosts(atoms, 0) {
      Unmasked(original, s, atoms);
    } else if MaskedAndBack(original) == original {
      UnmaskedHadNone(atoms, s.protected, 0);
    }
    forall other | Proper(other) && Render(other) == s.text ensures other == atoms { OneReading(other, atoms); }
  }
}
