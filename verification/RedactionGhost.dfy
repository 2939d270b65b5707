/** A text that masking and unmasking does not give back. */
module RedactionGhost {
  import opened Text
  import opened Redaction
  import opened RedactionMask
  import opened RedactionUnmask

  function Haunted(): string { "{{a}} <X>PH0<Y>" }

  /** Three sentinels, with "PH0" between the last two. */
  function HauntedAtoms(): seq<Atom> { [Mark(0), Ch(' '), Mark(1), Ch('P'), Ch('H'), Ch('0'), Mark(2)] }

  lemma {:induction false} NoMatchRest(m: Matcher, t: string)
    requires t != "" && NoMatch(m, t)
    ensures NoMatch(m, t[1..]) && m(t) == 0
  {
    assert t[0..] == t;
    forall i | 0 <= i < |t[1..]| ensures m(t[1..][i..]) == 0 { assert t[1..][i..] == t[i + 1..]; }
  }

  lemma {:induction false} SubNone(m: Matcher, t: string, k: nat)
    requires Approved(m) && NoMatch(m, t)
    ensures Sub(m, t, k, false) == t && Stored(m, t) == []
    decreases |t|
  {
    if t != "" {
      NoMatchRest(m, t);
      SubNone(m, t[1..], k);
    }
  }

  /** A pass over `c` and then `rest`, where nothing matches at `c`. */
  lemma {:induction false} PassChar(m: Matcher, c: char, rest: string, k: nat)
    requires Approved(m) && m([c] + rest) == 0
    ensures Sub(m, [c] + rest, k, false) == [c] + Sub(m, rest, k, false)
    ensures Stored(m, [c] + rest) == Stored(m, rest)
  {
    assert ([c] + rest)[1..] == rest;
  }

  /** A pass over a match and then `rest`. */
  lemma {:induction false} PassMatch(m: Matcher, v: string, rest: string, k: nat)
    requires Approved(m) && v != "" && m(v + rest) == |v|
    ensures Sub(m, v + rest, k, false) == Token(k) + Sub(m, rest, k + 1, false)
    ensures Stored(m, v + rest) == [v] + Stored(m, rest)
  {
    assert (v + rest)[|v|..] == rest && (v + rest)[..|v|] == v;
  }

  lemma {:induction false} StartsAt(t: string, i: nat, p: string)
    requires i <= |t| && |p| >= 3
    ensures StartsWith(t[i..], p) ==> i + 3 <= |t| && t[i] == p[0] && t[i + 1] == p[1] && t[i + 2] == p[2]
  {
    if StartsWith(t[i..], p) {
      assert t[i..][..|p|] == p;
      assert t[i..][0] == t[i] && t[i..][1] == t[i + 1] && t[i..][2] == t[i + 2];
    }
  }

  lemma {:induction false} NoLiteral(literal: string, t: string)
    requires literal in APPROVED_PLACEHOLDERS && t == Haunted()
    ensures !Occurs(literal, t)
  {
    hide StartsWith;
    forall i | 0 <= i <= |t| ensures !StartsWith(t[i..], literal) { StartsAt(t, i, literal); }
  }

  lemma {:induction false} LiteralsLeave(n: nat)
    requires n <= |APPROVED_PLACEHOLDERS|
    ensures Literals(Haunted(), n) == Stage(Haunted(), [])
  {
    hide Occurs, Replace;
    if n > 0 {
      LiteralsLeave(n - 1);
      NoLiteral(APPROVED_PLACEHOLDERS[n - 1], Haunted());
    }
  }

  /** Every match starts with `c`. */
  ghost predicate FirstIs(m: Matcher, c: char) { forall t :: m(t) > 0 ==> t != "" && t[0] == c }

  /** A pass copies characters that no match starts with. */
  lemma {:induction false} PassOver(m: Matcher, w: string, rest: string, k: nat, first: char)
    requires Approved(m) && FirstIs(m, first) && first !in w
    ensures Sub(m, w + rest, k, false) == w + Sub(m, rest, k, false)
    ensures Stored(m, w + rest) == Stored(m, rest)
  {
    hide Approved;
    if w == "" {
      assert w + rest == rest;
    } else {
      assert w + rest == [w[0]] + (w[1..] + rest);
      assert w[0] in w && forall c :: c in w[1..] ==> c in w;
      PassChar(m, w[0], w[1..] + rest, k);
      PassOver(m, w[1..], rest, k, first);
    }
  }

  lemma {:induction false} Passed(m: Matcher, k: nat)
    requires Approved(m)
    ensures Sub(m, "", k, false) == "" && Stored(m, "") == []
  {}

  lemma {:induction false} FirstChars()
    ensures FirstIs(MustacheAt, '{') && FirstIs(EnvAt, '$') && FirstIs(AngleAt, '<')
  {}

  lemma {:induction false} MustacheLength(rest: string)
    ensures MustacheAt("{{a}}" + rest) == 5
  {
    var t := "{{a}}" + rest;
    assert t[0] == '{' && t[1] == '{' && t[2] == 'a' && t[3] == '}' && t[4] == '}';
    assert t[2..3] == "a";
    assert AllIn("a", 0, 0, IsSpace) && AllIn("a", 0, 1, MustacheChar) && AllIn("a", 1, 1, IsSpace);
    assert MustacheInner("a");
  }

  lemma {:induction false} AngleLength(c: char, rest: string)
    requires Letter(c)
    ensures AngleAt(['<', c, '>'] + rest) == 3
  {
    var t := ['<', c, '>'] + rest;
    assert t[0] == '<' && t[1] == c && t[2] == '>';
  }

  lemma {:induction false} TokenChars(k: nat)
    ensures '{' !in Token(k) && '$' !in Token(k) && '<' !in Token(k)
  {
    InnerPlain(k);
    forall c | c in Token(k) ensures c == NUL || Plain(c) {
      var i :| 0 <= i < |Token(k)| && Token(k)[i] == c;
      if 0 < i < |Token(k)| - 1 { assert c == Inner(k)[i - 1]; }
    }
  }

  /** One match in front, and none in the rest. */
  lemma {:induction false} PassFront(m: Matcher, v: string, rest: string, k: nat, first: char)
    requires Approved(m) && FirstIs(m, first) && first !in rest
    requires v != "" && m(v + rest) == |v|
    ensures Sub(m, v + rest, k, false) == Token(k) + rest && Stored(m, v + rest) == [v]
  {
    hide Approved, FirstIs, Token, Sub, Stored;
    PassMatch(m, v, rest, k);
    PassOver(m, rest, "", k + 1, first);
    Passed(m, k + 1);
    assert rest + "" == rest;
  }

  /** Two matches, each after characters that start none. */
  lemma {:induction false} PassTwo(m: Matcher, a: string, v: string, b: string, w: string, k: nat, first: char)
    requires Approved(m) && FirstIs(m, first) && first !in a && first !in b
    requires v != "" && w != "" && m(v + (b + w)) == |v| && m(w + "") == |w|
    ensures Sub(m, a + (v + (b + w)), k, false) == a + (Token(k) + (b + Token(k + 1)))
    ensures Stored(m, a + (v + (b + w))) == [v, w]
  {
    hide Approved, FirstIs, Token, Sub, Stored;
    PassOver(m, a, v + (b + w), k, first);
    PassMatch(m, v, b + w, k);
    PassOver(m, b, w, k + 1, first);
    PassFront(m, w, "", k + 1, first);
    assert w + "" == w && Token(k + 1) + "" == Token(k + 1);
  }

  lemma {:induction false} FrontPass(s: Stage, m: Matcher, v: string, rest: string, first: char)
    requires Approved(m) && FirstIs(m, first) && first !in rest && v != "" && m(v + rest) == |v|
    requires s.text == v + rest
    ensures PatternPass(s, m) == Stage(Token(|s.protected|) + rest, s.protected + [v])
  {
    hide Approved, FirstIs, Token, Sub, Stored;
    PassFront(m, v, rest, |s.protected|, first);
  }

  lemma {:induction false} TwoPass(s: Stage, m: Matcher, a: string, v: string, b: string, w: string, first: char)
    requires Approved(m) && FirstIs(m, first) && first !in a && first !in b
    requires v != "" && w != "" && m(v + (b + w)) == |v| && m(w + "") == |w|
    requires s.text == a + (v + (b + w))
    ensures var k := |s.protected|;
            PatternPass(s, m) == Stage(a + (Token(k) + (b + Token(k + 1))), s.protected + [v, w])
  {
    hide Approved, FirstIs, Token, Sub, Stored;
    PassTwo(m, a, v, b, w, |s.protected|, first);
  }

  /** The mustache is masked first. */
  lemma {:induction false} Mustached(s: Stage)
    requires s == Stage(Haunted(), [])
    ensures Approved(MustacheAt)
    ensures PatternPass(s, MustacheAt) == Stage(Token(0) + " <X>PH0<Y>", ["{{a}}"])
  {
    hide Approved, FirstIs, MustacheAt, Token, PatternPass, Haunted;
    MustacheApproved();
    FirstChars();
    MustacheLength(" <X>PH0<Y>");
    HauntedText();
    FrontPass(s, MustacheAt, "{{a}}", " <X>PH0<Y>", '{');
  }

  lemma {:induction false} HauntedText()
    ensures Haunted() == "{{a}}" + " <X>PH0<Y>" && '{' !in " <X>PH0<Y>" && |"{{a}}"| == 5
  {}

  /** There is no environment reference. */
  lemma {:induction false} NoEnv(s: Stage)
    requires s == Stage(Token(0) + " <X>PH0<Y>", ["{{a}}"])
    ensures Approved(EnvAt) && PatternPass(s, EnvAt) == s
  {
    EnvApproved();
    FirstChars();
    TokenChars(0);
    hide Approved, FirstIs, EnvAt, Token, Sub, Stored;
    assert '$' !in " <X>PH0<Y>";
    assert s.text + "" == s.text && s.protected + [] == s.protected;
    PassOver(EnvAt, s.text, "", 1, '$');
    Passed(EnvAt, 1);
  }

  /** The two angle placeholders are masked last. */
  lemma {:induction false} Angled(s: Stage)
    requires s == Stage(Token(0) + " <X>PH0<Y>", ["{{a}}"])
    ensures Approved(AngleAt)
    ensures PatternPass(s, AngleAt) == Stage(Token(0) + " " + Token(1) + "PH0" + Token(2), ["{{a}}", "<X>", "<Y>"])
  {
    hide Approved, FirstIs, AngleAt, Token, PatternPass;
    AngleFacts();
    BeforeAngle();
    AngledText(s.text);
    TwoPass(s, AngleAt, Token(0) + " ", "<X>", "PH0", "<Y>", '<');
  }

  lemma {:induction false} AngleFacts()
    ensures Approved(AngleAt) && FirstIs(AngleAt, '<')
    ensures AngleAt("<X>" + ("PH0" + "<Y>")) == |"<X>"| && AngleAt("<Y>" + "") == |"<Y>"|
  {
    AngleApproved();
    FirstChars();
    AngleLength('X', "PH0" + "<Y>");
    AngleLength('Y', "");
  }

  lemma {:induction false} BeforeAngle()
    ensures '<' !in Token(0) + " " && '<' !in "PH0"
  {
    TokenChars(0);
    hide Token;
  }

  lemma {:induction false} AngledText(t: string)
    requires t == Token(0) + " <X>PH0<Y>"
    ensures t == (Token(0) + " ") + ("<X>" + ("PH0" + "<Y>"))
    ensures (Token(0) + " ") + (Token(1) + ("PH0" + Token(2))) == Token(0) + " " + Token(1) + "PH0" + Token(2)
  {
    hide Token;
    assert " <X>PH0<Y>" == " " + ("<X>" + ("PH0" + "<Y>"));
  }

  lemma {:induction false} HauntedMasking()
    ensures Masking(Haunted()) == Stage(Token(0) + " " + Token(1) + "PH0" + Token(2), ["{{a}}", "<X>", "<Y>"])
  {
    LiteralsLeave(|APPROVED_PLACEHOLDERS|);
    var s := Stage(Haunted(), []);
    Mustached(s);
    NoEnv(PatternPass(s, MustacheAt));
    Angled(PatternPass(s, MustacheAt));
    hide PatternPass, Haunted, Literals;
  }

  lemma {:induction false} HauntedLast()
    ensures Render([Ch('P'), Ch('H'), Ch('0'), Mark(2)]) == "PH0" + Token(2)
  {
    hide Token;
    SubHead(Mark(2), []);
    SubHead(Ch('0'), [Mark(2)]);
    SubHead(Ch('H'), [Ch('0')] + [Mark(2)]);
    SubHead(Ch('P'), [Ch('H')] + ([Ch('0')] + [Mark(2)]));
    assert [Mark(2)] + [] == [Mark(2)];
    assert [Ch('P')] + ([Ch('H')] + ([Ch('0')] + [Mark(2)])) == [Ch('P'), Ch('H'), Ch('0'), Mark(2)];
    assert Token(2) + "" == Token(2);
  }

  lemma {:induction false} HauntedRender()
    ensures Proper(HauntedAtoms()) && Render(HauntedAtoms()) == Token(0) + " " + Token(1) + "PH0" + Token(2)
  {
    var last := [Ch('P'), Ch('H'), Ch('0'), Mark(2)];
    HauntedLast();
    assert HauntedAtoms() == [Mark(0)] + ([Ch(' ')] + ([Mark(1)] + last));
    assert Proper(last[1..][1..]) && Proper(HauntedAtoms()[1..][1..]);
    hide Token, Render, Proper;
    SubHead(Mark(1), last);
    SubHead(Ch(' '), [Mark(1)] + last);
    SubHead(Mark(0), [Ch(' ')] + ([Mark(1)] + last));
  }

  lemma {:induction false} GhostThere(atoms: seq<Atom>, last: seq<Atom>)
    requires last == [Ch('P'), Ch('H'), Ch('0'), Mark(2)] && atoms == [Mark(0), Ch(' '), Mark(1)] + last
    ensures !NoGhosts(atoms, 0)
  {
    assert Inner(0) == "PH0" by { assert Decimal(0) == "0"; }
    assert Spelled(last[1..][1..][1..], "", 0);
    assert Spelled(last[1..][1..], "0", 0);
    assert Spelled(last[1..], "H0", 0);
    assert Spelled(last, "PH0", 0);
    assert atoms[1..][1..] == [Mark(1)] + last && ([Mark(1)] + last)[1..] == last;
    assert GhostAfter(1, last, 0);
    assert !NoGhosts([Mark(1)] + last, 0);
    assert !NoGhosts(atoms[1..], 0);
  }

  /** `{{a}} <X>PH0<Y>` holds no NUL, and yet masking and unmasking does not give it back. */
  lemma {:induction false} GhostExample()
    ensures NulFree(Haunted()) && MaskedAndBack(Haunted()) != Haunted()
  {
    assert NulFree(Haunted());
    HauntedMasking();
    HauntedRender();
    GhostThere(HauntedAtoms(), [Ch('P'), Ch('H'), Ch('0'), Mark(2)]);
    hide Masking, Haunted, HauntedAtoms, Render, NoGhosts, Proper;
    var atoms := RoundTripExactly(Haunted());
    assert HauntedAtoms() == atoms;
  }
}
