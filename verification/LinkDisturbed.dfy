/**
 * A page that rewriting disturbs. `str.splitlines` breaks at U+000B, counting
 * newlines does not, so a destination can mark a line that its own link is not on.
 */
module LinkDisturbed {
  import opened Text
  import opened PosixPath
  import opened LinkGrammar
  import opened LinkContext
  import opened LinkManyEdits
  import opened LinkResolve
  import opened LinkPlan
  import opened LinkScan
  import opened LinkReconcile
  import opened LinkUndisturbed

  /** `splitlines` gives it three lines and the second is a quotation; counting newlines, that is the second link's line. */
  function Body(): string { "[a](\U{000B}>/../o.md)" + "\n[b](o.md)\n" }

  function First(): Link { Link(0, 2, 5, 14, 15) }
  function Second(): Link { Link(16, 18, 20, 24, 25) }

  /** Its characters, one by one. */
  ghost predicate Spelled(t: string) {
    && |t| == 26
    && t[0] == '[' && t[1] == 'a' && t[2] == ']' && t[3] == '(' && t[4] == '\U{000B}' && t[5] == '>' && t[6] == '/'
    && t[7] == '.' && t[8] == '.' && t[9] == '/' && t[10] == 'o' && t[11] == '.' && t[12] == 'm' && t[13] == 'd' && t[14] == ')'
    && t[15] == '\n' && t[16] == '[' && t[17] == 'b' && t[18] == ']' && t[19] == '(' && t[20] == 'o' && t[21] == '.'
    && t[22] == 'm' && t[23] == 'd' && t[24] == ')' && t[25] == '\n'
  }

  lemma {:induction false} BodySpelled()
    ensures Spelled(Body())
  {
    var a, b := "[a](\U{000B}>/../o.md)", "\n[b](o.md)\n";
    assert |a| == 15 && |b| == 11;
  }

  lemma {:induction false} FirstMatches(t: string)
    requires Spelled(t)
    ensures MatchAt(t, 0) == Some(First()) && WellPlaced(t, First()) && Dest(t, First()) == ">/../o.md"
  {
    assert t[5..14] == ">/../o.md";
    MatchAtIsThePattern(t, First());
  }

  lemma {:induction false} SecondMatches(t: string)
    requires Spelled(t)
    ensures MatchAt(t, 16) == Some(Second()) && WellPlaced(t, Second()) && Dest(t, Second()) == "o.md"
  {
    assert t[20..24] == "o.md";
    MatchAtIsThePattern(t, Second());
  }

  lemma {:induction false} TwoLinks(t: string)
    requires Spelled(t)
    ensures Scan(t) == [First(), Second()]
  {
    FirstMatches(t);
    SecondMatches(t);
    var ms := Attempts(t);
    assert MatchAt(t, 15).None? && MatchAt(t, 25).None?;
    hide MatchAt;
    assert Walk(ms, 26) == [];
    assert Walk(ms, 25) == [];
    assert Walk(ms, 16) == [Second()] + [];
    assert Walk(ms, 15) == [Second()];
    assert Walk(ms, 0) == [First()] + [Second()];
  }

  const QUOTED := Kind(Option.None, false, false, true)

  lemma {:induction false} LineKind(t: string, f: nat, k: nat)
    requires k <= |t| && f == FirstInk(t, k) < k && t[f] != '`' && t[f] != '~'
    ensures Classify(t[..k]) == Kind(Option.None, false, false, t[f] == '>')
  {
    ClassifyAt(t, k);
  }

  lemma {:induction false} ThirdLine(t: string)
    requires t == "[b](o.md)\n"
    ensures LineKinds(t, Classify) == [BARE]
  {
    assert forall i :: 0 <= i < 9 ==> !In(LineBreak, t[i]);
    assert t[9] == '\n' && Seek(t, 0, LineBreak) == 9;
    assert Seek(t, 0, NonSpace) == 0;
    LineKind(t, 0, 9);
    assert t[10..] == [];
  }

  lemma {:induction false} SecondLine(t: string)
    requires t == ">/../o.md)" + "\n[b](o.md)\n"
    ensures LineKinds(t, Classify) == [QUOTED, BARE]
  {
    assert t[0] == '>' && t[10] == '\n';
    assert forall i :: 0 <= i < 10 ==> !In(LineBreak, t[i]);
    assert Seek(t, 0, LineBreak) == 10;
    assert Seek(t, 0, NonSpace) == 0;
    LineKind(t, 0, 10);
    assert t[11..] == "[b](o.md)\n";
    ThirdLine(t[11..]);
  }

  lemma {:induction false} FirstLine(t: string)
    requires Spelled(t)
    ensures Seek(t, 0, LineBreak) == 4 && Seek(t, 0, NonSpace) == 0 && AfterBreak(t, 4) == 5
  {
    hide Seek;
    assert In(LineBreak, t[4]) && In(NonSpace, t[0]);
    assert forall i :: 0 <= i < 4 ==> !In(LineBreak, t[i]);
  }

  lemma {:induction false} ThreeLines(t: string)
    requires t == Body()
    ensures LineKinds(t, Classify) == [BARE, QUOTED, BARE]
  {
    hide Classify;
    BodySpelled();
    FirstLine(t);
    LineKind(t, 0, 4);
    assert t[5..] == ">/../o.md)" + "\n[b](o.md)\n";
    hide Body, Spelled;
    SecondLine(t[5..]);
  }

  lemma {:induction false} FirstOpens(t: string)
    requires Spelled(t)
    ensures WellPlaced(t, First()) && WellPlaced(t, Second())
    ensures Opened(t, First()) == {1}
  {
    assert In(LineBreak, t[4]) && !In(LineBreak, t[5]);
    assert Seek(t, 0, LineBreak) == 4;
    assert LineOf(t[5..], 0) == 0;
  }

  lemma {:induction false} NoSpans(t: string)
    requires Spelled(t)
    ensures InlineSpans(t) == []
  {
    var ends := SpanAttempts(t);
    assert forall i :: 0 <= i < 26 ==> t[i] != '`';
    SkipNone(ends, 0, 26);
  }

  lemma {:induction false} LinesCounted(t: string)
    requires Spelled(t)
    ensures Newlines(t, 0) == Newlines(t, 15) == 0 && Newlines(t, 16) == Newlines(t, 25) == 1
  {
    NoNewlines(t, 15);
    assert Newlines(t, 16) == 1;
    NoNewlines(t[16..], 9);
    NewlinesFrom(t, 16, 9);
  }

  lemma {:induction false} Captions(t: string)
    requires Spelled(t)
    ensures t[1..2] == "a" && t[17..18] == "b"
  {}

  /** Both links as read with these reasons for the three lines. */
  lemma {:induction false} ReadAs(t: string, prot: seq<Option<Reason>>)
    requires t == Body() && |prot| == 3 && prot[0].None?
    ensures AllPlaced(t, Scan(t))
    ensures RefsWith(t, prot) == [Ref("a", ">/../o.md", 0, 0, Option.None), Ref("b", "o.md", 1, 1, prot[1])]
  {
    BodySpelled();
    TwoLinks(t);
    ScanPlaced(t);
    FirstMatches(t);
    SecondMatches(t);
    NoSpans(t);
    LinesCounted(t);
    Captions(t);
    hide Scan, Newlines, InlineSpans, MatchAt, Spelled, Body, Dest;
    assert FirstReason(prot, 0, 0) == Option.None by { assert FirstReason(prot, 1, 0) == Option.None; }
    assert FirstReason(prot, 1, 1) == prot[1] by { assert FirstReason(prot, 2, 1) == Option.None; }
  }

  lemma {:induction false} Reasoned(kinds: seq<Kind>)
    requires |kinds| == 3 && kinds[0] == BARE && kinds[2] == BARE && (kinds[1] == QUOTED || kinds[1] == BARE)
    ensures Protection(kinds) == Ok([Option.None, if kinds[1] == QUOTED then Some(Blockquote) else Option.None, Option.None])
  {
    assert FenceBefore(kinds, 1) == Closed && FenceBefore(kinds, 2) == Closed && FenceBefore(kinds, 3) == Closed;
    assert Reasons(kinds) == [Option.None, if kinds[1] == QUOTED then Some(Blockquote) else Option.None, Option.None];
  }

  // ---- what the links denote on the page "p.md" ------------------------------------

  lemma {:induction false} Climbs()
    ensures NormPath(">/../o.md") == "o.md"
  {
    var parts := [">", "..", "o.md"];
    assert parts[1..] == ["..", "o.md"] && parts[2..] == ["o.md"];
    assert Join(parts[2..]) == "o.md" && Join(parts[1..]) == "../o.md" && Join(parts) == ">/../o.md";
    SplitJoin(parts);
    FoldsTo(parts);
  }

  lemma {:induction false} FoldsTo(parts: seq<string>)
    requires parts == [">", "..", "o.md"]
    ensures Fold(parts, false, []) == ["o.md"]
  {
    assert parts[1..] == ["..", "o.md"] && parts[1..][1..] == ["o.md"] && parts[1..][1..][1..] == [];
    assert Push(">", false, []) == [">"] && Push("..", false, [">"]) == [] && Push("o.md", false, []) == ["o.md"];
    assert Fold(parts[1..][1..][1..], false, ["o.md"]) == ["o.md"];
    assert Fold(parts[1..][1..], false, []) == ["o.md"];
    assert Fold(parts[1..], false, [">"]) == ["o.md"];
  }

  lemma {:induction false} Stays()
    ensures NormPath("o.md") == "o.md"
  {
    SplitSlashFree("o.md");
    assert ["o.md"][1..] == [] && Push("o.md", false, []) == ["o.md"];
  }

  lemma {:induction false} BothDenoteO(env: Env)
    ensures ResolveCandidates(env, "p.md", ">/../o.md") == ResolveCandidates(env, "p.md", "o.md") == ["o.md"]
  {
    hide NormPath, ResolveCandidates;
    Climbs();
    Stays();
    assert ">/../o.md"[6..] == ".md" && "o.md"[1..] == ".md";
    assert ">/../o.md"[0] == '>' && "o.md"[0] == 'o';
    Denotes(env, ">/../o.md");
    Denotes(env, "o.md");
  }

  lemma {:induction false} Denotes(env: Env, dest: string)
    requires '#' !in dest && ':' !in dest && !StartsWith(dest, "/") && EndsWith(dest, ".md")
    ensures ResolveCandidates(env, "p.md", dest) == [NormPath(dest)]
  {
    BeforeAll(dest, "", '#');
    assert dest + "" == dest;
    if Contains(dest, "://") { ContainsNeeds(dest); }
    assert Dirname("p.md") == "" by { NoSlash("p.md"); }
  }

  lemma {:induction false} NoSlash(p: string)
    requires '/' !in p
    ensures AfterLastSlash(p) == 0
  {
    if p != "" { NoSlash(p[..|p| - 1]); }
  }

  // ---- planning and scanning the page ----------------------------------------------

  /** `plan_rewrites` of the page for moving "o.md" to "n.md". */
  function Moving(): map<string, string> { map["o.md" := "n.md"] }

  lemma {:induction false} PageRefs()
    ensures Refs(Body()) == Ok([Ref("a", ">/../o.md", 0, 0, Option.None), Ref("b", "o.md", 1, 1, Some(Blockquote))])
  {
    var t := Body();
    ThreeLines(t);
    Reasoned(LineKinds(t, Classify));
    ReadAs(t, [Option.None, Some(Blockquote), Option.None]);
    hide Body, RefsWith, LineKinds, Protection, Scan;
  }

  lemma {:induction false} Decided(env: Env, refs: seq<Ref>)
    requires ValidEnv(env)
    requires refs == [Ref("a", ">/../o.md", 0, 0, Option.None), Ref("b", "o.md", 1, 1, Some(Blockquote))]
    ensures var ds := Decisions(PathLinker(env), "p.md", false, Moving(), refs);
            && |ds| == 2 && ds[0].Edit?
            && ds[1] == Preserve(Preservation("p.md", 2, "o.md", "o.md", Blockquote))
  {
    BothDenoteO(env);
    NewWellFormed();
    ResolveInvertsRetarget(env, "p.md", ">/../o.md", "n.md");
    hide ResolveCandidates, Retarget, WellFormed;
    assert FirstIn(["o.md"], Moving().Keys) == Some("o.md");
  }

  lemma {:induction false} NewWellFormed()
    ensures WellFormed("n.md") && WellFormed("p.md")
  {
    SplitSlashFree("n.md");
    SplitSlashFree("p.md");
    assert "n.md"[1..] == ".md" == "p.md"[1..] && "n.md"[..1] == "n" && "p.md"[..1] == "p";
  }

  lemma {:induction false} LinesOpened(t: string, choices: seq<Option<string>>)
    requires Spelled(t) && |choices| == 2 && choices[0].Some? && choices[1].None?
    ensures |Scan(t)| == 2 && OpenedLines(t, choices, 2) == {1}
  {
    TwoLinks(t);
    FirstOpens(t);
    hide Scan, Opened, OpenedLines;
    OpenedStep(t, choices, 1);
    OpenedStep(t, choices, 2);
    NothingOpened(t, choices, []);
  }

  lemma {:induction false} LaterKinds(ds: seq<Decision>)
    requires |ds| == 2 && ds[0].Edit? && ds[1].Preserve?
    ensures |Scan(Body())| == 2 && KindsAfter(Body(), ds) == [BARE, BARE, BARE]
  {
    BodySpelled();
    LinesOpened(Body(), Choices(ds));
    ThreeLines(Body());
    hide Body, Scan, LineKinds, OpenedLines, KindsAfter, Bared, Spelled;
    AfterKinds(Body(), ds);
    SecondBared();
  }

  lemma {:induction false} SecondBared()
    ensures Bared([BARE, QUOTED, BARE], {1}) == [BARE, BARE, BARE]
  {}

  lemma {:induction false} LaterRefs(ds: seq<Decision>)
    requires |ds| == 2 && ds[0].Edit? && ds[1].Preserve?
    ensures |Scan(Body())| == 2
    ensures RefsUnder(Body(), KindsAfter(Body(), ds))
            == Ok([Ref("a", ">/../o.md", 0, 0, Option.None), Ref("b", "o.md", 1, 1, Option.None)])
  {
    LaterKinds(ds);
    Reasoned([BARE, BARE, BARE]);
    ReadAs(Body(), [Option.None, Option.None, Option.None]);
    hide Body, RefsWith, KindsAfter, Protection, Scan;
  }

  lemma {:induction false} QuietFirst()
    ensures Quiet(">/../o.md")
  {}

  lemma {:induction false} PageQuiet(env: Env)
    requires ValidEnv(env)
    ensures QuietPage(PathLinker(env), "p.md", Body(), Moving(), false)
  {
    hide Body, Refs, Quiet, PathLinker, Decide, Preservations, ValidEnv;
    PageRefs();
    QuietFirst();
    var refs := Refs(Body()).value;
    Decided(env, refs);
    OnlyFirstEdited(PathLinker(env), refs);
  }

  lemma {:induction false} OnlyFirstEdited(linker: Linker, refs: seq<Ref>)
    requires |refs| == 2 && Decisions(linker, "p.md", false, Moving(), refs)[1].Preserve?
    ensures forall i :: 0 <= i < |refs| && Decide(linker, "p.md", false, Moving(), refs[i]).Edit? ==> refs[i] == refs[0]
  {
    hide Decide;
  }

  lemma {:induction false} PageReady(env: Env)
    requires ValidEnv(env)
    ensures Ready(PathLinker(env), "p.md", Body(), Moving(), false)
  {
    hide Body, WellFormed, PathLinker, QuietPage, Faithful, ValidEnv;
    PageQuiet(env);
    NewWellFormed();
    PathsAreFaithful(env, "p.md", Moving());
  }

  /**
   * All paths are well-formed and no destination holds a quote or a backtick, and
   * yet the page is disturbed: its plan preserves the second link as quoted, and the
   * scan after it reports that link as unintended.
   */
  lemma {:induction false} RewriteDisturbs(env: Env)
    requires ValidEnv(env)
    ensures WellFormed("p.md") && WellFormed(Moving()["o.md"]) && Moving()["o.md"] !in Moving()
    ensures QuietPage(PathLinker(env), "p.md", Body(), Moving(), false)
    ensures !Undisturbed(PathLinker(env), "p.md", Body(), Moving(), false)
    ensures var planned := PlanSpec(PathLinker(env), "p.md", Body(), Moving(), false);
            && planned.Ok?
            && planned.value.preservations == [Preservation("p.md", 2, "o.md", "o.md", Blockquote)]
            && var report := ScanPage(PathLinker(env), "p.md", BodyOf(planned.value), Moving().Keys, false);
               report.Ok? && |report.value.unintended| == 1 && report.value.preserved == []
  {
    hide Body, Refs, Ready, WellFormed, PathLinker, QuietPage, PlanSpec, ScanPage, RefsUnder, KindsAfter, Decide, Scan;
    PageRefs();
    NewWellFormed();
    PageReady(env);
    PageQuiet(env);
    var refs := Refs(Body()).value;
    Decided(env, refs);
    var ds := Decisions(PathLinker(env), "p.md", false, Moving(), refs);
    LaterRefs(ds);
    PageReconciles(PathLinker(env), "p.md", Body(), Moving(), false, refs);
    assert Preservations(ds, 1) == [] by { assert Preservations(ds, 0) == []; }
    assert Preservations(ds, 2) == [ds[1].preservation];
    assert PageReason(RefsUnder(Body(), KindsAfter(Body(), ds)).value[1], false).None?;
  }
}
