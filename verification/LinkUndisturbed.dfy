/** When rewriting disturbs no protection, and a page where it does. */
module LinkUndisturbed {
  import opened Text
  import opened LinkGrammar
  import opened LinkContext
  import opened LinkManyEdits
  import opened LinkResolve
  import opened LinkPlan
  import opened LinkScan
  import opened LinkReconcile

  /** No destination the planner would replace marks its line. */
  ghost predicate OpensNoLine(linker: Linker, page: string, t: string, mapping: map<string, string>, evidence: bool) {
    Refs(t).Ok? ==> forall i :: 0 <= i < |Refs(t).value| && Decide(linker, page, evidence, mapping, Refs(t).value[i]).Edit? ==>
      WellPlaced(t, Scan(t)[i]) && !OpensLine(t, Scan(t)[i])
  }

  lemma {:induction false} NothingOpens(t: string, choices: seq<Option<string>>, n: nat)
    requires n <= |Scan(t)| && n <= |choices|
    requires forall i :: 0 <= i < n && choices[i].Some? ==> WellPlaced(t, Scan(t)[i]) && !OpensLine(t, Scan(t)[i])
    ensures OpenedLines(t, choices, n) == {}
  {
    hide Scan, OpensLine;
    if n > 0 {
      NothingOpens(t, choices, n - 1);
      OpenedStep(t, choices, n);
    }
  }

  /** A page where no replaced destination marks its line is left undisturbed. */
  lemma {:induction false} OpensNoneUndisturbed(linker: Linker, page: string, t: string, mapping: map<string, string>, evidence: bool)
    requires Refs(t).Ok? && OpensNoLine(linker, page, t, mapping, evidence)
    ensures Undisturbed(linker, page, t, mapping, evidence)
  {
    hide Scan, OpensLine, LineKinds, RefsUnder;
    var refs := Refs(t).value;
    var ds := Decisions(linker, page, evidence, mapping, refs);
    assert forall i :: 0 <= i < |ds| && Choices(ds)[i].Some? ==> ds[i].Edit?;
    NothingOpens(t, Choices(ds), |ds|);
    BaredTwice(LineKinds(t, Classify), {}, {});
    RefsAsRead(t);
    hide Decide, Refs;
    forall i | 0 <= i < |ds| && ds[i].Preserve? ensures PageReason(refs[i], evidence) == Some(ds[i].preservation.reason) {
      PreservedFor(linker, page, evidence, mapping, refs[i]);
    }
  }

  lemma {:induction false} PreservedFor(linker: Linker, page: string, evidence: bool, mapping: map<string, string>, ref: Ref)
    ensures var d := Decide(linker, page, evidence, mapping, ref);
            && (d.Preserve? ==> PageReason(ref, evidence) == Some(d.preservation.reason))
            && (d.Edit? ==> PageReason(ref, evidence).None?)
  {}

  // ---- texts whose lines end as everybody counts them ------------------------------

  /** Every line break is "\n" or "\r\n". */
  predicate PlainBreaks(t: string) {
    forall i :: 0 <= i < |t| && In(LineBreak, t[i]) ==> Plainly(t, i)
  }

  predicate Plainly(t: string, i: nat)
    requires i < |t|
  {
    t[i] == '\n' || (t[i] == '\r' && i + 1 < |t| && t[i + 1] == '\n')
  }

  lemma {:induction false} PlainSuffix(t: string, j: nat)
    requires PlainBreaks(t) && j <= |t|
    ensures PlainBreaks(t[j..])
  {
    hide In;
    var rest := t[j..];
    assert forall i :: 0 <= i < |rest| ==> rest[i] == t[i + j];
    forall i | 0 <= i < |rest| && In(LineBreak, rest[i])
      ensures Plainly(rest, i)
    {
      var q := i + j;
      assert rest[i] == t[q] && (q + 1 < |t| ==> rest[i + 1] == t[q + 1]);
      assert In(LineBreak, t[q]);
      assert Plainly(t, q);
    }
  }

  lemma {:induction false} NoNewlines(t: string, n: nat)
    requires n <= |t| && forall i :: 0 <= i < n ==> t[i] != '\n'
    ensures Newlines(t, n) == 0
  {
    if n > 0 { NoNewlines(t, n - 1); }
  }

  lemma {:induction false} NewlinesFrom(t: string, j: nat, y: nat)
    requires j + y <= |t|
    ensures Newlines(t, j + y) == Newlines(t, j) + Newlines(t[j..], y)
  {
    if y > 0 { NewlinesFrom(t, j, y - 1); }
  }

  lemma {:induction false} NewlinesGrow(t: string, a: nat, b: nat)
    requires a <= b <= |t|
    ensures Newlines(t, a) <= Newlines(t, b)
  {
    if a < b { NewlinesGrow(t, a, b - 1); }
  }

  lemma {:induction false} FirstBreakCounts(t: string, x: nat)
    requires PlainBreaks(t) && x < |t| && !In(LineBreak, t[x])
    ensures var k := Seek(t, 0, LineBreak);
            if k < x then AfterBreak(t, k) <= x && Newlines(t, AfterBreak(t, k)) == 1 else Newlines(t, x) == 0
  {
    var k := Seek(t, 0, LineBreak);
    forall i | 0 <= i < k ensures t[i] != '\n' { assert !In(LineBreak, t[i]); }
    if k < x {
      assert In(LineBreak, t[k]) && Plainly(t, k);
      NoNewlines(t, k);
      assert Newlines(t, k + 1) == if t[k] == '\n' then 1 else 0;
    } else {
      NoNewlines(t, x);
    }
  }

  /** There `str.splitlines` and counting newlines number the lines alike. */
  lemma {:induction false} LinesAlike(t: string, x: nat)
    requires PlainBreaks(t) && x < |t| && !In(LineBreak, t[x])
    ensures LineOf(t, x) == Newlines(t, x)
    decreases x
  {
    hide PlainBreaks, Newlines, AfterBreak, In;
    var k := Seek(t, 0, LineBreak);
    FirstBreakCounts(t, x);
    if k < x {
      var j := AfterBreak(t, k);
      PlainSuffix(t, j);
      LinesAlike(t[j..], x - j);
      NewlinesFrom(t, j, x - j);
    }
  }

  /** The line a destination marks is a fence or a quotation. */
  lemma {:induction false} MarkedLine(t: string, p: int, x: nat)
    requires p < x < |t| && !In(LineBreak, t[x]) && (p >= 0 ==> t[p] == '(') && (forall q :: 0 <= q < x && p < q ==> IsSpace(t[q]))
    requires !OnLine(t, p, x) && MarkAt(t, x)
    ensures LineOf(t, x) < |LineKinds(t, Classify)|
    ensures LineReason(LineKinds(t, Classify)[LineOf(t, x)], Closed).Some?
    decreases x
  {
    hide Classify, LineReason, OnLine, MarkAt, LineKinds, LineOf, AfterBreak;
    var k := Seek(t, 0, LineBreak);
    if k < x {
      var j := AfterBreak(t, k);
      BreakUpTo(t, x);
      NextLine(t, x);
      StillMarks(t, p, x, j);
      SameFromHere(t, p, x, j);
      MarkedLine(t[j..], p - j, x - j);
      assert LineKinds(t, Classify)[LineOf(t, x)] == LineKinds(t[j..], Classify)[LineOf(t[j..], x - j)];
    } else {
      BeforeFirst(t, p, x, k);
      MarkFirst(t, x, k);
    }
  }

  lemma {:induction false} BreakUpTo(t: string, x: nat)
    requires x < |t| && !In(LineBreak, t[x]) && Seek(t, 0, LineBreak) < x
    ensures var j := AfterBreak(t, Seek(t, 0, LineBreak)); 0 < j <= x && In(LineBreak, t[j - 1])
  {
    var k := Seek(t, 0, LineBreak);
    assert In(LineBreak, t[k]);
    if AfterBreak(t, k) == k + 2 {
      assert t[k + 1] == '\n' && In(LineBreak, t[k + 1]);
    }
  }

  lemma {:induction false} SameFromHere(t: string, p: int, x: nat, j: nat)
    requires p < x < |t| && j <= x && !In(LineBreak, t[x]) && (p >= 0 ==> t[p] == '(') && (forall q :: 0 <= q < x && p < q ==> IsSpace(t[q]))
    ensures var rest, y := t[j..], x - j;
            && y < |rest| && !In(LineBreak, rest[y]) && (p >= j ==> rest[p - j] == '(')
            && forall q :: 0 <= q < y && p - j < q ==> IsSpace(rest[q])
  {
    hide IsSpace, In;
    var rest := t[j..];
    assert forall q :: 0 <= q < |rest| ==> rest[q] == t[q + j];
  }

  lemma {:induction false} NextLine(t: string, x: nat)
    requires x < |t| && !In(LineBreak, t[x]) && Seek(t, 0, LineBreak) < x
    ensures var j := AfterBreak(t, Seek(t, 0, LineBreak));
            j <= x ==> LineOf(t, x) == 1 + LineOf(t[j..], x - j) && LineKinds(t, Classify) == [Classify(t[..Seek(t, 0, LineBreak)])] + LineKinds(t[j..], Classify)
  {
    hide Classify;
  }

  lemma {:induction false} BeforeFirst(t: string, p: int, x: nat, k: nat)
    requires p < x < |t| && k == Seek(t, 0, LineBreak) >= x && !OnLine(t, p, x)
    ensures p < 0
  {}

  lemma {:induction false} StillMarks(t: string, p: int, x: nat, j: nat)
    requires p < x < |t| && j <= x && !OnLine(t, p, x) && MarkAt(t, x)
    requires j == 0 || In(LineBreak, t[j - 1])
    requires p >= 0 ==> t[p] == '('
    ensures !OnLine(t[j..], p - j, x - j) && MarkAt(t[j..], x - j)
  {
    var rest := t[j..];
    assert forall q :: 0 <= q < |rest| ==> rest[q] == t[q + j];
    if p >= j {
      var q :| 0 <= q < x && p < q && In(LineBreak, t[q]);
      assert In(LineBreak, rest[q - j]);
    }
  }

  lemma {:induction false} MarkFirst(t: string, x: nat, k: nat)
    requires x < |t| && k == Seek(t, 0, LineBreak) >= x && !In(LineBreak, t[x]) && MarkAt(t, x)
    requires forall q :: 0 <= q < x ==> IsSpace(t[q])
    ensures LineOf(t, x) == 0 < |LineKinds(t, Classify)|
    ensures LineReason(LineKinds(t, Classify)[0], Closed).Some?
  {
    assert Seek(t, 0, NonSpace) >= x;
    assert !IsSpace(t[x]);
    assert Seek(t, 0, NonSpace) == x && k > x;
    ClassifyAt(t, k);
    if Three(t, x, |t|, '~') { assert !In(LineBreak, '~') && k >= x + 3; }
  }

  lemma {:induction false} ReasonBetween(prot: seq<Option<Reason>>, a: nat, line: nat, b: nat)
    requires a <= line <= b && line < |prot| && prot[line].Some?
    ensures FirstReason(prot, a, b).Some?
    decreases line - a
  {
    if a < line { ReasonBetween(prot, a + 1, line, b); }
  }

  lemma {:induction false} MarkedReason(kinds: seq<Kind>, line: nat)
    requires line < |kinds| && LineReason(kinds[line], Closed).Some?
    ensures Reasons(kinds)[line].Some?
  {}

  /** With plain line breaks a link whose destination marks its line is protected itself. */
  lemma {:induction false} OpenedIsProtected(t: string, k: nat)
    requires PlainBreaks(t) && Refs(t).Ok? && k < |Scan(t)|
    requires WellPlaced(t, Scan(t)[k]) && OpensLine(t, Scan(t)[k])
    ensures Refs(t).value[k].reason.Some?
  {
    hide Scan, MatchAt, OnLine, MarkAt, LineKinds, LineReason, Reasons, PlainBreaks, FirstReason, Newlines;
    var m := Scan(t)[k];
    ScannedLink(t, k);
    BracketThenSpaces(t, m);
    DestInk(t, m);
    MarkedLine(t, m.bracket + 1, m.dest);
    LinesAlike(t, m.dest);
    var kinds, line := LineKinds(t, Classify), LineOf(t, m.dest);
    MarkedReason(kinds, line);
    NewlinesGrow(t, m.start, m.dest);
    NewlinesGrow(t, m.dest, m.end);
    ReasonBetween(Reasons(kinds), Newlines(t, m.start), line, Newlines(t, m.end));
  }

  lemma {:induction false} DestInk(t: string, m: Link)
    requires WellPlaced(t, m) && MatchAt(t, m.start) == Some(m)
    ensures !In(LineBreak, t[m.dest])
  {
    MatchAtIsThePattern(t, m);
    assert t[m.dest..m.destEnd][0] == t[m.dest];
    if In(LineBreak, t[m.dest]) { BreakIsSpace(t[m.dest]); }
  }

  /** So no page with plain line breaks is disturbed, whatever its destinations. */
  lemma {:induction false} PlainUndisturbed(linker: Linker, page: string, t: string, mapping: map<string, string>, evidence: bool)
    requires PlainBreaks(t) && Refs(t).Ok?
    ensures Undisturbed(linker, page, t, mapping, evidence)
  {
    hide PlainBreaks, OpensLine, Refs, Decide, Scan, Undisturbed;
    var refs := Refs(t).value;
    forall i | 0 <= i < |refs| && Decide(linker, page, evidence, mapping, refs[i]).Edit?
      ensures WellPlaced(t, Scan(t)[i]) && !OpensLine(t, Scan(t)[i])
    {
      PreservedFor(linker, page, evidence, mapping, refs[i]);
      ScannedLink(t, i);
      ReasonStays(refs[i], evidence);
      if OpensLine(t, Scan(t)[i]) { OpenedIsProtected(t, i); }
    }
    OpensNoneUndisturbed(linker, page, t, mapping, evidence);
  }

  lemma {:induction false} ReasonStays(ref: Ref, evidence: bool)
    ensures PageReason(ref, evidence).None? ==> ref.reason.None?
  {}

  /** The reconciliation for pages whose lines end as everybody counts them: no further condition. */
  lemma {:induction false} PlainRewriteThenScan(env: Env, paths: seq<string>, corpus: map<string, string>, mapping: map<string, string>, evidence: string -> bool)
    requires ValidEnv(env) && Distinct(paths)
    requires forall p :: p in paths ==> p in corpus && WellFormed(p) && QuietPage(PathLinker(env), p, corpus[p], mapping, evidence(p))
    requires forall p :: p in paths ==> p in corpus && PlainBreaks(corpus[p])
    requires forall from :: from in mapping ==> WellFormed(mapping[from]) && mapping[from] !in mapping
    ensures var planned := CorpusSpec(PathLinker(env), paths, corpus, mapping, evidence);
            planned.Ok? ==>
              && Applied(corpus, planned.value).Keys == corpus.Keys
              && ScanSpec(PathLinker(env), paths, Applied(corpus, planned.value), mapping.Keys, evidence)
                 == Ok(Report([], AllPreservations(planned.value)))
  {
    hide Undisturbed, PlainBreaks, QuietPage, WellFormed, ScanSpec, CorpusSpec;
    RewriteThenScan(env, paths, corpus, mapping, evidence);
    if CorpusSpec(PathLinker(env), paths, corpus, mapping, evidence).Ok? {
      forall i | 0 <= i < |paths| ensures Undisturbed(PathLinker(env), paths[i], corpus[paths[i]], mapping, evidence(paths[i])) {
        assert paths[i] in paths;
        OpenFence(PathLinker(env), paths[i], corpus[paths[i]], mapping, evidence(paths[i]));
        PlainUndisturbed(PathLinker(env), paths[i], corpus[paths[i]], mapping, evidence(paths[i]));
      }
    }
  }
}
