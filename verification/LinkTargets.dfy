/** What the links of a rewritten corpus denote. */
module LinkTargets {
  import opened Text
  import opened LinkGrammar
  import opened LinkSplice
  import opened LinkContext
  import opened LinkManyEdits
  import opened LinkResolve
  import opened LinkPlan
  import opened LinkScan
  import opened LinkReconcile
  import opened LinkMeaning
  import opened LinkFences

  /** The first page a link can denote that is mapped to another path. */
  predicate FirstMapped(cands: seq<string>, mapping: map<string, string>, k: nat) {
    k < |cands| && cands[k] in mapping && forall j :: 0 <= j < k ==> cands[j] !in mapping
  }

  /**
   * What becomes of a link: the label stays. If it is unprotected and its first mapped
   * candidate is `c`, it denotes the new path of `c` and nothing else, with the fragment
   * and the root-absolute form it had; otherwise it reads as before.
   */
  ghost predicate Follows(env: Env, page: string, mapping: map<string, string>, evidence: bool, ref: Ref, after: Seen) {
    var cands := ResolveCandidates(env, page, ref.dest);
    && after.caption == ref.caption
    && ((ref.reason.Some? || evidence || forall c :: c in cands ==> c !in mapping) ==> after.dest == ref.dest)
    && forall k: nat :: FirstMapped(cands, mapping, k) && ref.reason.None? && !evidence ==>
         && ResolveCandidates(env, page, after.dest) == [mapping[cands[k]]]
         && SplitTarget(after.dest).1 == SplitTarget(ref.dest).1 && SplitTarget(after.dest).2 == SplitTarget(ref.dest).2
  }

  lemma {:induction false} FirstInIs(cands: seq<string>, paths: set<string>) returns (k: nat)
    requires FirstIn(cands, paths).Some?
    ensures k < |cands| && cands[k] == FirstIn(cands, paths).value && cands[k] in paths && forall j :: 0 <= j < k ==> cands[j] !in paths
  {
    if cands[0] in paths {
      k := 0;
    } else {
      k := FirstInIs(cands[1..], paths);
      k := k + 1;
    }
  }

  lemma {:induction false} OneFirst(cands: seq<string>, mapping: map<string, string>, k: nat, l: nat)
    requires FirstMapped(cands, mapping, k) && FirstMapped(cands, mapping, l)
    ensures k == l
  {}

  lemma {:induction false} DecisionFollows(env: Env, page: string, mapping: map<string, string>, evidence: bool, ref: Ref)
    requires ValidEnv(env) && WellFormed(page) && forall from :: from in mapping ==> WellFormed(mapping[from])
    ensures Follows(env, page, mapping, evidence, ref,
                    Seen(ref.caption, Moved(Decide(PathLinker(env), page, evidence, mapping, ref), ref)))
  {
    hide WellFormed, Retarget, ResolveCandidates, SplitTarget, ValidEnv;
    var cands := ResolveCandidates(env, page, ref.dest);
    FirstInMember(cands, mapping.Keys);
    if FirstIn(cands, mapping.Keys).Some? {
      var k := FirstInIs(cands, mapping.Keys);
      ResolveInvertsRetarget(env, page, ref.dest, mapping[cands[k]]);
      forall l: nat | FirstMapped(cands, mapping, l) ensures l == k { OneFirst(cands, mapping, k, l); }
    }
  }

  // ---- one page ------------------------------------------------------------------------------------

  /** The destinations to be replaced hold no quotes. */
  ghost predicate PlainLinks(env: Env, page: string, t: string, mapping: map<string, string>, evidence: bool) {
    Refs(t).Ok? && !evidence ==> forall i: nat, k: nat ::
      i < |Refs(t).value| && Refs(t).value[i].reason.None? && FirstMapped(ResolveCandidates(env, page, Refs(t).value[i].dest), mapping, k) ==>
        Free(Quote, Refs(t).value[i].dest)
  }

  function Recording(env: Env, page: string, mapping: map<string, string>, evidence: bool, ref: Ref, newDest: string): seq<Rewrite> {
    var c := FirstIn(ResolveCandidates(env, page, ref.dest), mapping.Keys);
    if c.None? || c.value !in mapping || ref.reason.Some? || evidence then []
    else [Rewrite(page, ref.line + 1, ref.dest, newDest, c.value, mapping[c.value])]
  }

  function Withholding(env: Env, page: string, mapping: map<string, string>, evidence: bool, ref: Ref): seq<Preservation> {
    var c := FirstIn(ResolveCandidates(env, page, ref.dest), mapping.Keys);
    if c.None? || (ref.reason.None? && !evidence) then []
    else [Preservation(page, ref.line + 1, ref.dest, c.value, if ref.reason.Some? then ref.reason.value else EvidenceSurface)]
  }

  /** The records of the links that were rewritten, in document order. */
  function Records(env: Env, page: string, mapping: map<string, string>, evidence: bool, refs: seq<Ref>, after: seq<Seen>, n: nat): seq<Rewrite>
    requires n <= |refs| == |after|
  {
    if n == 0 then []
    else Records(env, page, mapping, evidence, refs, after, n - 1) + Recording(env, page, mapping, evidence, refs[n - 1], after[n - 1].dest)
  }

  /** The records of the links that were left because they are protected, or the page is evidence. */
  function Withheld(env: Env, page: string, mapping: map<string, string>, evidence: bool, refs: seq<Ref>, n: nat): seq<Preservation>
    requires n <= |refs|
  {
    if n == 0 then []
    else Withheld(env, page, mapping, evidence, refs, n - 1) + Withholding(env, page, mapping, evidence, refs[n - 1])
  }

  /** What a plan makes of its page. */
  ghost predicate PlanFollows(env: Env, page: string, t: string, mapping: map<string, string>, evidence: bool, plan: RewritePlan)
    requires Refs(t).Ok?
  {
    var refs, after := Refs(t).value, SeenIn(BodyOf(plan));
    && plan.page == page && plan.original == t && |after| == |refs|
    && (forall i :: 0 <= i < |refs| ==> Follows(env, page, mapping, evidence, refs[i], after[i]))
    && plan.rewrites == Records(env, page, mapping, evidence, refs, after, |refs|)
    && plan.preservations == Withheld(env, page, mapping, evidence, refs, |refs|)
    && (plan.content.None? <==> plan.rewrites == [])
  }

  lemma {:induction false} EditMapped(env: Env, page: string, mapping: map<string, string>, evidence: bool, ref: Ref) returns (k: nat)
    requires Decide(PathLinker(env), page, evidence, mapping, ref).Edit?
    ensures ref.reason.None? && !evidence && FirstMapped(ResolveCandidates(env, page, ref.dest), mapping, k)
  {
    hide Retarget, ResolveCandidates;
    k := FirstInIs(ResolveCandidates(env, page, ref.dest), mapping.Keys);
  }

  lemma {:induction false} PlainIsQuoteFree(env: Env, page: string, t: string, mapping: map<string, string>, evidence: bool)
    requires PlainLinks(env, page, t, mapping, evidence)
    ensures QuoteFree(PathLinker(env), page, t, mapping, evidence)
  {
    hide Decide, ResolveCandidates, Refs;
    if Refs(t).Ok? {
      var refs := Refs(t).value;
      forall i | 0 <= i < |refs| && Decide(PathLinker(env), page, evidence, mapping, refs[i]).Edit? ensures Free(Quote, refs[i].dest) {
        var k := EditMapped(env, page, mapping, evidence, refs[i]);
      }
    }
  }

  lemma {:induction false} DecisionRecorded(env: Env, page: string, mapping: map<string, string>, evidence: bool, ref: Ref)
    requires !Decide(PathLinker(env), page, evidence, mapping, ref).Fail?
    ensures var d := Decide(PathLinker(env), page, evidence, mapping, ref);
            && (if d.Edit? then [d.rewrite] else []) == Recording(env, page, mapping, evidence, ref, Moved(d, ref))
            && (if d.Preserve? then [d.preservation] else []) == Withholding(env, page, mapping, evidence, ref)
  {
    hide Retarget, ResolveCandidates;
    FirstInMember(ResolveCandidates(env, page, ref.dest), mapping.Keys);
  }

  /** The decisions about the links go through and leave these destinations. */
  ghost predicate Leaves(env: Env, page: string, mapping: map<string, string>, evidence: bool, refs: seq<Ref>, after: seq<Seen>) {
    && |after| == |refs|
    && forall i :: 0 <= i < |refs| ==> LeavesOne(env, page, mapping, evidence, refs[i], after[i])
  }

  ghost predicate LeavesOne(env: Env, page: string, mapping: map<string, string>, evidence: bool, ref: Ref, after: Seen) {
    var d := Decide(PathLinker(env), page, evidence, mapping, ref);
    !d.Fail? && after == Seen(ref.caption, Moved(d, ref))
  }

  lemma {:induction false} Recorded(env: Env, page: string, mapping: map<string, string>, evidence: bool, refs: seq<Ref>, after: seq<Seen>, n: nat)
    requires n <= |refs| && Leaves(env, page, mapping, evidence, refs, after)
    ensures var ds := Decisions(PathLinker(env), page, evidence, mapping, refs);
            Rewrites(ds, n) == Records(env, page, mapping, evidence, refs, after, n) && Preservations(ds, n) == Withheld(env, page, mapping, evidence, refs, n)
  {
    hide Decide, PathLinker, Recording, Withholding;
    if n > 0 {
      Recorded(env, page, mapping, evidence, refs, after, n - 1);
      assert LeavesOne(env, page, mapping, evidence, refs[n - 1], after[n - 1]);
      DecisionRecorded(env, page, mapping, evidence, refs[n - 1]);
    }
  }

  /** What planning finds on a page whose fences close. */
  lemma {:induction false} PageLeaves(env: Env, page: string, t: string, mapping: map<string, string>, evidence: bool)
    requires ValidEnv(env) && WellFormed(page) && (forall from :: from in mapping ==> WellFormed(mapping[from]))
    requires PlainLinks(env, page, t, mapping, evidence) && Refs(t).Ok?
    ensures var ds := Decisions(PathLinker(env), page, evidence, mapping, Refs(t).value);
            && CleanDecisions(t, ds)
            && Leaves(env, page, mapping, evidence, Refs(t).value, SeenChosen(SeenIn(t), Choices(ds), |ds|))
  {
    PlainIsQuoteFree(env, page, t, mapping, evidence);
    var linker, refs := PathLinker(env), Refs(t).value;
    var ds := Decisions(linker, page, evidence, mapping, refs);
    hide PathLinker, WellFormed, Decide, Refs, Clean, SeenIn, Scan, Free, PlainLinks, QuoteFree;
    forall i | 0 <= i < |refs|
      ensures SeenIn(t)[i] == Seen(refs[i].caption, refs[i].dest)
      ensures !ds[i].Fail? && (ds[i].Edit? ==> Clean(SeenIn(t)[i].dest) && Clean(ds[i].rewrite.newTarget))
    {
      RefSeen(t, refs, i);
      QuoteFreeAt(env, page, t, mapping, evidence, i);
      DecisionReads(env, page, evidence, mapping, refs[i]);
    }
  }

  lemma {:induction false} AllFollow(env: Env, page: string, mapping: map<string, string>, evidence: bool, refs: seq<Ref>, after: seq<Seen>)
    requires ValidEnv(env) && WellFormed(page) && (forall from :: from in mapping ==> WellFormed(mapping[from]))
    requires Leaves(env, page, mapping, evidence, refs, after)
    ensures forall i :: 0 <= i < |refs| ==> Follows(env, page, mapping, evidence, refs[i], after[i])
  {
    hide Follows, Decide, WellFormed, PathLinker;
    forall i | 0 <= i < |refs| ensures Follows(env, page, mapping, evidence, refs[i], after[i]) {
      assert LeavesOne(env, page, mapping, evidence, refs[i], after[i]);
      DecisionFollows(env, page, mapping, evidence, refs[i]);
    }
  }

  /** Planning a page whose fences close follows every link. */
  lemma {:induction false} PageFollows(env: Env, page: string, t: string, mapping: map<string, string>, evidence: bool)
    requires ValidEnv(env) && WellFormed(page) && (forall from :: from in mapping ==> WellFormed(mapping[from]))
    requires PlainLinks(env, page, t, mapping, evidence) && Protected(t).Ok?
    ensures Refs(t).Ok? && PlanSpec(PathLinker(env), page, t, mapping, evidence).Ok?
    ensures PlanFollows(env, page, t, mapping, evidence, PlanSpec(PathLinker(env), page, t, mapping, evidence).value)
  {
    FencesClose(t);
    hide WellFormed, PlainLinks, Protected, Refs, Follows, Leaves, SeenIn, PlanFor, Weave, CleanDecisions, PathLinker, Records, Withheld, ValidEnv;
    PageLeaves(env, page, t, mapping, evidence);
    var refs := Refs(t).value;
    var ds := Decisions(PathLinker(env), page, evidence, mapping, refs);
    PlanMade(page, t, ds);
    var after := SeenIn(BodyOf(PlanFor(page, t, ds).value));
    AllFollow(env, page, mapping, evidence, refs, after);
    LeavesAll(env, page, mapping, evidence, refs, after);
    Recorded(env, page, mapping, evidence, refs, after, |refs|);
    NothingRewritten(ds, |ds|);
  }

  lemma {:induction false} LeavesAll(env: Env, page: string, mapping: map<string, string>, evidence: bool, refs: seq<Ref>, after: seq<Seen>)
    requires Leaves(env, page, mapping, evidence, refs, after)
    ensures |after| == |refs|
  {}

  lemma {:induction false} FencesClose(t: string)
    requires Protected(t).Ok?
    ensures Refs(t).Ok?
  {}

  lemma {:induction false} QuoteFreeAt(env: Env, page: string, t: string, mapping: map<string, string>, evidence: bool, i: nat)
    requires QuoteFree(PathLinker(env), page, t, mapping, evidence) && Refs(t).Ok? && i < |Refs(t).value|
    ensures Decide(PathLinker(env), page, evidence, mapping, Refs(t).value[i]).Edit? ==> Free(Quote, Refs(t).value[i].dest)
  {}

  // ---- a corpus ------------------------------------------------------------------------------------

  /** A page's text before and after: each link follows its page, and without one to follow the text is the same. */
  ghost predicate PageFollowed(env: Env, page: string, t: string, mapping: map<string, string>, evidence: bool, body: string) {
    Refs(t).Ok? &&
    var refs := Refs(t).value;
    && |SeenIn(body)| == |refs|
    && (forall i :: 0 <= i < |refs| ==> Follows(env, page, mapping, evidence, refs[i], SeenIn(body)[i]))
    && ((forall i :: 0 <= i < |refs| ==> Unmoved(env, page, mapping, evidence, refs[i])) ==> body == t)
  }

  /** The link is protected or denotes no page that is mapped. */
  ghost predicate Unmoved(env: Env, page: string, mapping: map<string, string>, evidence: bool, ref: Ref) {
    ref.reason.Some? || evidence || forall c :: c in ResolveCandidates(env, page, ref.dest) ==> c !in mapping
  }

  lemma {:induction false} NothingRecorded(env: Env, page: string, mapping: map<string, string>, evidence: bool, refs: seq<Ref>, after: seq<Seen>, n: nat)
    requires n <= |refs| == |after| && forall i :: 0 <= i < n ==> Unmoved(env, page, mapping, evidence, refs[i])
    ensures Records(env, page, mapping, evidence, refs, after, n) == []
  {
    hide ResolveCandidates;
    if n > 0 {
      NothingRecorded(env, page, mapping, evidence, refs, after, n - 1);
      FirstInMember(ResolveCandidates(env, page, refs[n - 1].dest), mapping.Keys);
      assert Unmoved(env, page, mapping, evidence, refs[n - 1]);
    }
  }

  lemma {:induction false} BodyFollows(env: Env, page: string, t: string, mapping: map<string, string>, evidence: bool, plan: RewritePlan)
    requires Refs(t).Ok? && PlanFollows(env, page, t, mapping, evidence, plan)
    ensures PageFollowed(env, page, t, mapping, evidence, BodyOf(plan))
  {
    hide Follows, Records, Withheld, Unmoved, SeenIn, Refs;
    var refs, after := Refs(t).value, SeenIn(BodyOf(plan));
    if forall i :: 0 <= i < |refs| ==> Unmoved(env, page, mapping, evidence, refs[i]) {
      NothingRecorded(env, page, mapping, evidence, refs, after, |refs|);
    }
  }

  /** What is asked of a corpus: well-formed paths, and no quotes in the destinations to be replaced. */
  ghost predicate FitCorpus(env: Env, paths: seq<string>, corpus: map<string, string>, mapping: map<string, string>, evidence: string -> bool) {
    && ValidEnv(env) && Distinct(paths) && (forall from :: from in mapping ==> WellFormed(mapping[from]))
    && forall p :: p in paths ==> p in corpus && WellFormed(p) && PlainLinks(env, p, corpus[p], mapping, evidence(p))
  }

  lemma {:induction false} CorpusFollows(env: Env, paths: seq<string>, corpus: map<string, string>, mapping: map<string, string>, evidence: string -> bool)
    requires FitCorpus(env, paths, corpus, mapping, evidence)
    ensures CorpusSpec(PathLinker(env), paths, corpus, mapping, evidence).Ok? <==> forall i :: 0 <= i < |paths| ==> Protected(corpus[paths[i]]).Ok?
    ensures CorpusSpec(PathLinker(env), paths, corpus, mapping, evidence).Ok? ==>
              var after := Applied(corpus, CorpusSpec(PathLinker(env), paths, corpus, mapping, evidence).value);
              && after.Keys == corpus.Keys
              && (forall i :: 0 <= i < |paths| ==> PageFollowed(env, paths[i], corpus[paths[i]], mapping, evidence(paths[i]), after[paths[i]]))
  {
    hide Protected, PlanSpec, PageFollowed, PlanFollows, PlainLinks, QuoteFree, WellFormed, ValidEnv;
    var linker := PathLinker(env);
    forall p | p in paths ensures QuoteFree(linker, p, corpus[p], mapping, evidence(p)) { PlainIsQuoteFree(env, p, corpus[p], mapping, evidence(p)); }
    PlanFailsExactly(env, paths, corpus, mapping, evidence);
    if forall i :: 0 <= i < |paths| ==> Protected(corpus[paths[i]]).Ok? {
      var pages := PlanEach(linker, paths, corpus, mapping, evidence);
      forall i | 0 <= i < |paths|
        ensures pages[i].Ok? && pages[i].value.page == paths[i] && pages[i].value.original == corpus[paths[i]]
        ensures PageFollowed(env, paths[i], corpus[paths[i]], mapping, evidence(paths[i]), BodyOf(pages[i].value))
      {
        assert paths[i] in paths;
        OnePage(env, paths[i], corpus[paths[i]], mapping, evidence(paths[i]));
      }
      hide PathLinker, FitCorpus;
      WrittenIsApplied(corpus, pages, |paths|);
      WrittenKeys(paths, corpus, pages, |paths|);
      forall i | 0 <= i < |paths| ensures Written(corpus, pages, |paths|)[paths[i]] == BodyOf(pages[i].value) {
        assert paths[i] in paths;
        WrittenBody(paths, corpus, pages, |paths|, i);
      }
    }
  }

  lemma {:induction false} OnePage(env: Env, page: string, t: string, mapping: map<string, string>, evidence: bool)
    requires ValidEnv(env) && WellFormed(page) && (forall from :: from in mapping ==> WellFormed(mapping[from]))
    requires PlainLinks(env, page, t, mapping, evidence) && Protected(t).Ok?
    ensures var plan := PlanSpec(PathLinker(env), page, t, mapping, evidence);
            && plan.Ok? && plan.value.page == page && plan.value.original == t
            && PageFollowed(env, page, t, mapping, evidence, BodyOf(plan.value))
  {
    PageFollows(env, page, t, mapping, evidence);
    BodyFollows(env, page, t, mapping, evidence, PlanSpec(PathLinker(env), page, t, mapping, evidence).value);
    hide Follows, Records, Withheld, SeenIn, Refs, PlanSpec, PageFollowed;
  }

  /** `apply`: the corpus is planned, and the bodies of the changed pages are written. */
  method RewriteCorpus(env: Env, paths: seq<string>, corpus: map<string, string>, mapping: map<string, string>, evidence: string -> bool)
    returns (r: Result<map<string, string>, PlanError>)
    requires FitCorpus(env, paths, corpus, mapping, evidence)
    ensures r.Ok? <==> forall i :: 0 <= i < |paths| ==> Protected(corpus[paths[i]]).Ok?
    ensures r.Ok? ==>
              && r.value.Keys == corpus.Keys
              && (forall i :: 0 <= i < |paths| ==> PageFollowed(env, paths[i], corpus[paths[i]], mapping, evidence(paths[i]), r.value[paths[i]]))
  {
    hide Protected, PageFollowed, CorpusSpec, PathLinker;
    var planned := PlanCorpus(PathLinker(env), paths, corpus, mapping, evidence);
    CorpusFollows(env, paths, corpus, mapping, evidence);
    if planned.Err? {
      return Err(planned.error);
    }
    var plans, after := planned.value, corpus;
    var k := 0;
    while k < |plans|
      invariant k <= |plans| && after == Applied(corpus, plans[..k])
    {
      assert plans[..k + 1] == plans[..k] + [plans[k]];
      AppliedMore(corpus, plans[..k], plans[k]);
      if plans[k].content.Some? {
        after := after[plans[k].page := plans[k].content.value];
      }
      k := k + 1;
    }
    assert plans[..k] == plans;
    return Ok(after);
  }

  // ---- what a destination is made of -------------------------------------------------------------------

  /** The fragment is what follows the first '#', with it, unless nothing does; the form is told by the first character. */
  lemma {:induction false} TargetParts(base: string, fragment: string)
    requires '#' !in base
    ensures SplitTarget(base) == (base, "", base != "" && base[0] == '/')
    ensures SplitTarget(base + "#" + fragment) == (base, if fragment == "" then "" else "#" + fragment, base != "" && base[0] == '/')
  {
    CutAt(base, '#', fragment);
    if base != "" { assert StartsWith(base, "/") <==> base[0] == '/' by { if StartsWith(base, "/") { assert base[..1][0] == '/'; } else { assert base[..1] == [base[0]]; } } }
  }

  lemma {:induction false} CutAt(s: string, c: char, rest: string)
    requires c !in s
    ensures Before(s, c) == s && After(s, c) == ""
    ensures Before(s + [c] + rest, c) == s && After(s + [c] + rest, c) == rest
  {
    var t := s + [c] + rest;
    if s == "" {
      assert t[0] == c && t[1..] == rest;
    } else {
      assert s[0] in s && t[0] == s[0] && t[1..] == s[1..] + [c] + rest;
      CutAt(s[1..], c, rest);
    }
  }
}
