/** Planning a corpus fails on an unterminated fence and on nothing else. */
module LinkFences {
  import opened Text
  import opened LinkGrammar
  import opened LinkSplice
  import opened LinkContext
  import opened LinkEdits
  import opened LinkManyEdits
  import opened LinkResolve
  import opened LinkPlan
  import opened LinkScan
  import opened LinkReconcile
  import opened LinkMeaning
  import opened PathText

  /** No destination the planner would replace holds a quote. */
  ghost predicate QuoteFree(linker: Linker, page: string, t: string, mapping: map<string, string>, evidence: bool) {
    Refs(t).Ok? ==> forall i :: 0 <= i < |Refs(t).value| && Decide(linker, page, evidence, mapping, Refs(t).value[i]).Edit? ==>
      Free(Quote, Refs(t).value[i].dest)
  }

  lemma {:induction false} TameIsClean(s: string)
    requires forall c :: c in s ==> TameChar(c)
    ensures CleanText(s)
  {}

  /** A destination written for well-formed paths is read back whole, root-absolute or relative. */
  lemma {:induction false} RetargetReads(env: Env, page: string, target: string, newPath: string)
    requires ValidEnv(env) && WellFormed(page) && WellFormed(newPath) && CleanText(target)
    ensures Retarget(env, page, target, newPath).Some? && Clean(Retarget(env, page, target, newPath).value)
  {
    hide CleanText, Clean, SplitTarget, WellFormed;
    if SplitTarget(target).2 {
      RootTame(newPath);
      TameIsClean("/" + newPath);
      SplitTargetClean(target);
      Clean2("/" + newPath, SplitTarget(target).1);
      CleanIs("/" + newPath + SplitTarget(target).1);
    } else {
      RetargetWellFormed(env, page, target, newPath);
    }
  }

  lemma {:induction false} DecisionReads(env: Env, page: string, evidence: bool, mapping: map<string, string>, ref: Ref)
    requires ValidEnv(env) && WellFormed(page) && (forall from :: from in mapping ==> WellFormed(mapping[from]))
    requires ref.dest != "" && Free(DestEnd, ref.dest)
    requires Decide(PathLinker(env), page, evidence, mapping, ref).Edit? ==> Free(Quote, ref.dest)
    ensures var d := Decide(PathLinker(env), page, evidence, mapping, ref);
            !d.Fail? && (d.Edit? ==> Clean(ref.dest) && Clean(d.rewrite.newTarget))
  {
    hide WellFormed, Retarget, ResolveCandidates, CleanText;
    var linker := PathLinker(env);
    FirstInMember(linker.candidates(page, ref.dest), mapping.Keys);
    match FirstIn(linker.candidates(page, ref.dest), mapping.Keys)
    case None =>
    case Some(matched) =>
      SomeTarget(env, page, ref.dest, mapping[matched]);
      if Free(Quote, ref.dest) {
        CleanIs(ref.dest);
        RetargetReads(env, page, ref.dest, mapping[matched]);
      }
  }

  lemma {:induction false} SomeTarget(env: Env, page: string, target: string, newPath: string)
    requires ValidEnv(env) && WellFormed(page) && WellFormed(newPath)
    ensures Retarget(env, page, target, newPath).Some?
  {
    ResolveInvertsRetarget(env, page, target, newPath);
  }

  /** A page is planned exactly when its fences close, and its body is then the text with the new destinations woven in. */
  lemma {:induction false} PagePlanned(env: Env, page: string, t: string, mapping: map<string, string>, evidence: bool)
    requires ValidEnv(env) && WellFormed(page) && (forall from :: from in mapping ==> WellFormed(mapping[from]))
    requires QuoteFree(PathLinker(env), page, t, mapping, evidence)
    ensures Protected(t).Err? ==> PlanSpec(PathLinker(env), page, t, mapping, evidence) == Err(Uncertain(Protected(t).error))
    ensures Protected(t).Ok? ==>
              && Refs(t).Ok?
              && var ds := Decisions(PathLinker(env), page, evidence, mapping, Refs(t).value);
                 var edits := EditsFor(Scan(t), Choices(ds), |ds|);
              && PlanSpec(PathLinker(env), page, t, mapping, evidence).Ok? && Ordered(edits, |t|)
              && BodyOf(PlanSpec(PathLinker(env), page, t, mapping, evidence).value) == Weave(t, edits, |t|)
  {
    if Protected(t).Ok? {
      var linker, refs := PathLinker(env), Refs(t).value;
      var ds := Decisions(linker, page, evidence, mapping, refs);
      hide PathLinker, WellFormed, Decide, Refs, Clean, SeenIn, Scan, PlanFor, Weave, Free;
      forall i | 0 <= i < |refs|
        ensures |refs| == |Scan(t)| && SeenIn(t)[i] == Seen(refs[i].caption, refs[i].dest)
        ensures !ds[i].Fail? && (ds[i].Edit? ==> Clean(SeenIn(t)[i].dest) && Clean(ds[i].rewrite.newTarget))
      {
        RefSeen(t, refs, i);
        DecisionReads(env, page, evidence, mapping, refs[i]);
      }
      PlanMade(page, t, ds);
    }
  }

  /** The error of the first page that cannot be planned. */
  lemma {:induction false} FirstFailure(pages: seq<Result<RewritePlan, PlanError>>, n: nat)
    requires n <= |pages|
    ensures JoinPlans(pages, n).Err? ==> exists i :: 0 <= i < n && pages[i].Err? && pages[i].error == JoinPlans(pages, n).error
  {
    if n > 0 { FirstFailure(pages, n - 1); }
  }

  /**
   * Planning a corpus of well-formed pages for well-formed new paths, without quotes in
   * the destinations to be replaced, fails exactly when some page leaves a fence open,
   * and then reports such a fence.
   */
  lemma {:induction false} PlanFailsExactly(env: Env, paths: seq<string>, corpus: map<string, string>, mapping: map<string, string>, evidence: string -> bool)
    requires ValidEnv(env) && (forall from :: from in mapping ==> WellFormed(mapping[from]))
    requires forall p :: p in paths ==> p in corpus && WellFormed(p) && QuoteFree(PathLinker(env), p, corpus[p], mapping, evidence(p))
    ensures var planned := CorpusSpec(PathLinker(env), paths, corpus, mapping, evidence);
            && (planned.Err? <==> exists i :: 0 <= i < |paths| && Protected(corpus[paths[i]]).Err?)
            && (planned.Err? ==> exists i :: 0 <= i < |paths| && Protected(corpus[paths[i]]).Err?
                                             && planned.error == Uncertain(Protected(corpus[paths[i]]).error))
  {
    hide PathLinker, WellFormed, Protected, QuoteFree, PlanSpec, ValidEnv;
    var pages := PlanEach(PathLinker(env), paths, corpus, mapping, evidence);
    forall i | 0 <= i < |paths|
      ensures pages[i].Err? <==> Protected(corpus[paths[i]]).Err?
      ensures pages[i].Err? ==> pages[i].error == Uncertain(Protected(corpus[paths[i]]).error)
    {
      assert paths[i] in paths;
      PagePlanned(env, paths[i], corpus[paths[i]], mapping, evidence(paths[i]));
    }
    JoinPlansOk(pages, |paths|);
    FirstFailure(pages, |paths|);
  }
}
