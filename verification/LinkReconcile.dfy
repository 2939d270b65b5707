/** After a corpus is rewritten, a scan finds exactly what the rewrite declared it left. */
module LinkReconcile {
  import opened Text
  import opened PosixPath
  import opened LinkGrammar
  import opened LinkSplice
  import opened LinkContext
  import opened LinkEdits
  import opened LinkManyEdits
  import opened LinkResolve
  import opened LinkPlan
  import opened LinkScan

  /** The corpus once the planned bodies are written. */
  function Applied(corpus: map<string, string>, plans: seq<RewritePlan>): map<string, string> {
    if plans == [] then corpus
    else
      var last := plans[|plans| - 1];
      var rest := Applied(corpus, plans[..|plans| - 1]);
      match last.content case None => rest case Some(body) => rest[last.page := body]
  }

  function AllPreservations(plans: seq<RewritePlan>): seq<Preservation> {
    if plans == [] then []
    else AllPreservations(plans[..|plans| - 1]) + plans[|plans| - 1].preservations
  }

  // ---- what a plan makes of its page ---------------------------------------------------

  /** The body a plan leaves a page with. */
  function BodyOf(plan: RewritePlan): string { if plan.content.Some? then plan.content.value else plan.original }

  /** No decision fails, and edits put clean destinations in place of clean ones. */
  ghost predicate CleanDecisions(t: string, ds: seq<Decision>) {
    && |ds| == |Scan(t)|
    && forall i :: 0 <= i < |ds| ==> !ds[i].Fail? && (ds[i].Edit? ==> Clean(SeenIn(t)[i].dest) && Clean(ds[i].rewrite.newTarget))
  }

  lemma {:induction false} DecisionsClean(t: string, ds: seq<Decision>)
    requires CleanDecisions(t, ds)
    ensures CleanChoices(t, Choices(ds), |ds|)
  {
    ScanPlaced(t);
  }

  lemma {:induction false} NoEdits(links: seq<Link>, ds: seq<Decision>, n: nat)
    requires n <= |links| && n <= |ds|
    ensures EditsFor(links, Choices(ds), n) == [] <==> forall i :: 0 <= i < n ==> !ds[i].Edit?
  {
    if n > 0 { NoEdits(links, ds, n - 1); }
  }

  /**
   * The guard never fires: with quote-free destinations, planning always makes a
   * plan. Its body is the text with the new destinations woven in, and scanning it
   * finds the same links and labels, with the destinations decided on.
   */
  lemma {:induction false} PlanMade(page: string, t: string, ds: seq<Decision>)
    requires CleanDecisions(t, ds)
    ensures PlanFor(page, t, ds).Ok?
    ensures var plan, edits := PlanFor(page, t, ds).value, EditsFor(Scan(t), Choices(ds), |ds|);
            && plan.page == page && plan.original == t
            && plan.rewrites == Rewrites(ds, |ds|) && plan.preservations == Preservations(ds, |ds|)
            && Ordered(edits, |t|) && BodyOf(plan) == Chosen(t, Choices(ds), |ds|) == Weave(t, edits, |t|)
            && SeenIn(BodyOf(plan)) == SeenChosen(SeenIn(t), Choices(ds), |ds|)
            && (plan.content.None? <==> forall i :: 0 <= i < |ds| ==> !ds[i].Edit?)
  {
    hide Scan, Clean, SeenIn, Weave, MaskLinks;
    DecisionsClean(t, ds);
    EditsOrdered(t, Choices(ds), |ds|);
    CleanEdits(t, Choices(ds), |ds|);
    EditsAreWoven(t, EditsFor(Scan(t), Choices(ds), |ds|));
    NoEdits(Scan(t), ds, |ds|);
    NothingRewritten(ds, |ds|);
  }

  lemma {:induction false} NothingRewritten(ds: seq<Decision>, n: nat)
    requires n <= |ds|
    ensures Rewrites(ds, n) == [] <==> forall i :: 0 <= i < n ==> !ds[i].Edit?
  {
    if n > 0 { NothingRewritten(ds, n - 1); }
  }

  // ---- one page reconciles ---------------------------------------------------------

  /** Every destination the planner would replace is free of quotes and backticks. */
  ghost predicate QuietPage(linker: Linker, page: string, t: string, mapping: map<string, string>, evidence: bool) {
    Refs(t).Ok? ==> forall i :: 0 <= i < |Refs(t).value| && Decide(linker, page, evidence, mapping, Refs(t).value[i]).Edit? ==>
      Quiet(Refs(t).value[i].dest)
  }

  /** What planning needs of a linker: new destinations are tame and denote just the new path. */
  ghost predicate Faithful(linker: Linker, page: string, mapping: map<string, string>) {
    forall dest, from {:trigger linker.retarget(page, dest, mapping[from])} | from in mapping ::
      && linker.retarget(page, dest, mapping[from]).Some?
      && (Quiet(dest) ==> Tame(linker.retarget(page, dest, mapping[from]).value))
      && linker.candidates(page, linker.retarget(page, dest, mapping[from]).value) == [mapping[from]]
  }

  /** What the reconciliation needs of one page of the corpus. */
  ghost predicate Ready(linker: Linker, page: string, t: string, mapping: map<string, string>, evidence: bool) {
    && Faithful(linker, page, mapping) && QuietPage(linker, page, t, mapping, evidence)
    && (forall from :: from in mapping ==> mapping[from] !in mapping)
  }

  /** The kinds of the lines once the edits are made: those the replaced destinations marked are bare. */
  function KindsAfter(t: string, ds: seq<Decision>): seq<Kind>
    requires |ds| == |Scan(t)|
  {
    Bared(LineKinds(t, Classify), OpenedLines(t, Choices(ds), |ds|))
  }

  /**
   * The links a plan preserves would be protected for the same reasons, and the
   * fences still close, without the marks of the destinations it replaces. All of
   * this is told from the page before it is rewritten.
   */
  ghost predicate Undisturbed(linker: Linker, page: string, t: string, mapping: map<string, string>, evidence: bool) {
    Refs(t).Ok? && var ds := Decisions(linker, page, evidence, mapping, Refs(t).value);
    SameReasons(ds, RefsUnder(t, KindsAfter(t, ds)), evidence)
  }

  ghost predicate SameReasons(ds: seq<Decision>, after: Result<seq<Ref>, Uncertainty>, evidence: bool)
    requires after.Ok? ==> |after.value| == |ds|
  {
    after.Ok? && forall i :: 0 <= i < |ds| && ds[i].Preserve? ==> PageReason(after.value[i], evidence) == Some(ds[i].preservation.reason)
  }

  /** They would be protected at all. */
  ghost predicate StillProtected(ds: seq<Decision>, after: Result<seq<Ref>, Uncertainty>, evidence: bool)
    requires after.Ok? ==> |after.value| == |ds|
  {
    after.Ok? && forall i :: 0 <= i < |ds| && ds[i].Preserve? ==> PageReason(after.value[i], evidence).Some?
  }

  /** What a scan finds where a decision was made, if the link is then protected as `reason` says. */
  function FindingFor(d: Decision, reason: Option<Reason>): Finding {
    if !d.Preserve? then Clear
    else match reason case None => Unintended case Some(r) => Preserved(d.preservation.(reason := r))
  }

  /** A finding on the rewritten reference is the preservation that was planned, or nothing. */
  lemma {:induction false} FindAfter(linker: Linker, page: string, evidence: bool, mapping: map<string, string>, ref: Ref, after: Ref)
    requires Faithful(linker, page, mapping) && forall from :: from in mapping ==> mapping[from] !in mapping
    requires var d := Decide(linker, page, evidence, mapping, ref);
             after == ref.(dest := if d.Edit? then d.rewrite.newTarget else ref.dest, reason := after.reason)
    ensures Find(linker, page, evidence, mapping.Keys, after)
            == FindingFor(Decide(linker, page, evidence, mapping, ref), PageReason(after, evidence))
  {
    FirstInMember(linker.candidates(page, ref.dest), mapping.Keys);
    var d := Decide(linker, page, evidence, mapping, ref);
    if d.Edit? {
      var matched := FirstIn(linker.candidates(page, ref.dest), mapping.Keys).value;
      assert linker.candidates(page, d.rewrite.newTarget) == [mapping[matched]];
      FirstInMember([mapping[matched]], mapping.Keys);
    }
  }

  /** Each preservation is one entry of the report. */
  lemma {:induction false} EntriesOf(links: seq<LinkRef>, fs: seq<Finding>, ds: seq<Decision>, reasons: seq<Option<Reason>>, n: nat)
    requires n <= |fs| == |ds| == |links| == |reasons|
    requires forall i :: 0 <= i < |fs| ==> fs[i] == FindingFor(ds[i], reasons[i])
    ensures |UnintendedIn(links, fs, n)| + |PreservedIn(fs, n)| == |Preservations(ds, n)|
    ensures UnintendedIn(links, fs, n) == [] <==> forall i :: 0 <= i < n && ds[i].Preserve? ==> reasons[i].Some?
  {
    if n > 0 {
      EntriesOf(links, fs, ds, reasons, n - 1);
      FindingIs(ds[n - 1], reasons[n - 1]);
      hide FindingFor;
    }
  }

  lemma {:induction false} FindingIs(d: Decision, reason: Option<Reason>)
    ensures FindingFor(d, reason).Unintended? <==> d.Preserve? && reason.None?
    ensures FindingFor(d, reason).Preserved? <==> d.Preserve? && reason.Some?
    ensures d.Preserve? ==> (FindingFor(d, reason) == Preserved(d.preservation) <==> reason == Some(d.preservation.reason))
  {}

  /** The report is clean exactly when every preservation kept its reason. */
  lemma {:induction false} ReportOf(links: seq<LinkRef>, fs: seq<Finding>, ds: seq<Decision>, reasons: seq<Option<Reason>>, n: nat)
    requires n <= |fs| == |ds| == |links| == |reasons|
    requires forall i :: 0 <= i < |fs| ==> fs[i] == FindingFor(ds[i], reasons[i])
    ensures |UnintendedIn(links, fs, n)| + |PreservedIn(fs, n)| == |Preservations(ds, n)|
    ensures UnintendedIn(links, fs, n) == [] <==> forall i :: 0 <= i < n && ds[i].Preserve? ==> reasons[i].Some?
    ensures UnintendedIn(links, fs, n) == [] && PreservedIn(fs, n) == Preservations(ds, n)
            <==> forall i :: 0 <= i < n && ds[i].Preserve? ==> reasons[i] == Some(ds[i].preservation.reason)
  {
    hide FindingFor;
    EntriesOf(links, fs, ds, reasons, n);
    if n > 0 {
      EntriesOf(links, fs, ds, reasons, n - 1);
      ReportOf(links, fs, ds, reasons, n - 1);
      FindingIs(ds[n - 1], reasons[n - 1]);
      if UnintendedIn(links, fs, n) == [] {
        hide UnintendedIn, PreservedIn, Preservations;
        LastKept(fs, ds, n);
      }
    }
  }

  lemma {:induction false} LastKept(fs: seq<Finding>, ds: seq<Decision>, n: nat)
    requires 0 < n <= |fs| == |ds| && (fs[n - 1].Preserved? <==> ds[n - 1].Preserve?)
    requires |PreservedIn(fs, n - 1)| == |Preservations(ds, n - 1)|
    ensures PreservedIn(fs, n) == Preservations(ds, n) <==>
            PreservedIn(fs, n - 1) == Preservations(ds, n - 1)
            && (ds[n - 1].Preserve? ==> fs[n - 1] == Preserved(ds[n - 1].preservation))
  {
    var xs, ys := PreservedIn(fs, n), Preservations(ds, n);
    assert xs[..|PreservedIn(fs, n - 1)|] == PreservedIn(fs, n - 1) && ys[..|PreservedIn(fs, n - 1)|] == Preservations(ds, n - 1);
    if ds[n - 1].Preserve? {
      assert xs[|xs| - 1] == fs[n - 1].preservation && ys[|ys| - 1] == ds[n - 1].preservation;
    }
  }

  lemma {:induction false} DecisionsReady(linker: Linker, page: string, t: string, mapping: map<string, string>, evidence: bool, refs: seq<Ref>)
    requires Refs(t) == Ok(refs) && Faithful(linker, page, mapping) && QuietPage(linker, page, t, mapping, evidence)
    ensures var ds := Decisions(linker, page, evidence, mapping, refs);
            CleanDecisions(t, ds) && TameChoices(t, Choices(ds), |ds|)
  {
    hide Quiet, Tame;
    var ds := Decisions(linker, page, evidence, mapping, refs);
    ScanPlaced(t);
    forall i | 0 <= i < |refs|
      ensures !ds[i].Fail? && (ds[i].Edit? ==> Quiet(refs[i].dest) && Tame(ds[i].rewrite.newTarget))
      ensures WellPlaced(t, Scan(t)[i]) && refs[i].dest == Dest(t, Scan(t)[i]) == SeenIn(t)[i].dest
    {
      FirstInMember(linker.candidates(page, refs[i].dest), mapping.Keys);
    }
    TameAreClean(t, refs, ds);
  }

  lemma {:induction false} TameAreClean(t: string, refs: seq<Ref>, ds: seq<Decision>)
    requires |refs| == |ds| == |Scan(t)|
    requires forall i :: 0 <= i < |refs| ==> WellPlaced(t, Scan(t)[i]) && refs[i].dest == Dest(t, Scan(t)[i]) == SeenIn(t)[i].dest
    requires forall i :: 0 <= i < |refs| ==> !ds[i].Fail? && (ds[i].Edit? ==> Quiet(refs[i].dest) && Tame(ds[i].rewrite.newTarget))
    ensures CleanDecisions(t, ds) && TameChoices(t, Choices(ds), |ds|)
  {
    hide Clean, Scan, SeenIn, Free;
    assert forall i :: 0 <= i < |refs| && Choices(ds)[i].Some? ==> ds[i].Edit?;
  }

  lemma {:induction false} SameButReasons(t: string, was: seq<Kind>, now: seq<Kind>)
    requires RefsUnder(t, was).Ok? && RefsUnder(t, now).Ok?
    ensures forall i :: 0 <= i < |Scan(t)| ==>
              RefsUnder(t, now).value[i] == RefsUnder(t, was).value[i].(reason := RefsUnder(t, now).value[i].reason)
  {
    hide Scan, Protection, InlineSpans, Label, Dest, Newlines, FirstReason, Inside;
  }

  lemma {:induction false} RefsAsRead(t: string)
    ensures Refs(t) == RefsUnder(t, LineKinds(t, Classify))
  {}

  /** What a scan of one page may report, given what its plan preserved. */
  ghost predicate Balanced(report: Result<Report, Uncertainty>, preservations: seq<Preservation>) {
    report.Ok? ==> |report.value.unintended| + |report.value.preserved| == |preservations|
  }

  /** Scanning a planned page: clean exactly when it is left undisturbed. */
  lemma {:induction false} PageReconciles(linker: Linker, page: string, t: string, mapping: map<string, string>, evidence: bool, refs: seq<Ref>)
    requires Refs(t) == Ok(refs) && Ready(linker, page, t, mapping, evidence)
    ensures PlanSpec(linker, page, t, mapping, evidence).Ok?
    ensures var plan := PlanSpec(linker, page, t, mapping, evidence).value;
            var report := ScanPage(linker, page, BodyOf(plan), mapping.Keys, evidence);
            && plan.page == page && plan.original == t && plan.preservations == Preservations(Decisions(linker, page, evidence, mapping, refs), |refs|)
            && Balanced(report, plan.preservations)
            && (report.Ok? && report.value.unintended == []
                <==> var ds := Decisions(linker, page, evidence, mapping, refs); StillProtected(ds, RefsUnder(t, KindsAfter(t, ds)), evidence))
            && (report.Ok? <==> var ds := Decisions(linker, page, evidence, mapping, refs); RefsUnder(t, KindsAfter(t, ds)).Ok?)
            && (report == Ok(Report([], plan.preservations)) <==> Undisturbed(linker, page, t, mapping, evidence))
  {
    hide Ready, QuietPage, Faithful, Scan, CleanDecisions, TameChoices, PlanFor, KindsAfter, RefsUnder, Weave, Refs, Chosen;
    var ds := Decisions(linker, page, evidence, mapping, refs);
    ReadyIs(linker, page, t, mapping, evidence);
    DecisionsReady(linker, page, t, mapping, evidence, refs);
    PlanMade(page, t, ds);
    var plan := PlanFor(page, t, ds).value;
    Reread(t, Choices(ds), |ds|);
    AfterKinds(t, ds);
    PlannedScan(linker, page, t, mapping, evidence, refs, BodyOf(plan));
  }

  lemma {:induction false} AfterKinds(t: string, ds: seq<Decision>)
    requires |ds| == |Scan(t)|
    ensures KindsAfter(t, ds) == Bared(LineKinds(t, Classify), OpenedLines(t, Choices(ds), |ds|))
  {}

  lemma {:induction false} ReadyIs(linker: Linker, page: string, t: string, mapping: map<string, string>, evidence: bool)
    requires Ready(linker, page, t, mapping, evidence)
    ensures Faithful(linker, page, mapping) && QuietPage(linker, page, t, mapping, evidence)
    ensures forall from :: from in mapping ==> mapping[from] !in mapping
  {}

  lemma {:induction false} PlannedScan(linker: Linker, page: string, t: string, mapping: map<string, string>, evidence: bool, refs: seq<Ref>, body: string)
    requires Refs(t) == Ok(refs) && Faithful(linker, page, mapping) && forall from :: from in mapping ==> mapping[from] !in mapping
    requires var ds := Decisions(linker, page, evidence, mapping, refs);
             Refs(body) == RefsRechosen(RefsUnder(t, KindsAfter(t, ds)), Choices(ds), |ds|)
    ensures var ds := Decisions(linker, page, evidence, mapping, refs);
            var report := ScanPage(linker, page, body, mapping.Keys, evidence);
            && Balanced(report, Preservations(ds, |ds|))
            && (report.Ok? <==> RefsUnder(t, KindsAfter(t, ds)).Ok?)
            && (report.Ok? && report.value.unintended == [] <==> StillProtected(ds, RefsUnder(t, KindsAfter(t, ds)), evidence))
            && (report == Ok(Report([], Preservations(ds, |ds|))) <==> SameReasons(ds, RefsUnder(t, KindsAfter(t, ds)), evidence))
  {
    hide Faithful, Scan, KindsAfter, RefsUnder, Refs, FindingFor, Find, PageReason;
    var ds := Decisions(linker, page, evidence, mapping, refs);
    var after := RefsUnder(t, KindsAfter(t, ds));
    if after.Ok? {
      RefsAsRead(t);
      SameButReasons(t, LineKinds(t, Classify), KindsAfter(t, ds));
      var now := Rechosen(after.value, Choices(ds), |ds|);
      var fs := Findings(linker, page, evidence, mapping.Keys, now);
      var reasons := seq(|ds|, i requires 0 <= i < |ds| => PageReason(after.value[i], evidence));
      forall i | 0 <= i < |ds| ensures fs[i] == FindingFor(ds[i], reasons[i]) {
        ReasonOnly(after.value[i], now[i], evidence);
        FindAfter(linker, page, evidence, mapping, refs[i], now[i]);
      }
      ReportOf(FindLinks(linker, page, body), fs, ds, reasons, |fs|);
    }
  }

  lemma {:induction false} ReasonOnly(ref: Ref, other: Ref, evidence: bool)
    requires other == ref.(dest := other.dest)
    ensures PageReason(other, evidence) == PageReason(ref, evidence)
  {}

  // ---- the corpus reconciles -------------------------------------------------------

  ghost predicate Distinct(paths: seq<string>) { forall i, j :: 0 <= i < j < |paths| ==> paths[i] != paths[j] }

  /** Every page of the corpus has a plan of its own. */
  ghost predicate Planned(paths: seq<string>, corpus: map<string, string>, pages: seq<Result<RewritePlan, PlanError>>) {
    && Distinct(paths) && |pages| == |paths|
    && (forall p :: p in paths ==> p in corpus)
    && (forall i :: 0 <= i < |pages| ==> pages[i].Ok? && pages[i].value.page == paths[i] && pages[i].value.original == corpus[paths[i]])
  }

  lemma {:induction false} JoinPlansOk(pages: seq<Result<RewritePlan, PlanError>>, n: nat)
    requires n <= |pages|
    ensures JoinPlans(pages, n).Ok? <==> forall i :: 0 <= i < n ==> pages[i].Ok?
  {
    if n > 0 { JoinPlansOk(pages, n - 1); }
  }

  lemma {:induction false} AppliedMore(corpus: map<string, string>, plans: seq<RewritePlan>, plan: RewritePlan)
    ensures Applied(corpus, plans + [plan]) ==
            if plan.content.None? then Applied(corpus, plans) else Applied(corpus, plans)[plan.page := plan.content.value]
    ensures AllPreservations(plans + [plan]) == AllPreservations(plans) + plan.preservations
  {
    assert (plans + [plan])[..|plans|] == plans;
  }

  /** The corpus after the bodies of the first `n` pages are written. */
  function Written(corpus: map<string, string>, pages: seq<Result<RewritePlan, PlanError>>, n: nat): map<string, string>
    requires n <= |pages| && forall i :: 0 <= i < |pages| ==> pages[i].Ok?
  {
    if n == 0 then corpus
    else
      var plan := pages[n - 1].value;
      match plan.content
      case None => Written(corpus, pages, n - 1)
      case Some(body) => Written(corpus, pages, n - 1)[plan.page := body]
  }

  lemma {:induction false} WrittenIsApplied(corpus: map<string, string>, pages: seq<Result<RewritePlan, PlanError>>, n: nat)
    requires n <= |pages| && forall i :: 0 <= i < |pages| ==> pages[i].Ok?
    ensures JoinPlans(pages, n).Ok? && Applied(corpus, JoinPlans(pages, n).value) == Written(corpus, pages, n)
  {
    if n > 0 {
      WrittenIsApplied(corpus, pages, n - 1);
      AppliedMore(corpus, JoinPlans(pages, n - 1).value, pages[n - 1].value);
    }
  }

  /** The page `paths[i]` after the first `n` bodies are written. */
  lemma {:induction false} WrittenBody(paths: seq<string>, corpus: map<string, string>, pages: seq<Result<RewritePlan, PlanError>>, n: nat, i: nat)
    requires Planned(paths, corpus, pages) && n <= |pages| && i < |pages|
    ensures var after := Written(corpus, pages, n);
            && paths[i] in after
            && after[paths[i]] == if i < n then BodyOf(pages[i].value) else corpus[paths[i]]
  {
    assert paths[i] in paths;
    if n > 0 { WrittenBody(paths, corpus, pages, n - 1, i); }
  }

  lemma {:induction false} WrittenKeys(paths: seq<string>, corpus: map<string, string>, pages: seq<Result<RewritePlan, PlanError>>, n: nat)
    requires Planned(paths, corpus, pages) && n <= |pages|
    ensures Written(corpus, pages, n).Keys == corpus.Keys
  {
    if n > 0 {
      WrittenKeys(paths, corpus, pages, n - 1);
      assert paths[n - 1] in paths;
    }
  }


  ghost predicate AllBalanced(plans: seq<Result<RewritePlan, PlanError>>, reports: seq<Result<Report, Uncertainty>>) {
    && |plans| == |reports|
    && forall i :: 0 <= i < |plans| ==> plans[i].Ok? && Balanced(reports[i], plans[i].value.preservations)
  }

  /** Reports put together are the preservations of the plans put together exactly when each one is. */
  lemma {:induction false} JoinedReports(plans: seq<Result<RewritePlan, PlanError>>, reports: seq<Result<Report, Uncertainty>>, n: nat)
    requires n <= |plans| && AllBalanced(plans, reports)
    ensures JoinPlans(plans, n).Ok? && Balanced(JoinReports(reports, n), AllPreservations(JoinPlans(plans, n).value))
    ensures JoinReports(reports, n) == Ok(Report([], AllPreservations(JoinPlans(plans, n).value)))
            <==> forall i :: 0 <= i < n ==> reports[i] == Ok(Report([], plans[i].value.preservations))
  {
    if n > 0 {
      JoinedReports(plans, reports, n - 1);
      var before, plan := JoinPlans(plans, n - 1).value, plans[n - 1].value;
      AppliedMore(map[], before, plan);
      if plan.preservations == [] { NothingPreserved(before, plan); }
      if JoinReports(reports, n).Ok? {
        JoinedClean(JoinReports(reports, n - 1).value, reports[n - 1].value, AllPreservations(before), plan.preservations);
      }
    }
  }

  lemma {:induction false} NothingPreserved(before: seq<RewritePlan>, plan: RewritePlan)
    requires plan.preservations == []
    ensures AllPreservations(before) + plan.preservations == AllPreservations(before)
  {}

  lemma {:induction false} JoinedClean(a: Report, b: Report, xs: seq<Preservation>, ys: seq<Preservation>)
    requires |a.unintended| + |a.preserved| == |xs| && |b.unintended| + |b.preserved| == |ys|
    ensures Report(a.unintended + b.unintended, a.preserved + b.preserved) == Report([], xs + ys)
            <==> a == Report([], xs) && b == Report([], ys)
  {
    if a.unintended + b.unintended == [] && a.preserved + b.preserved == xs + ys {
      assert |a.unintended + b.unintended| == 0;
      assert (a.preserved + b.preserved)[..|xs|] == a.preserved && (xs + ys)[..|xs|] == xs;
      assert (a.preserved + b.preserved)[|xs|..] == b.preserved && (xs + ys)[|xs|..] == ys;
    }
  }

  lemma {:induction false} OpenFence(linker: Linker, page: string, t: string, mapping: map<string, string>, evidence: bool)
    ensures Refs(t).Ok? <==> Protected(t).Ok?
    ensures Protected(t).Err? ==> PlanSpec(linker, page, t, mapping, evidence).Err?
  {}

  /** Planning succeeds exactly when every page's fences close. */
  lemma {:induction false} CorpusPlanned(linker: Linker, paths: seq<string>, corpus: map<string, string>, mapping: map<string, string>, evidence: string -> bool)
    requires forall p :: p in paths ==> p in corpus && Ready(linker, p, corpus[p], mapping, evidence(p))
    ensures CorpusSpec(linker, paths, corpus, mapping, evidence).Ok? <==> forall i :: 0 <= i < |paths| ==> Protected(corpus[paths[i]]).Ok?
  {
    hide Ready, Protected, PlanSpec;
    var pages := PlanEach(linker, paths, corpus, mapping, evidence);
    JoinPlansOk(pages, |paths|);
    forall i | 0 <= i < |paths| ensures pages[i].Ok? <==> Protected(corpus[paths[i]]).Ok? {
      assert paths[i] in paths;
      OpenFence(linker, paths[i], corpus[paths[i]], mapping, evidence(paths[i]));
      if Protected(corpus[paths[i]]).Ok? {
        PageReconciles(linker, paths[i], corpus[paths[i]], mapping, evidence(paths[i]), Refs(corpus[paths[i]]).value);
      }
    }
  }

  lemma {:induction false} CorpusReconciles(linker: Linker, paths: seq<string>, corpus: map<string, string>, mapping: map<string, string>, evidence: string -> bool)
    requires Distinct(paths)
    requires forall p :: p in paths ==> p in corpus && Ready(linker, p, corpus[p], mapping, evidence(p))
    requires forall i :: 0 <= i < |paths| ==> Protected(corpus[paths[i]]).Ok?
    ensures CorpusSpec(linker, paths, corpus, mapping, evidence).Ok?
    ensures var plans := CorpusSpec(linker, paths, corpus, mapping, evidence).value;
            && Applied(corpus, plans).Keys == corpus.Keys
            && (ScanSpec(linker, paths, Applied(corpus, plans), mapping.Keys, evidence) == Ok(Report([], AllPreservations(plans)))
                <==> forall i :: 0 <= i < |paths| ==> Undisturbed(linker, paths[i], corpus[paths[i]], mapping, evidence(paths[i])))
  {
    hide Ready, Protected, PlanSpec, ScanPage, Undisturbed, Balanced;
    var pages := PlanEach(linker, paths, corpus, mapping, evidence);
    forall i | 0 <= i < |paths|
      ensures pages[i].Ok? && pages[i].value.page == paths[i] && pages[i].value.original == corpus[paths[i]]
      ensures var report := ScanPage(linker, paths[i], BodyOf(pages[i].value), mapping.Keys, evidence(paths[i]));
              && Balanced(report, pages[i].value.preservations)
              && (report == Ok(Report([], pages[i].value.preservations))
                  <==> Undisturbed(linker, paths[i], corpus[paths[i]], mapping, evidence(paths[i])))
    {
      assert paths[i] in paths;
      OpenFence(linker, paths[i], corpus[paths[i]], mapping, evidence(paths[i]));
      PageReconciles(linker, paths[i], corpus[paths[i]], mapping, evidence(paths[i]), Refs(corpus[paths[i]]).value);
    }
    WrittenIsApplied(corpus, pages, |paths|);
    WrittenKeys(paths, corpus, pages, |paths|);
    var after := Written(corpus, pages, |paths|);
    var reports := ScanEach(linker, paths, after, mapping.Keys, evidence);
    forall i | 0 <= i < |paths|
      ensures reports[i] == ScanPage(linker, paths[i], BodyOf(pages[i].value), mapping.Keys, evidence(paths[i]))
    {
      WrittenBody(paths, corpus, pages, |paths|, i);
    }
    JoinedReports(pages, reports, |paths|);
  }

  // ---- with the real paths -----------------------------------------------------------

  predicate TameChar(c: char) { !In(DestEnd, c) && !In(Quote, c) && !In(Backtick, c) }

  lemma {:induction false} TameChars(r: string)
    requires r != [] && r[0] != '>' && r[0] != '~' && forall c :: c in r ==> TameChar(c)
    ensures Tame(r)
  {
    forall p | 0 <= p < |r| ensures TameChar(r[p]) { assert r[p] in r; }
  }

  lemma {:induction false} AfterChars(s: string, c: char)
    ensures forall d :: d in After(s, c) ==> d in s
  {
    if s != "" { AfterChars(s[1..], c); }
  }

  lemma {:induction false} JoinChars(parts: seq<string>)
    requires forall p :: p in parts ==> forall c :: c in p ==> TameChar(c)
    ensures forall c :: c in Join(parts) ==> TameChar(c)
  {
    if parts != [] {
      assert parts[0] in parts;
      assert forall p :: p in parts[1..] ==> p in parts;
      JoinChars(parts[1..]);
    }
  }

  lemma {:induction false} PathChars(parts: seq<string>)
    requires PageParts(parts)
    ensures forall p :: p in parts ==> forall c :: c in p ==> TameChar(c) && c != '>' && c != '~'
  {
    forall p, c | p in parts && c in p ensures TameChar(c) && c != '>' && c != '~' {
      var i :| 0 <= i < |parts| && parts[i] == p;
      if i == |parts| - 1 {
        var stem := p[..|p| - 3];
        assert p == stem + ".md";
        assert c in stem || c in ".md";
      }
    }
  }

  lemma {:induction false} FragmentTame(target: string)
    requires Quiet(target)
    ensures forall c :: c in SplitTarget(target).1 ==> TameChar(c)
  {
    AfterChars(target, '#');
    forall c | c in target ensures TameChar(c) { var i :| 0 <= i < |target| && target[i] == c; }
  }

  lemma {:induction false} ConcatTame(base: string, fragment: string)
    requires base != "" && base[0] != '>' && base[0] != '~'
    requires (forall c :: c in base ==> TameChar(c)) && (forall c :: c in fragment ==> TameChar(c))
    ensures Tame(base + fragment)
  {
    assert forall c :: c in base + fragment ==> c in base || c in fragment;
    TameChars(base + fragment);
  }

  lemma {:induction false} RootTame(newPath: string)
    requires WellFormed(newPath)
    ensures forall c :: c in "/" + newPath ==> TameChar(c)
  {
    JoinSplit(newPath);
    PathChars(Split(newPath));
    JoinChars(Split(newPath));
  }

  /** A destination written for a well-formed path is as tame as the one it replaces. */
  lemma {:induction false} RetargetTame(env: Env, page: string, target: string, newPath: string)
    requires ValidEnv(env) && WellFormed(page) && WellFormed(newPath) && Quiet(target)
    ensures Retarget(env, page, target, newPath).Some? && Tame(Retarget(env, page, target, newPath).value)
  {
    FragmentTame(target);
    if SplitTarget(target).2 {
      RootTame(newPath);
      ConcatTame("/" + newPath, SplitTarget(target).1);
    } else {
      var rel := RelToPage(env, page, newPath);
      RelTame(page, newPath, rel);
      ConcatTame(Join(rel), SplitTarget(target).1);
    }
  }

  lemma {:induction false} RelPartTame(page: string, newPath: string, rel: seq<string>, p: string)
    requires WellFormed(newPath) && rel == RelParts(Split(page)[..|Split(page)| - 1], Split(newPath)) && p in rel
    ensures forall c :: c in p ==> TameChar(c) && c != '>' && c != '~'
  {
    hide Split, CommonPrefix;
    var path := Split(newPath);
    PathChars(path);
    var rest := path[CommonPrefix(Split(page)[..|Split(page)| - 1], path)..];
    assert forall q :: q in rest ==> q in path;
    if p !in rest { assert p == ".."; }
  }

  lemma {:induction false} RelTame(page: string, newPath: string, rel: seq<string>)
    requires WellFormed(newPath)
    requires rel == RelParts(Split(page)[..|Split(page)| - 1], Split(newPath)) && rel != [] && forall p :: p in rel ==> p != ""
    ensures Join(rel) != "" && Join(rel)[0] != '>' && Join(rel)[0] != '~' && forall c :: c in Join(rel) ==> TameChar(c)
  {
    forall p | p in rel ensures forall c :: c in p ==> TameChar(c) && c != '>' && c != '~' { RelPartTame(page, newPath, rel, p); }
    JoinChars(rel);
    assert rel[0] in rel;
    assert rel[0][0] in rel[0];
    assert Join(rel)[0] == rel[0][0];
  }

  lemma {:induction false} PathsAreFaithful(env: Env, page: string, mapping: map<string, string>)
    requires ValidEnv(env) && WellFormed(page) && forall from :: from in mapping ==> WellFormed(mapping[from])
    ensures Faithful(PathLinker(env), page, mapping)
  {
    var linker := PathLinker(env);
    forall dest, from | from in mapping
      ensures linker.retarget(page, dest, mapping[from]).Some?
      ensures Quiet(dest) ==> Tame(linker.retarget(page, dest, mapping[from]).value)
      ensures linker.candidates(page, linker.retarget(page, dest, mapping[from]).value) == [mapping[from]]
    {
      ResolveInvertsRetarget(env, page, dest, mapping[from]);
      if Quiet(dest) { RetargetTame(env, page, dest, mapping[from]); }
    }
  }

  /**
   * The reconciliation an operator relies on: where no new path is itself an old
   * path, all paths are well-formed and the destinations to be rewritten are free of
   * quotes and backticks, planning a corpus fails only on an open fence. Scanning the
   * rewritten corpus for the old paths finds no unintended reference and the
   * preservations the plan declared, with their lines, targets and reasons, exactly
   * when no page is disturbed.
   */
  lemma {:induction false} RewriteThenScan(env: Env, paths: seq<string>, corpus: map<string, string>, mapping: map<string, string>, evidence: string -> bool)
    requires ValidEnv(env) && Distinct(paths)
    requires forall p :: p in paths ==> p in corpus && WellFormed(p) && QuietPage(PathLinker(env), p, corpus[p], mapping, evidence(p))
    requires forall from :: from in mapping ==> WellFormed(mapping[from]) && mapping[from] !in mapping
    ensures CorpusSpec(PathLinker(env), paths, corpus, mapping, evidence).Ok?
            <==> forall i :: 0 <= i < |paths| ==> Protected(corpus[paths[i]]).Ok?
    ensures var planned := CorpusSpec(PathLinker(env), paths, corpus, mapping, evidence);
            planned.Ok? ==>
              var after := Applied(corpus, planned.value);
              && after.Keys == corpus.Keys
              && (ScanSpec(PathLinker(env), paths, after, mapping.Keys, evidence) == Ok(Report([], AllPreservations(planned.value)))
                  <==> forall i :: 0 <= i < |paths| ==>
                         Undisturbed(PathLinker(env), paths[i], corpus[paths[i]], mapping, evidence(paths[i])))
  {
    hide Protected, QuietPage, Faithful, Undisturbed, PathLinker, WellFormed;
    var linker := PathLinker(env);
    forall p | p in paths ensures Ready(linker, p, corpus[p], mapping, evidence(p)) { PathsAreFaithful(env, p, mapping); }
    CorpusPlanned(linker, paths, corpus, mapping, evidence);
    if forall i :: 0 <= i < |paths| ==> Protected(corpus[paths[i]]).Ok? {
      CorpusReconciles(linker, paths, corpus, mapping, evidence);
    }
  }
}
