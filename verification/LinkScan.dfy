/** Planning a whole corpus, and scanning it for references to old paths. */
module LinkScan {
  import opened Text
  import opened LinkGrammar
  import opened LinkContext
  import opened LinkPlan

  // ---- scanning one document ---------------------------------------------------

  datatype Finding = Clear | Unintended | Preserved(preservation: Preservation)

  function Find(linker: Linker, page: string, evidence: bool, oldPaths: set<string>, ref: Ref): Finding {
    match FirstIn(linker.candidates(page, ref.dest), oldPaths)
    case None => Clear
    case Some(matched) =>
      match PageReason(ref, evidence)
      case Some(reason) => Preserved(Preservation(page, ref.line + 1, ref.dest, matched, reason))
      case None => Unintended
  }

  function Findings(linker: Linker, page: string, evidence: bool, oldPaths: set<string>, refs: seq<Ref>): (fs: seq<Finding>)
    ensures |fs| == |refs|
    ensures forall i :: 0 <= i < |refs| ==> fs[i] == Find(linker, page, evidence, oldPaths, refs[i])
  {
    seq(|refs|, i requires 0 <= i < |refs| => Find(linker, page, evidence, oldPaths, refs[i]))
  }

  function UnintendedIn(links: seq<LinkRef>, fs: seq<Finding>, n: nat): seq<LinkRef>
    requires n <= |fs| == |links|
  {
    if n == 0 then [] else UnintendedIn(links, fs, n - 1) + (if fs[n - 1].Unintended? then [links[n - 1]] else [])
  }

  function PreservedIn(fs: seq<Finding>, n: nat): seq<Preservation>
    requires n <= |fs|
  {
    if n == 0 then [] else PreservedIn(fs, n - 1) + (if fs[n - 1].Preserved? then [fs[n - 1].preservation] else [])
  }

  /** What a scan reports: unintended references and preserved ones. */
  datatype Report = Report(unintended: seq<LinkRef>, preserved: seq<Preservation>)

  function ScanPage(linker: Linker, page: string, t: string, oldPaths: set<string>, evidence: bool): Result<Report, Uncertainty> {
    match Refs(t)
    case Err(e) => Err(e)
    case Ok(refs) =>
      var fs := Findings(linker, page, evidence, oldPaths, refs);
      Ok(Report(UnintendedIn(FindLinks(linker, page, t), fs, |fs|), PreservedIn(fs, |fs|)))
  }

  // ---- the corpus ----------------------------------------------------------------

  /** The reports of pages in order, put together; the first failure stops the scan. */
  function JoinReports(pages: seq<Result<Report, Uncertainty>>, n: nat): Result<Report, Uncertainty>
    requires n <= |pages|
  {
    if n == 0 then Ok(Report([], []))
    else
      match JoinReports(pages, n - 1)
      case Err(e) => Err(e)
      case Ok(before) =>
        match pages[n - 1]
        case Err(e) => Err(e)
        case Ok(page) => Ok(Report(before.unintended + page.unintended, before.preserved + page.preserved))
  }

  function ScanEach(linker: Linker, paths: seq<string>, corpus: map<string, string>, oldPaths: set<string>, evidence: string -> bool)
    : (pages: seq<Result<Report, Uncertainty>>)
    requires forall p :: p in paths ==> p in corpus
    ensures |pages| == |paths|
    ensures forall i :: 0 <= i < |paths| ==> pages[i] == ScanPage(linker, paths[i], corpus[paths[i]], oldPaths, evidence(paths[i]))
  {
    seq(|paths|, i requires 0 <= i < |paths| => ScanPage(linker, paths[i], corpus[paths[i]], oldPaths, evidence(paths[i])))
  }

  /** `scan_stale_references`, with the corpus paths in the order `sorted` gives them. */
  function ScanSpec(linker: Linker, paths: seq<string>, corpus: map<string, string>, oldPaths: set<string>, evidence: string -> bool)
    : Result<Report, Uncertainty>
    requires forall p :: p in paths ==> p in corpus
  {
    JoinReports(ScanEach(linker, paths, corpus, oldPaths, evidence), |paths|)
  }

  /** The scan's loop over the links of one document. */
  method ScanLinks(linker: Linker, page: string, t: string, links: seq<LinkRef>, prot: map<nat, Reason>, oldPaths: set<string>, evidence: bool,
                   ghost reasons: seq<Option<Reason>>, ghost fs: seq<Finding>)
    returns (unintended: seq<LinkRef>, preserved: seq<Preservation>)
    requires AllPlaced(t, Scan(t)) && Marked(prot, reasons, |reasons|)
    requires fs == Findings(linker, page, evidence, oldPaths, RefsWith(t, reasons))
    requires links == FindLinks(linker, page, t)
    ensures unintended == UnintendedIn(links, fs, |fs|) && preserved == PreservedIn(fs, |fs|)
  {
    hide InlineSpans, Findings, RefsWith, FindLinks, Marked, Scan, AllPlaced;
    var spans := InlineSpans(t);
    unintended, preserved := [], [];
    var k := 0;
    while k < |links|
      invariant k <= |links|
      invariant unintended == UnintendedIn(links, fs, k) && preserved == PreservedIn(fs, k)
    {
      var finding := FindLink(linker, page, t, prot, spans, oldPaths, evidence, k, reasons, fs);
      if finding.Unintended? {
        unintended := unintended + [links[k]];
      } else if finding.Preserved? {
        preserved := preserved + [finding.preservation];
      }
      k := k + 1;
    }
  }

  method FindLink(linker: Linker, page: string, t: string, prot: map<nat, Reason>, spans: seq<(nat, nat)>, oldPaths: set<string>, evidence: bool,
                  k: nat, ghost reasons: seq<Option<Reason>>, ghost fs: seq<Finding>)
    returns (finding: Finding)
    requires k < |Scan(t)| && AllPlaced(t, Scan(t)) && Marked(prot, reasons, |reasons|) && spans == InlineSpans(t)
    requires fs == Findings(linker, page, evidence, oldPaths, RefsWith(t, reasons))
    ensures finding == fs[k]
  {
    var ref := FindLinks(linker, page, t)[k];
    var matched := FirstIn(ref.candidates, oldPaths);
    if matched.None? {
      return Clear;
    }
    var reason := ReasonOf(linker, page, t, prot, spans, evidence, k, reasons);
    if reason.None? {
      return Unintended;
    }
    return Preserved(Preservation(page, ref.line, ref.target, matched.value, reason.value));
  }

  /** `scan_stale_references`. */
  method ScanStaleReferences(linker: Linker, paths: seq<string>, corpus: map<string, string>, oldPaths: set<string>, evidence: string -> bool)
    returns (r: Result<Report, Uncertainty>)
    requires forall p :: p in paths ==> p in corpus
    ensures r == ScanSpec(linker, paths, corpus, oldPaths, evidence)
  {
    ghost var pages := ScanEach(linker, paths, corpus, oldPaths, evidence);
    var unintended, preserved := [], [];
    for i := 0 to |paths|
      invariant JoinReports(pages, i) == Ok(Report(unintended, preserved))
    {
      var t := corpus[paths[i]];
      var prot := ProtectedLines(t);
      if prot.Err? {
        assert pages[i] == Err(prot.error);
        ScanStops(pages, i + 1, |paths|);
        return Err(prot.error);
      }
      ScanPlaced(t);
      ghost var fs := Findings(linker, paths[i], evidence(paths[i]), oldPaths, RefsWith(t, Protected(t).value));
      var stale, kept := ScanLinks(linker, paths[i], t, FindLinks(linker, paths[i], t), prot.value, oldPaths, evidence(paths[i]), Protected(t).value, fs);
      assert pages[i] == Ok(Report(stale, kept));
      unintended, preserved := unintended + stale, preserved + kept;
    }
    return Ok(Report(unintended, preserved));
  }

  lemma {:induction false} ScanStops(pages: seq<Result<Report, Uncertainty>>, i: nat, n: nat)
    requires i <= n <= |pages| && JoinReports(pages, i).Err?
    ensures JoinReports(pages, n) == JoinReports(pages, i)
  {
    if i < n { ScanStops(pages, i, n - 1); }
  }

  /** The plans of pages in order, without those that neither change nor preserve anything. */
  function JoinPlans(pages: seq<Result<RewritePlan, PlanError>>, n: nat): Result<seq<RewritePlan>, PlanError>
    requires n <= |pages|
  {
    if n == 0 then Ok([])
    else
      match JoinPlans(pages, n - 1)
      case Err(e) => Err(e)
      case Ok(plans) =>
        match pages[n - 1]
        case Err(e) => Err(e)
        case Ok(plan) => Ok(if plan.content.Some? || plan.preservations != [] then plans + [plan] else plans)
  }

  function PlanEach(linker: Linker, paths: seq<string>, corpus: map<string, string>, mapping: map<string, string>, evidence: string -> bool)
    : (pages: seq<Result<RewritePlan, PlanError>>)
    requires forall p :: p in paths ==> p in corpus
    ensures |pages| == |paths|
    ensures forall i :: 0 <= i < |paths| ==> pages[i] == PlanSpec(linker, paths[i], corpus[paths[i]], mapping, evidence(paths[i]))
  {
    seq(|paths|, i requires 0 <= i < |paths| => PlanSpec(linker, paths[i], corpus[paths[i]], mapping, evidence(paths[i])))
  }

  /** `plan_corpus`, with the corpus paths in the order `sorted` gives them. */
  function CorpusSpec(linker: Linker, paths: seq<string>, corpus: map<string, string>, mapping: map<string, string>, evidence: string -> bool)
    : Result<seq<RewritePlan>, PlanError>
    requires forall p :: p in paths ==> p in corpus
  {
    JoinPlans(PlanEach(linker, paths, corpus, mapping, evidence), |paths|)
  }

  method PlanCorpus(linker: Linker, paths: seq<string>, corpus: map<string, string>, mapping: map<string, string>, evidence: string -> bool)
    returns (r: Result<seq<RewritePlan>, PlanError>)
    requires forall p :: p in paths ==> p in corpus
    ensures r == CorpusSpec(linker, paths, corpus, mapping, evidence)
  {
    var plans := [];
    ghost var pages := PlanEach(linker, paths, corpus, mapping, evidence);
    for i := 0 to |paths|
      invariant JoinPlans(pages, i) == Ok(plans)
    {
      var plan := PlanRewrites(linker, paths[i], corpus[paths[i]], mapping, evidence(paths[i]));
      if plan.Err? {
        PlansStop(pages, i + 1, |paths|);
        return Err(plan.error);
      }
      if plan.value.content.Some? || plan.value.preservations != [] {
        plans := plans + [plan.value];
      }
    }
    return Ok(plans);
  }

  lemma {:induction false} PlansStop(pages: seq<Result<RewritePlan, PlanError>>, i: nat, n: nat)
    requires i <= n <= |pages| && JoinPlans(pages, i).Err?
    ensures JoinPlans(pages, n) == JoinPlans(pages, i)
  {
    if i < n { PlansStop(pages, i, n - 1); }
  }
}
