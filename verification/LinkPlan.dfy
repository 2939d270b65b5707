/** Planning link rewrites, and the scan that checks what they left behind. */
module LinkPlan {
  import opened Text
  import opened LinkGrammar
  import opened LinkContext
  import opened LinkEdits
  import opened LinkResolve

  /** `resolve_candidates` and `retarget`; what planning does holds for any pair. */
  datatype Linker = Linker(candidates: (string, string) -> seq<string>, retarget: (string, string, string) -> Option<string>)

  /** The pair the tooling has. */
  function PathLinker(env: Env): Linker {
    Linker((page, target) => ResolveCandidates(env, page, target), (page, target, path) => Retarget(env, page, target, path))
  }

  // ---- links as the tooling reports them ---------------------------------------

  /** `LinkRef`: 1-based lines; `resolved` is the first candidate. */
  datatype LinkRef = LinkRef(page: string, line: nat, endLine: nat, caption: string, target: string,
                             resolved: Option<string>, candidates: seq<string>, start: nat, end: nat)

  datatype Rewrite = Rewrite(page: string, line: nat, oldTarget: string, newTarget: string, resolvedOld: string, resolvedNew: string)

  datatype Preservation = Preservation(page: string, line: nat, target: string, resolved: string, reason: Reason)

  datatype RewritePlan = RewritePlan(page: string, original: string, content: Option<string>,
                                     rewrites: seq<Rewrite>, preservations: seq<Preservation>)

  /** What the planners raise: an open fence, an empty path, a body that changed outside its links, or a move to itself. */
  datatype PlanError = Uncertain(why: Uncertainty) | NoPath | WouldAlterText | SamePath

  function FirstIn(candidates: seq<string>, paths: set<string>): Option<string> {
    if candidates == [] then Option.None
    else if candidates[0] in paths then Some(candidates[0])
    else FirstIn(candidates[1..], paths)
  }

  lemma {:induction false} FirstInMember(candidates: seq<string>, paths: set<string>)
    ensures FirstIn(candidates, paths).Some? ==> FirstIn(candidates, paths).value in candidates && FirstIn(candidates, paths).value in paths
    ensures FirstIn(candidates, paths).None? ==> forall c :: c in candidates ==> c !in paths
  {
    if candidates != [] {
      FirstInMember(candidates[1..], paths);
      assert forall c :: c in candidates ==> c == candidates[0] || c in candidates[1..];
    }
  }

  /** A reference's reason on a page, which may itself record references deliberately. */
  function PageReason(ref: Ref, evidence: bool): Option<Reason> {
    if ref.reason.Some? then ref.reason else if evidence then Some(EvidenceSurface) else Option.None
  }

  // ---- what planning decides about one reference -------------------------------

  datatype Decision = Skip | Preserve(preservation: Preservation) | Edit(rewrite: Rewrite) | Fail

  function Decide(linker: Linker, page: string, evidence: bool, mapping: map<string, string>, ref: Ref): Decision {
    match FirstIn(linker.candidates(page, ref.dest), mapping.Keys)
    case None => Skip
    case Some(matched) =>
      match PageReason(ref, evidence)
      case Some(reason) => Preserve(Preservation(page, ref.line + 1, ref.dest, matched, reason))
      case None =>
        FirstInMember(linker.candidates(page, ref.dest), mapping.Keys);
        match linker.retarget(page, ref.dest, mapping[matched])
        case None => Fail
        case Some(target) => Edit(Rewrite(page, ref.line + 1, ref.dest, target, matched, mapping[matched]))
  }

  function Choice(d: Decision): Option<string> { if d.Edit? then Some(d.rewrite.newTarget) else Option.None }

  /** The decisions up to the first that fails. */
  function Choices(ds: seq<Decision>): (cs: seq<Option<string>>)
    ensures |cs| == |ds|
    ensures forall i :: 0 <= i < |ds| ==> cs[i] == Choice(ds[i])
  {
    seq(|ds|, i requires 0 <= i < |ds| => Choice(ds[i]))
  }

  function Rewrites(ds: seq<Decision>, n: nat): seq<Rewrite>
    requires n <= |ds|
  {
    if n == 0 then [] else Rewrites(ds, n - 1) + (if ds[n - 1].Edit? then [ds[n - 1].rewrite] else [])
  }

  function Preservations(ds: seq<Decision>, n: nat): seq<Preservation>
    requires n <= |ds|
  {
    if n == 0 then [] else Preservations(ds, n - 1) + (if ds[n - 1].Preserve? then [ds[n - 1].preservation] else [])
  }

  // ---- one document ------------------------------------------------------------

  /** The plan that given decisions about the links of `t` make. */
  function PlanFor(page: string, t: string, ds: seq<Decision>): Result<RewritePlan, PlanError>
    requires |ds| == |Scan(t)|
  {
    if exists i :: 0 <= i < |ds| && ds[i].Fail? then Err(NoPath)
    else
      EditsOrdered(t, Choices(ds), |ds|);
      var edits := EditsFor(Scan(t), Choices(ds), |ds|);
      if edits == [] then Ok(RewritePlan(page, t, Option.None, [], Preservations(ds, |ds|)))
      else
        var content := ApplyEdits(t, edits);
        if MaskLinks(content) != MaskLinks(t) then Err(WouldAlterText)
        else Ok(RewritePlan(page, t, Some(content), Rewrites(ds, |ds|), Preservations(ds, |ds|)))
  }

  function Decisions(linker: Linker, page: string, evidence: bool, mapping: map<string, string>, refs: seq<Ref>): (ds: seq<Decision>)
    ensures |ds| == |refs|
    ensures forall i :: 0 <= i < |refs| ==> ds[i] == Decide(linker, page, evidence, mapping, refs[i])
  {
    seq(|refs|, i requires 0 <= i < |refs| => Decide(linker, page, evidence, mapping, refs[i]))
  }

  /** `plan_rewrites`. */
  function PlanSpec(linker: Linker, page: string, t: string, mapping: map<string, string>, evidence: bool): Result<RewritePlan, PlanError> {
    match Refs(t)
    case Err(e) => Err(Uncertain(e))
    case Ok(refs) => PlanFor(page, t, Decisions(linker, page, evidence, mapping, refs))
  }

  /** `find_links`: each link with its lines and candidates. */
  function FindLinks(linker: Linker, page: string, t: string): (links: seq<LinkRef>)
    ensures |links| == |Scan(t)|
  {
    ScanPlaced(t);
    seq(|Scan(t)|, k requires 0 <= k < |Scan(t)| => LinkRefOf(linker, page, t, Scan(t)[k]))
  }

  function LinkRefOf(linker: Linker, page: string, t: string, m: Link): LinkRef
    requires WellPlaced(t, m)
  {
    var target := Dest(t, m);
    var cands := linker.candidates(page, target);
    LinkRef(page, Newlines(t, m.start) + 1, Newlines(t, m.end) + 1, Label(t, m), target,
            if cands == [] then Option.None else Some(cands[0]), cands, m.dest, m.destEnd)
  }

  /** The loop that looks for the first protected line of a link. */
  method ReasonOf(linker: Linker, page: string, t: string, prot: map<nat, Reason>, spans: seq<(nat, nat)>, evidence: bool, k: nat, ghost reasons: seq<Option<Reason>>)
    returns (reason: Option<Reason>)
    requires k < |Scan(t)| && AllPlaced(t, Scan(t))
    requires Marked(prot, reasons, |reasons|) && spans == InlineSpans(t)
    ensures reason == PageReason(RefOf(t, reasons, spans, Scan(t)[k]), evidence)
  {
    var ref := FindLinks(linker, page, t)[k];
    reason := Option.None;
    var line := ref.line - 1;
    ghost var first := line;
    while line < ref.endLine
      invariant first <= line
      invariant reason.None?
      invariant FirstReason(reasons, first, ref.endLine - 1) == FirstReason(reasons, line, ref.endLine - 1)
    {
      if line in prot {
        reason := Some(prot[line]);
        break;
      }
      line := line + 1;
    }
    if reason.None? && Inside(spans, ref.start, ref.end) {
      reason := Some(InlineCode);
    }
    if reason.None? && evidence {
      reason := Some(EvidenceSurface);
    }
  }

  /** What the planner's loop has collected after `n` decisions. */
  ghost predicate Collected(t: string, ds: seq<Decision>, n: nat, edits: seq<TextEdit>, rewrites: seq<Rewrite>, preservations: seq<Preservation>)
    requires n <= |ds| == |Scan(t)|
  {
    && (forall i :: 0 <= i < n ==> !ds[i].Fail?)
    && edits == EditsFor(Scan(t), Choices(ds), n)
    && rewrites == Rewrites(ds, n)
    && preservations == Preservations(ds, n)
  }

  /** What one pass over the links of a document does with its decisions. */
  method Finish(page: string, t: string, ghost ds: seq<Decision>, edits: seq<TextEdit>, rewrites: seq<Rewrite>, preservations: seq<Preservation>)
    returns (r: Result<RewritePlan, PlanError>)
    requires |ds| == |Scan(t)| && Collected(t, ds, |ds|, edits, rewrites, preservations)
    ensures r == PlanFor(page, t, ds)
  {
    EditsOrdered(t, Choices(ds), |ds|);
    if edits == [] {
      return Ok(RewritePlan(page, t, Option.None, [], preservations));
    }
    var content := SpliceAll(t, edits);
    if MaskLinks(content) != MaskLinks(t) {
      return Err(WouldAlterText);
    }
    return Ok(RewritePlan(page, t, Some(content), rewrites, preservations));
  }

  /** What the planner's loop does with one link. */
  method DecideLink(linker: Linker, page: string, t: string, prot: map<nat, Reason>, spans: seq<(nat, nat)>, evidence: bool,
                    mapping: map<string, string>, k: nat, ghost reasons: seq<Option<Reason>>)
    returns (d: Decision)
    requires k < |Scan(t)| && AllPlaced(t, Scan(t))
    requires Marked(prot, reasons, |reasons|) && spans == InlineSpans(t)
    ensures d == Decide(linker, page, evidence, mapping, RefOf(t, reasons, spans, Scan(t)[k]))
  {
    var ref := FindLinks(linker, page, t)[k];
    var matched := FirstIn(ref.candidates, mapping.Keys);
    if matched.None? {
      return Skip;
    }
    FirstInMember(ref.candidates, mapping.Keys);
    var reason := ReasonOf(linker, page, t, prot, spans, evidence, k, reasons);
    if reason.Some? {
      return Preserve(Preservation(page, ref.line, ref.target, matched.value, reason.value));
    }
    var target := linker.retarget(page, ref.target, mapping[matched.value]);
    if target.None? {
      return Fail;
    }
    return Edit(Rewrite(page, ref.line, ref.target, target.value, matched.value, mapping[matched.value]));
  }

  method NextDecision(linker: Linker, page: string, t: string, prot: map<nat, Reason>, spans: seq<(nat, nat)>, evidence: bool,
                      mapping: map<string, string>, k: nat, ghost reasons: seq<Option<Reason>>, ghost ds: seq<Decision>)
    returns (d: Decision)
    requires k < |ds| == |Scan(t)| && AllPlaced(t, Scan(t))
    requires Marked(prot, reasons, |reasons|) && spans == InlineSpans(t)
    requires ds == Decisions(linker, page, evidence, mapping, RefsWith(t, reasons))
    ensures d == ds[k]
  {
    d := DecideLink(linker, page, t, prot, spans, evidence, mapping, k, reasons);
  }

  /** The planner's loop over the links; false when a destination cannot be written. */
  method Collect(linker: Linker, page: string, t: string, prot: map<nat, Reason>, evidence: bool, mapping: map<string, string>,
                 ghost reasons: seq<Option<Reason>>, ghost ds: seq<Decision>)
    returns (ok: bool, edits: seq<TextEdit>, rewrites: seq<Rewrite>, preservations: seq<Preservation>)
    requires AllPlaced(t, Scan(t)) && Marked(prot, reasons, |reasons|)
    requires ds == Decisions(linker, page, evidence, mapping, RefsWith(t, reasons))
    ensures ok ==> Collected(t, ds, |ds|, edits, rewrites, preservations)
    ensures !ok ==> exists i :: 0 <= i < |ds| && ds[i].Fail?
  {
    hide *;
    var spans := InlineSpans(t);
    edits, rewrites, preservations := [], [], [];
    NoneCollected(t, ds);
    var k := 0;
    while k < |Scan(t)|
      invariant k <= |Scan(t)|
      invariant Collected(t, ds, k, edits, rewrites, preservations)
    {
      var d := NextDecision(linker, page, t, prot, spans, evidence, mapping, k, reasons, ds);
      if d.Fail? {
        return false, edits, rewrites, preservations;
      }
      edits, rewrites, preservations := Append(t, d, k, ds, edits, rewrites, preservations);
      k := k + 1;
    }
    ok := true;
  }

  lemma {:induction false} NoneCollected(t: string, ds: seq<Decision>)
    requires |ds| == |Scan(t)|
    ensures Collected(t, ds, 0, [], [], [])
  {
    hide Scan;
  }

  /** `edits.append`, `rewrites.append` and `preservations.append`. */
  method Append(t: string, d: Decision, k: nat, ghost ds: seq<Decision>,
                edits: seq<TextEdit>, rewrites: seq<Rewrite>, preservations: seq<Preservation>)
    returns (edits': seq<TextEdit>, rewrites': seq<Rewrite>, preservations': seq<Preservation>)
    requires k < |ds| == |Scan(t)| && d == ds[k] && !d.Fail?
    requires Collected(t, ds, k, edits, rewrites, preservations)
    ensures Collected(t, ds, k + 1, edits', rewrites', preservations')
  {
    edits', rewrites', preservations' := edits, rewrites, preservations;
    if d.Edit? {
      edits' := edits + [TextEdit(Scan(t)[k].dest, Scan(t)[k].destEnd, d.rewrite.newTarget)];
      rewrites' := rewrites + [d.rewrite];
    } else if d.Preserve? {
      preservations' := preservations + [d.preservation];
    }
  }

  /** `plan_rewrites`. */
  method PlanRewrites(linker: Linker, page: string, t: string, mapping: map<string, string>, evidence: bool)
    returns (r: Result<RewritePlan, PlanError>)
    ensures r == PlanSpec(linker, page, t, mapping, evidence)
  {
    var protectedLines := ProtectedLines(t);
    if protectedLines.Err? {
      return Err(Uncertain(protectedLines.error));
    }
    ScanPlaced(t);
    ghost var reasons := Protected(t).value;
    ghost var ds := Decisions(linker, page, evidence, mapping, RefsWith(t, reasons));
    var ok, edits, rewrites, preservations := Collect(linker, page, t, protectedLines.value, evidence, mapping, reasons, ds);
    if !ok {
      return Err(NoPath);
    }
    r := Finish(page, t, ds, edits, rewrites, preservations);
  }
}
