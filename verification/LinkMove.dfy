/** Moving a page: rewriting its own relative links. */
module LinkMove {
  import opened Text
  import opened LinkGrammar
  import opened LinkContext
  import opened LinkEdits
  import opened LinkResolve
  import opened LinkPlan

  function FirstCandidate(linker: Linker, page: string, target: string): Option<string> {
    var cands := linker.candidates(page, target);
    if cands == [] then Option.None else Some(cands[0])
  }

  /** What the move decides about one reference; it ignores evidence surfaces. */
  function DecideMove(linker: Linker, oldPage: string, newPage: string, ref: Ref): Decision {
    match FirstCandidate(linker, oldPage, ref.dest)
    case None => Skip
    case Some(resolved) =>
      if SplitTarget(ref.dest).2 then Skip
      else if ref.reason.Some? then Preserve(Preservation(newPage, ref.line + 1, ref.dest, resolved, ref.reason.value))
      else if FirstCandidate(linker, newPage, ref.dest) == Some(resolved) then Skip
      else
        match linker.retarget(newPage, ref.dest, resolved)
        case None => Fail
        case Some(target) => Edit(Rewrite(newPage, ref.line + 1, ref.dest, target, resolved, resolved))
  }

  function MoveDecisions(linker: Linker, oldPage: string, newPage: string, refs: seq<Ref>): (ds: seq<Decision>)
    ensures |ds| == |refs|
    ensures forall i :: 0 <= i < |refs| ==> ds[i] == DecideMove(linker, oldPage, newPage, refs[i])
  {
    seq(|refs|, i requires 0 <= i < |refs| => DecideMove(linker, oldPage, newPage, refs[i]))
  }

  /** `plan_source_move`. */
  function MoveSpec(linker: Linker, oldPage: string, newPage: string, t: string): Result<RewritePlan, PlanError> {
    if oldPage == newPage then Err(SamePath)
    else
      match Refs(t)
      case Err(e) => Err(Uncertain(e))
      case Ok(refs) => PlanFor(newPage, t, MoveDecisions(linker, oldPage, newPage, refs))
  }

  method DecideMoveLink(linker: Linker, oldPage: string, newPage: string, t: string, prot: map<nat, Reason>, spans: seq<(nat, nat)>,
                        k: nat, ghost reasons: seq<Option<Reason>>, ghost ds: seq<Decision>)
    returns (d: Decision)
    requires k < |Scan(t)| && AllPlaced(t, Scan(t)) && Marked(prot, reasons, |reasons|) && spans == InlineSpans(t)
    requires ds == MoveDecisions(linker, oldPage, newPage, RefsWith(t, reasons))
    ensures d == ds[k]
  {
    var ref := FindLinks(linker, oldPage, t)[k];
    if ref.resolved.None? {
      return Skip;
    }
    if SplitTarget(ref.target).2 {
      return Skip;
    }
    var reason := ReasonOf(linker, oldPage, t, prot, spans, false, k, reasons);
    if reason.Some? {
      return Preserve(Preservation(newPage, ref.line, ref.target, ref.resolved.value, reason.value));
    }
    if FirstCandidate(linker, newPage, ref.target) == ref.resolved {
      return Skip;
    }
    var target := linker.retarget(newPage, ref.target, ref.resolved.value);
    if target.None? {
      return Fail;
    }
    return Edit(Rewrite(newPage, ref.line, ref.target, target.value, ref.resolved.value, ref.resolved.value));
  }

  method CollectMove(linker: Linker, oldPage: string, newPage: string, t: string, prot: map<nat, Reason>,
                     ghost reasons: seq<Option<Reason>>, ghost ds: seq<Decision>)
    returns (ok: bool, edits: seq<TextEdit>, rewrites: seq<Rewrite>, preservations: seq<Preservation>)
    requires AllPlaced(t, Scan(t)) && Marked(prot, reasons, |reasons|)
    requires ds == MoveDecisions(linker, oldPage, newPage, RefsWith(t, reasons))
    ensures ok ==> Collected(t, ds, |ds|, edits, rewrites, preservations)
    ensures !ok ==> exists i :: 0 <= i < |ds| && ds[i].Fail?
  {
    var spans := InlineSpans(t);
    edits, rewrites, preservations := [], [], [];
    var k := 0;
    while k < |Scan(t)|
      invariant k <= |Scan(t)|
      invariant Collected(t, ds, k, edits, rewrites, preservations)
    {
      var d := DecideMoveLink(linker, oldPage, newPage, t, prot, spans, k, reasons, ds);
      if d.Fail? {
        return false, edits, rewrites, preservations;
      }
      edits, rewrites, preservations := Append(t, d, k, ds, edits, rewrites, preservations);
      k := k + 1;
    }
    ok := true;
  }

  method PlanSourceMove(linker: Linker, oldPage: string, newPage: string, t: string) returns (r: Result<RewritePlan, PlanError>)
    ensures r == MoveSpec(linker, oldPage, newPage, t)
  {
    if oldPage == newPage {
      return Err(SamePath);
    }
    var protectedLines := ProtectedLines(t);
    if protectedLines.Err? {
      return Err(Uncertain(protectedLines.error));
    }
    ScanPlaced(t);
    ghost var reasons := Protected(t).value;
    ghost var ds := MoveDecisions(linker, oldPage, newPage, RefsWith(t, reasons));
    var ok, edits, rewrites, preservations := CollectMove(linker, oldPage, newPage, t, protectedLines.value, reasons, ds);
    if !ok {
      return Err(NoPath);
    }
    r := Finish(newPage, t, ds, edits, rewrites, preservations);
  }
}
