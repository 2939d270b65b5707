/** A moved page's links still mean what they meant. */
module LinkMeaning {
  import opened Text
  import opened PosixPath
  import opened LinkGrammar
  import opened LinkSplice
  import opened LinkContext
  import opened LinkEdits
  import opened LinkManyEdits
  import opened LinkResolve
  import opened LinkPlan
  import opened LinkReconcile
  import opened LinkMove
  import opened PathText

  /** A link a move may correct: relative, unprotected, and denoting a corpus page. */
  predicate Movable(env: Env, oldPage: string, ref: Ref) {
    !SplitTarget(ref.dest).2 && ref.reason.None? && Resolve(env, oldPage, ref.dest).Some?
  }

  /**
   * An unprotected relative link whose first candidate is a well-formed path has
   * that first candidate at the new path too, with its fragment.
   */
  lemma {:induction false} MeaningKept(env: Env, oldPage: string, newPage: string, ref: Ref)
    requires ValidEnv(env) && WellFormed(newPage)
    requires Movable(env, oldPage, ref) && WellFormed(Resolve(env, oldPage, ref.dest).value)
    ensures var d := DecideMove(PathLinker(env), oldPage, newPage, ref);
            && (d.Edit? || d.Skip?)
            && Resolve(env, newPage, Moved(d, ref)) == Resolve(env, oldPage, ref.dest)
            && SplitTarget(Moved(d, ref)).1 == SplitTarget(ref.dest).1
  {
    ResolveInvertsRetarget(env, newPage, ref.dest, Resolve(env, oldPage, ref.dest).value);
  }

  /** The destination a decision leaves. */
  function Moved(d: Decision, ref: Ref): string { if d.Edit? then d.rewrite.newTarget else ref.dest }

  /** What a link keeps when its page moves from `oldPage` to `newPage` and it reads `after`. */
  ghost predicate KeepsMeaning(env: Env, oldPage: string, newPage: string, ref: Ref, after: Seen) {
    && after.caption == ref.caption
    && (!Movable(env, oldPage, ref) ==> after.dest == ref.dest)
    && (Movable(env, oldPage, ref) && WellFormed(Resolve(env, oldPage, ref.dest).value) ==>
          && Resolve(env, newPage, after.dest) == Resolve(env, oldPage, ref.dest)
          && SplitTarget(after.dest).1 == SplitTarget(ref.dest).1)
    && (Resolve(env, newPage, ref.dest) == Resolve(env, oldPage, ref.dest) ==> after.dest == ref.dest)
  }

  lemma {:induction false} MovedKeepsMeaning(env: Env, oldPage: string, newPage: string, ref: Ref)
    requires ValidEnv(env) && WellFormed(newPage)
    ensures KeepsMeaning(env, oldPage, newPage, ref,
                         Seen(ref.caption, Moved(DecideMove(PathLinker(env), oldPage, newPage, ref), ref)))
  {
    if Movable(env, oldPage, ref) && WellFormed(Resolve(env, oldPage, ref.dest).value) {
      MeaningKept(env, oldPage, newPage, ref);
    }
  }

  /**
   * What the text of a movable link must be for its correction to be read back: no
   * quotes, and where it does not denote a well-formed path, no spaces, quotes or ')'
   * in the page's path and the working directory either.
   */
  ghost predicate Readable(env: Env, oldPage: string, ref: Ref)
    requires Resolve(env, oldPage, ref.dest).Some?
  {
    && Free(Quote, ref.dest)
    && (WellFormed(Resolve(env, oldPage, ref.dest).value) || (CleanText(env.cwd) && CleanText(oldPage)))
  }

  /** `relpath` between well-formed paths stays clean whatever the working directory is called. */
  lemma {:induction false} RetargetWellFormed(env: Env, page: string, target: string, newPath: string)
    requires ValidEnv(env) && WellFormed(page) && WellFormed(newPath) && CleanText(target) && !SplitTarget(target).2
    ensures Retarget(env, page, target, newPath).Some? && Clean(Retarget(env, page, target, newPath).value)
  {
    var rel := RelToPage(env, page, newPath);
    RelTame(page, newPath, rel);
    RelIsClean(Join(rel));
    hide CleanText, Clean, SplitTarget, RelPath;
    SplitTargetClean(target);
    Clean2(Join(rel), SplitTarget(target).1);
    CleanIs(Join(rel) + SplitTarget(target).1);
  }

  lemma {:induction false} RelIsClean(s: string)
    requires forall c :: c in s ==> TameChar(c)
    ensures CleanText(s)
  {}

  /** The corrections of readable links are read back whole. */
  lemma {:induction false} MoveIsClean(env: Env, oldPage: string, newPage: string, ref: Ref)
    requires ValidEnv(env) && WellFormed(newPage) && ref.dest != "" && Free(DestEnd, ref.dest)
    requires Movable(env, oldPage, ref) ==> Readable(env, oldPage, ref)
    ensures var d := DecideMove(PathLinker(env), oldPage, newPage, ref);
            !d.Fail? && (d.Edit? ==> Clean(ref.dest) && Clean(d.rewrite.newTarget))
  {
    hide CleanText, SplitTarget, ResolveCandidates, Retarget, WellFormed;
    if Movable(env, oldPage, ref) {
      CleanIs(ref.dest);
      var resolved := Resolve(env, oldPage, ref.dest).value;
      if WellFormed(resolved) {
        RetargetWellFormed(env, newPage, ref.dest, resolved);
      } else {
        CandidatesClean(env, oldPage, ref.dest);
        assert resolved in ResolveCandidates(env, oldPage, ref.dest);
        RetargetClean(env, newPage, ref.dest, resolved);
      }
    }
  }

  lemma {:induction false} DestShape(t: string, k: nat)
    requires k < |Scan(t)|
    ensures WellPlaced(t, Scan(t)[k]) && Dest(t, Scan(t)[k]) != "" && Free(DestEnd, Dest(t, Scan(t)[k]))
  {
    ScannedLink(t, k);
    MatchAtIsThePattern(t, Scan(t)[k]);
  }

  lemma {:induction false} RefSeen(t: string, refs: seq<Ref>, k: nat)
    requires Refs(t) == Ok(refs) && k < |refs|
    ensures |refs| == |Scan(t)| && SeenIn(t)[k] == Seen(refs[k].caption, refs[k].dest)
    ensures refs[k].dest != "" && Free(DestEnd, refs[k].dest)
  {
    ScanPlaced(t);
    DestShape(t, k);
  }

  /** A link a move leaves alone. */
  ghost predicate StaysAsItIs(env: Env, oldPage: string, newPage: string, ref: Ref) {
    !Movable(env, oldPage, ref) || Resolve(env, newPage, ref.dest) == Resolve(env, oldPage, ref.dest)
  }

  lemma {:induction false} CorrectedExactly(env: Env, oldPage: string, newPage: string, ref: Ref)
    requires !DecideMove(PathLinker(env), oldPage, newPage, ref).Fail?
    ensures DecideMove(PathLinker(env), oldPage, newPage, ref).Edit? <==> !StaysAsItIs(env, oldPage, newPage, ref)
  {}

  /**
   * Moving a page with readable links always makes a plan. Its body is the text with
   * the corrections woven in; scanning it finds the same links and labels. Root-absolute,
   * external and protected links are as they were, and every other link whose first
   * candidate is a well-formed path still has it, with its fragment. The text is
   * returned unchanged exactly when no link needs a correction.
   */
  lemma {:induction false} MoveKeepsMeaning(env: Env, oldPage: string, newPage: string, t: string, refs: seq<Ref>)
    requires ValidEnv(env) && WellFormed(newPage) && oldPage != newPage && Refs(t) == Ok(refs)
    requires forall i :: 0 <= i < |refs| && Movable(env, oldPage, refs[i]) ==> Readable(env, oldPage, refs[i])
    ensures MoveSpec(PathLinker(env), oldPage, newPage, t).Ok?
    ensures var plan := MoveSpec(PathLinker(env), oldPage, newPage, t).value;
            var edits := EditsFor(Scan(t), Choices(MoveDecisions(PathLinker(env), oldPage, newPage, refs)), |refs|);
            && plan.page == newPage
            && Ordered(edits, |t|) && BodyOf(plan) == Weave(t, edits, |t|)
            && |SeenIn(BodyOf(plan))| == |refs|
            && (forall i :: 0 <= i < |refs| ==> KeepsMeaning(env, oldPage, newPage, refs[i], SeenIn(BodyOf(plan))[i]))
            && (plan.content.None? <==> forall i :: 0 <= i < |refs| ==> StaysAsItIs(env, oldPage, newPage, refs[i]))
  {
    var linker := PathLinker(env);
    var ds := MoveDecisions(linker, oldPage, newPage, refs);
    hide Scan, PathLinker, DecideMove, KeepsMeaning, Movable, Readable, StaysAsItIs, WellFormed, Refs, Clean, PlanFor, Weave, SeenIn;
    forall i | 0 <= i < |refs|
      ensures |refs| == |Scan(t)| && SeenIn(t)[i] == Seen(refs[i].caption, refs[i].dest)
      ensures !ds[i].Fail? && (ds[i].Edit? ==> Clean(SeenIn(t)[i].dest) && Clean(ds[i].rewrite.newTarget))
      ensures ds[i].Edit? <==> !StaysAsItIs(env, oldPage, newPage, refs[i])
      ensures KeepsMeaning(env, oldPage, newPage, refs[i], Seen(refs[i].caption, Moved(ds[i], refs[i])))
    {
      RefSeen(t, refs, i);
      MoveIsClean(env, oldPage, newPage, refs[i]);
      CorrectedExactly(env, oldPage, newPage, refs[i]);
      MovedKeepsMeaning(env, oldPage, newPage, refs[i]);
    }
    PlanMade(newPage, t, ds);
    SpecIs(linker, oldPage, newPage, t, refs);
    forall i | 0 <= i < |refs| ensures SeenChosen(SeenIn(t), Choices(ds), |ds|)[i] == Seen(refs[i].caption, Moved(ds[i], refs[i])) {}
  }

  lemma {:induction false} SpecIs(linker: Linker, oldPage: string, newPage: string, t: string, refs: seq<Ref>)
    requires Refs(t) == Ok(refs) && oldPage != newPage
    ensures |refs| == |Scan(t)|
    ensures MoveSpec(linker, oldPage, newPage, t) == PlanFor(newPage, t, MoveDecisions(linker, oldPage, newPage, refs))
  {}

  // ---- what the plan lists ------------------------------------------------------------------------

  /** The record of a corrected link: its line, what it read, what it reads now and the page it means. */
  ghost function Correction(env: Env, oldPage: string, newPage: string, ref: Ref, after: string): seq<Rewrite> {
    if StaysAsItIs(env, oldPage, newPage, ref) then []
    else [Rewrite(newPage, ref.line + 1, ref.dest, after, Resolve(env, oldPage, ref.dest).value, Resolve(env, oldPage, ref.dest).value)]
  }

  ghost function Corrections(env: Env, oldPage: string, newPage: string, refs: seq<Ref>, after: seq<Seen>, n: nat): seq<Rewrite>
    requires n <= |refs| && n <= |after|
  {
    if n == 0 then []
    else Corrections(env, oldPage, newPage, refs, after, n - 1) + Correction(env, oldPage, newPage, refs[n - 1], after[n - 1].dest)
  }

  /** The record of a protected relative link. */
  function Kept(env: Env, oldPage: string, newPage: string, ref: Ref): seq<Preservation> {
    if ref.reason.Some? && !SplitTarget(ref.dest).2 && Resolve(env, oldPage, ref.dest).Some?
    then [Preservation(newPage, ref.line + 1, ref.dest, Resolve(env, oldPage, ref.dest).value, ref.reason.value)] else []
  }

  function AllKept(env: Env, oldPage: string, newPage: string, refs: seq<Ref>, n: nat): seq<Preservation>
    requires n <= |refs|
  {
    if n == 0 then [] else AllKept(env, oldPage, newPage, refs, n - 1) + Kept(env, oldPage, newPage, refs[n - 1])
  }

  lemma {:induction false} MoveRecorded(env: Env, oldPage: string, newPage: string, ref: Ref)
    requires !DecideMove(PathLinker(env), oldPage, newPage, ref).Fail?
    ensures var d := DecideMove(PathLinker(env), oldPage, newPage, ref);
            && (if d.Edit? then [d.rewrite] else []) == Correction(env, oldPage, newPage, ref, Moved(d, ref))
            && (if d.Preserve? then [d.preservation] else []) == Kept(env, oldPage, newPage, ref)
  {
    hide ResolveCandidates, Retarget, SplitTarget;
  }

  lemma {:induction false} MovesRecorded(env: Env, oldPage: string, newPage: string, refs: seq<Ref>, after: seq<Seen>, n: nat)
    requires n <= |refs| == |after|
    requires forall i :: 0 <= i < |refs| ==>
               var d := DecideMove(PathLinker(env), oldPage, newPage, refs[i]); !d.Fail? && after[i].dest == Moved(d, refs[i])
    ensures var ds := MoveDecisions(PathLinker(env), oldPage, newPage, refs);
            && Rewrites(ds, n) == Corrections(env, oldPage, newPage, refs, after, n)
            && Preservations(ds, n) == AllKept(env, oldPage, newPage, refs, n)
  {
    hide DecideMove, PathLinker, Correction, Kept, Moved;
    if n > 0 {
      MovesRecorded(env, oldPage, newPage, refs, after, n - 1);
      MoveRecorded(env, oldPage, newPage, refs[n - 1]);
    }
  }

  /** A move's plan lists exactly the corrected links, and the protected relative ones that denote a page. */
  lemma {:induction false} MoveReports(env: Env, oldPage: string, newPage: string, t: string, refs: seq<Ref>)
    requires ValidEnv(env) && WellFormed(newPage) && oldPage != newPage && Refs(t) == Ok(refs)
    requires forall i :: 0 <= i < |refs| && Movable(env, oldPage, refs[i]) ==> Readable(env, oldPage, refs[i])
    ensures MoveSpec(PathLinker(env), oldPage, newPage, t).Ok?
    ensures var plan := MoveSpec(PathLinker(env), oldPage, newPage, t).value;
            && |SeenIn(BodyOf(plan))| == |refs|
            && plan.rewrites == Corrections(env, oldPage, newPage, refs, SeenIn(BodyOf(plan)), |refs|)
            && plan.preservations == AllKept(env, oldPage, newPage, refs, |refs|)
  {
    hide Scan, PathLinker, DecideMove, Movable, Readable, WellFormed, Refs, Clean, PlanFor, Weave, SeenIn, Corrections, AllKept, Rewrites, Preservations;
    var linker := PathLinker(env);
    var ds := MoveDecisions(linker, oldPage, newPage, refs);
    forall i | 0 <= i < |refs|
      ensures |refs| == |Scan(t)| && SeenIn(t)[i] == Seen(refs[i].caption, refs[i].dest)
      ensures !ds[i].Fail? && (ds[i].Edit? ==> Clean(SeenIn(t)[i].dest) && Clean(ds[i].rewrite.newTarget))
    {
      RefSeen(t, refs, i);
      MoveIsClean(env, oldPage, newPage, refs[i]);
    }
    PlanMade(newPage, t, ds);
    SpecIs(linker, oldPage, newPage, t, refs);
    var after := SeenIn(BodyOf(PlanFor(newPage, t, ds).value));
    assert after == SeenChosen(SeenIn(t), Choices(ds), |ds|);
    forall i | 0 <= i < |refs| ensures after[i].dest == Moved(ds[i], refs[i]) {}
    MovesRecorded(env, oldPage, newPage, refs, after, |refs|);
  }
}
