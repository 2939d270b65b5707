/** What a scan for old paths reports, link by link. */
module LinkReports {
  import opened Text
  import opened LinkGrammar
  import opened LinkContext
  import opened LinkResolve
  import opened LinkPlan
  import opened LinkScan

  /** Some page the link can denote is an old path, and `c` is the first of them. */
  predicate FirstOld(cands: seq<string>, oldPaths: set<string>, c: string) {
    exists k :: 0 <= k < |cands| && cands[k] == c && c in oldPaths && forall j :: 0 <= j < k ==> cands[j] !in oldPaths
  }

  predicate DenotesOld(cands: seq<string>, oldPaths: set<string>) { exists c :: c in cands && c in oldPaths }

  /** The entry of link `k` in the list of unintended references: where it stands, what it says and what it can denote. */
  ghost predicate EntryIs(env: Env, page: string, t: string, k: nat, entry: LinkRef)
    requires k < |Scan(t)| && WellPlaced(t, Scan(t)[k])
  {
    var m := Scan(t)[k];
    var cands := ResolveCandidates(env, page, Dest(t, m));
    && entry.page == page && entry.line == Newlines(t, m.start) + 1 && entry.endLine == Newlines(t, m.end) + 1
    && entry.caption == Label(t, m) && entry.target == Dest(t, m) && entry.start == m.dest && entry.end == m.destEnd
    && entry.candidates == cands && entry.resolved == if cands == [] then Option.None else Some(cands[0])
  }

  ghost predicate EntryFor(env: Env, page: string, t: string, k: nat, entry: LinkRef)
    requires k < |Scan(t)|
  {
    WellPlaced(t, Scan(t)[k]) && EntryIs(env, page, t, k, entry)
  }

  /**
   * The reports for the first `n` links: an unprotected link that denotes an old path is
   * unintended, a protected one preserved with its reason, and nothing else is reported.
   */
  ghost predicate Reported(env: Env, page: string, t: string, oldPaths: set<string>, evidence: bool, refs: seq<Ref>, n: nat,
                           unintended: seq<LinkRef>, preserved: seq<Preservation>)
    requires n <= |refs| == |Scan(t)|
    decreases n
  {
    if n == 0 then unintended == [] && preserved == []
    else
      var ref, cands := refs[n - 1], ResolveCandidates(env, page, refs[n - 1].dest);
      if !DenotesOld(cands, oldPaths) then Reported(env, page, t, oldPaths, evidence, refs, n - 1, unintended, preserved)
      else if ref.reason.None? && !evidence then
        && unintended != [] && EntryFor(env, page, t, n - 1, unintended[|unintended| - 1])
        && Reported(env, page, t, oldPaths, evidence, refs, n - 1, unintended[..|unintended| - 1], preserved)
      else
        && preserved != [] && PreservedAs(page, ref, cands, oldPaths, preserved[|preserved| - 1])
        && Reported(env, page, t, oldPaths, evidence, refs, n - 1, unintended, preserved[..|preserved| - 1])
  }

  ghost predicate PreservedAs(page: string, ref: Ref, cands: seq<string>, oldPaths: set<string>, p: Preservation) {
    && p.page == page && p.line == ref.line + 1 && p.target == ref.dest && FirstOld(cands, oldPaths, p.resolved)
    && p.reason == if ref.reason.Some? then ref.reason.value else EvidenceSurface
  }

  lemma {:induction false} FirstInOld(cands: seq<string>, oldPaths: set<string>)
    ensures FirstIn(cands, oldPaths).Some? <==> DenotesOld(cands, oldPaths)
    ensures FirstIn(cands, oldPaths).Some? ==> FirstOld(cands, oldPaths, FirstIn(cands, oldPaths).value)
  {
    FirstInMember(cands, oldPaths);
    if FirstIn(cands, oldPaths).Some? { var k := FirstInAt(cands, oldPaths); }
  }

  lemma {:induction false} FirstInAt(cands: seq<string>, paths: set<string>) returns (k: nat)
    requires FirstIn(cands, paths).Some?
    ensures k < |cands| && cands[k] == FirstIn(cands, paths).value && cands[k] in paths && forall j :: 0 <= j < k ==> cands[j] !in paths
  {
    if cands[0] in paths {
      k := 0;
    } else {
      k := FirstInAt(cands[1..], paths);
      k := k + 1;
    }
  }

  lemma {:induction false} ReportedNext(env: Env, page: string, t: string, oldPaths: set<string>, evidence: bool, refs: seq<Ref>, n: nat,
                                        unintended: seq<LinkRef>, preserved: seq<Preservation>, f: Finding, link: LinkRef)
    requires 0 < n <= |refs| == |Scan(t)| && Reported(env, page, t, oldPaths, evidence, refs, n - 1, unintended, preserved)
    requires f == Find(PathLinker(env), page, evidence, oldPaths, refs[n - 1]) && EntryFor(env, page, t, n - 1, link)
    ensures Reported(env, page, t, oldPaths, evidence, refs, n,
                     if f.Unintended? then unintended + [link] else unintended, if f.Preserved? then preserved + [f.preservation] else preserved)
  {
    hide ResolveCandidates, Scan, DenotesOld, FirstOld, EntryFor;
    FirstInOld(ResolveCandidates(env, page, refs[n - 1].dest), oldPaths);
    LastOf(unintended, link);
    if f.Preserved? { LastOf(preserved, f.preservation); }
  }

  lemma {:induction false} FindingsReported(env: Env, page: string, t: string, oldPaths: set<string>, evidence: bool, refs: seq<Ref>, n: nat)
    requires Refs(t) == Ok(refs) && n <= |refs|
    ensures |refs| == |Scan(t)|
    ensures var fs := Findings(PathLinker(env), page, evidence, oldPaths, refs);
            Reported(env, page, t, oldPaths, evidence, refs, n, UnintendedIn(FindLinks(PathLinker(env), page, t), fs, n), PreservedIn(fs, n))
  {
    hide Refs, ResolveCandidates, Scan, Find, FindLinks;
    ScanPlaced(t);
    RefsCount(t, refs);
    var fs, links := Findings(PathLinker(env), page, evidence, oldPaths, refs), FindLinks(PathLinker(env), page, t);
    if n > 0 {
      FindingsReported(env, page, t, oldPaths, evidence, refs, n - 1);
      EntryOf(env, page, t, n - 1);
      hide EntryIs, Findings, Reported;
      ReportedNext(env, page, t, oldPaths, evidence, refs, n, UnintendedIn(links, fs, n - 1), PreservedIn(fs, n - 1), fs[n - 1], links[n - 1]);
      ListsNext(links, fs, n);
    }
  }

  lemma {:induction false} ListsNext(links: seq<LinkRef>, fs: seq<Finding>, n: nat)
    requires 0 < n <= |fs| == |links|
    ensures UnintendedIn(links, fs, n) == if fs[n - 1].Unintended? then UnintendedIn(links, fs, n - 1) + [links[n - 1]] else UnintendedIn(links, fs, n - 1)
    ensures PreservedIn(fs, n) == if fs[n - 1].Preserved? then PreservedIn(fs, n - 1) + [fs[n - 1].preservation] else PreservedIn(fs, n - 1)
  {}

  lemma {:induction false} RefsCount(t: string, refs: seq<Ref>)
    requires Refs(t) == Ok(refs)
    ensures |refs| == |Scan(t)|
  {}

  lemma {:induction false} LastOf<T>(s: seq<T>, x: T)
    ensures (s + [x])[..|s + [x]| - 1] == s && (s + [x])[|s + [x]| - 1] == x
  {}

  lemma {:induction false} EntryOf(env: Env, page: string, t: string, k: nat)
    requires k < |Scan(t)| && WellPlaced(t, Scan(t)[k])
    ensures EntryIs(env, page, t, k, FindLinks(PathLinker(env), page, t)[k])
  {
    hide Scan, ResolveCandidates;
  }

  /** A page's scan reports exactly that; it fails only where its fences do not close. */
  lemma {:induction false} ScanMeans(env: Env, page: string, t: string, oldPaths: set<string>, evidence: bool)
    ensures var r := ScanPage(PathLinker(env), page, t, oldPaths, evidence);
            && (r.Ok? <==> Protected(t).Ok?) && (r.Err? ==> Protected(t) == Err(r.error))
            && (r.Ok? ==> Refs(t).Ok? && Reported(env, page, t, oldPaths, evidence, Refs(t).value, |Refs(t).value|, r.value.unintended, r.value.preserved))
  {
    ScanPlaced(t);
    if Refs(t).Ok? { FindingsReported(env, page, t, oldPaths, evidence, Refs(t).value, |Refs(t).value|); }
  }
}
