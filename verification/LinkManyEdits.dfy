/** What a document is after many of its links got new destinations. */
module LinkManyEdits {
  import opened Text
  import opened LinkGrammar
  import opened LinkSplice
  import opened LinkContext
  import opened LinkEdits

  // ---- the text: untouched stretches and replacements ----------------------------

  /** `t[..n]`, with the replacements in place of the stretches they replace. */
  function Weave(t: string, edits: seq<TextEdit>, n: nat): string
    requires n <= |t| && Ordered(edits, n)
  {
    if edits == [] then t[..n]
    else
      var last := edits[|edits| - 1];
      assert edits[|edits| - 1].end <= n;
      Weave(t, edits[..|edits| - 1], last.start) + last.replacement + t[last.end..n]
  }

  lemma {:induction false} WeaveSame(t: string, u: string, edits: seq<TextEdit>, n: nat)
    requires n <= |t| && n <= |u| && t[..n] == u[..n] && Ordered(edits, n)
    ensures Weave(u, edits, n) == Weave(t, edits, n)
  {
    if edits != [] {
      var last := edits[|edits| - 1];
      assert u[..last.start] == u[..n][..last.start] == t[..n][..last.start] == t[..last.start];
      assert u[last.end..n] == u[..n][last.end..] == t[..n][last.end..] == t[last.end..n];
      WeaveSame(t, u, edits[..|edits| - 1], last.start);
    }
  }

  lemma {:induction false} WeaveLonger(t: string, edits: seq<TextEdit>, n: nat, m: nat)
    requires n <= m <= |t| && Ordered(edits, n)
    ensures Weave(t, edits, m) == Weave(t, edits, n) + t[n..m]
  {
    if edits == [] {
      assert t[..m] == t[..n] + t[n..m];
    } else {
      var last := edits[|edits| - 1];
      assert t[last.end..m] == t[last.end..n] + t[n..m];
    }
  }

  lemma {:induction false} SpliceTail(t: string, edit: TextEdit)
    requires edit.start <= edit.end <= |t|
    ensures var u := Splice(t, edit.start, edit.end, edit.replacement);
            && u[edit.start..|u|] == edit.replacement + t[edit.end..|t|]
            && u[..edit.start] == t[..edit.start]
  {}

  lemma {:induction false} WovenLast(t: string, edits: seq<TextEdit>, n: nat)
    requires n <= |t| && Ordered(edits, n) && edits != []
    ensures var last := edits[|edits| - 1];
            && last.end <= n
            && Weave(t, edits, n) == Weave(t, edits[..|edits| - 1], last.start) + last.replacement + t[last.end..n]
  {
    assert edits[|edits| - 1].end <= n;
  }

  /** Splicing last to first leaves every character outside the edits as it was. */
  lemma {:induction false} EditsAreWoven(t: string, edits: seq<TextEdit>)
    requires Ordered(edits, |t|)
    ensures ApplyEdits(t, edits) == Weave(t, edits, |t|)
    decreases |edits|
  {
    if edits == [] {
      assert t[..|t|] == t;
    } else {
      var last, front := edits[|edits| - 1], edits[..|edits| - 1];
      assert edits[|edits| - 1].end <= |t|;
      var u := Splice(t, last.start, last.end, last.replacement);
      hide Weave, Ordered;
      WovenLast(t, edits, |t|);
      EditsAreWoven(u, front);
      WeaveLonger(u, front, last.start, |u|);
      WeaveSame(t, u, front, last.start);
      SpliceTail(t, last);
    }
  }

  // ---- the links a reader sees ---------------------------------------------------

  datatype Seen = Seen(caption: string, dest: string)

  /** The labels and destinations of the links of `t`, in document order. */
  function SeenIn(t: string): (seen: seq<Seen>)
    ensures |seen| == |Scan(t)|
  {
    ScanPlaced(t);
    seq(|Scan(t)|, k requires 0 <= k < |Scan(t)| => Seen(Label(t, Scan(t)[k]), Dest(t, Scan(t)[k])))
  }

  function SeenChosen(seen: seq<Seen>, choices: seq<Option<string>>, n: nat): (r: seq<Seen>)
    requires n <= |choices| && n <= |seen|
    ensures |r| == |seen|
    ensures forall i :: 0 <= i < |seen| ==>
              r[i] == if i < n && choices[i].Some? then seen[i].(dest := choices[i].value) else seen[i]
  {
    seq(|seen|, i requires 0 <= i < |seen| => if i < n && choices[i].Some? then seen[i].(dest := choices[i].value) else seen[i])
  }

  /** Every choice up to `n` reads back whole, as the destination it replaces does. */
  ghost predicate CleanChoices(t: string, choices: seq<Option<string>>, n: nat)
    requires n <= |Scan(t)| && n <= |choices|
  {
    forall i :: 0 <= i < n && choices[i].Some? ==>
      WellPlaced(t, Scan(t)[i]) && Clean(choices[i].value) && Clean(Dest(t, Scan(t)[i]))
  }

  lemma {:induction false} SeenSpliced(t: string, k: nat, r: string)
    requires k < |Scan(t)| && WellPlaced(t, Scan(t)[k])
    requires Clean(r) && Clean(Dest(t, Scan(t)[k]))
    ensures var u := Splice(t, Scan(t)[k].dest, Scan(t)[k].destEnd, r);
            SeenIn(u) == SeenIn(t)[k := SeenIn(t)[k].(dest := r)]
  {
    hide Scan, Edited, Splice, Clean;
    var m := Scan(t)[k];
    var u, d := Splice(t, m.dest, m.destEnd, r), |r| - (m.destEnd - m.dest);
    SpliceEdits(t, m.dest, m.destEnd, r);
    ScanEdited(t, u, k, d);
    ScanPlaced(t);
    ScanPlaced(u);
    assert u[m.dest..m.destEnd + d] == r;
    forall j | 0 <= j < |Scan(t)| ensures SeenIn(u)[j] == SeenIn(t)[k := SeenIn(t)[k].(dest := r)][j] {
      SeenPlaced(t, u, k, d, j);
    }
  }

  lemma {:induction false} SeenPlaced(t: string, u: string, k: nat, d: int, j: nat)
    requires k < |Scan(t)| && j < |Scan(t)| && AllPlaced(t, Scan(t)) && AllPlaced(u, Scan(u))
    requires Edited(t, u, Scan(t)[k].dest, Scan(t)[k].destEnd, d) && GrownAt(Scan(t), Scan(u), k, d)
    ensures 0 <= Scan(t)[k].destEnd + d <= |u| && Scan(t)[k].dest <= Scan(t)[k].destEnd + d
    ensures SeenIn(u)[j] == if j == k then SeenIn(t)[j].(dest := u[Scan(t)[k].dest..Scan(t)[k].destEnd + d]) else SeenIn(t)[j]
  {
    EditChar(t, u, Scan(t)[k].dest, Scan(t)[k].destEnd, d, 0);
    hide Scan, Edited, Label, Dest, GrownAt, LinkPlaced;
    EveryLinkPlaced(t, u, k, d, j);
    TextsPlaced(t, u, Scan(t)[k].dest, Scan(t)[k].destEnd, d, Scan(t)[j], Scan(u)[j]);
    DestsDiffer(t, j, k);
  }

  /** Link `x` of `t` is a link of `u` too, with the same text in front of it. */
  ghost predicate SameLink(t: string, u: string, x: Link, y: Link) {
    && x == y && WellPlaced(t, x) && x.end <= |u| && t[..x.end] == u[..x.end]
  }

  /** Splicing a link leaves the links before it. */
  lemma {:induction false} EarlierLinks(t: string, k: nat, r: string)
    requires k < |Scan(t)| && WellPlaced(t, Scan(t)[k])
    requires Clean(r) && Clean(Dest(t, Scan(t)[k]))
    ensures var u := Splice(t, Scan(t)[k].dest, Scan(t)[k].destEnd, r);
            && |Scan(u)| == |Scan(t)| && Scan(u)[..k] == Scan(t)[..k]
            && forall i :: 0 <= i < k ==> SameLink(t, u, Scan(t)[i], Scan(u)[i])
  {
    var m := Scan(t)[k];
    var u := Splice(t, m.dest, m.destEnd, r);
    hide Scan, Clean, Splice, AllMoved, MovedBy;
    ScanSpliced(t, k, r, u);
    forall i | 0 <= i < k ensures SameLink(t, u, Scan(t)[i], Scan(u)[i]) {
      ScannedLink(t, i);
      ScanOrdered(t, i, k);
      var x := Scan(t)[i];
      assert Scan(u)[i] == Scan(u)[..k][i] == Scan(t)[..k][i];
      assert u[..x.end] == u[..m.dest][..x.end] == t[..m.dest][..x.end] == t[..x.end];
    }
  }

  lemma {:induction false} SameDest(t: string, u: string, x: Link)
    requires SameLink(t, u, x, x)
    ensures WellPlaced(u, x) && Dest(u, x) == Dest(t, x)
  {
    assert u[x.dest..x.destEnd] == u[..x.end][x.dest..x.destEnd] == t[..x.end][x.dest..x.destEnd] == t[x.dest..x.destEnd];
  }

  lemma {:induction false} CleanEarlier(t: string, u: string, choices: seq<Option<string>>, k: nat)
    requires k <= |Scan(t)| && k <= |Scan(u)| && k <= |choices| && CleanChoices(t, choices, k)
    requires forall i :: 0 <= i < k ==> SameLink(t, u, Scan(t)[i], Scan(u)[i])
    ensures CleanChoices(u, choices, k)
  {
    forall i | 0 <= i < k && choices[i].Some?
      ensures WellPlaced(u, Scan(u)[i]) && Clean(Dest(u, Scan(u)[i]))
    {
      SameDest(t, u, Scan(t)[i]);
    }
  }

  /** The text with the first `n` choices made. */
  function Chosen(t: string, choices: seq<Option<string>>, n: nat): string
    requires n <= |Scan(t)| && n <= |choices|
  {
    EditsOrdered(t, choices, n);
    ApplyEdits(t, EditsFor(Scan(t), choices, n))
  }

  /** Making the last choice first. */
  lemma {:induction false} ChosenLast(t: string, choices: seq<Option<string>>, n: nat)
    requires 0 < n <= |Scan(t)| && n <= |choices|
    ensures choices[n - 1].None? ==> Chosen(t, choices, n) == Chosen(t, choices, n - 1)
    ensures choices[n - 1].Some? ==>
              var m := Scan(t)[n - 1];
              && WellPlaced(t, m)
              && (Clean(choices[n - 1].value) && Clean(Dest(t, m)) ==>
                    var u := Splice(t, m.dest, m.destEnd, choices[n - 1].value);
                    |Scan(u)| == |Scan(t)| && Chosen(t, choices, n) == Chosen(u, choices, n - 1))
  {
    hide Scan, Clean;
    EditsOrdered(t, choices, n);
    EditsOrdered(t, choices, n - 1);
    ScannedLink(t, n - 1);
    match choices[n - 1]
    case None =>
      assert EditsFor(Scan(t), choices, n) == EditsFor(Scan(t), choices, n - 1);
    case Some(r) =>
      var m := Scan(t)[n - 1];
      if Clean(r) && Clean(Dest(t, m)) {
        var u := Splice(t, m.dest, m.destEnd, r);
        EarlierLinks(t, n - 1, r);
        EditsOrdered(u, choices, n - 1);
        EditsSame(Scan(u), Scan(t), choices, n - 1);
        var edits := EditsFor(Scan(t), choices, n);
        assert edits[..|edits| - 1] == EditsFor(Scan(t), choices, n - 1);
      }
  }

  /**
   * Rewriting is stable under scanning again: after any clean edits the scan finds
   * as many links, in the same order and with the same labels, each with the
   * destination chosen for it or the one it had, and the mask is the same text.
   */
  lemma {:induction false} CleanEdits(t: string, choices: seq<Option<string>>, n: nat)
    requires n <= |Scan(t)| && n <= |choices| && CleanChoices(t, choices, n)
    ensures SeenIn(Chosen(t, choices, n)) == SeenChosen(SeenIn(t), choices, n)
    ensures MaskLinks(Chosen(t, choices, n)) == MaskLinks(t)
    decreases n
  {
    hide Scan, Clean, Chosen, MaskLinks, Splice;
    if n == 0 {
      NothingChosen(t, choices);
    } else {
      ChosenLast(t, choices, n);
      match choices[n - 1]
      case None => CleanEdits(t, choices, n - 1);
      case Some(r) =>
        var m := Scan(t)[n - 1];
        var u := Splice(t, m.dest, m.destEnd, r);
        EarlierLinks(t, n - 1, r);
        CleanEarlier(t, u, choices, n - 1);
        CleanEdits(u, choices, n - 1);
        SeenSpliced(t, n - 1, r);
        MaskSpliced(t, n - 1, r);
    }
  }

  lemma {:induction false} NothingChosen(t: string, choices: seq<Option<string>>)
    ensures Chosen(t, choices, 0) == t
  {}

  // ---- the references the planner reads ------------------------------------------

  /** Every choice up to `n` is tame, and replaces a quiet destination. */
  ghost predicate TameChoices(t: string, choices: seq<Option<string>>, n: nat)
    requires n <= |Scan(t)| && n <= |choices|
  {
    forall i :: 0 <= i < n && choices[i].Some? ==>
      WellPlaced(t, Scan(t)[i]) && Tame(choices[i].value) && Quiet(Dest(t, Scan(t)[i]))
  }

  lemma {:induction false} TameIsClean(t: string, choices: seq<Option<string>>, n: nat)
    requires n <= |Scan(t)| && n <= |choices| && TameChoices(t, choices, n)
    ensures CleanChoices(t, choices, n)
  {}

  /** The lines that the replaced destinations marked. */
  function OpenedLines(t: string, choices: seq<Option<string>>, n: nat): set<nat>
    requires n <= |Scan(t)| && n <= |choices|
  {
    if n == 0 then {} else OpenedLines(t, choices, n - 1) + if choices[n - 1].Some? then OpenedBy(t, n - 1) else {}
  }

  function OpenedBy(t: string, k: nat): set<nat>
    requires k < |Scan(t)|
  {
    ScannedLink(t, k);
    Opened(t, Scan(t)[k])
  }

  /** The references, the first `n` with their chosen destinations. */
  function Rechosen(refs: seq<Ref>, choices: seq<Option<string>>, n: nat): (r: seq<Ref>)
    requires n <= |choices| && n <= |refs|
    ensures |r| == |refs|
    ensures forall i :: 0 <= i < |refs| ==>
              r[i] == if i < n && choices[i].Some? then refs[i].(dest := choices[i].value) else refs[i]
  {
    seq(|refs|, i requires 0 <= i < |refs| => if i < n && choices[i].Some? then refs[i].(dest := choices[i].value) else refs[i])
  }

  /** Texts that agree up to `n` have the same first line, when it ends before `x`, and agree below it. */
  lemma {:induction false} FirstBreakSame(t: string, u: string, x: nat, n: nat)
    requires x < n <= |t| && n <= |u| && t[..n] == u[..n] && !In(LineBreak, t[x])
    ensures u[x] == t[x]
    ensures Seek(u, 0, LineBreak) >= x <==> Seek(t, 0, LineBreak) >= x
    ensures var k := Seek(t, 0, LineBreak); k < x ==>
              var j := AfterBreak(t, k);
              && Seek(u, 0, LineBreak) == k && AfterBreak(u, k) == j <= x
              && t[j..][..n - j] == u[j..][..n - j]
  {
    assert forall i :: 0 <= i < n ==> t[i] == t[..n][i] == u[..n][i] == u[i];
    var k := Seek(t, 0, LineBreak);
    SeekMoved(t, 0, u, 0, LineBreak, n);
    if k < x {
      var j := AfterBreak(t, k);
      assert In(LineBreak, t[k]) && AfterBreak(u, k) == j <= x;
      assert t[j..][..n - j] == t[j..n] == t[..n][j..] == u[..n][j..] == u[j..n] == u[j..][..n - j];
    }
  }

  lemma {:induction false} LineOfPrefix(t: string, u: string, x: nat, n: nat)
    requires x < n <= |t| && n <= |u| && t[..n] == u[..n] && !In(LineBreak, t[x])
    ensures u[x] == t[x] && LineOf(u, x) == LineOf(t, x)
    decreases x
  {
    hide AfterBreak;
    FirstBreakSame(t, u, x, n);
    var k := Seek(t, 0, LineBreak);
    if k < x {
      var j := AfterBreak(t, k);
      LineOfPrefix(t[j..], u[j..], x - j, n - j);
    }
  }

  lemma {:induction false} SameOpened(t: string, u: string, x: Link)
    requires SameLink(t, u, x, x) && In(DestEnd, t[x.destEnd])
    ensures WellPlaced(u, x) && Opened(u, x) == Opened(t, x)
  {
    var n := x.end;
    assert forall i :: 0 <= i < n ==> t[i] == t[..n][i] == u[..n][i] == u[i];
    if !In(LineBreak, t[x.dest]) { LineOfPrefix(t, u, x.dest, n); }
    assert !In(DestEnd, '~');
    assert Three(t, x.dest, |t|, '~') <==> Three(u, x.dest, |u|, '~');
  }

  lemma {:induction false} DestStops(t: string, k: nat)
    requires k < |Scan(t)|
    ensures WellPlaced(t, Scan(t)[k]) && In(DestEnd, t[Scan(t)[k].destEnd])
  {
    ScannedLink(t, k);
    MatchAtIsThePattern(t, Scan(t)[k]);
    PatternDestEnds(t, Scan(t)[k]);
  }

  lemma {:induction false} TameEarlier(t: string, u: string, choices: seq<Option<string>>, k: nat)
    requires k <= |Scan(t)| && k <= |Scan(u)| && k <= |choices| && TameChoices(t, choices, k)
    requires forall i :: 0 <= i < k ==> SameLink(t, u, Scan(t)[i], Scan(u)[i])
    ensures TameChoices(u, choices, k) && OpenedLines(u, choices, k) == OpenedLines(t, choices, k)
  {
    hide Scan, Tame, Quiet, Opened, SameLink;
    if k > 0 {
      TameEarlier(t, u, choices, k - 1);
      assert Scan(u)[k - 1] == Scan(t)[k - 1] by { SameIs(t, u, Scan(t)[k - 1], Scan(u)[k - 1]); }
      SameDest(t, u, Scan(t)[k - 1]);
      DestStops(t, k - 1);
      SameOpened(t, u, Scan(t)[k - 1]);
    }
  }

  lemma {:induction false} SameIs(t: string, u: string, x: Link, y: Link)
    requires SameLink(t, u, x, y)
    ensures x == y
  {}

  lemma {:induction false} BaredTwice(kinds: seq<Kind>, a: set<nat>, b: set<nat>)
    ensures Bared(Bared(kinds, a), b) == Bared(kinds, b + a)
    ensures Bared(kinds, {}) == kinds
  {}

  lemma {:induction false} RechosenStep(refs: seq<Ref>, choices: seq<Option<string>>, n: nat)
    requires 0 < n <= |choices| && n <= |refs|
    ensures choices[n - 1].None? ==> Rechosen(refs, choices, n) == Rechosen(refs, choices, n - 1)
    ensures choices[n - 1].Some? ==>
              Rechosen(refs, choices, n) == Rechosen(refs[n - 1 := refs[n - 1].(dest := choices[n - 1].value)], choices, n - 1)
  {}

  lemma {:induction false} NothingOpened(t: string, choices: seq<Option<string>>, refs: seq<Ref>)
    ensures OpenedLines(t, choices, 0) == {} && Rechosen(refs, choices, 0) == refs
  {}

  lemma {:induction false} OpenedStep(t: string, choices: seq<Option<string>>, n: nat)
    requires 0 < n <= |Scan(t)| && n <= |choices|
    ensures WellPlaced(t, Scan(t)[n - 1])
    ensures OpenedLines(t, choices, n) == OpenedLines(t, choices, n - 1) + if choices[n - 1].Some? then Opened(t, Scan(t)[n - 1]) else {}
  {
    hide Opened, Scan;
    ScannedLink(t, n - 1);
  }

  /**
   * After any tame edits the references are the ones chosen, whatever lines are
   * protected, and only the lines that replaced destinations marked changed kind.
   */
  lemma {:induction false} ManyEdits(t: string, choices: seq<Option<string>>, n: nat, prot: seq<Option<Reason>>)
    requires n <= |Scan(t)| && n <= |choices| && TameChoices(t, choices, n)
    ensures AllPlaced(t, Scan(t)) && AllPlaced(Chosen(t, choices, n), Scan(Chosen(t, choices, n)))
    ensures RefsWith(Chosen(t, choices, n), prot) == Rechosen(RefsWith(t, prot), choices, n)
    ensures LineKinds(Chosen(t, choices, n), Classify) == Bared(LineKinds(t, Classify), OpenedLines(t, choices, n))
    decreases n
  {
    hide Scan, Clean, Chosen, Splice, RefsWith, LineKinds, AllPlaced, Tame, Quiet, SameLink, Opened, Bared, Rechosen, OpenedLines;
    ScanPlaced(t);
    if n == 0 {
      NothingChosen(t, choices);
      NothingOpened(t, choices, RefsWith(t, prot));
      BaredTwice(LineKinds(t, Classify), {}, {});
    } else {
      TameIsClean(t, choices, n);
      ChosenLast(t, choices, n);
      RechosenStep(RefsWith(t, prot), choices, n);
      OpenedStep(t, choices, n);
      match choices[n - 1]
      case None => ManyEdits(t, choices, n - 1, prot);
      case Some(r) =>
        var m := Scan(t)[n - 1];
        var u := Splice(t, m.dest, m.destEnd, r);
        EarlierLinks(t, n - 1, r);
        TameEarlier(t, u, choices, n - 1);
        RefsEdited(t, n - 1, r, prot);
        ManyEdits(u, choices, n - 1, prot);
        BaredTwice(LineKinds(t, Classify), Opened(t, m), OpenedLines(t, choices, n - 1));
    }
  }

  /** The references of `t` if its lines were of these kinds. */
  function RefsUnder(t: string, kinds: seq<Kind>): (r: Result<seq<Ref>, Uncertainty>)
    ensures r.Ok? ==> |r.value| == |Scan(t)|
  {
    ScanPlaced(t);
    match Protection(kinds)
    case Err(e) => Err(e)
    case Ok(prot) => Ok(RefsWith(t, prot))
  }

  function RefsRechosen(refs: Result<seq<Ref>, Uncertainty>, choices: seq<Option<string>>, n: nat): Result<seq<Ref>, Uncertainty>
    requires n <= |choices| && (refs.Ok? ==> n <= |refs.value|)
  {
    if refs.Err? then refs else Ok(Rechosen(refs.value, choices, n))
  }

  /** What reading the edited text again gives, told from the text before. */
  lemma {:induction false} Reread(t: string, choices: seq<Option<string>>, n: nat)
    requires n <= |Scan(t)| && n <= |choices| && TameChoices(t, choices, n)
    ensures Refs(Chosen(t, choices, n))
            == RefsRechosen(RefsUnder(t, Bared(LineKinds(t, Classify), OpenedLines(t, choices, n))), choices, n)
  {
    hide Scan, Chosen, RefsWith, LineKinds, Bared, TameChoices, Protection;
    var kinds := Bared(LineKinds(t, Classify), OpenedLines(t, choices, n));
    var prot := if Protection(kinds).Ok? then Protection(kinds).value else [];
    ManyEdits(t, choices, n, prot);
  }
}
