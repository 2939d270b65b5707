/** Many destination edits at once, spliced last to first, and the mask that guards them. */
module LinkEdits {
  import opened Text
  import opened LinkGrammar
  import opened LinkSplice
  import opened LinkContext

  // ---- the mask --------------------------------------------------------------

  const MASK := "<DOCPLANE-LINK-DESTINATION>"

  /** The links follow each other in `t` from `pos` on. */
  predicate Maskable(t: string, links: seq<Link>, pos: nat) {
    if links == [] then pos <= |t|
    else WellPlaced(t, links[0]) && pos <= links[0].start && Maskable(t, links[1..], links[0].end)
  }

  /** `text` from `pos` on, with the destinations of `links` masked. */
  function MaskFrom(t: string, links: seq<Link>, pos: nat): string
    requires Maskable(t, links, pos)
  {
    if links == [] then t[pos..]
    else MaskHead(t, links[0], pos) + MaskFrom(t, links[1..], links[0].end)
  }

  lemma {:induction false} MaskableAt(t: string, links: seq<Link>, k: nat, pos: nat)
    requires Maskable(t, links, pos) && k < |links|
    ensures WellPlaced(t, links[k]) && pos <= links[k].start
    ensures k > 0 ==> links[0].end <= links[k].start
  {
    if k > 0 { MaskableAt(t, links[1..], k - 1, links[0].end); }
  }

  /** The text before a link and the link with its destination masked. */
  function MaskHead(t: string, m: Link, pos: nat): string
    requires WellPlaced(t, m) && pos <= m.start
  {
    t[pos..m.start] + "[" + Label(t, m) + "](" + MASK + ")"
  }

  lemma {:induction false} ScanMaskable(t: string, k: nat, pos: nat)
    requires k <= |Scan(t)| && pos <= |t| && (k < |Scan(t)| ==> pos <= Scan(t)[k].start)
    ensures Maskable(t, Scan(t)[k..], pos)
    decreases |Scan(t)| - k
  {
    if k < |Scan(t)| {
      ScannedLink(t, k);
      if k + 1 < |Scan(t)| { ScanOrdered(t, k, k + 1); }
      ScanMaskable(t, k + 1, Scan(t)[k].end);
      assert Scan(t)[k..][1..] == Scan(t)[k + 1..];
    }
  }

  /** `mask_links`. */
  function MaskLinks(t: string): string {
    ScanMaskable(t, 0, 0);
    assert Scan(t)[0..] == Scan(t);
    MaskFrom(t, Scan(t), 0)
  }

  lemma {:induction false} HeadBefore(t: string, u: string, s: nat, e: nat, d: int, x: Link, y: Link, pos: nat)
    requires Edited(t, u, s, e, d) && WellPlaced(t, x) && WellPlaced(u, y) && pos <= x.start
    requires x.bracket <= s && y.start == x.start && y.bracket == x.bracket
    ensures MaskHead(u, y, pos) == MaskHead(t, x, pos)
  {
    SlicePlaced(t, u, s, e, d, pos, x.start);
    SlicePlaced(t, u, s, e, d, x.start + 1, x.bracket);
  }

  lemma {:induction false} HeadAfter(t: string, u: string, s: nat, e: nat, d: int, x: Link, y: Link, pos: nat)
    requires Edited(t, u, s, e, d) && WellPlaced(t, x) && WellPlaced(u, y) && e <= pos <= x.start && MovedBy(x, y, d)
    ensures MaskHead(u, y, pos + d) == MaskHead(t, x, pos)
  {
    SlicePlaced(t, u, s, e, d, pos, x.start);
    SlicePlaced(t, u, s, e, d, x.start + 1, x.bracket);
  }

  lemma {:induction false} RestMoved(xs: seq<Link>, ys: seq<Link>, d: int)
    requires xs != [] && AllMoved(xs, ys, d)
    ensures MovedBy(xs[0], ys[0], d) && AllMoved(xs[1..], ys[1..], d)
  {
    forall k | 0 <= k < |xs[1..]| ensures MovedBy(xs[1..][k], ys[1..][k], d) { assert MovedBy(xs[k + 1], ys[k + 1], d); }
  }

  /** Past the edit the masks agree. */
  lemma {:induction false} MaskAfter(t: string, u: string, s: nat, e: nat, d: int, xs: seq<Link>, ys: seq<Link>, pos: nat)
    requires Edited(t, u, s, e, d) && e <= pos && Maskable(t, xs, pos) && Maskable(u, ys, pos + d)
    requires AllMoved(xs, ys, d)
    ensures MaskFrom(u, ys, pos + d) == MaskFrom(t, xs, pos)
    decreases |xs|
  {
    hide Edited, Label, MaskHead;
    if xs == [] {
      SuffixSame(t, u, s, e, d, pos);
    } else {
      RestMoved(xs, ys, d);
      HeadAfter(t, u, s, e, d, xs[0], ys[0], pos);
      MaskAfter(t, u, s, e, d, xs[1..], ys[1..], xs[0].end);
    }
  }

  lemma {:induction false} RestGrown(xs: seq<Link>, ys: seq<Link>, k: nat, d: int)
    requires 0 < k < |xs| && GrownAt(xs, ys, k, d)
    ensures xs[0] == ys[0] && GrownAt(xs[1..], ys[1..], k - 1, d)
  {
    assert xs[0] == xs[..k][0] == ys[..k][0] == ys[0];
    assert xs[1..][..k - 1] == xs[..k][1..] && ys[1..][..k - 1] == ys[..k][1..];
    assert xs[1..][k..] == xs[k + 1..] && ys[1..][k..] == ys[k + 1..];
  }

  lemma {:induction false} MaskEdited(t: string, u: string, s: nat, e: nat, d: int, xs: seq<Link>, ys: seq<Link>, pos: nat)
    requires Edited(t, u, s, e, d) && pos <= s && Maskable(t, xs, pos) && Maskable(u, ys, pos)
    requires xs != [] && ys != [] && xs[0].dest == s && xs[0].end >= e
    requires ys[0].start == xs[0].start && ys[0].bracket == xs[0].bracket && ys[0].end == xs[0].end + d
    requires AllMoved(xs[1..], ys[1..], d)
    ensures MaskFrom(u, ys, pos) == MaskFrom(t, xs, pos)
  {
    hide Edited, Label, MaskHead;
    HeadBefore(t, u, s, e, d, xs[0], ys[0], pos);
    MaskAfter(t, u, s, e, d, xs[1..], ys[1..], xs[0].end);
  }

  /** The edit is inside the `k`-th destination, which the mask hides. */
  lemma {:induction false} MaskAcross(t: string, u: string, s: nat, e: nat, d: int, xs: seq<Link>, ys: seq<Link>, k: nat, pos: nat)
    requires Edited(t, u, s, e, d) && pos <= s && Maskable(t, xs, pos) && Maskable(u, ys, pos)
    requires k < |xs| && GrownAt(xs, ys, k, d) && xs[k].dest == s && xs[k].destEnd == e
    ensures MaskFrom(u, ys, pos) == MaskFrom(t, xs, pos)
    decreases k
  {
    hide Edited, Label, MaskHead;
    MaskableAt(t, xs, k, pos);
    if k == 0 {
      MaskEdited(t, u, s, e, d, xs, ys, pos);
    } else {
      RestGrown(xs, ys, k, d);
      HeadBefore(t, u, s, e, d, xs[0], ys[0], pos);
      MaskAcross(t, u, s, e, d, xs[1..], ys[1..], k - 1, xs[0].end);
    }
  }

  lemma {:induction false} MaskSpliced(t: string, k: nat, r: string)
    requires k < |Scan(t)| && WellPlaced(t, Scan(t)[k])
    requires Clean(r) && Clean(Dest(t, Scan(t)[k]))
    ensures MaskLinks(Splice(t, Scan(t)[k].dest, Scan(t)[k].destEnd, r)) == MaskLinks(t)
  {
    var m := Scan(t)[k];
    var u, d := Splice(t, m.dest, m.destEnd, r), |r| - (m.destEnd - m.dest);
    SpliceEdits(t, m.dest, m.destEnd, r);
    ScanEdited(t, u, k, d);
    ScanMaskable(t, 0, 0);
    ScanMaskable(u, 0, 0);
    assert Scan(t)[0..] == Scan(t) && Scan(u)[0..] == Scan(u);
    MaskAcross(t, u, m.dest, m.destEnd, d, Scan(t), Scan(u), k, 0);
  }

  // ---- many edits ------------------------------------------------------------

  datatype TextEdit = TextEdit(start: nat, end: nat, replacement: string)

  /** In document order and apart from each other, within `n` characters. */
  ghost predicate Ordered(edits: seq<TextEdit>, n: nat) {
    && (forall i :: 0 <= i < |edits| ==> edits[i].start <= edits[i].end <= n)
    && (forall i, j :: 0 <= i < j < |edits| ==> edits[i].end <= edits[j].start)
  }

  /** The splice loop over `reversed(edits)`. */
  function ApplyEdits(t: string, edits: seq<TextEdit>): string
    requires Ordered(edits, |t|)
    decreases |edits|
  {
    if edits == [] then t
    else
      var last := edits[|edits| - 1];
      assert edits[|edits| - 1].end <= |t|;
      ApplyEdits(Splice(t, last.start, last.end, last.replacement), edits[..|edits| - 1])
  }

  /** `for start, end, replacement in reversed(edits)`. */
  method SpliceAll(t: string, edits: seq<TextEdit>) returns (content: string)
    requires Ordered(edits, |t|)
    ensures content == ApplyEdits(t, edits)
  {
    content := t;
    var j := |edits|;
    assert edits[..j] == edits;
    while j > 0
      invariant 0 <= j <= |edits| && Ordered(edits[..j], |content|)
      invariant ApplyEdits(content, edits[..j]) == ApplyEdits(t, edits)
    {
      j := j - 1;
      assert edits[..j + 1][..j] == edits[..j];
      content := Splice(content, edits[j].start, edits[j].end, edits[j].replacement);
    }
  }

  /** The edits that give each of the first `n` links with a choice its new destination. */
  function EditsFor(links: seq<Link>, choices: seq<Option<string>>, n: nat): (edits: seq<TextEdit>)
    requires n <= |links| && n <= |choices|
  {
    if n == 0 then []
    else
      EditsFor(links, choices, n - 1)
      + match choices[n - 1] case None => [] case Some(r) => [TextEdit(links[n - 1].dest, links[n - 1].destEnd, r)]
  }

  lemma {:induction false} EditsOrdered(t: string, choices: seq<Option<string>>, n: nat)
    requires n <= |Scan(t)| && n <= |choices|
    ensures Ordered(EditsFor(Scan(t), choices, n), |t|)
    ensures forall i :: 0 <= i < |EditsFor(Scan(t), choices, n)| ==>
              n > 0 && EditsFor(Scan(t), choices, n)[i].end <= Scan(t)[n - 1].end
  {
    hide Scan, MatchAt;
    if n > 0 {
      EditsOrdered(t, choices, n - 1);
      ScannedLink(t, n - 1);
      if n > 1 { ScanOrdered(t, n - 2, n - 1); }
    }
  }

  lemma {:induction false} EditsSame(xs: seq<Link>, ys: seq<Link>, choices: seq<Option<string>>, n: nat)
    requires n <= |xs| && n <= |ys| && n <= |choices| && xs[..n] == ys[..n]
    ensures EditsFor(xs, choices, n) == EditsFor(ys, choices, n)
  {
    if n > 0 {
      assert xs[n - 1] == xs[..n][n - 1] == ys[..n][n - 1] == ys[n - 1];
      assert xs[..n - 1] == xs[..n][..n - 1] == ys[..n][..n - 1] == ys[..n - 1];
      EditsSame(xs, ys, choices, n - 1);
    }
  }
}
