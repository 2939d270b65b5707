/** Replacing one link destination leaves the scan of the whole document alone. */
module LinkSplice {
  import opened Text
  import opened LinkGrammar

  /** `content[:start] + replacement + content[end:]`. */
  function Splice(t: string, s: nat, e: nat, r: string): (u: string)
    requires s <= e <= |t|
    ensures |u| == |t| - (e - s) + |r|
    ensures u[..s] == t[..s] && u[s..s + |r|] == r && u[s + |r|..] == t[e..]
  {
    t[..s] + r + t[e..]
  }

  /** A destination that LINK reads back whole, and that no title can start or end in. */
  predicate Clean(r: string) { r != [] && Free(DestEnd, r) && Free(Quote, r) }

  function Shift(m: Link, d: int): Link
    requires 0 <= m.start + d <= m.bracket + d <= m.dest + d <= m.destEnd + d <= m.end + d
  {
    Link(m.start + d, m.bracket + d, m.dest + d, m.destEnd + d, m.end + d)
  }

  function Grow(m: Link, d: int): Link
    requires 0 <= m.destEnd + d <= m.end + d
  {
    m.(destEnd := m.destEnd + d, end := m.end + d)
  }

  /** Characters `[s, e)` of `t` hold neither a quote nor the end of a destination. */
  predicate CleanRange(t: string, s: nat, e: nat)
    requires e <= |t|
  {
    s < e && forall p :: s <= p < e ==> !In(DestEnd, t[p]) && !In(Quote, t[p])
  }

  /** `u` is `t` with `[s, e)` replaced by something `d` longer; both middles are clean. */
  ghost predicate Edited(t: string, u: string, s: nat, e: nat, d: int) {
    && s < e <= |t| && s < e + d && |u| == |t| + d
    && (forall p {:trigger t[p]} :: 0 <= p < s ==> t[p] == u[p])
    && (forall p {:trigger t[p]} :: e <= p < |t| ==> t[p] == u[p + d])
    && CleanRange(t, s, e) && CleanRange(u, s, e + d)
  }

  /** The edit as seen from one place outside it. */
  lemma {:induction false} EditChar(t: string, u: string, s: nat, e: nat, d: int, i: nat)
    requires Edited(t, u, s, e, d)
    ensures s < e <= |t| && s < e + d && |u| == |t| + d
    ensures i < s ==> u[i] == t[i]
    ensures e <= i < |t| ==> u[i + d] == t[i]
  {}

  lemma {:induction false} SpliceEdits(t: string, s: nat, e: nat, r: string)
    requires s < e <= |t| && Clean(r) && Clean(t[s..e])
    ensures Edited(t, Splice(t, s, e, r), s, e, |r| - (e - s))
  {
    var u, d := Splice(t, s, e, r), |r| - (e - s);
    forall p | 0 <= p < s ensures t[p] == u[p] { assert t[..s][p] == u[..s][p]; }
    forall p | e <= p < |t| ensures t[p] == u[p + d] { assert t[e..][p - e] == u[s + |r|..][p - e]; }
    forall p | s <= p < e ensures t[p] == t[s..e][p - s] {}
    forall p | s <= p < e + d ensures u[p] == r[p - s] { assert u[s..s + |r|][p - s] == u[p]; }
  }

  // ---- scanning on either side of the edit -----------------------------------

  lemma {:induction false} SeekBefore(t: string, u: string, s: nat, e: nat, d: int, i: nat, k: Class)
    requires Edited(t, u, s, e, d) && i <= s
    ensures Seek(t, i, k) < s ==> Seek(u, i, k) == Seek(t, i, k)
    ensures Seek(t, i, k) >= s ==> Seek(u, i, k) == Seek(u, s, k) && Seek(t, i, k) == Seek(t, s, k)
    decreases s - i
  {
    hide Edited;
    EditChar(t, u, s, e, d, i);
    if i < s && !In(k, t[i]) { SeekBefore(t, u, s, e, d, i + 1, k); }
  }

  lemma {:induction false} SeekAfter(t: string, u: string, s: nat, e: nat, d: int, i: nat, k: Class)
    requires Edited(t, u, s, e, d) && e <= i <= |t|
    ensures Seek(u, i + d, k) == Seek(t, i, k) + d
    decreases |t| - i
  {
    if i < |t| && !In(k, t[i]) { SeekAfter(t, u, s, e, d, i + 1, k); }
  }

  lemma {:induction false} SeekThrough(t: string, s: nat, e: nat, k: Class)
    requires s <= e <= |t| && forall p :: s <= p < e ==> !In(k, t[p])
    ensures Seek(t, s, k) == Seek(t, e, k)
    decreases e - s
  {
    if s < e { SeekThrough(t, s + 1, e, k); }
  }

  /** Neither the old nor the new destination holds a character of class `k`. */
  ghost predicate Avoids(t: string, u: string, s: nat, e: nat, d: int, k: Class)
    requires Edited(t, u, s, e, d)
  {
    && (forall p :: s <= p < e ==> !In(k, t[p]))
    && (forall p :: s <= p < e + d ==> !In(k, u[p]))
  }

  /** A search that finds nothing up to the destination passes over it, old or new. */
  lemma {:induction false} SeekAcross(t: string, u: string, s: nat, e: nat, d: int, i: nat, k: Class)
    requires Edited(t, u, s, e, d) && i <= s && Avoids(t, u, s, e, d, k)
    requires Seek(t, i, k) >= s
    ensures Seek(t, i, k) >= e
    ensures Seek(u, i, k) == Seek(t, i, k) + d
  {
    SeekBefore(t, u, s, e, d, i, k);
    SeekThrough(t, s, e, k);
    SeekThrough(u, s, e + d, k);
    SeekAfter(t, u, s, e, d, e, k);
  }

  /** A search for a non-space cannot pass the destination. */
  lemma {:induction false} SeekStops(t: string, u: string, s: nat, e: nat, d: int, i: nat)
    requires Edited(t, u, s, e, d) && i <= s
    ensures Seek(u, i, NonSpace) == Seek(t, i, NonSpace) <= s
  {
    SeekBefore(t, u, s, e, d, i, NonSpace);
    assert !In(DestEnd, t[s]) && !In(DestEnd, u[s]);
  }

  // ---- one match attempt -----------------------------------------------------

  lemma {:induction false} HeadBefore(t: string, u: string, s: nat, e: nat, d: int, i: nat)
    requires Edited(t, u, s, e, d) && i < s
    requires Seek(t, i + 1, RightBracket) + 1 < s
    ensures HeadEnd(u, i) == HeadEnd(t, i)
    ensures HeadEnd(t, i).Some? ==> HeadEnd(t, i).value.1 <= s
  {
    hide Edited;
    var rb := Seek(t, i + 1, RightBracket);
    SeekBefore(t, u, s, e, d, i + 1, RightBracket);
    EditChar(t, u, s, e, d, i);
    EditChar(t, u, s, e, d, rb + 1);
    SeekStops(t, u, s, e, d, rb + 2);
  }

  lemma {:induction false} HeadAfter(t: string, u: string, s: nat, e: nat, d: int, i: nat)
    requires Edited(t, u, s, e, d) && e <= i < |t|
    ensures HeadEnd(t, i).None? ==> HeadEnd(u, i + d).None?
    ensures HeadEnd(t, i).Some? ==> HeadEnd(u, i + d) == Some((HeadEnd(t, i).value.0 + d, HeadEnd(t, i).value.1 + d))
  {
    hide Edited;
    var rb := Seek(t, i + 1, RightBracket);
    EditChar(t, u, s, e, d, i);
    SeekAfter(t, u, s, e, d, i + 1, RightBracket);
    if rb + 1 < |t| {
      EditChar(t, u, s, e, d, rb + 1);
      SeekAfter(t, u, s, e, d, rb + 2, NonSpace);
    }
  }

  lemma {:induction false} TitleAfter(t: string, u: string, s: nat, e: nat, d: int, w: nat)
    requires Edited(t, u, s, e, d) && e <= w < |t|
    ensures TitleEnd(t, w).None? ==> TitleEnd(u, w + d).None?
    ensures TitleEnd(t, w).Some? ==> TitleEnd(u, w + d) == Some(TitleEnd(t, w).value + d)
  {
    hide Edited;
    EditChar(t, u, s, e, d, w);
    SeekAfter(t, u, s, e, d, w + 1, Quote);
    var q := Seek(t, w + 1, Quote);
    if q < |t| {
      SeekAfter(t, u, s, e, d, q + 1, NonSpace);
      EditChar(t, u, s, e, d, Seek(t, q + 1, NonSpace));
    }
  }

  lemma {:induction false} TailAfter(t: string, u: string, s: nat, e: nat, d: int, i: nat)
    requires Edited(t, u, s, e, d) && e <= i <= |t|
    ensures TailEnd(t, i).None? ==> TailEnd(u, i + d).None?
    ensures TailEnd(t, i).Some? ==> TailEnd(u, i + d) == Some(TailEnd(t, i).value + d)
  {
    var w := Seek(t, i, NonSpace);
    SeekAfter(t, u, s, e, d, i, NonSpace);
    if w < |t| {
      assert t[w] == u[w + d];
      TitleAfter(t, u, s, e, d, w);
    }
  }

  /** Past the edit every attempt is the same one, moved. */
  lemma {:induction false} MatchAfter(t: string, u: string, s: nat, e: nat, d: int, i: nat)
    requires Edited(t, u, s, e, d) && e <= i < |t|
    ensures MatchAt(t, i).None? ==> MatchAt(u, i + d).None?
    ensures MatchAt(t, i).Some? ==> WellPlaced(t, MatchAt(t, i).value) && MatchAt(u, i + d) == Some(Shift(MatchAt(t, i).value, d))
  {
    HeadAfter(t, u, s, e, d, i);
    if HeadEnd(t, i).Some? {
      var (rb, ds) := HeadEnd(t, i).value;
      SeekAfter(t, u, s, e, d, ds, DestEnd);
      TailAfter(t, u, s, e, d, Seek(t, ds, DestEnd));
    }
  }

  lemma {:induction false} TitleEndIs(t: string, w: nat)
    requires w < |t| && Seek(t, w + 1, Quote) < |t|
    ensures var v := Seek(t, Seek(t, w + 1, Quote) + 1, NonSpace);
            TitleEnd(t, w) == if v < |t| && t[v] == ')' then Some(v + 1) else Option.None
  {}

  lemma {:induction false} TitleBefore(t: string, u: string, s: nat, e: nat, d: int, w: nat)
    requires Edited(t, u, s, e, d) && w < s
    requires Seek(t, w + 1, Quote) < s && Seek(t, Seek(t, w + 1, Quote) + 1, NonSpace) < s
    ensures TitleEnd(u, w) == TitleEnd(t, w)
  {
    hide Edited, In, Seek, TitleEnd;
    SeekBefore(t, u, s, e, d, w + 1, Quote);
    var q := Seek(t, w + 1, Quote);
    SeekBefore(t, u, s, e, d, q + 1, NonSpace);
    EditChar(t, u, s, e, d, Seek(t, q + 1, NonSpace));
    TitleEndIs(t, w);
    TitleEndIs(u, w);
  }

  lemma {:induction false} TailBefore(t: string, u: string, s: nat, e: nat, d: int, i: nat)
    requires Edited(t, u, s, e, d) && i < s
    requires TailEnd(t, i).Some? && TailEnd(t, i).value <= s
    ensures TailEnd(u, i) == TailEnd(t, i)
  {
    var w := Seek(t, i, NonSpace);
    SeekBefore(t, u, s, e, d, i, NonSpace);
    assert t[w] == u[w];
    if t[w] != ')' { TitleBefore(t, u, s, e, d, w); }
  }

  /** A match that ends before the edit is the same one. */
  lemma {:induction false} MatchBefore(t: string, u: string, s: nat, e: nat, d: int, i: nat)
    requires Edited(t, u, s, e, d) && i < s
    requires MatchAt(t, i).Some? && MatchAt(t, i).value.end <= s
    ensures MatchAt(u, i) == MatchAt(t, i)
  {
    var (rb, ds) := HeadEnd(t, i).value;
    HeadBefore(t, u, s, e, d, i);
    SeekBefore(t, u, s, e, d, ds, DestEnd);
    TailBefore(t, u, s, e, d, Seek(t, ds, DestEnd));
  }

  /** The edited link itself matches, with its destination's new length. */
  lemma {:induction false} MatchEdited(t: string, u: string, m: Link, d: int)
    requires WellPlaced(t, m) && MatchAt(t, m.start) == Some(m)
    requires Edited(t, u, m.dest, m.destEnd, d)
    ensures MatchAt(u, m.start) == Some(Grow(m, d))
  {
    HeadBefore(t, u, m.dest, m.destEnd, d, m.start);
    SeekAcross(t, u, m.dest, m.destEnd, d, m.dest, DestEnd);
    TailAfter(t, u, m.dest, m.destEnd, d, m.destEnd);
  }

  lemma {:induction false} BodySame(t: string, i: nat, j: nat, rb: nat, ds: nat)
    requires i < rb < ds <= |t| && j < rb
    ensures BodyAt(t, i, rb, ds).Some? == BodyAt(t, j, rb, ds).Some?
  {}

  /** An attempt that reaches a link's own ']' is a match. */
  lemma {:induction false} SharedBracketMatches(t: string, m: Link, i: nat)
    requires WellPlaced(t, m) && MatchAt(t, m.start) == Some(m)
    requires i < m.start && t[i] == '[' && Seek(t, i + 1, RightBracket) >= m.start
    ensures MatchAt(t, i).Some?
  {
    hide TitleEnd, TailEnd;
    SeekMeets(t, i + 1, m.start, RightBracket);
    SeekPast(t, m.start);
    BodySame(t, i, m.start, m.bracket, m.dest);
  }

  lemma {:induction false} SeekPast(t: string, i: nat)
    requires i < |t| && t[i] == '['
    ensures Seek(t, i, RightBracket) == Seek(t, i + 1, RightBracket)
  {}

  /** A failing attempt that starts before a link has its ']' before it too. */
  lemma {:induction false} BracketBefore(t: string, m: Link, i: nat)
    requires WellPlaced(t, m) && MatchAt(t, m.start) == Some(m)
    requires i < m.start && t[i] == '[' && MatchAt(t, i).None?
    ensures Seek(t, i + 1, RightBracket) < m.start
  {
    if Seek(t, i + 1, RightBracket) >= m.start { SharedBracketMatches(t, m, i); }
  }

  /** Its destination run stops short of the link's own destination. */
  lemma {:induction false} RunStopsBefore(t: string, m: Link, i: nat, rb: nat, ds: nat)
    requires WellPlaced(t, m) && MatchAt(t, m.start) == Some(m)
    requires i < rb < ds <= m.dest && BodyAt(t, i, rb, ds).None?
    ensures Seek(t, ds, DestEnd) < m.dest
  {
    var e := Seek(t, ds, DestEnd);
    if e >= m.dest {
      SeekMeets(t, ds, m.dest, DestEnd);
      assert false;
    }
  }

  lemma {:induction false} SeekMeets(t: string, i: nat, j: nat, k: Class)
    requires i <= j <= |t| && Seek(t, i, k) >= j
    ensures Seek(t, i, k) == Seek(t, j, k)
    decreases j - i
  {
    if i < j { SeekMeets(t, i + 1, j, k); }
  }

  /** Between a quote and the destination stands at least the link's own '('. */
  lemma {:induction false} CloseBeforeDest(t: string, m: Link, q: nat)
    requires WellPlaced(t, m) && MatchAt(t, m.start) == Some(m)
    requires q < m.dest && In(Quote, t[q])
    ensures Seek(t, q + 1, NonSpace) < m.dest
  {
    assert t[m.bracket + 1] == '(';
    assert forall p :: m.bracket + 1 < p < m.dest ==> !In(NonSpace, t[p]);
  }

  /** A title may close beyond the edit: then it fails there as it did before. */
  lemma {:induction false} TitleAcross(t: string, u: string, s: nat, e: nat, d: int, w: nat)
    requires Edited(t, u, s, e, d) && w < s && Seek(t, w + 1, Quote) >= s
    requires TitleEnd(t, w).None?
    ensures TitleEnd(u, w).None?
  {
    SeekAcross(t, u, s, e, d, w + 1, Quote);
    hide Edited;
    EditChar(t, u, s, e, d, w);
    var q := Seek(t, w + 1, Quote);
    if q < |t| {
      SeekAfter(t, u, s, e, d, q + 1, NonSpace);
      EditChar(t, u, s, e, d, Seek(t, q + 1, NonSpace));
    }
  }

  lemma {:induction false} TitleFailsBefore(t: string, u: string, m: Link, d: int, w: nat)
    requires WellPlaced(t, m) && MatchAt(t, m.start) == Some(m)
    requires Edited(t, u, m.dest, m.destEnd, d)
    requires w < m.dest && TitleEnd(t, w).None?
    ensures TitleEnd(u, w).None?
  {
    var s, e := m.dest, m.destEnd;
    var q := Seek(t, w + 1, Quote);
    if q < s {
      CloseBeforeDest(t, m, q);
      TitleBefore(t, u, s, e, d, w);
    } else {
      TitleAcross(t, u, s, e, d, w);
    }
  }

  lemma {:induction false} TailFailsBefore(t: string, u: string, m: Link, d: int, i: nat)
    requires WellPlaced(t, m) && MatchAt(t, m.start) == Some(m)
    requires Edited(t, u, m.dest, m.destEnd, d)
    requires i < m.dest && TailEnd(t, i).None?
    ensures TailEnd(u, i).None?
  {
    var w := Seek(t, i, NonSpace);
    SeekStops(t, u, m.dest, m.destEnd, d, i);
    if w < m.dest {
      assert t[w] == u[w];
      if t[w] != ')' && w > i && In(Quote, t[w]) { TitleFailsBefore(t, u, m, d, w); }
    }
  }

  /** An attempt that fails before the edit still fails, however far it looks ahead. */
  lemma {:induction false} FailsBefore(t: string, u: string, m: Link, d: int, i: nat)
    requires WellPlaced(t, m) && MatchAt(t, m.start) == Some(m)
    requires Edited(t, u, m.dest, m.destEnd, d)
    requires i < m.start && MatchAt(t, i).None?
    ensures MatchAt(u, i).None?
  {
    var s, e := m.dest, m.destEnd;
    if t[i] == '[' {
      BracketBefore(t, m, i);
      HeadBefore(t, u, s, e, d, i);
      if HeadEnd(t, i).Some? {
        var (rb, ds) := HeadEnd(t, i).value;
        RunStopsBefore(t, m, i, rb, ds);
        SeekBefore(t, u, s, e, d, ds, DestEnd);
        var f := Seek(t, ds, DestEnd);
        if f > ds { TailFailsBefore(t, u, m, d, f); }
      }
    }
  }

  // ---- the whole scan --------------------------------------------------------

  ghost predicate MovedBy(m: Link, x: Link, d: int) {
    && 0 <= m.start + d && m.start <= m.bracket <= m.dest <= m.destEnd <= m.end
    && x == Shift(m, d)
  }

  ghost predicate AllMoved(links: seq<Link>, others: seq<Link>, d: int) {
    |links| == |others| && forall k :: 0 <= k < |links| ==> MovedBy(links[k], others[k], d)
  }

  lemma {:induction false} ConsMoved(m: Link, x: Link, links: seq<Link>, others: seq<Link>, d: int)
    requires MovedBy(m, x, d) && AllMoved(links, others, d)
    ensures AllMoved([m] + links, [x] + others, d)
  {}

  /** From `e` on, the attempts `ys` are the attempts `xs` moved by `d`. */
  ghost predicate MovedFrom(xs: seq<Option<Link>>, ys: seq<Option<Link>>, e: nat, d: int) {
    && e + d >= 0 && |ys| == |xs| + d
    && forall i {:trigger xs[i]} :: e <= i < |xs| ==>
         if xs[i].None? then ys[i + d].None? else ys[i + d].Some? && MovedBy(xs[i].value, ys[i + d].value, d)
  }

  lemma {:induction false} WalkMoved(xs: seq<Option<Link>>, ys: seq<Option<Link>>, e: nat, d: int, i: nat)
    requires Progresses(xs) && MovedFrom(xs, ys, e, d) && e <= i <= |xs|
    ensures AllMoved(Walk(xs, i), Walk(ys, i + d), d)
    decreases |xs| - i
  {
    if i < |xs| {
      match xs[i]
      case None => WalkMoved(xs, ys, e, d, i + 1);
      case Some(x) =>
        WalkMoved(xs, ys, e, d, x.end);
        ConsMoved(x, Shift(x, d), Walk(xs, x.end), Walk(ys, x.end + d), d);
    }
  }

  /** `others` is `links` with the `k`-th link grown by `d` and the later ones moved by `d`. */
  ghost predicate GrownAt(links: seq<Link>, others: seq<Link>, k: nat, d: int)
    requires k < |links|
  {
    && |links| == |others|
    && others[..k] == links[..k]
    && 0 <= links[k].destEnd + d <= links[k].end + d
    && others[k] == Grow(links[k], d)
    && AllMoved(links[k + 1..], others[k + 1..], d)
  }

  lemma {:induction false} ConsGrown(x: Link, links: seq<Link>, others: seq<Link>, k: nat, d: int)
    requires k < |links| && GrownAt(links, others, k, d)
    ensures GrownAt([x] + links, [x] + others, k + 1, d)
  {
    assert ([x] + links)[..k + 1] == [x] + links[..k];
    assert ([x] + others)[..k + 1] == [x] + others[..k];
    assert ([x] + links)[k + 2..] == links[k + 1..];
    assert ([x] + others)[k + 2..] == others[k + 1..];
  }

  lemma {:induction false} HeadGrown(m: Link, x: Link, links: seq<Link>, others: seq<Link>, d: int)
    requires 0 <= m.destEnd + d <= m.end + d && x == Grow(m, d) && AllMoved(links, others, d)
    ensures GrownAt([m] + links, [x] + others, 0, d)
  {
    assert ([m] + links)[1..] == links && ([x] + others)[1..] == others;
  }

  /** How the attempts `ys` over the edited text relate to the attempts `xs`, for the edited link `m`. */
  ghost predicate AttemptsEdited(xs: seq<Option<Link>>, ys: seq<Option<Link>>, m: Link, d: int) {
    && Progresses(xs)
    && m.start < |xs| && xs[m.start] == Some(m)
    && 0 <= m.destEnd + d <= m.end + d && m.start < m.end + d
    && |ys| == |xs| + d >= m.end + d
    && (forall i :: 0 <= i < m.start && xs[i].None? ==> ys[i].None?)
    && (forall i :: 0 <= i < m.start && xs[i].Some? && xs[i].value.end <= m.start ==> ys[i] == xs[i])
    && ys[m.start] == Some(Grow(m, d))
    && MovedFrom(xs, ys, m.end, d)
  }

  lemma {:induction false} WalkEdited(xs: seq<Option<Link>>, ys: seq<Option<Link>>, m: Link, d: int, i: nat, k: nat)
    requires AttemptsEdited(xs, ys, m, d)
    requires k < |Walk(xs, i)| && Walk(xs, i)[k] == m
    ensures GrownAt(Walk(xs, i), Walk(ys, i), k, d)
    decreases |xs| - i
  {
    Walked(xs, i, k);
    match xs[i]
    case None => WalkEdited(xs, ys, m, d, i + 1, k);
    case Some(x) =>
      if k == 0 {
        WalkMoved(xs, ys, m.end, d, m.end);
        HeadGrown(m, Grow(m, d), Walk(xs, m.end), Walk(ys, m.end + d), d);
      } else {
        Walked(xs, x.end, k - 1);
        WalkEdited(xs, ys, m, d, x.end, k - 1);
        ConsGrown(x, Walk(xs, x.end), Walk(ys, x.end), k - 1, d);
      }
  }

  lemma {:induction false} EditRelatesAttempts(t: string, u: string, m: Link, d: int)
    requires WellPlaced(t, m) && MatchAt(t, m.start) == Some(m)
    requires Edited(t, u, m.dest, m.destEnd, d)
    ensures AttemptsEdited(Attempts(t), Attempts(u), m, d)
  {
    forall i | 0 <= i < m.start && MatchAt(t, i).None? ensures MatchAt(u, i).None? {
      FailsBefore(t, u, m, d, i);
    }
    forall i | 0 <= i < m.start && MatchAt(t, i).Some? && MatchAt(t, i).value.end <= m.start
      ensures MatchAt(u, i) == MatchAt(t, i)
    {
      MatchBefore(t, u, m.dest, m.destEnd, d, i);
    }
    MatchEdited(t, u, m, d);
    assert MovedFrom(Attempts(t), Attempts(u), m.end, d) by { EditMovesAttempts(t, u, m, d); }
  }

  lemma {:induction false} EditMovesAttempts(t: string, u: string, m: Link, d: int)
    requires WellPlaced(t, m) && Edited(t, u, m.dest, m.destEnd, d)
    ensures MovedFrom(Attempts(t), Attempts(u), m.end, d)
  {
    forall i | m.end <= i < |t|
      ensures if MatchAt(t, i).None? then MatchAt(u, i + d).None?
              else MatchAt(u, i + d).Some? && MovedBy(MatchAt(t, i).value, MatchAt(u, i + d).value, d)
    {
      MatchAfter(t, u, m.dest, m.destEnd, d, i);
    }
  }

  /**
   * Editing the destination of the `k`-th link and scanning again finds the same
   * links: earlier ones in place, the edited one with its new length, later ones moved.
   */
  lemma {:induction false} ScanEdited(t: string, u: string, k: nat, d: int)
    requires k < |Scan(t)| && Scan(t)[k].destEnd <= |t|
    requires Edited(t, u, Scan(t)[k].dest, Scan(t)[k].destEnd, d)
    ensures GrownAt(Scan(t), Scan(u), k, d)
  {
    var m := Scan(t)[k];
    ScannedLink(t, k);
    EditRelatesAttempts(t, u, m, d);
    WalkEdited(Attempts(t), Attempts(u), m, d, 0, k);
  }

  /** The same for the splice the rewriter makes. */
  lemma {:induction false} ScanSpliced(t: string, k: nat, r: string, u: string)
    requires k < |Scan(t)| && WellPlaced(t, Scan(t)[k])
    requires Clean(r) && Clean(Dest(t, Scan(t)[k]))
    requires u == Splice(t, Scan(t)[k].dest, Scan(t)[k].destEnd, r)
    ensures GrownAt(Scan(t), Scan(u), k, |r| - (Scan(t)[k].destEnd - Scan(t)[k].dest))
  {
    hide Scan, Edited, Splice, GrownAt, Clean;
    var m := Scan(t)[k];
    SpliceEdits(t, m.dest, m.destEnd, r);
    ScanEdited(t, u, k, |r| - (m.destEnd - m.dest));
  }
}
