/** The LINK pattern of `migration/links.py` as a hand-written scanner. */
module LinkGrammar {
  import opened Text

  /**
   * One match: '[' at `start`, ']' at `bracket`, the destination group is
   * `[dest, destEnd)` and the match ends before `end`.
   */
  datatype Link = Link(start: nat, bracket: nat, dest: nat, destEnd: nat, end: nat)

  function Label(t: string, m: Link): string
    requires m.start < m.bracket <= |t|
  {
    t[m.start + 1..m.bracket]
  }

  function Dest(t: string, m: Link): string
    requires m.dest <= m.destEnd <= |t|
  {
    t[m.dest..m.destEnd]
  }

  /** Where a tail whose title opens at `w` ends: `[^"']*["']\s*\)`. */
  function TitleEnd(t: string, w: nat): (x: Option<nat>)
    requires w < |t|
    ensures x.Some? ==> w + 2 < x.value <= |t|
  {
    var q := Seek(t, w + 1, Quote);
    if q == |t| then Option.None
    else
      var v := Seek(t, q + 1, NonSpace);
      if v < |t| && t[v] == ')' then Some(v + 1) else Option.None
  }

  /** Where the part after the destination ends: `\s*`, an optional title, `\s*`, ')'. */
  function TailEnd(t: string, e: nat): (x: Option<nat>)
    requires e <= |t|
    ensures x.Some? ==> e < x.value <= |t|
  {
    var w := Seek(t, e, NonSpace);
    if w == |t| then Option.None
    else if t[w] == ')' then Some(w + 1)
    else if w > e && In(Quote, t[w]) then TitleEnd(t, w)
    else Option.None
  }

  /** `\[([^\]]*)\]\(\s*`: where the label's bracket is and where the destination may start. */
  function HeadEnd(t: string, i: nat): (h: Option<(nat, nat)>)
    requires i < |t|
    ensures h.Some? ==> i < h.value.0 < h.value.1 - 1 && h.value.1 <= |t|
  {
    if t[i] != '[' then Option.None
    else
      var rb := Seek(t, i + 1, RightBracket);
      if rb + 1 >= |t| || t[rb + 1] != '(' then Option.None
      else Some((rb, Seek(t, rb + 2, NonSpace)))
  }

  /** `([^)\s]+?)` and all that follows it. */
  function BodyAt(t: string, i: nat, rb: nat, d: nat): (b: Option<Link>)
    requires i < rb < d <= |t|
    ensures b.Some? ==> WellPlaced(t, b.value) && b.value.start == i && b.value.bracket == rb && b.value.dest == d
  {
    var e := Seek(t, d, DestEnd);
    if d == e then Option.None
    else
      match TailEnd(t, e)
      case None => Option.None
      case Some(end) => Some(Link(i, rb, d, e, end))
  }

  /** The match of LINK that starts at `i`, if there is one. */
  function MatchAt(t: string, i: nat): (b: Option<Link>)
    requires i < |t|
    ensures b.Some? ==> WellPlaced(t, b.value) && b.value.start == i
  {
    match HeadEnd(t, i)
    case None => Option.None
    case Some((rb, d)) => BodyAt(t, i, rb, d)
  }

  /** The attempt at every position of `t`. */
  function Attempts(t: string): (ms: seq<Option<Link>>)
    ensures |ms| == |t|
    ensures forall i :: 0 <= i < |t| ==> ms[i] == MatchAt(t, i)
  {
    seq(|t|, i requires 0 <= i < |t| => MatchAt(t, i))
  }

  /** Leftmost matches from `i` on, each search resuming where the last match ended. */
  function Walk(ms: seq<Option<Link>>, i: nat): seq<Link>
    decreases |ms| - i
  {
    if i >= |ms| then []
    else
      match ms[i]
      case None => Walk(ms, i + 1)
      case Some(m) => [m] + Walk(ms, if m.end > i then m.end else i + 1)
  }

  /** `LINK.finditer`. */
  function Scan(t: string): seq<Link> { Walk(Attempts(t), 0) }

  ghost predicate Progresses(ms: seq<Option<Link>>) {
    forall i :: 0 <= i < |ms| && ms[i].Some? ==> ms[i].value.start == i < ms[i].value.end <= |ms|
  }

  /** Every link of a walk is the attempt at its own start. */
  lemma {:induction false} Walked(ms: seq<Option<Link>>, i: nat, k: nat)
    requires Progresses(ms) && k < |Walk(ms, i)|
    ensures var m := Walk(ms, i)[k]; i <= m.start < |ms| && ms[m.start] == Some(m)
    decreases |ms| - i
  {
    match ms[i]
    case None => Walked(ms, i + 1, k);
    case Some(m) => if k > 0 { Walked(ms, m.end, k - 1); }
  }

  lemma {:induction false} WalkOrdered(ms: seq<Option<Link>>, i: nat, k: nat, l: nat)
    requires Progresses(ms) && k < l < |Walk(ms, i)|
    ensures Walk(ms, i)[k].end <= Walk(ms, i)[l].start
    decreases |ms| - i
  {
    match ms[i]
    case None => WalkOrdered(ms, i + 1, k, l);
    case Some(m) => if k == 0 { Walked(ms, m.end, l - 1); } else { WalkOrdered(ms, m.end, k - 1, l - 1); }
  }

  /** Every link a scan returns is a match at its own start. */
  lemma {:induction false} ScannedLink(t: string, k: nat)
    requires k < |Scan(t)|
    ensures var m := Scan(t)[k]; WellPlaced(t, m) && MatchAt(t, m.start) == Some(m)
  {
    Walked(Attempts(t), 0, k);
  }

  /** Links come in document order and do not overlap. */
  lemma {:induction false} ScanOrdered(t: string, k: nat, l: nat)
    requires k < l < |Scan(t)|
    ensures Scan(t)[k].end <= Scan(t)[l].start
  {
    WalkOrdered(Attempts(t), 0, k, l);
  }

  predicate WellPlaced(t: string, m: Link) {
    m.start < m.bracket < m.dest < m.destEnd < m.end <= |t|
  }

  // ---- the pattern itself ----------------------------------------------------

  predicate AllSpace(s: string) { forall p :: 0 <= p < |s| ==> IsSpace(s[p]) }

  /** `\s*(?:\s+["'][^"']*["'])?\s*\)` over exactly `t[e..end]`, for some choice of the splits. */
  ghost predicate TailMatches(t: string, e: nat, end: nat)
    requires e <= end <= |t|
  {
    || (e < end && AllSpace(t[e..end - 1]) && t[end - 1] == ')')
    || exists w: nat, q: nat :: TitledTail(t, e, w, q, end)
  }

  /** With a title: spaces and an opening quote at `w`, a closing quote at `q`. */
  ghost predicate TitledTail(t: string, e: nat, w: nat, q: nat, end: nat)
    requires end <= |t|
  {
    && e < w < q < end - 1
    && AllSpace(t[e..w]) && In(Quote, t[w])
    && Free(Quote, t[w + 1..q]) && In(Quote, t[q])
    && AllSpace(t[q + 1..end - 1]) && t[end - 1] == ')'
  }

  /** LINK matches exactly `t[m.start..m.end]` with the groups `m` names. */
  ghost predicate PatternMatches(t: string, m: Link) {
    && WellPlaced(t, m)
    && t[m.start] == '[' && Free(RightBracket, t[m.start + 1..m.bracket]) && t[m.bracket] == ']'
    && t[m.bracket + 1] == '(' && m.bracket + 2 <= m.dest && AllSpace(t[m.bracket + 2..m.dest])
    && Free(DestEnd, t[m.dest..m.destEnd])
    && TailMatches(t, m.destEnd, m.end)
  }

  lemma {:induction false} SeekIs(t: string, i: nat, k: Class, j: nat)
    requires i <= j <= |t|
    requires Free(k, t[i..j])
    requires j < |t| ==> In(k, t[j])
    ensures Seek(t, i, k) == j
  {
    assert forall p :: i <= p < j ==> t[i..j][p - i] == t[p];
  }

  lemma {:induction false} SpacesSeek(t: string, i: nat, j: nat)
    requires i <= j < |t| && AllSpace(t[i..j]) && !IsSpace(t[j])
    ensures Seek(t, i, NonSpace) == j
  {
    assert forall p :: i <= p < j ==> t[i..j][p - i] == t[p];
  }

  lemma {:induction false} PlainTailFound(t: string, e: nat, end: nat)
    requires e < end <= |t| && AllSpace(t[e..end - 1]) && t[end - 1] == ')'
    ensures TailEnd(t, e) == Some(end)
  {
    SpacesSeek(t, e, end - 1);
  }

  lemma {:induction false} TitledTailFound(t: string, e: nat, w: nat, q: nat, end: nat)
    requires end <= |t| && TitledTail(t, e, w, q, end)
    ensures TailEnd(t, e) == Some(end)
  {
    SpacesSeek(t, e, w);
    SeekIs(t, w + 1, Quote, q);
    SpacesSeek(t, q + 1, end - 1);
  }

  lemma {:induction false} SeekSpaces(t: string, i: nat)
    requires i <= |t|
    ensures AllSpace(t[i..Seek(t, i, NonSpace)])
  {
    var w := Seek(t, i, NonSpace);
    forall p | 0 <= p < w - i ensures IsSpace(t[i..w][p]) { assert !In(NonSpace, t[i + p]); }
  }

  lemma {:induction false} FoundTail(t: string, e: nat, end: nat)
    requires e <= end <= |t|
    requires TailEnd(t, e) == Some(end)
    ensures TailMatches(t, e, end)
  {
    var w := Seek(t, e, NonSpace);
    if t[w] != ')' {
      var q := Seek(t, w + 1, Quote);
      SeekSpaces(t, e);
      SeekSpaces(t, q + 1);
      assert TitledTail(t, e, w, q, end);
    }
  }

  lemma {:induction false} TailPattern(t: string, e: nat, end: nat)
    requires e <= end <= |t|
    ensures TailEnd(t, e) == Some(end) <==> TailMatches(t, e, end)
  {
    if e < end && AllSpace(t[e..end - 1]) && t[end - 1] == ')' {
      PlainTailFound(t, e, end);
    } else if w: nat, q: nat :| TitledTail(t, e, w, q, end) {
      TitledTailFound(t, e, w, q, end);
    }
    if TailEnd(t, e) == Some(end) { FoundTail(t, e, end); }
  }

  lemma {:induction false} PatternHead(t: string, m: Link)
    requires PatternMatches(t, m)
    ensures HeadEnd(t, m.start) == Some((m.bracket, m.dest))
  {
    SeekIs(t, m.start + 1, RightBracket, m.bracket);
    assert t[m.dest] == t[m.dest..m.destEnd][0];
    SpacesSeek(t, m.bracket + 2, m.dest);
  }

  lemma {:induction false} PatternBody(t: string, m: Link)
    requires PatternMatches(t, m)
    ensures BodyAt(t, m.start, m.bracket, m.dest) == Some(m)
  {
    PatternDestEnds(t, m);
    SeekIs(t, m.dest, DestEnd, m.destEnd);
    TailPattern(t, m.destEnd, m.end);
  }

  lemma {:induction false} PatternIsFound(t: string, m: Link)
    requires PatternMatches(t, m)
    ensures MatchAt(t, m.start) == Some(m)
  {
    PatternHead(t, m);
    PatternBody(t, m);
  }

  lemma {:induction false} FoundIsPattern(t: string, m: Link)
    requires m.start < |t|
    requires MatchAt(t, m.start) == Some(m)
    ensures PatternMatches(t, m)
  {
    TailPattern(t, m.destEnd, m.end);
  }

  /**
   * The scanner finds `m` exactly when the pattern can match it, whatever
   * greedy or lazy order the engine tries: at one start there is one match.
   */
  lemma {:induction false} MatchAtIsThePattern(t: string, m: Link)
    requires m.start < |t|
    ensures MatchAt(t, m.start) == Some(m) <==> PatternMatches(t, m)
  {
    if PatternMatches(t, m) { PatternIsFound(t, m); }
    if MatchAt(t, m.start) == Some(m) { FoundIsPattern(t, m); }
  }

  /** The lazy destination group cannot stop before its run of characters does. */
  lemma {:induction false} PatternDestEnds(t: string, m: Link)
    requires PatternMatches(t, m)
    ensures In(DestEnd, t[m.destEnd])
  {
    if m.destEnd < m.end - 1 && AllSpace(t[m.destEnd..m.end - 1]) {
      assert t[m.destEnd] == t[m.destEnd..m.end - 1][0];
    } else if w: nat, q: nat :| TitledTail(t, m.destEnd, w, q, m.end) {
      assert t[m.destEnd] == t[m.destEnd..w][0];
    }
  }
}
