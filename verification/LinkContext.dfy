/** Which references of a document are protected, and why an edit cannot change that. */
module LinkContext {
  import opened Text
  import opened LinkGrammar
  import opened LinkSplice

  datatype Reason = FencedCode | InlineCode | Blockquote | EvidenceSurface

  datatype Marker = Ticks | Tildes

  function Spelling(marker: Marker): string {
    match marker case Ticks => "```" case Tildes => "~~~"
  }

  /** An unterminated fence: its marker and the line that opened it. */
  datatype Uncertainty = UnterminatedFence(marker: Marker, line: nat)

  // ---- protected lines -------------------------------------------------------

  /** What `protected_lines` asks of a line. */
  datatype Kind = Kind(marker: Option<Marker>, closesTicks: bool, closesTildes: bool, quoted: bool)

  function Classify(line: string): Kind {
    var left := LStrip(line);
    Kind(
      // ^\s*(```|~~~)
      if StartsWith(left, "```") then Some(Ticks) else if StartsWith(left, "~~~") then Some(Tildes) else Option.None,
      StartsWith(Strip(line), "```"),
      StartsWith(Strip(line), "~~~"),
      StartsWith(left, ">"))
  }

  predicate Closes(kind: Kind, marker: Marker) {
    if marker.Ticks? then kind.closesTicks else kind.closesTildes
  }

  /** A marker at the start survives stripping on the right, and none appears by it. */
  lemma {:induction false} StripKeepsMarker(line: string, p: string)
    requires |p| == 3 && !IsSpace(p[2])
    ensures StartsWith(Strip(line), p) <==> StartsWith(LStrip(line), p)
  {
    var left, stripped := LStrip(line), Strip(line);
    if StartsWith(left, p) {
      assert left[2] == left[..3][2];
      assert |stripped| >= 3;
    }
    if |stripped| >= 3 { assert stripped[..3] == left[..3]; }
  }

  /** `Closes` tests the line's own marker. */
  lemma {:induction false} ClosesItsOwn(line: string, marker: Marker)
    ensures Closes(Classify(line), marker) <==> Classify(line).marker == Some(marker)
  {
    var left := LStrip(line);
    StripKeepsMarker(line, Spelling(marker));
    assert StartsWith(left, "```") ==> left[..3][0] == '`';
    assert StartsWith(left, "~~~") ==> left[..3][0] == '~';
  }

  /** Each line of `t`, as `classify` sees it. */
  function LineKinds<K>(t: string, classify: string -> K): seq<K>
    decreases |t|
  {
    if t == [] then []
    else
      var k := Seek(t, 0, LineBreak);
      [classify(t[..k])] + (if k == |t| then [] else LineKinds(t[AfterBreak(t, k)..], classify))
  }

  /** That is `str.splitlines` with every line classified. */
  lemma {:induction false} LineKindsAreSplit<K>(t: string, classify: string -> K)
    ensures |LineKinds(t, classify)| == |SplitLines(t)|
    ensures forall i :: 0 <= i < |SplitLines(t)| ==> LineKinds(t, classify)[i] == classify(SplitLines(t)[i])
    decreases |t|
  {
    if t != [] {
      var k := Seek(t, 0, LineBreak);
      if k < |t| { LineKindsAreSplit(t[AfterBreak(t, k)..], classify); }
    }
  }

  /** The fence left open after a line: its marker and line number. */
  datatype Fence = Closed | Open(marker: Marker, line: nat)

  function AfterLine(kind: Kind, index: nat, fence: Fence): Fence {
    match kind.marker
    case None => fence
    case Some(marker) =>
      if fence.Closed? then Open(marker, index)
      else if Closes(kind, fence.marker) then Closed
      else fence
  }

  function LineReason(kind: Kind, fence: Fence): Option<Reason> {
    if kind.marker.Some? || fence.Open? then Some(FencedCode)
    else if kind.quoted then Some(Blockquote)
    else Option.None
  }

  /** The fence open before line `n`. */
  function FenceBefore(kinds: seq<Kind>, n: nat): Fence
    requires n <= |kinds|
  {
    if n == 0 then Closed else AfterLine(kinds[n - 1], n - 1, FenceBefore(kinds, n - 1))
  }

  function Reasons(kinds: seq<Kind>): (reasons: seq<Option<Reason>>)
    ensures |reasons| == |kinds|
    ensures forall i {:trigger reasons[i]} :: 0 <= i < |kinds| ==> reasons[i] == LineReason(kinds[i], FenceBefore(kinds, i))
  {
    seq(|kinds|, i requires 0 <= i < |kinds| => LineReason(kinds[i], FenceBefore(kinds, i)))
  }

  /** The reason of every line, unless a fence stays open. */
  function Protection(kinds: seq<Kind>): Result<seq<Option<Reason>>, Uncertainty> {
    match FenceBefore(kinds, |kinds|)
    case Open(marker, line) => Err(UnterminatedFence(marker, line))
    case Closed => Ok(Reasons(kinds))
  }

  function Protected(t: string): Result<seq<Option<Reason>>, Uncertainty> {
    Protection(LineKinds(t, Classify))
  }

  /** `protected_lines`: 0-based line numbers with their reasons. */
  method ProtectedLines(t: string) returns (r: Result<map<nat, Reason>, Uncertainty>)
    ensures Reports(r, Protected(t))
  {
    r := MarkLines(LineKinds(t, Classify));
  }

  /** The map holds the lines that have a reason, with that reason. */
  ghost predicate Reports(r: Result<map<nat, Reason>, Uncertainty>, spec: Result<seq<Option<Reason>>, Uncertainty>) {
    match spec
    case Err(e) => r == Err(e)
    case Ok(reasons) => r.Ok? && Marked(r.value, reasons, |reasons|)
  }

  ghost predicate Marked(out: map<nat, Reason>, reasons: seq<Option<Reason>>, n: nat)
    requires n <= |reasons|
  {
    && (forall i :: i in out ==> i < n && reasons[i] == Some(out[i]))
    && (forall i :: 0 <= i < n && reasons[i].Some? ==> i in out)
  }

  lemma {:induction false} NoneMarked(reasons: seq<Option<Reason>>)
    ensures Marked(map[], reasons, 0)
  {}

  /** `out[index] = reason`, when there is one. */
  method Mark(out: map<nat, Reason>, reason: Option<Reason>, index: nat, ghost reasons: seq<Option<Reason>>)
    returns (marked: map<nat, Reason>)
    requires index < |reasons| && Marked(out, reasons, index) && reason == reasons[index]
    ensures Marked(marked, reasons, index + 1)
  {
    marked := if reason.Some? then out[index := reason.value] else out;
  }

  /** One pass of the loop: the line's reason, and the fence it leaves open. */
  method MarkLine(line: Kind, index: nat, fence: Fence) returns (reason: Option<Reason>, next: Fence)
    ensures reason == LineReason(line, fence) && next == AfterLine(line, index, fence)
  {
    reason, next := Option.None, fence;
    if line.marker.Some? {
      reason := Some(FencedCode);
      if fence.Closed? {
        next := Open(line.marker.value, index);
      } else if Closes(line, fence.marker) {
        next := Closed;
      }
    } else if fence.Open? {
      reason := Some(FencedCode);
    } else if line.quoted {
      reason := Some(Blockquote);
    }
  }

  method MarkLines(kinds: seq<Kind>) returns (r: Result<map<nat, Reason>, Uncertainty>)
    ensures Reports(r, Protection(kinds))
  {
    hide Marked, LineReason, AfterLine;
    ghost var reasons := Reasons(kinds);
    NoneMarked(reasons);
    var out: map<nat, Reason> := map[];
    var fence := Closed;
    var index := 0;
    while index < |kinds|
      invariant index <= |kinds|
      invariant fence == FenceBefore(kinds, index)
      invariant Marked(out, reasons, index)
    {
      var reason, next := MarkLine(kinds[index], index, fence);
      out := Mark(out, reason, index, reasons);
      fence := next;
      index := index + 1;
    }
    if fence.Open? {
      return Err(UnterminatedFence(fence.marker, fence.line));
    }
    return Ok(out);
  }

  // ---- inline code -----------------------------------------------------------

  /** Where the match of `` `[^`\n]*` `` that starts at `i` ends. */
  function SpanAt(t: string, i: nat): (end: Option<nat>)
    requires i < |t|
    ensures end.Some? ==> i < end.value <= |t|
  {
    if t[i] != '`' then Option.None
    else
      var b := Seek(t, i + 1, TickOrNewline);
      if b < |t| && t[b] == '`' then Some(b + 1) else Option.None
  }

  function SpanAttempts(t: string): (ends: seq<Option<nat>>)
    ensures |ends| == |t|
    ensures forall i :: 0 <= i < |t| ==> ends[i] == SpanAt(t, i)
  {
    seq(|t|, i requires 0 <= i < |t| => SpanAt(t, i))
  }

  /** Leftmost matches from `i` on, each search resuming where the last match ended. */
  function WalkSpans(ends: seq<Option<nat>>, i: nat): seq<(nat, nat)>
    decreases |ends| - i
  {
    if i >= |ends| then []
    else
      match ends[i]
      case None => WalkSpans(ends, i + 1)
      case Some(end) => [(i, end)] + WalkSpans(ends, if end > i then end else i + 1)
  }

  /** `inline_code_spans`. */
  function InlineSpans(t: string): seq<(nat, nat)> { WalkSpans(SpanAttempts(t), 0) }

  predicate Inside(spans: seq<(nat, nat)>, s: nat, e: nat) {
    exists k :: 0 <= k < |spans| && spans[k].0 <= s && e <= spans[k].1
  }

  // ---- one reference ---------------------------------------------------------

  /** What planning and scanning look at in one link: 0-based lines, and why it is protected. */
  datatype Ref = Ref(caption: string, dest: string, line: nat, endLine: nat, reason: Option<Reason>)

  /** The reason of the first protected line in `[a, b]`. */
  function FirstReason(prot: seq<Option<Reason>>, a: nat, b: nat): Option<Reason>
    decreases b + 1 - a
  {
    if a > b then Option.None
    else if a < |prot| && prot[a].Some? then prot[a]
    else FirstReason(prot, a + 1, b)
  }

  function RefOf(t: string, prot: seq<Option<Reason>>, spans: seq<(nat, nat)>, m: Link): Ref
    requires WellPlaced(t, m)
  {
    var a, b := Newlines(t, m.start), Newlines(t, m.end);
    var byLine := FirstReason(prot, a, b);
    Ref(Label(t, m), Dest(t, m), a, b,
        if byLine.Some? then byLine else if Inside(spans, m.dest, m.destEnd) then Some(InlineCode) else Option.None)
  }

  ghost predicate AllPlaced(t: string, links: seq<Link>) { forall k :: 0 <= k < |links| ==> WellPlaced(t, links[k]) }

  lemma {:induction false} ScanPlaced(t: string)
    ensures AllPlaced(t, Scan(t))
  {
    forall k | 0 <= k < |Scan(t)| ensures WellPlaced(t, Scan(t)[k]) { ScannedLink(t, k); }
  }

  function RefsWith(t: string, prot: seq<Option<Reason>>): (refs: seq<Ref>)
    requires AllPlaced(t, Scan(t))
    ensures |refs| == |Scan(t)|
    ensures forall k :: 0 <= k < |refs| ==> refs[k] == RefOf(t, prot, InlineSpans(t), Scan(t)[k])
  {
    seq(|Scan(t)|, k requires 0 <= k < |Scan(t)| => RefOf(t, prot, InlineSpans(t), Scan(t)[k]))
  }

  /** Every link of `t` with its lines and its protection; fails where `protected_lines` raises. */
  function Refs(t: string): (r: Result<seq<Ref>, Uncertainty>)
    ensures r.Ok? ==> |r.value| == |Scan(t)|
  {
    ScanPlaced(t);
    match Protected(t)
    case Err(e) => Err(e)
    case Ok(prot) => Ok(RefsWith(t, prot))
  }

  // ---- an edit keeps every reference -----------------------------------------

  /** A destination without quotes and backticks. */
  predicate Quiet(r: string) { Clean(r) && Free(Backtick, r) }

  /** One that can open neither a fence nor a blockquote either, wherever it stands. */
  predicate Tame(r: string) { Quiet(r) && r[0] != '>' && r[0] != '~' }

  /**
   * An edit of a link destination: the text before it ends with the '(' at `p` and
   * spaces. A negative `p` stands for an opening that is no longer part of `t`.
   */
  ghost predicate QuietEdit(t: string, u: string, s: nat, e: nat, d: int, p: int) {
    && Edited(t, u, s, e, d)
    && p < s && (p >= 0 ==> t[p] == '(') && (forall q :: 0 <= q < s && p < q ==> IsSpace(t[q]))
    && Avoids(t, u, s, e, d, Backtick)
    && u[s] != '>' && u[s] != '~'
  }

  /** The text at `s` would open a fence or a blockquote at the start of a line. */
  predicate MarkAt(t: string, s: nat)
    requires s < |t|
  {
    t[s] == '>' || Three(t, s, |t|, '~')
  }

  /** The opening at `p` stands on the line of the destination at `s`, as `str.splitlines` breaks lines. */
  predicate OnLine(t: string, p: int, s: nat)
    requires s <= |t|
  {
    p >= 0 && forall q :: 0 <= q < s && p < q ==> !In(LineBreak, t[q])
  }

  /** The destination comes first on its line and makes it a fence or a quotation. */
  predicate OpensLine(t: string, m: Link)
    requires WellPlaced(t, m)
  {
    !OnLine(t, m.bracket + 1, m.dest) && MarkAt(t, m.dest)
  }

  lemma {:induction false} NewlinesMapped(t: string, u: string, s: nat, e: nat, d: int, i: nat)
    requires Edited(t, u, s, e, d) && i <= |t|
    ensures i <= s ==> Newlines(u, i) == Newlines(t, i)
    ensures i >= e ==> Newlines(u, i + d) == Newlines(t, i)
  {
    if i <= s {
      NewlinesSame(t, u, i);
    } else if i >= e {
      NewlinesSame(t, u, s);
      NewlinesNone(t, s, e);
      NewlinesNone(u, s, e + d);
      NewlinesAfter(t, u, s, e, d, i);
    }
  }

  lemma {:induction false} NewlinesSame(t: string, u: string, i: nat)
    requires i <= |t| && i <= |u| && forall p :: 0 <= p < i ==> t[p] == u[p]
    ensures Newlines(u, i) == Newlines(t, i)
  {
    if i > 0 { NewlinesSame(t, u, i - 1); }
  }

  lemma {:induction false} NewlinesNone(t: string, s: nat, e: nat)
    requires s <= e <= |t| && forall p :: s <= p < e ==> !In(DestEnd, t[p])
    ensures Newlines(t, e) == Newlines(t, s)
  {
    if s < e { NewlinesNone(t, s, e - 1); }
  }

  lemma {:induction false} NewlinesAfter(t: string, u: string, s: nat, e: nat, d: int, i: nat)
    requires Edited(t, u, s, e, d) && e <= i <= |t| && Newlines(u, e + d) == Newlines(t, e)
    ensures Newlines(u, i + d) == Newlines(t, i)
    decreases i
  {
    if i > e {
      NewlinesAfter(t, u, s, e, d, i - 1);
      assert t[i - 1] == u[i - 1 + d];
    }
  }

  // ---- lines across the edit -------------------------------------------------

  /** Where the first character of the line `t[..k]` that is no space stands. */
  function FirstInk(t: string, k: nat): (f: nat)
    requires k <= |t|
    ensures f <= k
  {
    if Seek(t, 0, NonSpace) < k then Seek(t, 0, NonSpace) else k
  }

  predicate Three(t: string, f: nat, k: nat, c: char)
    requires f <= k <= |t|
  {
    f + 3 <= k && t[f] == c && t[f + 1] == c && t[f + 2] == c
  }

  lemma {:induction false} LStripAt(t: string, k: nat)
    requires k <= |t|
    ensures LStrip(t[..k]) == t[FirstInk(t, k)..k]
  {
    assert t[0..k] == t[..k] == t[..k][0..k];
    SeekMoved(t, 0, t[..k], 0, NonSpace, k);
  }

  lemma {:induction false} PrefixAt(s: string, c: char)
    ensures StartsWith(s, [c, c, c]) <==> Three(s, 0, |s|, c)
    ensures StartsWith(s, [c]) <==> |s| > 0 && s[0] == c
  {
    if Three(s, 0, |s|, c) { assert s[..3] == [c, c, c]; }
    if StartsWith(s, [c, c, c]) { assert s[0] == s[..3][0] && s[1] == s[..3][1] && s[2] == s[..3][2]; }
    if StartsWith(s, [c]) { assert s[0] == s[..1][0]; }
  }

  /** The kind of a line that has its first ink at `f`. */
  function KindAt(t: string, f: nat, k: nat): Kind
    requires f <= k <= |t|
  {
    var ticks, tildes := Three(t, f, k, '`'), Three(t, f, k, '~');
    Kind(if ticks then Some(Ticks) else if tildes then Some(Tildes) else Option.None, ticks, tildes, f < k && t[f] == '>')
  }

  /** A line's kind is decided by its first three inked characters. */
  lemma {:induction false} ClassifyAt(t: string, k: nat)
    requires k <= |t|
    ensures Classify(t[..k]) == KindAt(t, FirstInk(t, k), k)
  {
    var f := FirstInk(t, k);
    LStripAt(t, k);
    var left := t[f..k];
    assert forall j :: 0 <= j < k - f ==> left[j] == t[f + j];
    PrefixAt(left, '`');
    PrefixAt(left, '~');
    PrefixAt(left, '>');
    assert "```" == ['`', '`', '`'] && "~~~" == ['~', '~', '~'] && ">" == ['>'];
    ClosesItsOwn(t[..k], Ticks);
    ClosesItsOwn(t[..k], Tildes);
  }

  const BARE := Kind(Option.None, false, false, false)

  /** The line that holds the edited destination keeps its kind, unless the destination marked it. */
  function KindAfter(t: string, s: nat, k: nat, was: Kind): Kind
    requires s < |t|
  {
    if Seek(t, 0, NonSpace) < s || !MarkAt(t, s) then was else BARE
  }

  lemma {:induction false} KindEdited(t: string, u: string, s: nat, e: nat, d: int, p: int, k: nat)
    requires QuietEdit(t, u, s, e, d, p) && e <= k <= |t|
    ensures Classify(u[..k + d]) == KindAfter(t, s, k, Classify(t[..k]))
  {
    hide Classify, KindAt, KindAfter, FirstInk;
    ClassifyAt(t, k);
    ClassifyAt(u, k + d);
    InkEdited(t, u, s, e, d, p, k);
  }

  lemma {:induction false} InkEdited(t: string, u: string, s: nat, e: nat, d: int, p: int, k: nat)
    requires QuietEdit(t, u, s, e, d, p) && e <= k <= |t|
    ensures KindAt(u, FirstInk(u, k + d), k + d) == KindAfter(t, s, k, KindAt(t, FirstInk(t, k), k))
  {
    SeekStops(t, u, s, e, d, 0);
    var f := Seek(t, 0, NonSpace);
    if f < s {
      assert t[f] == u[f];
      assert f <= p && t[p] == u[p];
      if f + 1 < s { assert t[f + 1] == u[f + 1]; }
      if f + 2 < s { assert t[f + 2] == u[f + 2]; }
    } else {
      assert !In(Backtick, t[s]) && !In(Backtick, u[s]);
    }
  }

  lemma {:induction false} BreakIsSpace(c: char)
    requires In(LineBreak, c)
    ensures IsSpace(c)
  {}

  lemma {:induction false} SuffixSame(t: string, u: string, s: nat, e: nat, d: int, i: nat)
    requires Edited(t, u, s, e, d) && e <= i <= |t|
    ensures t[i..] == u[i + d..]
  {
    forall q | 0 <= q < |t| - i ensures t[i..][q] == u[i + d..][q] { assert t[i + q] == u[i + q + d]; }
  }

  lemma {:induction false} BreakAfter(t: string, u: string, s: nat, e: nat, d: int, k: nat)
    requires Edited(t, u, s, e, d) && e <= k < |t|
    ensures AfterBreak(u, k + d) == AfterBreak(t, k) + d
  {
    assert t[k] == u[k + d];
    if k + 1 < |t| { assert t[k + 1] == u[k + 1 + d]; }
  }

  lemma {:induction false} BreakBefore(t: string, u: string, s: nat, e: nat, d: int, k: nat)
    requires Edited(t, u, s, e, d) && k < s
    ensures AfterBreak(u, k) == AfterBreak(t, k) <= s
  {
    assert t[k] == u[k];
    if k + 1 < s { assert t[k + 1] == u[k + 1]; }
    assert !In(DestEnd, t[s]) && !In(DestEnd, u[s]);
  }

  /** Cutting the same characters off both texts leaves an edit of the rest. */
  lemma {:induction false} TameSuffix(t: string, u: string, s: nat, e: nat, d: int, p: int, j: nat)
    requires QuietEdit(t, u, s, e, d, p) && j <= s
    ensures QuietEdit(t[j..], u[j..], s - j, e - j, d, p - j)
  {
    var t', u' := t[j..], u[j..];
    assert forall q :: 0 <= q < |t'| ==> t'[q] == t[q + j];
    assert forall q :: 0 <= q < |u'| ==> u'[q] == u[q + j];
    assert Edited(t', u', s - j, e - j, d) by {
      assert forall q {:trigger t'[q]} :: e - j <= q < |t'| ==> t'[q] == t[q + j] == u[q + j + d] == u'[q + d];
    }
  }

  /** A line that ends before the edit is the same line. */
  lemma {:induction false} FirstLineKept(t: string, u: string, s: nat, e: nat, d: int, p: int, k: nat)
    requires QuietEdit(t, u, s, e, d, p) && k == Seek(t, 0, LineBreak) < s
    ensures t != [] && u != [] && k < |t| && k < |u|
    ensures Seek(u, 0, LineBreak) == k && t[..k] == u[..k]
    ensures AfterBreak(u, k) == AfterBreak(t, k) <= s
    ensures var j := AfterBreak(t, k); QuietEdit(t[j..], u[j..], s - j, e - j, d, p - j)
  {
    SeekBefore(t, u, s, e, d, 0, LineBreak);
    BreakBefore(t, u, s, e, d, k);
    TameSuffix(t, u, s, e, d, p, AfterBreak(t, k));
  }

  lemma {:induction false} EditedLineKept(t: string, u: string, s: nat, e: nat, d: int, p: int, k: nat)
    requires QuietEdit(t, u, s, e, d, p) && k == Seek(t, 0, LineBreak) >= s
    ensures k >= e && Seek(u, 0, LineBreak) == k + d
    ensures k < |t| ==> u[AfterBreak(u, k + d)..] == t[AfterBreak(t, k)..]
  {
    AvoidsBreak(t, u, s, e, d);
    SeekAcross(t, u, s, e, d, 0, LineBreak);
    if k < |t| {
      BreakAfter(t, u, s, e, d, k);
      SuffixSame(t, u, s, e, d, AfterBreak(t, k));
    }
  }

  /** What an edit makes of the kind of its line. */
  ghost predicate Reclassifies(classify: string -> Kind, t: string, u: string, s: nat, d: int, k: nat) {
    && 0 <= k + d <= |u| && s < |t| && k <= |t|
    && classify(u[..k + d]) == KindAfter(t, s, k, classify(t[..k]))
  }

  /** `classify` tells an edited line from the line it was by the mark only. */
  ghost predicate Blind(classify: string -> Kind) {
    forall t, u, s: nat, e: nat, d, p, k: nat ::
      QuietEdit(t, u, s, e, d, p) && e <= k <= |t| ==> Reclassifies(classify, t, u, s, d, k)
  }

  /** The `str.splitlines` number of the line that holds the character at `x`. */
  function LineOf(t: string, x: nat): nat
    requires x < |t| && !In(LineBreak, t[x])
    decreases |t|
  {
    var k := Seek(t, 0, LineBreak);
    if k >= x then 0 else 1 + LineOf(t[AfterBreak(t, k)..], x - AfterBreak(t, k))
  }

  /** The kinds of the lines, those in `marked` without the mark they had. */
  function Bared(kinds: seq<Kind>, marked: set<nat>): (bared: seq<Kind>)
    ensures |bared| == |kinds|
    ensures forall i :: 0 <= i < |kinds| ==> bared[i] == if i in marked then BARE else kinds[i]
  {
    seq(|kinds|, i requires 0 <= i < |kinds| => if i in marked then BARE else kinds[i])
  }

  /** The line an edit of the destination at `s` leaves without a mark. */
  function Unmarks(t: string, p: int, s: nat): set<nat>
    requires s < |t| && !In(LineBreak, t[s])
  {
    if OnLine(t, p, s) || !MarkAt(t, s) then {} else {LineOf(t, s)}
  }

  lemma {:induction false} EditPlace(t: string, u: string, s: nat, e: nat, d: int, p: int)
    requires QuietEdit(t, u, s, e, d, p)
    ensures s < e <= |t| && !In(LineBreak, t[s]) && (p >= 0 ==> p < s && t[p] == '(')
  {
    if In(LineBreak, t[s]) { BreakIsSpace(t[s]); }
    assert !In(DestEnd, t[s]);
  }

  /** Every line keeps its kind, but for the mark the old destination was. */
  lemma {:induction false} LinesEdited(t: string, u: string, s: nat, e: nat, d: int, p: int, classify: string -> Kind)
    requires QuietEdit(t, u, s, e, d, p) && Blind(classify)
    ensures s < |t| && !In(LineBreak, t[s])
    ensures LineKinds(u, classify) == Bared(LineKinds(t, classify), Unmarks(t, p, s))
    decreases s
  {
    hide Blind, QuietEdit, LineKinds, Bared, Unmarks, AfterBreak, KindAfter;
    EditPlace(t, u, s, e, d, p);
    var k := Seek(t, 0, LineBreak);
    if k < s {
      FirstLineKept(t, u, s, e, d, p, k);
      var j := AfterBreak(t, k);
      LinesEdited(t[j..], u[j..], s - j, e - j, d, p - j, classify);
      SameFirstLine(t, u, k, classify, Unmarks(t[j..], p - j, s - j));
      UnmarksBelow(t, p, s, k);
    } else {
      EditedLineKept(t, u, s, e, d, p, k);
      BlindHere(classify, t, u, s, e, d, p, k);
      FirstLineEdited(t, u, s, e, d, p, k, classify(t[..k]));
      SameRest(t, u, k, d, classify, Unmarks(t, p, s));
    }
  }

  lemma {:induction false} BlindHere(classify: string -> Kind, t: string, u: string, s: nat, e: nat, d: int, p: int, k: nat)
    requires Blind(classify) && QuietEdit(t, u, s, e, d, p) && e <= k <= |t|
    ensures Reclassifies(classify, t, u, s, d, k)
    ensures 0 <= k + d <= |u| && s < |t| && classify(u[..k + d]) == KindAfter(t, s, k, classify(t[..k]))
    ensures t != [] && u != [] && |u| == |t| + d
  {
    hide KindAfter;
  }

  lemma {:induction false} FirstLineEdited(t: string, u: string, s: nat, e: nat, d: int, p: int, k: nat, was: Kind)
    requires QuietEdit(t, u, s, e, d, p) && k == Seek(t, 0, LineBreak) >= s && s < |t| && !In(LineBreak, t[s])
    ensures Unmarks(t, p, s) <= {0} && KindAfter(t, s, k, was) == if 0 in Unmarks(t, p, s) then BARE else was
  {
    OnFirstLine(t, u, s, e, d, p, k);
    hide OnLine, MarkAt, QuietEdit;
  }

  /** `marked`, one line further down. */
  function Down(marked: set<nat>): set<nat> { set i | i in marked :: i + 1 }

  lemma {:induction false} UnmarksBelow(t: string, p: int, s: nat, k: nat)
    requires s < |t| && !In(LineBreak, t[s]) && k == Seek(t, 0, LineBreak) < s && (p >= 0 ==> p < s && t[p] == '(')
    ensures AfterBreak(t, k) <= s
    ensures var j := AfterBreak(t, k); Unmarks(t, p, s) == Down(Unmarks(t[j..], p - j, s - j))
  {
    var j := AfterBreak(t, k);
    assert In(LineBreak, t[k]);
    var rest := t[j..];
    assert forall q :: 0 <= q < |rest| ==> rest[q] == t[q + j];
    assert MarkAt(rest, s - j) == MarkAt(t, s);
    assert OnLine(rest, p - j, s - j) == OnLine(t, p, s) by {
      if p >= j {
        assert forall q :: j <= q < s ==> t[q] == rest[q - j];
      }
    }
  }

  lemma {:induction false} OnFirstLine(t: string, u: string, s: nat, e: nat, d: int, p: int, k: nat)
    requires QuietEdit(t, u, s, e, d, p) && k == Seek(t, 0, LineBreak) >= s && s < |t| && !In(LineBreak, t[s])
    ensures LineOf(t, s) == 0
    ensures OnLine(t, p, s) <==> Seek(t, 0, NonSpace) < s
  {
    if p >= 0 {
      assert In(NonSpace, t[p]);
    } else {
      assert forall q :: 0 <= q < s ==> !In(NonSpace, t[q]);
    }
  }

  lemma {:induction false} SameFirstLine(t: string, u: string, k: nat, classify: string -> Kind, marked: set<nat>)
    requires k < |t| && k < |u| && Seek(t, 0, LineBreak) == Seek(u, 0, LineBreak) == k && t[..k] == u[..k]
    requires AfterBreak(t, k) == AfterBreak(u, k)
    requires LineKinds(u[AfterBreak(u, k)..], classify) == Bared(LineKinds(t[AfterBreak(t, k)..], classify), marked)
    ensures LineKinds(u, classify) == Bared(LineKinds(t, classify), Down(marked))
  {
    assert forall i :: i in marked <==> i + 1 in Down(marked);
  }

  lemma {:induction false} SameRest(t: string, u: string, k: nat, d: int, classify: string -> Kind, marked: set<nat>)
    requires t != [] && u != [] && k == Seek(t, 0, LineBreak) && 0 <= k + d == Seek(u, 0, LineBreak) && |u| == |t| + d
    requires marked <= {0} && classify(u[..k + d]) == if 0 in marked then BARE else classify(t[..k])
    requires k < |t| ==> u[AfterBreak(u, k + d)..] == t[AfterBreak(t, k)..]
    ensures LineKinds(u, classify) == Bared(LineKinds(t, classify), marked)
  {
    LineKindsStep(t, classify);
    LineKindsStep(u, classify);
    hide LineKinds, AfterBreak;
    assert forall i :: i in marked ==> i == 0;
  }

  lemma {:induction false} LineKindsStep<K>(t: string, classify: string -> K)
    requires t != []
    ensures var k := Seek(t, 0, LineBreak);
            LineKinds(t, classify) == [classify(t[..k])] + (if k == |t| then [] else LineKinds(t[AfterBreak(t, k)..], classify))
  {}

  lemma {:induction false} AvoidsBreak(t: string, u: string, s: nat, e: nat, d: int)
    requires Edited(t, u, s, e, d)
    ensures Avoids(t, u, s, e, d, LineBreak)
  {
    forall q | s <= q < e ensures !In(LineBreak, t[q]) { if In(LineBreak, t[q]) { BreakIsSpace(t[q]); } }
    forall q | s <= q < e + d ensures !In(LineBreak, u[q]) { if In(LineBreak, u[q]) { BreakIsSpace(u[q]); } }
  }

  lemma {:induction false} KindsEdited(t: string, u: string, s: nat, e: nat, d: int, p: int)
    requires QuietEdit(t, u, s, e, d, p)
    ensures s < |t| && !In(LineBreak, t[s])
    ensures LineKinds(u, Classify) == Bared(LineKinds(t, Classify), Unmarks(t, p, s))
  {
    forall t, u, s: nat, e: nat, d, p, k: nat | QuietEdit(t, u, s, e, d, p) && e <= k <= |t|
      ensures Reclassifies(Classify, t, u, s, d, k)
    {
      KindEdited(t, u, s, e, d, p, k);
    }
    LinesEdited(t, u, s, e, d, p, Classify);
  }

  // ---- code spans across the edit --------------------------------------------

  function Place(s: nat, d: int, i: nat): int { if i <= s then i else i + d }

  ghost predicate SpansPlaced(xs: seq<(nat, nat)>, ys: seq<(nat, nat)>, s: nat, e: nat, d: int) {
    && |xs| == |ys|
    && forall k :: 0 <= k < |xs| ==>
         && (xs[k].0 <= s || xs[k].0 >= e) && (xs[k].1 <= s || xs[k].1 >= e)
         && ys[k].0 == Place(s, d, xs[k].0) && ys[k].1 == Place(s, d, xs[k].1)
  }

  /** How the attempts `ys` after an edit of `[s, e)` relate to the attempts `xs`. */
  ghost predicate SpanAttemptsPlaced(xs: seq<Option<nat>>, ys: seq<Option<nat>>, s: nat, e: nat, d: int) {
    && s < e <= |xs| && s < e + d && |ys| == |xs| + d
    && (forall i :: 0 <= i < |xs| && xs[i].Some? ==> i < xs[i].value <= |xs|)
    && (forall i {:trigger xs[i]} :: 0 <= i < s ==> PlacedEnd(xs[i], ys[i], s, e, d))
    && (forall i :: s <= i < e ==> xs[i].None?)
    && (forall i :: s <= i < e + d ==> ys[i].None?)
    && (forall i {:trigger xs[i]} :: e <= i < |xs| ==> PlacedEnd(xs[i], ys[i + d], s, e, d))
  }

  ghost predicate PlacedEnd(x: Option<nat>, y: Option<nat>, s: nat, e: nat, d: int) {
    if x.None? then y.None?
    else (x.value <= s || x.value >= e) && y.Some? && y.value == Place(s, d, x.value)
  }

  lemma {:induction false} SkipNone(ends: seq<Option<nat>>, i: nat, j: nat)
    requires i <= j <= |ends| && forall p :: i <= p < j ==> ends[p].None?
    ensures WalkSpans(ends, i) == WalkSpans(ends, j)
    decreases j - i
  {
    if i < j { SkipNone(ends, i + 1, j); }
  }

  lemma {:induction false} WalkSpansPlaced(xs: seq<Option<nat>>, ys: seq<Option<nat>>, s: nat, e: nat, d: int, i: nat)
    requires SpanAttemptsPlaced(xs, ys, s, e, d) && i <= |xs| && (i <= s || i >= e)
    ensures 0 <= Place(s, d, i) <= |ys|
    ensures SpansPlaced(WalkSpans(xs, i), WalkSpans(ys, Place(s, d, i)), s, e, d)
    decreases |xs| - i
  {
    if i == s {
      SkipNone(xs, s, e);
      SkipNone(ys, s, e + d);
      WalkSpansPlaced(xs, ys, s, e, d, e);
    } else if i < |xs| {
      match xs[i]
      case None => WalkSpansPlaced(xs, ys, s, e, d, i + 1);
      case Some(end) =>
        WalkSpansPlaced(xs, ys, s, e, d, end);
        SpansCons((i, end), (Place(s, d, i), Place(s, d, end)), WalkSpans(xs, end), WalkSpans(ys, Place(s, d, end)), s, e, d);
    }
  }

  lemma {:induction false} SpansCons(x: (nat, nat), y: (nat, nat), xs: seq<(nat, nat)>, ys: seq<(nat, nat)>, s: nat, e: nat, d: int)
    requires SpansPlaced(xs, ys, s, e, d)
    requires (x.0 <= s || x.0 >= e) && (x.1 <= s || x.1 >= e) && y.0 == Place(s, d, x.0) && y.1 == Place(s, d, x.1)
    ensures SpansPlaced([x] + xs, [y] + ys, s, e, d)
  {}

  lemma {:induction false} SpanAtPlaced(t: string, u: string, s: nat, e: nat, d: int, i: nat)
    requires Edited(t, u, s, e, d) && Avoids(t, u, s, e, d, Backtick)
    requires i < |t| && (i < s || i >= e)
    ensures 0 <= Place(s, d, i) < |u|
    ensures PlacedEnd(SpanAt(t, i), SpanAt(u, Place(s, d, i)), s, e, d)
  {
    SamePlaced(t, u, s, e, d, i);
    if t[i] == '`' {
      SeekPlaced(t, u, s, e, d, i + 1, TickOrNewline);
      var b := Seek(t, i + 1, TickOrNewline);
      if b < |t| { SamePlaced(t, u, s, e, d, b); }
    }
  }

  lemma {:induction false} SamePlaced(t: string, u: string, s: nat, e: nat, d: int, b: nat)
    requires Edited(t, u, s, e, d) && b < |t| && (b < s || b >= e)
    ensures u[if b < s then b else b + d] == t[b]
  {
    if b < s { assert t[b] == u[b]; } else { assert t[b] == u[b + d]; }
  }

  lemma {:induction false} SpansEdited(t: string, u: string, s: nat, e: nat, d: int)
    requires Edited(t, u, s, e, d) && Avoids(t, u, s, e, d, Backtick)
    ensures SpansPlaced(InlineSpans(t), InlineSpans(u), s, e, d)
  {
    var xs, ys := SpanAttempts(t), SpanAttempts(u);
    forall i | 0 <= i < |t| && (i < s || i >= e) ensures PlacedEnd(xs[i], ys[Place(s, d, i)], s, e, d) {
      SpanAtPlaced(t, u, s, e, d, i);
    }
    forall i | s <= i < e ensures xs[i].None? { assert !In(Backtick, t[i]); }
    forall i | s <= i < e + d ensures ys[i].None? { assert !In(Backtick, u[i]); }
    assert SpanAttemptsPlaced(xs, ys, s, e, d) by {
      forall i | 0 <= i < s ensures PlacedEnd(xs[i], ys[i], s, e, d) { assert PlacedEnd(xs[i], ys[Place(s, d, i)], s, e, d); }
      forall i | e <= i < |xs| ensures PlacedEnd(xs[i], ys[i + d], s, e, d) { assert PlacedEnd(xs[i], ys[Place(s, d, i)], s, e, d); }
    }
    WalkSpansPlaced(xs, ys, s, e, d, 0);
  }

  lemma {:induction false} SeekPlaced(t: string, u: string, s: nat, e: nat, d: int, i: nat, k: Class)
    requires Edited(t, u, s, e, d) && Avoids(t, u, s, e, d, Backtick)
    requires i <= |t| && (i <= s || i >= e) && (k == Backtick || k == TickOrNewline)
    ensures 0 <= Place(s, d, i) <= |u|
    ensures var j := Seek(t, i, k);
            && (j < s || j >= e)
            && Seek(u, Place(s, d, i), k) == (if j < s then j else j + d)
  {
    if i <= s {
      if Seek(t, i, k) < s {
        SeekBefore(t, u, s, e, d, i, k);
      } else {
        AvoidsNewline(t, u, s, e, d);
        SeekAcross(t, u, s, e, d, i, k);
      }
    } else {
      SeekAfter(t, u, s, e, d, i, k);
    }
  }

  lemma {:induction false} AvoidsNewline(t: string, u: string, s: nat, e: nat, d: int)
    requires Edited(t, u, s, e, d) && Avoids(t, u, s, e, d, Backtick)
    ensures Avoids(t, u, s, e, d, TickOrNewline)
  {
    forall q | s <= q < e ensures !In(TickOrNewline, t[q]) { assert !In(DestEnd, t[q]) && !In(Backtick, t[q]); }
    forall q | s <= q < e + d ensures !In(TickOrNewline, u[q]) { assert !In(DestEnd, u[q]) && !In(Backtick, u[q]); }
  }

  lemma {:induction false} InsidePlaced(xs: seq<(nat, nat)>, ys: seq<(nat, nat)>, s: nat, e: nat, d: int, a: nat, b: nat, a': nat, b': nat)
    requires SpansPlaced(xs, ys, s, e, d) && s < e && s < e + d
    requires (a <= s || a >= e) && (b <= s || b >= e)
    requires a' == Place(s, d, a) && b' == Place(s, d, b)
    ensures Inside(ys, a', b') <==> Inside(xs, a, b)
  {
    if k :| 0 <= k < |xs| && xs[k].0 <= a && b <= xs[k].1 { assert ys[k].0 <= a' && b' <= ys[k].1; }
    if k :| 0 <= k < |ys| && ys[k].0 <= a' && b' <= ys[k].1 { assert xs[k].0 <= a && b <= xs[k].1; }
  }

  // ---- the references after an edit ------------------------------------------

  /** Link `x` of the text before and `y` of the text after, away from the edit `[s, e)` or on it. */
  ghost predicate LinkPlaced(x: Link, y: Link, s: nat, e: nat, d: int) {
    || (x.end <= s && y == x)
    || (x.start >= e && MovedBy(x, y, d))
    || (x.dest == s && x.destEnd == e && 0 <= x.destEnd + d <= x.end + d && y == Grow(x, d))
  }

  lemma {:induction false} EveryLinkPlaced(t: string, u: string, k: nat, d: int, j: nat)
    requires k < |Scan(t)| && GrownAt(Scan(t), Scan(u), k, d)
    requires j < |Scan(t)|
    ensures var m := Scan(t)[k]; LinkPlaced(Scan(t)[j], Scan(u)[j], m.dest, m.destEnd, d)
  {
    var m := Scan(t)[k];
    ScannedLink(t, k);
    if j < k {
      ScanOrdered(t, j, k);
      assert Scan(u)[j] == Scan(u)[..k][j] == Scan(t)[..k][j];
    } else if j > k {
      ScanOrdered(t, k, j);
      assert MovedBy(Scan(t)[k + 1..][j - k - 1], Scan(u)[k + 1..][j - k - 1], d);
    }
  }

  lemma {:induction false} SlicePlaced(t: string, u: string, s: nat, e: nat, d: int, a: nat, b: nat)
    requires Edited(t, u, s, e, d) && a <= b <= |t| && (b <= s || a >= e)
    ensures b <= s ==> u[a..b] == t[a..b]
    ensures a >= e ==> u[a + d..b + d] == t[a..b]
  {
    if a >= e {
      forall q | 0 <= q < b - a ensures t[a..b][q] == u[a + d..b + d][q] { assert t[a + q] == u[a + q + d]; }
    }
  }

  lemma {:induction false} TextsPlaced(t: string, u: string, s: nat, e: nat, d: int, x: Link, y: Link)
    requires Edited(t, u, s, e, d)
    requires WellPlaced(t, x) && WellPlaced(u, y) && LinkPlaced(x, y, s, e, d)
    ensures Label(u, y) == Label(t, x)
    ensures Dest(u, y) == if x.dest == s then u[s..e + d] else Dest(t, x)
  {
    SlicePlaced(t, u, s, e, d, x.start + 1, x.bracket);
    if x.dest != s { SlicePlaced(t, u, s, e, d, x.dest, x.destEnd); }
  }

  lemma {:induction false} LinesPlaced(t: string, u: string, s: nat, e: nat, d: int, x: Link, y: Link)
    requires Edited(t, u, s, e, d)
    requires WellPlaced(t, x) && WellPlaced(u, y) && LinkPlaced(x, y, s, e, d)
    ensures Newlines(u, y.start) == Newlines(t, x.start) && Newlines(u, y.end) == Newlines(t, x.end)
  {
    NewlinesMapped(t, u, s, e, d, x.start);
    NewlinesMapped(t, u, s, e, d, x.end);
  }

  lemma {:induction false} SpanPlaced(t: string, u: string, s: nat, e: nat, d: int, x: Link, y: Link)
    requires Edited(t, u, s, e, d) && Avoids(t, u, s, e, d, Backtick)
    requires WellPlaced(t, x) && WellPlaced(u, y) && LinkPlaced(x, y, s, e, d)
    ensures Inside(InlineSpans(u), y.dest, y.destEnd) == Inside(InlineSpans(t), x.dest, x.destEnd)
  {
    SpansEdited(t, u, s, e, d);
    InsidePlaced(InlineSpans(t), InlineSpans(u), s, e, d, x.dest, x.destEnd, y.dest, y.destEnd);
  }

  /** The reference after the edit: only the edited one has a new destination. */
  lemma {:induction false} RefEdited(t: string, u: string, d: int, p: int, k: nat, j: nat, prot: seq<Option<Reason>>)
    requires k < |Scan(t)| && j < |Scan(t)| && AllPlaced(t, Scan(t)) && AllPlaced(u, Scan(u))
    requires QuietEdit(t, u, Scan(t)[k].dest, Scan(t)[k].destEnd, d, p)
    requires GrownAt(Scan(t), Scan(u), k, d)
    ensures var was, now := RefOf(t, prot, InlineSpans(t), Scan(t)[j]), RefOf(u, prot, InlineSpans(u), Scan(u)[j]);
            now == was.(dest := if j == k then u[Scan(t)[k].dest..Scan(t)[k].destEnd + d] else was.dest)
  {
    hide Scan, Edited, InlineSpans, Label, Dest, Newlines, Inside, LinkPlaced, Avoids, OnLine;
    var s, e, x, y := Scan(t)[k].dest, Scan(t)[k].destEnd, Scan(t)[j], Scan(u)[j];
    EveryLinkPlaced(t, u, k, d, j);
    TextsPlaced(t, u, s, e, d, x, y);
    LinesPlaced(t, u, s, e, d, x, y);
    SpanPlaced(t, u, s, e, d, x, y);
    DestsDiffer(t, j, k);
  }

  lemma {:induction false} SpliceAvoids(t: string, s: nat, e: nat, r: string)
    requires s < e <= |t| && Tame(r) && Quiet(t[s..e])
    ensures var u, d := Splice(t, s, e, r), |r| - (e - s);
            && Edited(t, u, s, e, d) && Avoids(t, u, s, e, d, Backtick) && u[s..e + d] == r
            && u[s] != '>' && u[s] != '~'
  {
    var u, d := Splice(t, s, e, r), |r| - (e - s);
    SpliceEdits(t, s, e, r);
    assert u[s] == u[s..s + |r|][0];
    forall q | s <= q < e ensures !In(Backtick, t[q]) { assert t[q] == t[s..e][q - s]; }
    forall q | s <= q < e + d ensures !In(Backtick, u[q]) { assert u[q] == u[s..s + |r|][q - s]; }
  }

  /** Splicing a tame destination over a quiet one. */
  lemma {:induction false} SpliceIsQuiet(t: string, m: Link, r: string) returns (u: string, d: int)
    requires WellPlaced(t, m) && MatchAt(t, m.start) == Some(m)
    requires Tame(r) && Quiet(Dest(t, m))
    ensures u == Splice(t, m.dest, m.destEnd, r) && d == |r| - (m.destEnd - m.dest)
    ensures QuietEdit(t, u, m.dest, m.destEnd, d, m.bracket + 1)
    ensures u[m.dest..m.destEnd + d] == r
  {
    hide Splice, Edited, Avoids, Tame, Quiet, MatchAt, IsSpace;
    u, d := Splice(t, m.dest, m.destEnd, r), |r| - (m.destEnd - m.dest);
    SpliceAvoids(t, m.dest, m.destEnd, r);
    BracketThenSpaces(t, m);
  }

  lemma {:induction false} BracketThenSpaces(t: string, m: Link)
    requires WellPlaced(t, m) && MatchAt(t, m.start) == Some(m)
    ensures t[m.bracket + 1] == '(' && m.bracket + 1 < m.dest
    ensures forall q :: m.bracket + 1 < q < m.dest ==> IsSpace(t[q])
  {
    assert HeadEnd(t, m.start) == Some((m.bracket, m.dest));
    assert forall q :: m.bracket + 1 < q < m.dest ==> !In(NonSpace, t[q]);
  }

  lemma {:induction false} RefsWithEdited(t: string, u: string, d: int, p: int, k: nat, r: string, prot: seq<Option<Reason>>)
    requires k < |Scan(t)| && AllPlaced(t, Scan(t)) && AllPlaced(u, Scan(u))
    requires QuietEdit(t, u, Scan(t)[k].dest, Scan(t)[k].destEnd, d, p)
    requires GrownAt(Scan(t), Scan(u), k, d)
    requires u[Scan(t)[k].dest..Scan(t)[k].destEnd + d] == r
    ensures RefsWith(u, prot) == RefsWith(t, prot)[k := RefsWith(t, prot)[k].(dest := r)]
  {
    var xs, ys := RefsWith(t, prot), RefsWith(u, prot);
    forall j | 0 <= j < |xs| ensures ys[j] == xs[k := xs[k].(dest := r)][j] {
      RefEdited(t, u, d, p, k, j, prot);
    }
  }

  /** The line a link's destination marks, if it does. */
  function Opened(t: string, m: Link): set<nat>
    requires WellPlaced(t, m)
  {
    if OpensLine(t, m) && !In(LineBreak, t[m.dest]) then {LineOf(t, m.dest)} else {}
  }

  lemma {:induction false} EditFacts(t: string, k: nat, r: string, u: string, d: int)
    requires k < |Scan(t)| && WellPlaced(t, Scan(t)[k])
    requires QuietEdit(t, u, Scan(t)[k].dest, Scan(t)[k].destEnd, d, Scan(t)[k].bracket + 1)
    ensures AllPlaced(t, Scan(t)) && AllPlaced(u, Scan(u))
    ensures GrownAt(Scan(t), Scan(u), k, d)
    ensures LineKinds(u, Classify) == Bared(LineKinds(t, Classify), Opened(t, Scan(t)[k]))
  {
    hide Scan, Edited, LineKinds, Bared, MatchAt;
    ScanEdited(t, u, k, d);
    KindsEdited(t, u, Scan(t)[k].dest, Scan(t)[k].destEnd, d, Scan(t)[k].bracket + 1);
    ScanPlaced(t);
    ScanPlaced(u);
  }

  /**
   * Replacing one destination changes that reference's destination: not the links,
   * their order, labels, lines or code spans, and of the kinds of lines only that
   * of a line the old destination itself marked.
   */
  lemma {:induction false} RefsEdited(t: string, k: nat, r: string, prot: seq<Option<Reason>>)
    requires k < |Scan(t)| && WellPlaced(t, Scan(t)[k])
    requires Tame(r) && Quiet(Dest(t, Scan(t)[k]))
    ensures var m := Scan(t)[k];
            var u := Splice(t, m.dest, m.destEnd, r);
            && AllPlaced(t, Scan(t)) && AllPlaced(u, Scan(u))
            && RefsWith(u, prot) == RefsWith(t, prot)[k := RefsWith(t, prot)[k].(dest := r)]
            && LineKinds(u, Classify) == Bared(LineKinds(t, Classify), Opened(t, m))
  {
    hide Scan, Edited, LineKinds, Bared, MatchAt, QuietEdit, Opened, RefsWith, Tame, Quiet, Splice;
    ScannedLink(t, k);
    var u, d := SpliceIsQuiet(t, Scan(t)[k], r);
    EditFacts(t, k, r, u, d);
    RefsWithEdited(t, u, d, Scan(t)[k].bracket + 1, k, r, prot);
  }

  lemma {:induction false} DestsDiffer(t: string, j: nat, k: nat)
    requires j < |Scan(t)| && k < |Scan(t)|
    ensures Scan(t)[j].dest == Scan(t)[k].dest <==> j == k
  {
    ScannedLink(t, j);
    ScannedLink(t, k);
    if j < k { ScanOrdered(t, j, k); }
    if k < j { ScanOrdered(t, k, j); }
  }
}
