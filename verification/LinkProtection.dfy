/** Which lines and stretches of a page are protected from rewriting, told from its text. */
module LinkProtection {
  import opened Text
  import opened LinkGrammar
  import opened LinkContext

  // ---- fences --------------------------------------------------------------------------------

  /** The line begins, after spaces, with three backticks or tildes. */
  predicate Fences(line: string, marker: Marker) { StartsWith(LStrip(line), if marker.Ticks? then "```" else "~~~") }

  predicate AnyFence(line: string) { Fences(line, Ticks) || Fences(line, Tildes) }

  function MarkerOf(line: string): Marker { if Fences(line, Ticks) then Ticks else Tildes }

  /** The first line from `i` on that begins a fence, or the end. */
  function FirstFence(lines: seq<string>, i: nat): (o: nat)
    requires i <= |lines|
    ensures i <= o <= |lines| && (o < |lines| ==> AnyFence(lines[o]))
    ensures forall q :: i <= q < o ==> !AnyFence(lines[q])
    decreases |lines| - i
  {
    if i == |lines| || AnyFence(lines[i]) then i else FirstFence(lines, i + 1)
  }

  /** The first line from `i` on with this marker, or the end. */
  function FirstWith(lines: seq<string>, i: nat, marker: Marker): (c: nat)
    requires i <= |lines|
    ensures i <= c <= |lines| && (c < |lines| ==> Fences(lines[c], marker))
    ensures forall q :: i <= q < c ==> !Fences(lines[q], marker)
    decreases |lines| - i
  {
    if i == |lines| || Fences(lines[i], marker) then i else FirstWith(lines, i + 1, marker)
  }

  /** The line that closes the fence of line `o`, or the end. */
  function ClosedBy(lines: seq<string>, o: nat): (c: nat)
    requires o < |lines|
    ensures o < c <= |lines|
  {
    FirstWith(lines, o + 1, MarkerOf(lines[o]))
  }

  /** Line `l` is part of a fenced block, from line `i` on: each runs from a fence to the next one with its marker. */
  predicate Fenced(lines: seq<string>, i: nat, l: nat)
    requires i <= |lines|
    decreases |lines| - i
  {
    var o := FirstFence(lines, i);
    o < |lines| && o <= l && (l <= ClosedBy(lines, o) || (ClosedBy(lines, o) < |lines| && Fenced(lines, ClosedBy(lines, o) + 1, l)))
  }

  /** The line of the fence that is never closed. */
  function Unclosed(lines: seq<string>, i: nat): Option<nat>
    requires i <= |lines|
    decreases |lines| - i
  {
    var o := FirstFence(lines, i);
    if o == |lines| then Option.None
    else if ClosedBy(lines, o) == |lines| then Some(o)
    else Unclosed(lines, ClosedBy(lines, o) + 1)
  }

  lemma {:induction false} KindFences(line: string)
    ensures Classify(line).marker == if AnyFence(line) then Some(MarkerOf(line)) else Option.None
    ensures forall marker :: Closes(Classify(line), marker) <==> Fences(line, marker)
    ensures Classify(line).quoted <==> StartsWith(LStrip(line), ">")
  {
    ClosesItsOwn(line, Ticks);
    ClosesItsOwn(line, Tildes);
    var left := LStrip(line);
    if StartsWith(left, "```") { assert left[0] == left[..3][0] == '`'; }
    if StartsWith(left, "~~~") { assert left[0] == left[..3][0] == '~'; }
  }

  /** The kinds are those of the lines. */
  ghost predicate KindsOf(kinds: seq<Kind>, lines: seq<string>) {
    |kinds| == |lines| && forall i :: 0 <= i < |lines| ==> kinds[i] == Classify(lines[i])
  }

  lemma {:induction false} StaysClosed(kinds: seq<Kind>, lines: seq<string>, i: nat, q: nat)
    requires KindsOf(kinds, lines) && i <= q <= |lines| && FenceBefore(kinds, i).Closed?
    requires forall x :: i <= x < q ==> !AnyFence(lines[x])
    ensures FenceBefore(kinds, q).Closed?
  {
    hide Classify, AnyFence, MarkerOf;
    if i < q {
      StaysClosed(kinds, lines, i, q - 1);
      KindFences(lines[q - 1]);
    }
  }

  lemma {:induction false} StaysOpen(kinds: seq<Kind>, lines: seq<string>, o: nat, q: nat)
    requires KindsOf(kinds, lines) && o < q <= |lines| && FenceBefore(kinds, o).Closed? && AnyFence(lines[o])
    requires forall x :: o < x < q ==> !Fences(lines[x], MarkerOf(lines[o]))
    ensures FenceBefore(kinds, q) == Open(MarkerOf(lines[o]), o)
    decreases q
  {
    hide Classify, AnyFence, MarkerOf, Closes, Fences;
    KindFences(lines[q - 1]);
    if o < q - 1 { StaysOpen(kinds, lines, o, q - 1); }
  }

  lemma {:induction false} ClosesThere(kinds: seq<Kind>, lines: seq<string>, o: nat)
    requires KindsOf(kinds, lines) && o < |lines| && FenceBefore(kinds, o).Closed? && AnyFence(lines[o]) && ClosedBy(lines, o) < |lines|
    ensures FenceBefore(kinds, ClosedBy(lines, o) + 1).Closed?
  {
    var c := ClosedBy(lines, o);
    StaysOpen(kinds, lines, o, c);
    KindFences(lines[c]);
    assert Fences(lines[c], MarkerOf(lines[o])) && AnyFence(lines[c]);
    hide Classify, AnyFence, MarkerOf, Closes, Fences;
  }

  lemma {:induction false} FencedStep(lines: seq<string>, i: nat, l: nat)
    requires i <= l < |lines|
    ensures var o := FirstFence(lines, i);
            && (l < o ==> !Fenced(lines, i, l))
            && (o <= l <= (if o < |lines| then ClosedBy(lines, o) else 0) ==> Fenced(lines, i, l))
            && (o < |lines| && ClosedBy(lines, o) < l ==> Fenced(lines, i, l) == Fenced(lines, ClosedBy(lines, o) + 1, l))
  {
    hide AnyFence, Fences, MarkerOf, FirstFence, ClosedBy;
  }

  /** Each line's reason, from a place where no fence is open. */
  lemma {:induction false} ReasonsFrom(kinds: seq<Kind>, lines: seq<string>, i: nat, l: nat)
    requires KindsOf(kinds, lines) && i <= l < |lines| && FenceBefore(kinds, i).Closed?
    ensures kinds[l].marker.Some? || FenceBefore(kinds, l).Open? <==> Fenced(lines, i, l)
    decreases |lines| - i
  {
    hide *;
    var o := FirstFence(lines, i);
    FencedStep(lines, i, l);
    if l < o {
      StaysClosed(kinds, lines, i, l);
      LineFences(kinds, lines, l);
    } else {
      StaysClosed(kinds, lines, i, o);
      var c := ClosedBy(lines, o);
      if l == o {
        LineFences(kinds, lines, l);
      } else if l <= c {
        OpenIn(kinds, lines, o, l);
      } else {
        ClosesThere(kinds, lines, o);
        ReasonsFrom(kinds, lines, c + 1, l);
      }
    }
  }

  lemma {:induction false} LineFences(kinds: seq<Kind>, lines: seq<string>, l: nat)
    requires KindsOf(kinds, lines) && l < |lines|
    ensures kinds[l].marker.Some? <==> AnyFence(lines[l])
  {
    KindFences(lines[l]);
    hide Classify, AnyFence;
  }

  lemma {:induction false} OpenIn(kinds: seq<Kind>, lines: seq<string>, o: nat, q: nat)
    requires KindsOf(kinds, lines) && o < |lines| && FenceBefore(kinds, o).Closed? && AnyFence(lines[o]) && o < q <= ClosedBy(lines, o)
    ensures FenceBefore(kinds, q) == Open(MarkerOf(lines[o]), o)
  {
    StaysOpen(kinds, lines, o, q);
    hide FenceBefore;
  }

  lemma {:induction false} EndFrom(kinds: seq<Kind>, lines: seq<string>, i: nat)
    requires KindsOf(kinds, lines) && i <= |lines| && FenceBefore(kinds, i).Closed?
    ensures Unclosed(lines, i).Some? ==> Unclosed(lines, i).value < |lines|
    ensures var o := Unclosed(lines, i);
            FenceBefore(kinds, |lines|) == if o.None? then Closed else Open(MarkerOf(lines[o.value]), o.value)
    decreases |lines| - i
  {
    hide Classify, FenceBefore, KindsOf, AnyFence, Fences, MarkerOf, FirstFence, ClosedBy;
    var o := FirstFence(lines, i);
    StaysClosed(kinds, lines, i, o);
    if o < |lines| {
      var c := ClosedBy(lines, o);
      if c == |lines| {
        OpenIn(kinds, lines, o, |lines|);
      } else {
        ClosesThere(kinds, lines, o);
        EndFrom(kinds, lines, c + 1);
      }
    }
  }

  /**
   * A page is refused exactly for a fence that is never closed, with its line. Otherwise
   * the lines of fenced blocks are code, other lines that begin with '>' quotations, and
   * no other line is protected.
   */
  lemma {:induction false} ProtectionMeans(t: string)
    ensures var lines, open := SplitLines(t), Unclosed(SplitLines(t), 0);
            && (open.Some? ==> open.value < |lines| && Protected(t) == Err(UnterminatedFence(MarkerOf(lines[open.value]), open.value)))
            && (open.None? ==> Protected(t).Ok? && |Protected(t).value| == |lines|)
            && (open.None? ==> forall l :: 0 <= l < |lines| ==>
                  Protected(t).value[l] == if Fenced(lines, 0, l) then Some(FencedCode)
                                           else if StartsWith(LStrip(lines[l]), ">") then Some(Blockquote) else Option.None)
  {
    var lines, kinds := SplitLines(t), LineKinds(t, Classify);
    LineKindsAreSplit(t, Classify);
    EndFrom(kinds, lines, 0);
    forall l | 0 <= l < |lines|
      ensures LineReason(kinds[l], FenceBefore(kinds, l)) == if Fenced(lines, 0, l) then Some(FencedCode)
                                                            else if StartsWith(LStrip(lines[l]), ">") then Some(Blockquote) else Option.None
    {
      hide Classify, Fenced, FenceBefore;
      ReasonsFrom(kinds, lines, 0, l);
      KindFences(lines[l]);
    }
    hide Classify, Fenced, Unclosed, FenceBefore;
  }

  // ---- inline code ----------------------------------------------------------------------------

  /** How many backticks stand before `i` on its line. */
  function TicksBefore(t: string, i: nat): nat
    requires i <= |t|
  {
    if i == 0 || t[i - 1] == '\n' then 0 else TicksBefore(t, i - 1) + if t[i - 1] == '`' then 1 else 0
  }

  /** A backtick with an even number of others before it on its line, and the next one on that line. */
  predicate IsSpan(t: string, s: nat, e: nat) {
    && s + 1 < e <= |t| && t[s] == '`' && t[e - 1] == '`' && TicksBefore(t, s) % 2 == 0
    && forall q :: s < q < e - 1 ==> t[q] != '`' && t[q] != '\n'
  }

  /** The backticks before `i` on its line are paired, or the line has no more of them. */
  ghost predicate Paired(t: string, i: nat)
    requires i <= |t|
  {
    TicksBefore(t, i) % 2 == 0 || NoneLeft(t, i)
  }

  ghost predicate NoneLeft(t: string, i: nat)
    requires i <= |t|
  {
    forall q :: i <= q < |t| && t[q] == '`' ==> exists r :: i <= r < q && t[r] == '\n'
  }

  lemma {:induction false} TicksStay(t: string, i: nat, q: nat)
    requires i <= q <= |t| && forall x :: i <= x < q ==> t[x] != '`' && t[x] != '\n'
    ensures TicksBefore(t, q) == TicksBefore(t, i)
  {
    if i < q { TicksStay(t, i, q - 1); }
  }

  /** The span that an attempt at `i` finds. */
  lemma {:induction false} AttemptIs(t: string, i: nat)
    requires i < |t| && Paired(t, i)
    ensures SpanAt(t, i).Some? ==> IsSpan(t, i, SpanAt(t, i).value) && Paired(t, SpanAt(t, i).value)
    ensures SpanAt(t, i).None? ==> Paired(t, i + 1) && forall e: nat :: !IsSpan(t, i, e)
  {
    if t[i] == '`' {
      assert !NoneLeft(t, i);
      var b := Seek(t, i + 1, TickOrNewline);
      assert forall q :: i < q < b ==> !In(TickOrNewline, t[q]);
      if b < |t| && t[b] == '`' {
        TicksStay(t, i + 1, b);
        assert TicksBefore(t, b + 1) == TicksBefore(t, i) + 2;
      } else {
        assert NoneLeft(t, i + 1);
      }
    } else if NoneLeft(t, i) {
      NoneLeftNext(t, i);
    }
  }

  lemma {:induction false} NoneLeftNext(t: string, i: nat)
    requires i < |t| && NoneLeft(t, i) && t[i] != '`'
    ensures Paired(t, i + 1)
  {
    if t[i] != '\n' {
      forall q | i + 1 <= q < |t| && t[q] == '`' ensures exists r :: i + 1 <= r < q && t[r] == '\n' {
        var r :| i <= r < q && t[r] == '\n';
      }
    }
  }

  /** Inside a span no other one begins. */
  lemma {:induction false} NoneInside(t: string, i: nat, e: nat, s: nat, f: nat)
    requires IsSpan(t, i, e) && i < s < e
    ensures !IsSpan(t, s, f)
  {
    if s == e - 1 {
      TicksStay(t, i + 1, s);
      assert TicksBefore(t, s) == TicksBefore(t, i) + 1;
    }
  }

  lemma {:induction false} WalkFinds(t: string, i: nat, s: nat, e: nat)
    requires i <= |t| && Paired(t, i)
    ensures (s, e) in WalkSpans(SpanAttempts(t), i) <==> i <= s && IsSpan(t, s, e)
    decreases |t| - i
  {
    if i < |t| {
      AttemptIs(t, i);
      var end := SpanAt(t, i);
      WalkStep(t, i);
      hide IsSpan, Paired, SpanAt, WalkSpans;
      if end.Some? {
        WalkFinds(t, end.value, s, e);
        if i < s < end.value { NoneInside(t, i, end.value, s, e); }
        if s == i && IsSpan(t, s, e) { OneSpan(t, i, end.value, e); }
      } else {
        WalkFinds(t, i + 1, s, e);
      }
    }
  }

  lemma {:induction false} OneSpan(t: string, s: nat, e: nat, f: nat)
    requires IsSpan(t, s, e) && IsSpan(t, s, f)
    ensures e == f
  {}

  lemma {:induction false} WalkStep(t: string, i: nat)
    requires i < |t|
    ensures var end := SpanAt(t, i);
            WalkSpans(SpanAttempts(t), i) == if end.None? then WalkSpans(SpanAttempts(t), i + 1) else [(i, end.value)] + WalkSpans(SpanAttempts(t), end.value)
  {
    hide SpanAt;
  }

  /** The spans of inline code are the paired backticks of each line. */
  lemma {:induction false} SpansMean(t: string, s: nat, e: nat)
    ensures (s, e) in InlineSpans(t) <==> IsSpan(t, s, e)
  {
    WalkFinds(t, 0, s, e);
  }

  // ---- a reference ------------------------------------------------------------------------------

  /** The destination lies in a span of inline code. */
  ghost predicate InCode(t: string, m: Link) { exists s: nat, e: nat :: IsSpan(t, s, e) && s <= m.dest && m.destEnd <= e }

  lemma {:induction false} InsideIsInCode(t: string, m: Link)
    ensures Inside(InlineSpans(t), m.dest, m.destEnd) <==> InCode(t, m)
  {
    hide IsSpan, InlineSpans;
    var spans := InlineSpans(t);
    if k :| 0 <= k < |spans| && spans[k].0 <= m.dest && m.destEnd <= spans[k].1 {
      assert (spans[k].0, spans[k].1) == spans[k] && spans[k] in spans;
      SpansMean(t, spans[k].0, spans[k].1);
    }
    if s: nat, e: nat :| IsSpan(t, s, e) && s <= m.dest && m.destEnd <= e {
      SpansMean(t, s, e);
      var k :| 0 <= k < |spans| && spans[k] == (s, e);
    }
  }

  /** Where the first protected line between `a` and `b` is, or past `b`. */
  lemma {:induction false} FirstReasonIs(prot: seq<Option<Reason>>, a: nat, b: nat) returns (l: nat)
    ensures a <= l && forall x :: a <= x < l && x < |prot| && x <= b ==> prot[x].None?
    ensures l <= b ==> l < |prot| && prot[l].Some? && FirstReason(prot, a, b) == prot[l]
    ensures l > b ==> FirstReason(prot, a, b).None?
    decreases b + 1 - a
  {
    if a > b || (a < |prot| && prot[a].Some?) { l := a; } else { l := FirstReasonIs(prot, a + 1, b); }
  }

  /** Why a link is protected: the reason of its first protected line, or else inline code around its destination. */
  ghost predicate ReasonIs(t: string, m: Link, line: nat, endLine: nat, reason: Option<Reason>) {
    var lines := SplitLines(t);
    if exists l :: line <= l <= endLine && l < |lines| && LineIsProtected(lines, l) then
      exists l :: line <= l <= endLine && l < |lines| && LineIsProtected(lines, l) && (forall x :: line <= x < l ==> !LineIsProtected(lines, x))
                  && reason == Some(if Fenced(lines, 0, l) then FencedCode else Blockquote)
    else reason == if InCode(t, m) then Some(InlineCode) else Option.None
  }

  predicate LineIsProtected(lines: seq<string>, l: nat) { l < |lines| && (Fenced(lines, 0, l) || StartsWith(LStrip(lines[l]), ">")) }

  /** Each link of a page is read with its text, its lines as newlines count them, and its reason. */
  lemma {:induction false} RefMeans(t: string, k: nat)
    requires Refs(t).Ok? && k < |Scan(t)|
    ensures var m, ref := Scan(t)[k], Refs(t).value[k];
            && WellPlaced(t, m) && ref.caption == Label(t, m) && ref.dest == Dest(t, m)
            && ref.line == Newlines(t, m.start) && ref.endLine == Newlines(t, m.end)
            && ReasonIs(t, m, ref.line, ref.endLine, ref.reason)
  {
    ScanPlaced(t);
    ProtectionMeans(t);
    var m, prot := Scan(t)[k], Protected(t).value;
    var a, b := Newlines(t, m.start), Newlines(t, m.end);
    var l := FirstReasonIs(prot, a, b);
    InsideIsInCode(t, m);
    assert Refs(t).value[k] == RefOf(t, prot, InlineSpans(t), m);
    hide Scan, Protected, Fenced, InlineSpans, InCode, Newlines, FirstReason, SplitLines;
    ReasonFound(t, m, prot, a, b, l);
  }

  lemma {:induction false} ReasonFound(t: string, m: Link, prot: seq<Option<Reason>>, a: nat, b: nat, l: nat)
    requires var lines := SplitLines(t);
             && |prot| == |lines| && (forall x :: 0 <= x < |lines| ==>
                  prot[x] == if Fenced(lines, 0, x) then Some(FencedCode) else if StartsWith(LStrip(lines[x]), ">") then Some(Blockquote) else Option.None)
    requires a <= l && (forall x :: a <= x < l && x < |prot| && x <= b ==> prot[x].None?)
    requires l <= b ==> l < |prot| && prot[l].Some?
    ensures ReasonIs(t, m, a, b, if l <= b then prot[l] else if InCode(t, m) then Some(InlineCode) else Option.None)
  {
    hide Fenced, InCode;
    var lines := SplitLines(t);
    forall x | 0 <= x < |lines| ensures LineIsProtected(lines, x) <==> prot[x].Some? {}
    if l <= b { assert LineIsProtected(lines, l); }
  }
}
