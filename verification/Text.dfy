/** Character classes and string helpers with Python's `str` and `re` semantics. */
module Text {

  datatype Option<+T> = None | Some(value: T)

  /** What a raising operation of the source returns. */
  datatype Result<+T, +E> = Ok(value: T) | Err(error: E)

  /** `str.isspace` on one character, which is also `\s` in a `re` pattern over `str`. */
  predicate IsSpace(c: char) {
    var n := c as int;
    || 9 <= n <= 13 || 28 <= n <= 32 || n == 0x85 || n == 0xA0 || n == 0x1680
    || 0x2000 <= n <= 0x200A || n == 0x2028 || n == 0x2029 || n == 0x202F || n == 0x205F || n == 0x3000
  }

  /** The characters `str.splitlines` breaks at. */
  predicate IsLineBreak(c: char) {
    var n := c as int;
    10 <= n <= 13 || 28 <= n <= 30 || n == 0x85 || n == 0x2028 || n == 0x2029
  }

  /** Characters a scan looks for. */
  datatype Class = NonSpace | DestEnd | RightBracket | Quote | Backtick | TickOrNewline | LineBreak

  predicate In(k: Class, c: char) {
    match k
    case NonSpace => !IsSpace(c)
    case DestEnd => IsSpace(c) || c == ')'
    case RightBracket => c == ']'
    case Quote => c == '"' || c == '\''
    case Backtick => c == '`'
    case TickOrNewline => c == '`' || c == '\n'
    case LineBreak => IsLineBreak(c)
  }

  /** The first position from `i` on that holds a character of class `k`, or `|t|`. */
  function Seek(t: string, i: nat, k: Class): (j: nat)
    requires i <= |t|
    ensures i <= j <= |t|
    ensures forall p :: i <= p < j ==> !In(k, t[p])
    ensures j < |t| ==> In(k, t[j])
    decreases |t| - i
  {
    if i == |t| || In(k, t[i]) then i else Seek(t, i + 1, k)
  }

  /** Moving text between two strings moves what a scan finds there. */
  lemma {:induction false} SeekMoved(t: string, i: nat, u: string, j: nat, k: Class, end: nat)
    requires i <= end <= |t| && j + (end - i) <= |u|
    requires t[i..end] == u[j..j + (end - i)]
    ensures Seek(t, i, k) < end ==> Seek(u, j, k) == Seek(t, i, k) + j - i
    ensures Seek(t, i, k) >= end ==> Seek(u, j, k) >= j + (end - i)
    decreases end - i
  {
    if i < end {
      assert t[i] == t[i..end][0] == u[j..j + (end - i)][0] == u[j];
      if !In(k, t[i]) {
        assert t[i + 1..end] == t[i..end][1..] == u[j..j + (end - i)][1..] == u[j + 1..j + (end - i)];
        SeekMoved(t, i + 1, u, j + 1, k, end);
      }
    }
  }

  predicate Free(k: Class, s: string) { forall p :: 0 <= p < |s| ==> !In(k, s[p]) }

  /** `str.count("\n", 0, i)`. */
  function Newlines(t: string, i: nat): nat
    requires i <= |t|
  {
    if i == 0 then 0 else Newlines(t, i - 1) + (if t[i - 1] == '\n' then 1 else 0)
  }

  predicate StartsWith(s: string, p: string) { |p| <= |s| && s[..|p|] == p }
  predicate EndsWith(s: string, p: string) { |p| <= |s| && s[|s| - |p|..] == p }

  /** `str.lstrip`. */
  function LStrip(s: string): string { s[Seek(s, 0, NonSpace)..] }

  /** `str.rstrip`. */
  function RStrip(s: string): (r: string)
    ensures r <= s
    ensures r != [] ==> !IsSpace(r[|r| - 1])
    ensures forall p :: |r| <= p < |s| ==> IsSpace(s[p])
  {
    if s != [] && IsSpace(s[|s| - 1]) then RStrip(s[..|s| - 1]) else s
  }

  /** `str.strip`. */
  function Strip(s: string): string { RStrip(LStrip(s)) }

  lemma {:induction false} StripTwice(s: string)
    ensures Strip(Strip(s)) == Strip(s)
  {
    var r := Strip(s);
    assert r != "" ==> r[0] == LStrip(s)[0];
  }

  /** Stripping takes white space off both ends and nothing else. */
  lemma {:induction false} StripMeans(s: string) returns (before: string, after: string)
    ensures s == before + Strip(s) + after
    ensures (forall i :: 0 <= i < |before| ==> IsSpace(before[i])) && (forall i :: 0 <= i < |after| ==> IsSpace(after[i]))
    ensures Strip(s) != "" ==> !IsSpace(Strip(s)[0]) && !IsSpace(Strip(s)[|Strip(s)| - 1])
  {
    var k := Seek(s, 0, NonSpace);
    var left := LStrip(s);
    before, after := s[..k], left[|Strip(s)|..];
    assert forall i :: 0 <= i < k ==> !In(NonSpace, s[i]);
    assert Strip(s) == left[..|Strip(s)|];
    if Strip(s) != "" { assert Strip(s)[0] == left[0] == s[k]; }
  }

  /** `str.splitlines`: "\r\n" is one break. */
  function SplitLines(t: string): (lines: seq<string>)
    decreases |t|
  {
    if t == [] then []
    else
      var k := Seek(t, 0, LineBreak);
      [t[..k]] + (if k == |t| then [] else SplitLines(t[AfterBreak(t, k)..]))
  }

  function AfterBreak(t: string, k: nat): (j: nat)
    requires k < |t|
    ensures k < j <= |t|
  {
    if t[k] == '\r' && k + 1 < |t| && t[k + 1] == '\n' then k + 2 else k + 1
  }

  // ---- the order of texts ----------------------------------------------------------

  /** Python's order on strings. */
  predicate TextBefore(a: string, b: string) {
    exists i :: 0 <= i <= |a| && i < |b| && a[..i] == b[..i] && (i == |a| || a[i] < b[i])
  }

  lemma {:induction false} TextOrderOn(a: string, b: string, c: string)
    requires TextBefore(a, b) && TextBefore(b, c)
    ensures TextBefore(a, c)
  {
    var i :| 0 <= i <= |a| && i < |b| && a[..i] == b[..i] && (i == |a| || a[i] < b[i]);
    var j :| 0 <= j <= |b| && j < |c| && b[..j] == c[..j] && (j == |b| || b[j] < c[j]);
    var k := if i < j then i else j;
    assert a[..k] == a[..i][..k] == b[..i][..k] == b[..j][..k] == c[..j][..k] == c[..k];
    if i < j { assert b[i] == b[..j][i] == c[..j][i] == c[i]; }
    if j < i { assert a[j] == a[..i][j] == b[..i][j] == b[j]; }
    assert k <= |a| && k < |c| && (k == |a| || a[k] < c[k]);
  }

  lemma {:induction false} TextOrder(a: string, b: string)
    ensures a == b || TextBefore(a, b) || TextBefore(b, a)
    ensures !(TextBefore(a, b) && TextBefore(b, a))
  {
    if TextBefore(a, b) && TextBefore(b, a) { TextOrderOn(a, b, a); }
    var i := 0;
    while i < |a| && i < |b| && a[i] == b[i]
      invariant i <= |a| && i <= |b| && a[..i] == b[..i]
    {
      i := i + 1;
    }
    assert a == a[..|a|] && b == b[..|b|];
    assert a == b || (if i == |a| || (i < |b| && a[i] < b[i]) then TextBefore(a, b) else TextBefore(b, a));
  }

  /** The first text of a set: where `sorted` begins. */
  method FirstText(s: set<string>) returns (first: string)
    requires s != {}
    ensures first in s && forall x :: x in s && x != first ==> TextBefore(first, x)
  {
    first :| first in s;
    var rest := s - {first};
    while rest != {}
      invariant rest <= s && first in s && forall x :: x in s && x !in rest && x != first ==> TextBefore(first, x)
    {
      var x :| x in rest;
      TextOrder(first, x);
      rest := rest - {x};
      if TextBefore(x, first) {
        forall y | y in s && y !in rest && y != x ensures TextBefore(x, y) {
          if y != first { TextOrderOn(x, first, y); }
        }
        first := x;
      }
    }
  }

  // ---- decimal numerals ------------------------------------------------------------

  function DigitOf(n: nat): char
    requires n < 10
  {
    ('0' as int + n) as char
  }

  /** `str(n)`. */
  function Decimal(n: nat): string { if n < 10 then [DigitOf(n)] else Decimal(n / 10) + [DigitOf(n % 10)] }

  predicate Digit(c: char) { '0' <= c <= '9' }

  lemma {:induction false} DecimalDigits(n: nat)
    ensures Decimal(n) != "" && forall i :: 0 <= i < |Decimal(n)| ==> Digit(Decimal(n)[i])
  {
    if n >= 10 { DecimalDigits(n / 10); }
  }

  lemma {:induction false} DecimalApart(n: nat, m: nat)
    requires Decimal(n) == Decimal(m)
    ensures n == m
  {
    DecimalLast(n);
    DecimalLast(m);
    if n >= 10 && m >= 10 { DecimalApart(n / 10, m / 10); }
  }

  lemma {:induction false} DecimalLast(n: nat)
    ensures var d := Decimal(n);
            && d != "" && d[|d| - 1] == DigitOf(n % 10)
            && (n < 10 ==> |d| == 1) && (n >= 10 ==> |d| > 1 && d[..|d| - 1] == Decimal(n / 10))
  {
    if n >= 10 { DecimalLast(n / 10); }
  }
}
