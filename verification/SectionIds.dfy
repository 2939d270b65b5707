/** How headings are numbered when several have the same base, and when the identifiers so made are unique. */
module SectionIds {
  import opened Text

  /** The identifier of a heading before which `count` headings had its base. */
  function Numbered(base: string, count: nat): string { if count == 0 then base else base + "-" + Decimal(count) }

  /** How many of the first `n` bases are `b`. */
  function Count(bases: seq<string>, n: nat, b: string): nat
    requires n <= |bases|
  {
    if n == 0 then 0 else Count(bases, n - 1, b) + if bases[n - 1] == b then 1 else 0
  }

  function Id(bases: seq<string>, i: nat): string
    requires i < |bases|
  {
    Numbered(bases[i], Count(bases, i, bases[i]))
  }

  /** Some heading has identifier `x`. */
  predicate Taken(bases: seq<string>, n: nat, x: string)
    requires n <= |bases|
  {
    exists i :: 0 <= i < n && Id(bases, i) == x
  }

  /** No base is spelled like the number given to another one. */
  predicate Apart(bases: seq<string>) {
    forall k, c :: 0 <= k < |bases| && 1 <= c < Count(bases, |bases|, bases[k]) ==> Numbered(bases[k], c) !in bases
  }

  // ---- counting ------------------------------------------------------------------------------

  lemma {:induction false} CountPrefix(bases: seq<string>, more: seq<string>, n: nat, b: string)
    requires n <= |bases| && bases <= more
    ensures Count(bases, n, b) == Count(more, n, b)
  {
    if n > 0 { CountPrefix(bases, more, n - 1, b); }
  }

  lemma {:induction false} CountGrows(bases: seq<string>, n: nat, m: nat, b: string)
    requires n <= m <= |bases|
    ensures Count(bases, n, b) <= Count(bases, m, b)
    ensures n < m && bases[n] == b ==> Count(bases, n, b) < Count(bases, m, b)
  {
    if n < m - 1 { CountGrows(bases, n, m - 1, b); }
  }

  /** The heading that gets number `c` of its base. */
  lemma {:induction false} Occurrence(bases: seq<string>, n: nat, b: string, c: nat) returns (k: nat)
    requires n <= |bases| && c < Count(bases, n, b)
    ensures k < n && bases[k] == b && Count(bases, k, b) == c
  {
    if c == Count(bases, n - 1, b) { k := n - 1; } else { k := Occurrence(bases, n - 1, b, c); }
  }

  // ---- numerals after a dash -------------------------------------------------------------------

  lemma {:induction false} DashApart(x: string, a: nat, y: string, b: nat)
    requires x + "-" + Decimal(a) == y + "-" + Decimal(b) && |x| <= |y|
    ensures x == y && a == b
  {
    DecimalDigits(a);
    var s, t := x + "-" + Decimal(a), y + "-" + Decimal(b);
    assert forall k :: |x| < k < |s| ==> s[k] == Decimal(a)[k - |x| - 1] && Digit(s[k]);
    assert t[|y|] == '-' && !Digit('-');
    assert x == s[..|x|] == t[..|x|] == y;
    assert Decimal(a) == s[|x| + 1..] == Decimal(b);
    DecimalApart(a, b);
  }

  /** Equal identifiers come from equal bases, or one base is spelled like the other's number. */
  lemma {:induction false} NumberedApart(x: string, a: nat, y: string, b: nat)
    requires Numbered(x, a) == Numbered(y, b) && x != y
    ensures (a == 0 && b > 0 && x == Numbered(y, b)) || (b == 0 && a > 0 && y == Numbered(x, a))
  {
    if a > 0 && b > 0 {
      if |x| <= |y| { DashApart(x, a, y, b); } else { DashApart(y, b, x, a); }
    }
  }

  lemma {:induction false} NumbersApart(x: string, a: nat, b: nat)
    requires Numbered(x, a) == Numbered(x, b)
    ensures a == b
  {
    DecimalDigits(a);
    DecimalDigits(b);
    if a > 0 && b > 0 { DashApart(x, a, x, b); }
  }

  // ---- the identifiers ---------------------------------------------------------------------------

  /** The identifiers given out are the numbers of the bases so far. */
  lemma {:induction false} TakenAre(bases: seq<string>, n: nat, x: string)
    requires n <= |bases|
    ensures Taken(bases, n, x) <==> exists k, c :: 0 <= k < n && 0 <= c < Count(bases, n, bases[k]) && x == Numbered(bases[k], c)
  {
    hide Count, Numbered;
    if Taken(bases, n, x) {
      var i :| 0 <= i < n && Id(bases, i) == x;
      CountGrows(bases, i, n, bases[i]);
      assert Count(bases, i, bases[i]) < Count(bases, n, bases[i]) && x == Numbered(bases[i], Count(bases, i, bases[i]));
    }
    if k, c :| 0 <= k < n && 0 <= c < Count(bases, n, bases[k]) && x == Numbered(bases[k], c) {
      var i := Occurrence(bases, n, bases[k], c);
      assert Id(bases, i) == x;
    }
  }

  /** Identifiers are unique exactly when no base is spelled like the number of another. */
  lemma {:induction false} UniqueExactly(bases: seq<string>)
    ensures (forall i, j :: 0 <= i < j < |bases| ==> Id(bases, i) != Id(bases, j)) <==> Apart(bases)
  {
    hide Count, Numbered;
    if Apart(bases) {
      forall i, j | 0 <= i < j < |bases| ensures Id(bases, i) != Id(bases, j) {
        if Id(bases, i) == Id(bases, j) { Clash(bases, i, j); }
      }
    } else {
      var k, c :| 0 <= k < |bases| && 1 <= c < Count(bases, |bases|, bases[k]) && Numbered(bases[k], c) in bases;
      var i, j := ClashOf(bases, bases[k], c);
      assert if i < j then Id(bases, i) == Id(bases, j) else Id(bases, j) == Id(bases, i);
    }
  }

  lemma {:induction false} Clash(bases: seq<string>, i: nat, j: nat)
    requires i < j < |bases| && Id(bases, i) == Id(bases, j)
    ensures !Apart(bases)
  {
    var x, y, n := bases[i], bases[j], |bases|;
    var a, b := Count(bases, i, x), Count(bases, j, y);
    hide Count, Numbered;
    CountGrows(bases, i, j, x);
    if x == y {
      NumbersApart(x, a, b);
    } else {
      NumberedApart(x, a, y, b);
      CountGrows(bases, i, n, x);
      CountGrows(bases, j, n, y);
      assert if a == 0 then Numbered(y, b) == bases[i] else Numbered(x, a) == bases[j];
    }
  }

  lemma {:induction false} ClashOf(bases: seq<string>, y: string, c: nat) returns (i: nat, j: nat)
    requires 1 <= c < Count(bases, |bases|, y) && Numbered(y, c) in bases
    ensures i != j && i < |bases| && j < |bases| && Id(bases, i) == Id(bases, j)
  {
    var z := Numbered(y, c);
    assert z != y by { NumbersLonger(y, c); }
    i := Occurrence(bases, |bases|, y, c);
    var k :| 0 <= k < |bases| && bases[k] == z;
    CountGrows(bases, k, |bases|, z);
    j := Occurrence(bases, |bases|, z, 0);
  }

  lemma {:induction false} NumbersLonger(y: string, c: nat)
    requires c >= 1
    ensures |Numbered(y, c)| > |y|
  {}
}
