/** Sorting the siblings of the tree at every level, and why that makes it canonical. */
module NavOrder {
  import opened NavTree

  // ---- sort keys, compared as Python compares tuples --------------------------------

  /** A sort key: the numbers of the tuple, then the characters of the name. */
  type Key = seq<int>

  predicate Less(a: Key, b: Key) { b != [] && (a == [] || a[0] < b[0] || (a[0] == b[0] && Less(a[1..], b[1..]))) }

  lemma {:induction false} LessTotal(a: Key, b: Key)
    ensures !(Less(a, b) && Less(b, a)) && (a == b ==> !Less(a, b))
    ensures a == b || Less(a, b) || Less(b, a)
  {
    if a != [] && b != [] {
      LessTotal(a[1..], b[1..]);
      assert a == [a[0]] + a[1..] && b == [b[0]] + b[1..];
    }
  }

  lemma {:induction false} LessTransitive(a: Key, b: Key, c: Key)
    requires Less(a, b) && Less(b, c)
    ensures Less(a, c)
  {
    if a != [] && a[0] == b[0] == c[0] { LessTransitive(a[1..], b[1..], c[1..]); }
  }

  function Codes(s: string): Key {
    if s == [] then [] else [s[0] as int] + Codes(s[1..])
  }

  lemma {:induction false} CodesApart(s: string, t: string)
    requires Codes(s) == Codes(t)
    ensures s == t
  {
    if s != [] && t != [] {
      assert Codes(s)[1..] == Codes(s[1..]) && Codes(t)[1..] == Codes(t[1..]);
      CodesApart(s[1..], t[1..]);
      assert s == [s[0]] + s[1..] && t == [t[0]] + t[1..];
    }
  }

  /** `section_order` for top-level sections, `nav_orders` below them. */
  datatype Orders = Orders(norm: Normalizer, sections: map<string, int>, pages: map<seq<string>, int>)

  /** The sort key of a sibling under `prefix`. */
  function Rank(o: Orders, prefix: seq<string>, text: string, leaf: bool): Key {
    var name := o.norm(text);
    if prefix == [] then [if text in o.sections then o.sections[text] else 10000] + Codes(name)
    else
      [if name == "overview" && leaf then 0 else 1, if prefix + [text] in o.pages then o.pages[prefix + [text]] else 1000]
      + Codes(name)
  }

  function HeadRank(o: Orders, prefix: seq<string>, f: Forest): Key
    requires !f.End?
  {
    Rank(o, prefix, f.text, f.Leaf?)
  }

  lemma {:induction false} RanksApart(o: Orders, prefix: seq<string>, f: Forest, g: Forest)
    requires !f.End? && !g.End? && HeadRank(o, prefix, f) == HeadRank(o, prefix, g)
    ensures o.norm(f.text) == o.norm(g.text)
  {
    var n := if prefix == [] then 1 else 2;
    assert HeadRank(o, prefix, f)[n..] == Codes(o.norm(f.text)) && HeadRank(o, prefix, g)[n..] == Codes(o.norm(g.text));
    CodesApart(o.norm(f.text), o.norm(g.text));
  }

  // ---- sorting ---------------------------------------------------------------------

  /** Put the head entry of `e` in its place among sorted siblings. */
  function Place(o: Orders, prefix: seq<string>, e: Forest, f: Forest): (g: Forest)
    requires !e.End?
    ensures !g.End?
    decreases f
  {
    if f.End? || Less(HeadRank(o, prefix, e), HeadRank(o, prefix, f)) then e.(rest := f)
    else f.(rest := Place(o, prefix, e, f.rest))
  }

  /** `_serialize`: the sections below are serialized, then the siblings sorted. */
  function Serialize(o: Orders, prefix: seq<string>, f: Forest): Forest
    decreases f
  {
    match f
    case End => End
    case Leaf(text, path, rest) => Place(o, prefix, f, Serialize(o, prefix, rest))
    case Branch(text, children, rest) =>
      Place(o, prefix, f.(children := Serialize(o, prefix + [text], children)), Serialize(o, prefix, rest))
  }

  predicate After(o: Orders, prefix: seq<string>, key: Key, f: Forest) {
    f.End? || (Less(key, HeadRank(o, prefix, f)) && After(o, prefix, key, f.rest))
  }

  /** Siblings are in strictly increasing order at every level. */
  predicate Ordered(o: Orders, prefix: seq<string>, f: Forest)
    decreases f
  {
    match f
    case End => true
    case Leaf(_, _, rest) => After(o, prefix, HeadRank(o, prefix, f), rest) && Ordered(o, prefix, rest)
    case Branch(text, children, rest) =>
      After(o, prefix, HeadRank(o, prefix, f), rest) && Ordered(o, prefix + [text], children) && Ordered(o, prefix, rest)
  }

  /** The same pages, under the same labels. */
  ghost predicate SamePages(f: Forest, g: Forest) { forall p, path :: Holds(f, p, path) <==> Holds(g, p, path) }

  ghost predicate Rearranged(o: Orders, f: Forest, g: Forest) {
    && WellFormed(o.norm, g) && SamePages(f, g) && Paths(g) == Paths(f) && (g.End? <==> f.End?)
    && forall name :: Without(o.norm, f, name) ==> Without(o.norm, g, name)
  }

  lemma {:induction false} AfterLess(o: Orders, prefix: seq<string>, a: Key, b: Key, f: Forest)
    requires Less(a, b) && After(o, prefix, b, f)
    ensures After(o, prefix, a, f)
  {
    if !f.End? {
      LessTransitive(a, b, HeadRank(o, prefix, f));
      AfterLess(o, prefix, a, b, f.rest);
    }
  }

  lemma {:induction false} PlaceAfter(o: Orders, prefix: seq<string>, key: Key, e: Forest, f: Forest)
    requires !e.End? && Less(key, HeadRank(o, prefix, e)) && After(o, prefix, key, f)
    ensures After(o, prefix, key, Place(o, prefix, e, f))
  {
    if !f.End? && !Less(HeadRank(o, prefix, e), HeadRank(o, prefix, f)) { PlaceAfter(o, prefix, key, e, f.rest); }
  }

  /** The head of `e` may join the siblings `f`. */
  ghost predicate Joins(o: Orders, prefix: seq<string>, e: Forest, f: Forest) {
    && !e.End? && WellFormed(o.norm, e.(rest := f)) && Ordered(o, prefix, f)
    && (e.Branch? ==> Ordered(o, prefix + [e.text], e.children))
  }

  lemma {:induction false} JoinsNext(o: Orders, prefix: seq<string>, e: Forest, f: Forest)
    requires Joins(o, prefix, e, f) && !f.End?
    ensures Joins(o, prefix, e, f.rest)
  {
    assert WellFormed(o.norm, f) && Without(o.norm, f, o.norm(e.text));
    assert WellFormed(o.norm, f.rest) && Without(o.norm, f.rest, o.norm(e.text));
    if e.Leaf? { assert WellFormed(o.norm, Leaf(e.text, e.path, f.rest)); } else { assert WellFormed(o.norm, Branch(e.text, e.children, f.rest)); }
  }

  lemma {:induction false} PlaceOrdered(o: Orders, prefix: seq<string>, e: Forest, f: Forest)
    requires Joins(o, prefix, e, f)
    ensures Ordered(o, prefix, Place(o, prefix, e, f))
    decreases f
  {
    if !f.End? {
      var key, other := HeadRank(o, prefix, e), HeadRank(o, prefix, f);
      LessTotal(key, other);
      if key == other {
        RanksApart(o, prefix, e, f);
      } else if Less(key, other) {
        AfterLess(o, prefix, key, other, f.rest);
      } else {
        JoinsNext(o, prefix, e, f);
        PlaceOrdered(o, prefix, e, f.rest);
        PlaceAfter(o, prefix, other, e, f.rest);
      }
    }
  }

  lemma {:induction false} PlaceWithout(o: Orders, prefix: seq<string>, e: Forest, f: Forest, name: string)
    requires !e.End? && o.norm(e.text) != name && Without(o.norm, f, name)
    ensures Without(o.norm, Place(o, prefix, e, f), name)
  {
    if !f.End? && !Less(HeadRank(o, prefix, e), HeadRank(o, prefix, f)) { PlaceWithout(o, prefix, e, f.rest, name); }
  }

  lemma {:induction false} PlaceHas(o: Orders, prefix: seq<string>, e: Forest, f: Forest, p: seq<string>, path: string)
    requires !e.End?
    ensures Holds(Place(o, prefix, e, f), p, path) <==> Holds(e.(rest := f), p, path)
  {
    if !f.End? && !Less(HeadRank(o, prefix, e), HeadRank(o, prefix, f)) { PlaceHas(o, prefix, e, f.rest, p, path); }
  }

  lemma {:induction false} PlacePaths(o: Orders, prefix: seq<string>, e: Forest, f: Forest)
    requires !e.End?
    ensures Paths(Place(o, prefix, e, f)) == Paths(e.(rest := f))
  {
    if !f.End? && !Less(HeadRank(o, prefix, e), HeadRank(o, prefix, f)) { PlacePaths(o, prefix, e, f.rest); }
  }

  lemma {:induction false} PlaceWellFormed(o: Orders, prefix: seq<string>, e: Forest, f: Forest)
    requires !e.End? && WellFormed(o.norm, e.(rest := f))
    ensures WellFormed(o.norm, Place(o, prefix, e, f))
    decreases f
  {
    if !f.End? && !Less(HeadRank(o, prefix, e), HeadRank(o, prefix, f)) {
      PlaceWellFormed(o, prefix, e, f.rest);
      PlaceWithout(o, prefix, e, f.rest, o.norm(f.text));
    }
  }

  lemma {:induction false} PlaceSorts(o: Orders, prefix: seq<string>, e: Forest, f: Forest)
    requires Joins(o, prefix, e, f)
    ensures Ordered(o, prefix, Place(o, prefix, e, f)) && Rearranged(o, e.(rest := f), Place(o, prefix, e, f))
  {
    PlaceOrdered(o, prefix, e, f);
    PlaceWellFormed(o, prefix, e, f);
    PlacePaths(o, prefix, e, f);
    forall p, path ensures Holds(Place(o, prefix, e, f), p, path) <==> Holds(e.(rest := f), p, path) { PlaceHas(o, prefix, e, f, p, path); }
    forall name | Without(o.norm, e.(rest := f), name) ensures Without(o.norm, Place(o, prefix, e, f), name) { PlaceWithout(o, prefix, e, f, name); }
  }

  /** Serializing sorts every level and keeps every page, each as often as before. */
  lemma {:induction false} Serialized(o: Orders, prefix: seq<string>, f: Forest)
    requires WellFormed(o.norm, f)
    ensures Ordered(o, prefix, Serialize(o, prefix, f)) && Rearranged(o, f, Serialize(o, prefix, f))
    decreases f
  {
    hide Ordered, Rearranged;
    if f.End? {
      EmptyInOrder(o, prefix);
    } else {
      var rest, e := Serialize(o, prefix, f.rest), f;
      Serialized(o, prefix, f.rest);
      if f.Branch? {
        e := f.(children := Serialize(o, prefix + [f.text], f.children));
        Serialized(o, prefix + [f.text], f.children);
        RearrangedHead(o, prefix, f, e.children);
      }
      RearrangedRest(o, f, e, rest);
      JoinsRest(o, prefix, f, e, rest);
      PlaceSorts(o, prefix, e, rest);
      RearrangedTwice(o, f, e.(rest := rest), Place(o, prefix, e, rest));
    }
  }

  lemma {:induction false} EmptyInOrder(o: Orders, prefix: seq<string>)
    ensures Ordered(o, prefix, End) && Rearranged(o, End, End)
  {}

  /** `e` is the head of `f` with its own section, if it is one, serialized. */
  ghost predicate SameHead(o: Orders, f: Forest, e: Forest) {
    && !f.End? && !e.End? && e.rest == f.rest && e.text == f.text && (e.Leaf? <==> f.Leaf?)
    && (f.Leaf? ==> e == f) && (f.Branch? ==> Rearranged(o, f.children, e.children))
  }

  lemma {:induction false} RearrangedHead(o: Orders, prefix: seq<string>, f: Forest, children: Forest)
    requires f.Branch? && Rearranged(o, f.children, children)
    ensures SameHead(o, f, f.(children := children))
  {
    hide Rearranged;
  }

  lemma {:induction false} RearrangedRest(o: Orders, f: Forest, e: Forest, rest: Forest)
    requires WellFormed(o.norm, f) && SameHead(o, f, e) && Rearranged(o, f.rest, rest)
    ensures Rearranged(o, f, e.(rest := rest))
  {
    var g := e.(rest := rest);
    RearrangedPages(o, f, e, rest);
    assert Without(o.norm, f.rest, o.norm(f.text));
    if f.Leaf? { assert g == Leaf(f.text, f.path, rest); } else { assert g == Branch(f.text, e.children, rest); }
    assert Paths(g) == Paths(f);
    hide Paths;
    assert WellFormed(o.norm, g);
    forall name | Without(o.norm, f, name) ensures Without(o.norm, g, name) {}
  }

  lemma {:induction false} RearrangedPages(o: Orders, f: Forest, e: Forest, rest: Forest)
    requires SameHead(o, f, e) && Rearranged(o, f.rest, rest)
    ensures SamePages(f, e.(rest := rest))
  {
    hide Paths, Without, WellFormed;
    var g := e.(rest := rest);
    forall p, path ensures Holds(f, p, path) <==> Holds(g, p, path) {
      assert Holds(f.rest, p, path) <==> Holds(rest, p, path);
      if f.Leaf? {
        assert g == Leaf(f.text, f.path, rest);
      } else {
        assert g == Branch(f.text, e.children, rest);
        if |p| > 1 { assert Holds(f.children, p[1..], path) <==> Holds(e.children, p[1..], path); }
      }
    }
  }

  lemma {:induction false} JoinsRest(o: Orders, prefix: seq<string>, f: Forest, e: Forest, rest: Forest)
    requires SameHead(o, f, e) && Rearranged(o, f, e.(rest := rest)) && Ordered(o, prefix, rest)
    requires e.Branch? ==> Ordered(o, prefix + [e.text], e.children)
    ensures Joins(o, prefix, e, rest)
  {}

  lemma {:induction false} RearrangedTwice(o: Orders, f: Forest, g: Forest, h: Forest)
    requires Rearranged(o, f, g) && Rearranged(o, g, h)
    ensures Rearranged(o, f, h)
  {}

  // ---- one order for one set of pages -------------------------------------------------

  lemma {:induction false} AfterHolds(o: Orders, prefix: seq<string>, key: Key, f: Forest, p: seq<string>, path: string)
    requires After(o, prefix, key, f) && Holds(f, p, path)
    ensures p != [] && Less(key, Rank(o, prefix, p[0], |p| == 1))
  {
    HasPath(f, p, path);
    if f.Leaf? && p == [f.text] && path == f.path {
    } else if f.Branch? && |p| > 1 && p[0] == f.text && Holds(f.children, p[1..], path) {
    } else {
      AfterHolds(o, prefix, key, f.rest, p, path);
    }
  }

  /** A page is under the head entry, or its entry is after the head. */
  lemma {:induction false} HeadOrAfter(o: Orders, prefix: seq<string>, f: Forest, p: seq<string>, path: string)
    requires Ordered(o, prefix, f) && Holds(f, p, path)
    ensures !f.End? && p != []
    ensures (f.text == p[0] && (f.Leaf? <==> |p| == 1)) || Less(HeadRank(o, prefix, f), Rank(o, prefix, p[0], |p| == 1))
  {
    HasPath(f, p, path);
    if Holds(f.rest, p, path) { AfterHolds(o, prefix, HeadRank(o, prefix, f), f.rest, p, path); }
  }

  lemma {:induction false} SameHeads(o: Orders, prefix: seq<string>, f: Forest, g: Forest)
    requires WellFormed(o.norm, f) && WellFormed(o.norm, g) && Ordered(o, prefix, f) && Ordered(o, prefix, g)
    requires SamePages(f, g) && !f.End?
    ensures !g.End? && f.text == g.text && (f.Leaf? <==> g.Leaf?)
  {
    FirstIsThere(o.norm, f);
    HeadOrAfter(o, prefix, g, First(f).0, First(f).1);
    FirstIsThere(o.norm, g);
    HeadOrAfter(o, prefix, f, First(g).0, First(g).1);
    LessTotal(HeadRank(o, prefix, f), HeadRank(o, prefix, g));
  }

  /** With the same head label, the sections and the later siblings hold the same pages too. */
  lemma {:induction false} SameParts(norm: Normalizer, f: Forest, g: Forest)
    requires WellFormed(norm, f) && WellFormed(norm, g) && SamePages(f, g)
    requires !f.End? && !g.End? && f.text == g.text && (f.Leaf? <==> g.Leaf?)
    ensures SamePages(f.rest, g.rest)
    ensures f.Leaf? ==> f.path == g.path
    ensures f.Branch? ==> SamePages(f.children, g.children)
  {
    forall p, path ensures Holds(f.rest, p, path) <==> Holds(g.rest, p, path) {
      if Holds(f.rest, p, path) { LaterPage(norm, f, g, p, path); }
      if Holds(g.rest, p, path) { LaterPage(norm, g, f, p, path); }
    }
    if f.Leaf? {
      assert Holds(f, [f.text], f.path);
      NotInRest(norm, g.rest, [f.text], f.path);
    } else {
      forall q, path ensures Holds(f.children, q, path) <==> Holds(g.children, q, path) {
        if Holds(f.children, q, path) { InnerPage(norm, f, g, q, path); }
        if Holds(g.children, q, path) { InnerPage(norm, g, f, q, path); }
      }
    }
  }

  lemma {:induction false} LaterPage(norm: Normalizer, f: Forest, g: Forest, p: seq<string>, path: string)
    requires WellFormed(norm, f) && SamePages(f, g) && !f.End? && !g.End? && f.text == g.text && Holds(f.rest, p, path)
    ensures Holds(g.rest, p, path)
  {
    assert Holds(f, p, path);
    WithoutHas(norm, f.rest, p, path, norm(f.text));
  }

  lemma {:induction false} InnerPage(norm: Normalizer, f: Forest, g: Forest, q: seq<string>, path: string)
    requires WellFormed(norm, g) && SamePages(f, g) && f.Branch? && g.Branch? && f.text == g.text && Holds(f.children, q, path)
    ensures Holds(g.children, q, path)
  {
    HasPath(f.children, q, path);
    var p := [f.text] + q;
    assert p[1..] == q;
    assert Holds(f, p, path);
    NotInRest(norm, g.rest, p, path);
  }

  /** Ordered trees with the same pages are the same tree: the order is canonical. */
  lemma {:induction false} OneOrder(o: Orders, prefix: seq<string>, f: Forest, g: Forest)
    requires WellFormed(o.norm, f) && WellFormed(o.norm, g) && Ordered(o, prefix, f) && Ordered(o, prefix, g)
    requires SamePages(f, g)
    ensures f == g
    decreases f
  {
    if f.End? {
      if !g.End? { FirstIsThere(o.norm, g); }
    } else {
      SameHeads(o, prefix, f, g);
      SameParts(o.norm, f, g);
      OneOrder(o, prefix, f.rest, g.rest);
      if f.Branch? { OneOrder(o, prefix + [f.text], f.children, g.children); }
    }
  }

  /** Serializing forgets the order in which pages were inserted. */
  lemma {:induction false} SerializeCanonical(o: Orders, prefix: seq<string>, f: Forest, g: Forest)
    requires WellFormed(o.norm, f) && WellFormed(o.norm, g) && SamePages(f, g)
    ensures Serialize(o, prefix, f) == Serialize(o, prefix, g)
  {
    Serialized(o, prefix, f);
    Serialized(o, prefix, g);
    OneOrder(o, prefix, Serialize(o, prefix, f), Serialize(o, prefix, g));
  }
}
