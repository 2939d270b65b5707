/** When the navigation does not depend on the order the pages come in. */
module NavPageOrder {
  import opened Text
  import opened NavTree
  import opened NavOrder
  import opened NavGroups
  import opened BuildNav
  import opened NavTheorems
  import PosixPath

  /** The same pages in another order. */
  ghost predicate Reordered(pages: seq<Page>, other: seq<Page>) {
    DistinctPaths(pages) && DistinctPaths(other) && forall p :: p in pages <==> p in other
  }

  /** Every top-level section keeps to one domain. */
  ghost predicate OneDomain(pages: seq<Page>) {
    forall p, q :: p in pages && q in pages && SameSection(p, q) ==> DomainOf(p.path) == DomainOf(q.path)
  }

  predicate SameSection(p: Page, q: Page) { InTree(p) && InTree(q) && Parts(p)[0] == Parts(q)[0] }

  // ---- success -------------------------------------------------------------------------

  lemma {:induction false} TogetherSymmetric(norm: Normalizer, a: Page, b: Page)
    requires Sound(a) && Sound(b)
    ensures Together(norm, a, b) == Together(norm, b, a)
  {
    if !IsHome(a) && !IsHome(b) { FitSymmetric(norm, Parts(a), a.path, Parts(b), b.path); }
  }

  lemma {:induction false} PairTogether(norm: Normalizer, pages: seq<Page>, a: Page, b: Page)
    requires AllTogether(norm, pages, |pages|) && a in pages && b in pages && a != b
    ensures Sound(a) && Sound(b) && Together(norm, a, b)
  {
    var i :| 0 <= i < |pages| && pages[i] == a;
    var j :| 0 <= j < |pages| && pages[j] == b;
    if j < i { TogetherSymmetric(norm, b, a); }
  }

  /** Whether navigation can be built does not depend on the order. */
  lemma {:induction false} SuccessOrderFree(norm: Normalizer, pages: seq<Page>, other: seq<Page>)
    requires Reordered(pages, other) && AllTogether(norm, pages, |pages|)
    ensures AllTogether(norm, other, |other|)
  {
    forall i | 0 <= i < |other| ensures Sound(other[i]) {
      assert other[i] in pages;
      var k :| 0 <= k < |pages| && pages[k] == other[i];
    }
    forall i, j | 0 <= i < j < |other| ensures Together(norm, other[i], other[j]) {
      assert other[i].path != other[j].path;
      PairTogether(norm, pages, other[i], other[j]);
    }
  }

  // ---- the parts of the result -----------------------------------------------------------

  lemma {:induction false} PlacedIsMember(pages: seq<Page>, parts: seq<string>, path: string)
    ensures Placed(pages, |pages|, parts, path) <==> exists p :: p in pages && IsAt(p, parts, path)
  {
    if p :| p in pages && IsAt(p, parts, path) {
      var i :| 0 <= i < |pages| && pages[i] == p;
      assert Placed(pages, |pages|, parts, path);
    }
    if Placed(pages, |pages|, parts, path) {
      var i :| 0 <= i < |pages| && IsAt(pages[i], parts, path);
      assert pages[i] in pages;
    }
  }

  lemma {:induction false} SameTreePages(pages: seq<Page>, other: seq<Page>, f: Forest, g: Forest)
    requires (forall p :: p in pages <==> p in other)
    requires HoldsPages(pages, |pages|, f) && HoldsPages(other, |other|, g)
    ensures SamePages(f, g)
  {
    forall parts, path ensures Holds(f, parts, path) <==> Holds(g, parts, path) {
      PlacedIsMember(pages, parts, path);
      PlacedIsMember(other, parts, path);
      hide Placed;
      assert Holds(f, parts, path) <==> Placed(pages, |pages|, parts, path);
      assert Holds(g, parts, path) <==> Placed(other, |other|, parts, path);
    }
  }

  lemma {:induction false} HomeIsThere(pages: seq<Page>, other: seq<Page>, h: string, k: string)
    requires (forall p :: p in pages <==> p in other) && HoldsHome(pages, |pages|, h) && HoldsHome(other, |other|, k) && h != ""
    ensures k == h
  {
    var i :| 0 <= i < |pages| && IsHome(pages[i]);
    assert pages[i] in other;
    var j :| 0 <= j < |other| && other[j] == pages[i];
  }

  lemma {:induction false} SameHomePage(pages: seq<Page>, other: seq<Page>, h: string, k: string)
    requires (forall p :: p in pages <==> p in other) && HoldsHome(pages, |pages|, h) && HoldsHome(other, |other|, k)
    ensures h == k
  {
    if h != "" { HomeIsThere(pages, other, h, k); }
    if k != "" { HomeIsThere(other, pages, k, h); }
  }

  /** No two pages of one navigation have the same parts. */
  ghost predicate PartsApart(pages: seq<Page>) { forall p, q :: p in pages && q in pages && Parts(p) == Parts(q) ==> p == q }

  lemma {:induction false} HomeHasOnePart(page: Page)
    requires IsHome(page)
    ensures |Parts(page)| < 2
  {
    PosixPath.SplitSlashFree("Home");
    assert Kept([]) == [];
    assert ["Home"][1..] == [];
  }

  lemma {:induction false} SamePartsClash(norm: Normalizer, parts: seq<string>, a: string, b: string)
    requires parts != [] && a != b
    ensures !Fit(norm, parts, a, parts, b)
  {
    if |parts| > 1 { SamePartsClash(norm, parts[1..], a, b); }
  }

  lemma {:induction false} TogetherApart(norm: Normalizer, pages: seq<Page>)
    requires AllTogether(norm, pages, |pages|) && DistinctPaths(pages)
    ensures PartsApart(pages)
  {
    forall p, q | p in pages && q in pages && Parts(p) == Parts(q) ensures p == q {
      if p != q {
        PairTogether(norm, pages, p, q);
        PathsDiffer(pages, p, q);
        if IsHome(p) { HomeHasOnePart(p); }
        if IsHome(q) { HomeHasOnePart(q); }
        if !IsHome(p) && !IsHome(q) { SamePartsClash(norm, Parts(p), p.path, q.path); }
      }
    }
  }

  lemma {:induction false} PathsDiffer(pages: seq<Page>, p: Page, q: Page)
    requires DistinctPaths(pages) && p in pages && q in pages && p != q
    ensures p.path != q.path
  {
    var i :| 0 <= i < |pages| && pages[i] == p;
    var j :| 0 <= j < |pages| && pages[j] == q;
    assert i < j || j < i;
  }

  lemma {:induction false} OrdersArePages(pages: seq<Page>, n: nat, parts: seq<string>)
    requires n <= |pages|
    ensures parts in NavOrders(pages, n) <==> exists i :: 0 <= i < n && Parts(pages[i]) == parts
    ensures parts in NavOrders(pages, n) ==> exists i :: 0 <= i < n && Parts(pages[i]) == parts && pages[i].navOrder == NavOrders(pages, n)[parts]
  {
    hide Parts;
    if n > 0 {
      OrdersArePages(pages, n - 1, parts);
      if Parts(pages[n - 1]) == parts { assert NavOrders(pages, n)[parts] == pages[n - 1].navOrder; }
    }
  }

  lemma {:induction false} SameOrders(pages: seq<Page>, other: seq<Page>)
    requires (forall p :: p in pages <==> p in other) && PartsApart(pages)
    ensures NavOrders(pages, |pages|) == NavOrders(other, |other|)
  {
    var m, k := NavOrders(pages, |pages|), NavOrders(other, |other|);
    forall parts ensures (parts in m <==> parts in k) && (parts in m ==> m[parts] == k[parts]) {
      OrdersArePages(pages, |pages|, parts);
      OrdersArePages(other, |other|, parts);
      if parts in m {
        var i :| 0 <= i < |pages| && Parts(pages[i]) == parts && pages[i].navOrder == m[parts];
        assert pages[i] in other;
        var j :| 0 <= j < |other| && other[j] == pages[i];
      }
      if parts in k {
        var j :| 0 <= j < |other| && Parts(other[j]) == parts && other[j].navOrder == k[parts];
        assert other[j] in pages;
        var i :| 0 <= i < |pages| && pages[i] == other[j];
      }
    }
  }

  // ---- which domain a section goes to ------------------------------------------------------

  lemma {:induction false} FirstIsMember(pages: seq<Page>, n: nat, text: string)
    requires n <= |pages|
    ensures FirstUnder(pages, n, text).Some? <==> exists i :: 0 <= i < n && InTree(pages[i]) && Parts(pages[i])[0] == text
    ensures FirstUnder(pages, n, text).Some? ==>
              exists p :: p in pages && InTree(p) && Parts(p)[0] == text && p.path == FirstUnder(pages, n, text).value
  {
    if n > 0 {
      FirstIsMember(pages, n - 1, text);
      if FirstUnder(pages, n - 1, text).None? && FirstUnder(pages, n, text).Some? { assert pages[n - 1] in pages; }
    }
  }

  lemma {:induction false} SameDomain(pages: seq<Page>, other: seq<Page>, text: string)
    requires (forall p :: p in pages <==> p in other) && OneDomain(pages)
    ensures var a, b := FirstUnder(pages, |pages|, text), FirstUnder(other, |other|, text);
            (a.Some? <==> b.Some?) && (a.Some? ==> DomainOf(a.value) == DomainOf(b.value))
  {
    hide DomainOf, Parts;
    FirstIsMember(pages, |pages|, text);
    FirstIsMember(other, |other|, text);
    FirstFollows(pages, other, text);
    FirstFollows(other, pages, text);
    var a, b := FirstUnder(pages, |pages|, text), FirstUnder(other, |other|, text);
    if a.Some? {
      var p :| p in pages && InTree(p) && Parts(p)[0] == text && p.path == a.value;
      var q :| q in other && InTree(q) && Parts(q)[0] == text && q.path == b.value;
      assert SameSection(p, q);
    }
  }

  lemma {:induction false} FirstFollows(pages: seq<Page>, other: seq<Page>, text: string)
    requires forall p :: p in pages ==> p in other
    ensures FirstUnder(pages, |pages|, text).Some? ==> FirstUnder(other, |other|, text).Some?
  {
    FirstIsMember(pages, |pages|, text);
    FirstIsMember(other, |other|, text);
    if FirstUnder(pages, |pages|, text).Some? {
      var p :| p in pages && InTree(p) && Parts(p)[0] == text && p.path == FirstUnder(pages, |pages|, text).value;
      var j :| 0 <= j < |other| && other[j] == p;
    }
  }

  lemma {:induction false} GroupedSame(norm: Normalizer, f: Forest, g: Forest, s: Forest, d: Domain)
    requires forall text :: SectionDomain(f, text) == SectionDomain(g, text)
    ensures Grouped(norm, f, s, d) == Grouped(norm, g, s, d)
  {
    if !s.End? { GroupedSame(norm, f, g, s.rest, d); }
  }

  lemma {:induction false} GroupListSame(norm: Normalizer, f: Forest, g: Forest, s: Forest, domains: seq<Domain>)
    requires forall text :: SectionDomain(f, text) == SectionDomain(g, text)
    ensures GroupList(norm, f, s, domains) == GroupList(norm, g, s, domains)
  {
    if domains != [] {
      GroupedSame(norm, f, g, s, domains[0]);
      GroupListSame(norm, f, g, s, domains[1..]);
    }
  }

  lemma {:induction false} SectionsSame(pages: seq<Page>, other: seq<Page>, f: Forest, g: Forest)
    requires (forall p :: p in pages <==> p in other) && OneDomain(pages)
    requires HoldsFirst(pages, |pages|, f) && HoldsFirst(other, |other|, g)
    ensures forall text :: SectionDomain(f, text) == SectionDomain(g, text)
  {
    forall text ensures SectionDomain(f, text) == SectionDomain(g, text) {
      hide OneDomain, DomainOf;
      SameDomain(pages, other, text);
      assert Under(f, text) == FirstUnder(pages, |pages|, text) && Under(g, text) == FirstUnder(other, |other|, text);
    }
  }

  /** Both orders give a tree, with one serialization and one home. */
  lemma {:induction false} BothBuilt(norm: Normalizer, sections: map<string, int>, pages: seq<Page>, other: seq<Page>) returns (s: State, t: State)
    requires Reordered(pages, other) && AllTogether(norm, pages, |pages|)
    ensures Build(norm, pages, |pages|) == Ok(s) && Build(norm, other, |other|) == Ok(t)
    ensures Holding(norm, pages, |pages|, s) && Holding(norm, other, |other|, t)
    ensures s.home == t.home && OrdersFor(norm, sections, pages) == OrdersFor(norm, sections, other)
    ensures SamePages(s.tree, t.tree)
    ensures var o := OrdersFor(norm, sections, pages); Serialize(o, [], s.tree) == Serialize(o, [], t.tree)
  {
    hide Build, AllTogether, PartsApart, HoldsPages, HoldsHome, HoldsFirst, SamePages, DistinctPaths, PathsOf;
    SuccessOrderFree(norm, pages, other);
    BuildMeans(norm, pages, |pages|);
    BuildMeans(norm, other, |other|);
    s, t := Build(norm, pages, |pages|).value, Build(norm, other, |other|).value;
    SameHomePage(pages, other, s.home, t.home);
    TogetherApart(norm, pages);
    SameOrders(pages, other);
    SameTreePages(pages, other, s.tree, t.tree);
    SerializeCanonical(OrdersFor(norm, sections, pages), [], s.tree, t.tree);
  }

  /** When every section keeps to one domain, the order of pages decides nothing. */
  lemma {:induction false} OrderFree(norm: Normalizer, sections: map<string, int>, pages: seq<Page>, other: seq<Page>)
    requires Reordered(pages, other) && OneDomain(pages) && BuiltNav(norm, sections, pages).Ok?
    ensures BuiltNav(norm, sections, other) == BuiltNav(norm, sections, pages)
  {
    hide Build, AllTogether, HoldsPages, HoldsHome, HoldsFirst, SamePages, DistinctPaths, PathsOf, OneDomain, SectionDomain, Serialize, GroupList;
    EveryPageOnce(norm, sections, pages);
    var s, t := BothBuilt(norm, sections, pages, other);
    SectionsSame(pages, other, s.tree, t.tree);
    var o := OrdersFor(norm, sections, pages);
    GroupListSame(norm, s.tree, t.tree, Serialize(o, [], s.tree), DOMAIN_NAV_ORDER);
  }

  // ---- a section that mixes domains ----------------------------------------------------------

  /** `pages[k]` moved to the front. */
  function Fronted(pages: seq<Page>, k: nat): seq<Page>
    requires k < |pages|
  {
    [pages[k]] + pages[..k] + pages[k + 1..]
  }

  lemma {:induction false} FrontedReorders(pages: seq<Page>, k: nat)
    requires DistinctPaths(pages) && k < |pages|
    ensures Reordered(pages, Fronted(pages, k))
  {
    var other := Fronted(pages, k);
    forall i | 0 <= i < |other| ensures other[i] == pages[Origin(k, i)] {}
    forall p | p in pages ensures p in other {
      var i :| 0 <= i < |pages| && pages[i] == p;
      assert other[if i < k then i + 1 else if i == k then 0 else i] == p;
    }
    forall i, j | 0 <= i < j < |other| ensures other[i].path != other[j].path {
      assert Origin(k, i) < Origin(k, j) || Origin(k, j) < Origin(k, i);
    }
  }

  function Origin(k: nat, i: nat): nat { if i == 0 then k else if i <= k then i - 1 else i }

  lemma {:induction false} FirstConcat(a: seq<Page>, b: seq<Page>, text: string)
    ensures FirstUnder(a + b, |a + b|, text) == if FirstUnder(a, |a|, text).Some? then FirstUnder(a, |a|, text) else FirstUnder(b, |b|, text)
    decreases |b|
  {
    hide InTree, Parts;
    FirstPrefix(a, b, |a|, text);
    if b == [] {
      assert a + b == a;
    } else {
      var c := b[..|b| - 1];
      assert a + b == (a + c) + [b[|b| - 1]] && b == c + [b[|b| - 1]];
      FirstPrefix(a + c, [b[|b| - 1]], |a + c|, text);
      FirstPrefix(c, [b[|b| - 1]], |c|, text);
      FirstConcat(a, c, text);
    }
  }

  lemma {:induction false} FirstPrefix(a: seq<Page>, b: seq<Page>, n: nat, text: string)
    requires n <= |a|
    ensures FirstUnder(a + b, n, text) == FirstUnder(a, n, text)
  {
    if n > 0 { FirstPrefix(a, b, n - 1, text); }
  }

  /** Fronting a page decides its own section and no other. */
  lemma {:induction false} FrontedFirst(pages: seq<Page>, k: nat, text: string)
    requires k < |pages| && InTree(pages[k])
    ensures var other := Fronted(pages, k);
            FirstUnder(other, |other|, text) ==
            if text == Parts(pages[k])[0] then Some(pages[k].path) else FirstUnder(pages, |pages|, text)
  {
    hide InTree, Parts;
    var q, a, b := [pages[k]], pages[..k], pages[k + 1..];
    assert pages == a + (q + b) && Fronted(pages, k) == q + (a + b);
    FirstConcat(q, a + b, text);
    FirstConcat(a, b, text);
    FirstConcat(a, q + b, text);
    FirstConcat(q, b, text);
    FirstOne(pages[k], text);
  }

  lemma {:induction false} FirstOne(page: Page, text: string)
    ensures FirstUnder([page], 1, text) == if InTree(page) && Parts(page)[0] == text then Some(page.path) else Option.None
  {
    assert FirstUnder([page], 0, text).None?;
  }

  /** Sending one section from group `d` elsewhere takes its pages out of the group. */
  lemma {:induction false} GroupShrinks(norm: Normalizer, f: Forest, g: Forest, s: Forest, d: Domain, text: string)
    requires WellFormed(norm, s) && SectionDomain(f, text) == d != SectionDomain(g, text)
    requires forall other :: other != text ==> SectionDomain(f, other) == SectionDomain(g, other)
    ensures |Paths(Grouped(norm, g, s, d))| <= |Paths(Grouped(norm, f, s, d))|
    ensures HasEntry(s, text) ==> |Paths(Grouped(norm, g, s, d))| < |Paths(Grouped(norm, f, s, d))|
  {
    if !s.End? {
      hide Grouped, SectionDomain;
      GroupShrinks(norm, f, g, s.rest, d, text);
      GroupedHead(norm, f, s, d);
      GroupedHead(norm, g, s, d);
      SomeHeadPath(norm, s);
    }
  }

  lemma {:induction false} SomeHeadPath(norm: Normalizer, s: Forest)
    requires WellFormed(norm, s) && !s.End?
    ensures |HeadPaths(s)| > 0
  {
    if s.Branch? {
      FirstIsThere(norm, s.children);
      HasPath(s.children, First(s.children).0, First(s.children).1);
    }
  }

  /** The group of a domain, read back from the list. */
  function GroupCalled(groups: seq<(string, Forest)>, title: string): Forest {
    if groups == [] then End else if groups[0].0 == title then groups[0].1 else GroupCalled(groups[1..], title)
  }

  lemma {:induction false} GroupFound(norm: Normalizer, tree: Forest, s: Forest, domains: seq<Domain>, d: Domain)
    requires forall i, j :: 0 <= i < j < |domains| ==> domains[i] != domains[j]
    ensures GroupCalled(GroupList(norm, tree, s, domains), Title(d)) == if d in domains then Grouped(norm, tree, s, d) else End
  {
    if domains != [] {
      GroupFound(norm, tree, s, domains[1..], d);
      var later := GroupList(norm, tree, s, domains[1..]);
      var entries := Grouped(norm, tree, s, domains[0]);
      assert [] + later == later;
      assert ([(Title(domains[0]), entries)] + later)[1..] == later;
      if Title(d) == Title(domains[0]) { TitlesApart(d, domains[0]); }
    }
  }

  lemma {:induction false} TitlesApart(d: Domain, e: Domain)
    requires Title(d) == Title(e)
    ensures d == e
  {
    assert |Title(d)| == |Title(e)| && Title(d)[0] == Title(e)[0];
  }

  lemma {:induction false} HoldsEntry(f: Forest, parts: seq<string>, path: string)
    requires Holds(f, parts, path)
    ensures parts != [] && HasEntry(f, parts[0])
  {
    HasPath(f, parts, path);
    if f.Leaf? && parts == [f.text] && path == f.path {
    } else if f.Branch? && |parts| > 1 && parts[0] == f.text && Holds(f.children, parts[1..], path) {
    } else {
      HoldsEntry(f.rest, parts, path);
    }
  }

  /** Of two pages of one section with different domains, one differs from the section's first page. */
  lemma {:induction false} PageToFront(pages: seq<Page>, a: Page, b: Page) returns (k: nat)
    requires a in pages && b in pages && SameSection(a, b) && DomainOf(a.path) != DomainOf(b.path)
    ensures k < |pages| && InTree(pages[k]) && FirstUnder(pages, |pages|, Parts(pages[k])[0]).Some?
    ensures DomainOf(pages[k].path) != DomainOf(FirstUnder(pages, |pages|, Parts(pages[k])[0]).value)
  {
    var i :| 0 <= i < |pages| && pages[i] == a;
    var j :| 0 <= j < |pages| && pages[j] == b;
    var text := Parts(a)[0];
    hide Parts, DomainOf;
    FirstIsMember(pages, |pages|, text);
    assert InTree(pages[i]) && Parts(pages[i])[0] == text;
    k := if DomainOf(FirstUnder(pages, |pages|, text).value) != DomainOf(a.path) then i else j;
  }

  lemma {:induction false} SectionsBut(pages: seq<Page>, k: nat, f: Forest, g: Forest)
    requires k < |pages| && InTree(pages[k]) && FirstUnder(pages, |pages|, Parts(pages[k])[0]).Some?
    requires DomainOf(pages[k].path) != DomainOf(FirstUnder(pages, |pages|, Parts(pages[k])[0]).value)
    requires HoldsFirst(pages, |pages|, f) && HoldsFirst(Fronted(pages, k), |pages|, g)
    ensures SectionDomain(f, Parts(pages[k])[0]) != SectionDomain(g, Parts(pages[k])[0])
    ensures forall text :: text != Parts(pages[k])[0] ==> SectionDomain(f, text) == SectionDomain(g, text)
  {
    hide DomainOf, Parts, IsHome;
    FrontedSize(pages, k);
    var section := Parts(pages[k])[0];
    FrontedFirst(pages, k, section);
    assert Under(f, section) == FirstUnder(pages, |pages|, section) && Under(g, section) == FirstUnder(Fronted(pages, k), |pages|, section);
    forall text | text != section ensures SectionDomain(f, text) == SectionDomain(g, text) {
      FrontedFirst(pages, k, text);
      assert Under(f, text) == FirstUnder(pages, |pages|, text) && Under(g, text) == FirstUnder(Fronted(pages, k), |pages|, text);
    }
  }

  lemma {:induction false} GroupsDiffer(norm: Normalizer, f: Forest, g: Forest, s: Forest, text: string)
    requires WellFormed(norm, s) && HasEntry(s, text) && SectionDomain(f, text) != SectionDomain(g, text)
    requires forall other :: other != text ==> SectionDomain(f, other) == SectionDomain(g, other)
    ensures GroupList(norm, f, s, DOMAIN_NAV_ORDER) != GroupList(norm, g, s, DOMAIN_NAV_ORDER)
  {
    var d := SectionDomain(f, text);
    hide SectionDomain, GroupList, Grouped, Title;
    GroupShrinks(norm, f, g, s, d, text);
    assert d in DOMAIN_NAV_ORDER by { match d case Know => case Model => case Observe => case Work => }
    GroupFound(norm, f, s, DOMAIN_NAV_ORDER, d);
    GroupFound(norm, g, s, DOMAIN_NAV_ORDER, d);
  }

  /** When a section mixes domains, moving one page to the front gives other navigation. */
  lemma {:induction false} OrderMatters(norm: Normalizer, sections: map<string, int>, pages: seq<Page>, a: Page, b: Page) returns (other: seq<Page>)
    requires DistinctPaths(pages) && BuiltNav(norm, sections, pages).Ok?
    requires a in pages && b in pages && SameSection(a, b) && DomainOf(a.path) != DomainOf(b.path)
    ensures Reordered(pages, other) && BuiltNav(norm, sections, other) != BuiltNav(norm, sections, pages)
    ensures exists k :: 0 <= k < |pages| && other == Fronted(pages, k)
  {
    hide Build, AllTogether, HoldsHome, SamePages, PathsOf, DomainOf, SectionDomain, Serialize, GroupList, DistinctPaths, IsHome, Parts, HoldsFirst, SameSection, HoldsPages, Fronted;
    var k := PageToFront(pages, a, b);
    other := Fronted(pages, k);
    FrontedReorders(pages, k);
    EveryPageOnce(norm, sections, pages);
    var s, t := BothBuilt(norm, sections, pages, other);
    var o := OrdersFor(norm, sections, pages);
    var sorted := Serialize(o, [], s.tree);
    Serialized(o, [], s.tree);
    SectionEntry(o, pages, k, s.tree, sorted);
    FrontedSize(pages, k);
    SectionsBut(pages, k, s.tree, t.tree);
    GroupsDiffer(norm, s.tree, t.tree, sorted, Parts(pages[k])[0]);
  }

  lemma {:induction false} FrontedSize(pages: seq<Page>, k: nat)
    requires k < |pages|
    ensures |Fronted(pages, k)| == |pages|
  {}

  lemma {:induction false} SectionEntry(o: Orders, pages: seq<Page>, k: nat, tree: Forest, sorted: Forest)
    requires k < |pages| && InTree(pages[k]) && HoldsPages(pages, |pages|, tree) && Rearranged(o, tree, sorted)
    ensures HasEntry(sorted, Parts(pages[k])[0])
  {
    var p := pages[k];
    assert IsAt(p, Parts(p), p.path);
    assert Holds(tree, Parts(p), p.path);
    HoldsEntry(sorted, Parts(p), p.path);
  }

  /**
   * The navigation is the same for every order of the same pages exactly when
   * every top-level section keeps to one domain.
   */
  lemma {:induction false} OrderFreeExactly(norm: Normalizer, sections: map<string, int>, pages: seq<Page>)
    requires DistinctPaths(pages) && BuiltNav(norm, sections, pages).Ok?
    ensures OneDomain(pages) <==> forall other :: Reordered(pages, other) ==> BuiltNav(norm, sections, other) == BuiltNav(norm, sections, pages)
  {
    hide BuiltNav, DistinctPaths, DomainOf, SameSection;
    if OneDomain(pages) {
      forall other | Reordered(pages, other) ensures BuiltNav(norm, sections, other) == BuiltNav(norm, sections, pages) {
        OrderFree(norm, sections, pages, other);
      }
    } else {
      var a, b :| a in pages && b in pages && SameSection(a, b) && DomainOf(a.path) != DomainOf(b.path);
      var other := OrderMatters(norm, sections, pages, a, b);
    }
  }
}
