/** The navigation told from the pages alone: who comes before whom, under which labels and in which group. */
module NavMeaning {
  import opened Text
  import opened NavTree
  import opened NavOrder
  import opened NavGroups
  import opened BuildNav
  import opened NavTheorems
  import PosixPath

  // ---- the leaves of a forest, as they are read ----------------------------------------------

  /** A page in the navigation: the labels that lead to it, and its path. */
  datatype Entry = Entry(labels: seq<string>, path: string)

  function Beneath(text: string, entries: seq<Entry>): (r: seq<Entry>)
    ensures |r| == |entries| && forall i :: 0 <= i < |r| ==> r[i] == Entry([text] + entries[i].labels, entries[i].path)
  {
    seq(|entries|, i requires 0 <= i < |entries| => Entry([text] + entries[i].labels, entries[i].path))
  }

  /** Those of the head entry. */
  function HeadLeaves(f: Forest): seq<Entry>
    requires !f.End?
    decreases f, 0
  {
    if f.Leaf? then [Entry([f.text], f.path)] else Beneath(f.text, Leaves(f.children))
  }

  function Leaves(f: Forest): seq<Entry>
    decreases f, 1
  {
    if f.End? then [] else HeadLeaves(f) + Leaves(f.rest)
  }

  lemma {:induction false} LeafIsHeld(f: Forest, i: nat)
    requires i < |Leaves(f)|
    ensures Holds(f, Leaves(f)[i].labels, Leaves(f)[i].path) && Leaves(f)[i].labels != []
  {
    match f
    case Leaf(text, path, rest) => if i > 0 { LeafIsHeld(rest, i - 1); }
    case Branch(text, children, rest) =>
      var n := |Leaves(children)|;
      if i < n {
        LeafIsHeld(children, i);
        assert Leaves(f)[i].labels[1..] == Leaves(children)[i].labels;
      } else {
        LeafIsHeld(rest, i - n);
      }
  }

  lemma {:induction false} HeldIsLeaf(f: Forest, labels: seq<string>, path: string) returns (i: nat)
    requires Holds(f, labels, path)
    ensures i < |Leaves(f)| && Leaves(f)[i] == Entry(labels, path)
  {
    match f
    case Leaf(text, p, rest) =>
      if labels == [text] && path == p { i := 0; } else { i := HeldIsLeaf(rest, labels, path); i := i + 1; }
    case Branch(text, children, rest) =>
      if |labels| > 1 && labels[0] == text && Holds(children, labels[1..], path) {
        i := HeldIsLeaf(children, labels[1..], path);
        assert [text] + labels[1..] == labels;
      } else {
        i := HeldIsLeaf(rest, labels, path);
        i := i + |Leaves(children)|;
      }
  }

  // ---- the order of an ordered forest ----------------------------------------------------------

  /** Where the labels part, at `k`, the key of the first is less. */
  predicate PartAt(o: Orders, prefix: seq<string>, p: seq<string>, q: seq<string>, k: nat) {
    && k < |p| && k < |q| && p[..k] == q[..k] && p[k] != q[k]
    && Less(Rank(o, prefix + p[..k], p[k], |p| == k + 1), Rank(o, prefix + p[..k], q[k], |q| == k + 1))
  }

  /** Of two leaves of an ordered forest the first has the lesser key where their labels part. */
  lemma {:induction false} LeavesInOrder(o: Orders, prefix: seq<string>, f: Forest, i: nat, j: nat) returns (k: nat)
    requires WellFormed(o.norm, f) && Ordered(o, prefix, f) && i < j < |Leaves(f)|
    ensures PartAt(o, prefix, Leaves(f)[i].labels, Leaves(f)[j].labels, k)
    decreases f
  {
    hide *;
    OrderedParts(o, prefix, f);
    var n := |HeadLeaves(f)|;
    LeafIs(f, i);
    LeafIs(f, j);
    if i >= n {
      k := LeavesInOrder(o, prefix, f.rest, i - n, j - n);
    } else if j >= n {
      HeadBefore(o, prefix, f, i, j - n);
      k := 0;
    } else {
      HeadLeafIs(f, i);
      HeadLeafIs(f, j);
      var a := LeavesInOrder(o, prefix + [f.text], f.children, i, j);
      PartBelow(o, prefix, f.text, Leaves(f.children)[i].labels, Leaves(f.children)[j].labels, a);
      k := a + 1;
    }
  }

  lemma {:induction false} LeafIs(f: Forest, i: nat)
    requires !f.End? && i < |Leaves(f)|
    ensures var n := |HeadLeaves(f)|;
            && |Leaves(f)| == n + |Leaves(f.rest)|
            && Leaves(f)[i] == if i < n then HeadLeaves(f)[i] else Leaves(f.rest)[i - n]
  {
    hide HeadLeaves;
  }

  lemma {:induction false} HeadLeafIs(f: Forest, i: nat)
    requires !f.End? && i < |HeadLeaves(f)|
    ensures f.Leaf? ==> i == 0
    ensures f.Branch? ==> |HeadLeaves(f)| == |Leaves(f.children)| && HeadLeaves(f)[i].labels == [f.text] + Leaves(f.children)[i].labels
  {
    hide Leaves;
  }

  lemma {:induction false} OrderedParts(o: Orders, prefix: seq<string>, f: Forest)
    requires WellFormed(o.norm, f) && Ordered(o, prefix, f) && Leaves(f) != []
    ensures !f.End? && WellFormed(o.norm, f.rest) && Ordered(o, prefix, f.rest)
    ensures f.Branch? ==> WellFormed(o.norm, f.children) && Ordered(o, prefix + [f.text], f.children)
  {
    hide After, HeadRank;
  }

  lemma {:induction false} PartBelow(o: Orders, prefix: seq<string>, text: string, p: seq<string>, q: seq<string>, k: nat)
    requires PartAt(o, prefix + [text], p, q, k)
    ensures PartAt(o, prefix, [text] + p, [text] + q, k + 1)
  {
    var a, b := [text] + p, [text] + q;
    assert a[..k + 1] == [text] + p[..k] && b[..k + 1] == [text] + q[..k];
    assert prefix + [text] + p[..k] == prefix + a[..k + 1];
  }

  /** A leaf under the head entry comes before a later one. */
  lemma {:induction false} HeadBefore(o: Orders, prefix: seq<string>, f: Forest, i: nat, j: nat)
    requires WellFormed(o.norm, f) && Ordered(o, prefix, f) && !f.End? && j < |Leaves(f.rest)|
    requires i < |HeadLeaves(f)|
    ensures PartAt(o, prefix, Leaves(f)[i].labels, Leaves(f.rest)[j].labels, 0)
  {
    var e, later := Leaves(f)[i], Leaves(f.rest)[j];
    LeafIsHeld(f.rest, j);
    AfterHolds(o, prefix, HeadRank(o, prefix, f), f.rest, later.labels, later.path);
    WithoutHas(o.norm, f.rest, later.labels, later.path, o.norm(f.text));
    if f.Branch? { LeafIsHeld(f.children, i); }
    assert prefix + [] == prefix && e.labels[..0] == [];
    assert e.labels[0] == f.text && (f.Leaf? <==> |e.labels| == 1);
  }

  // ---- the order of siblings, told from their pages ------------------------------------------------

  /** The authored order of the page itself; a section has none. */
  function OrderAt(page: Page, k: nat): int { if |Parts(page)| == k + 1 then page.navOrder else 1000 }

  predicate IsOverview(norm: Normalizer, page: Page, k: nat)
    requires k < |Parts(page)|
  {
    |Parts(page)| == k + 1 && norm(Parts(page)[k]) == "overview"
  }

  /** Top-level sections: the governed order, then the name. */
  predicate SectionBefore(norm: Normalizer, sections: map<string, int>, a: string, b: string) {
    var m, n := if a in sections then sections[a] else 10000, if b in sections then sections[b] else 10000;
    m < n || (m == n && TextBefore(norm(a), norm(b)))
  }

  /** Siblings below: an overview page first, then the authored order, then the name. */
  predicate SiblingBefore(norm: Normalizer, a: Page, b: Page, k: nat)
    requires k < |Parts(a)| && k < |Parts(b)|
  {
    || (IsOverview(norm, a, k) && !IsOverview(norm, b, k))
    || (IsOverview(norm, a, k) == IsOverview(norm, b, k)
        && (OrderAt(a, k) < OrderAt(b, k) || (OrderAt(a, k) == OrderAt(b, k) && TextBefore(norm(Parts(a)[k]), norm(Parts(b)[k])))))
  }

  /** At the first label where they differ, `a` comes first. */
  ghost predicate PageBefore(norm: Normalizer, sections: map<string, int>, a: Page, b: Page) { exists k :: PageBeforeAt(norm, sections, a, b, k) }

  predicate PageBeforeAt(norm: Normalizer, sections: map<string, int>, a: Page, b: Page, k: nat) {
    && k < |Parts(a)| && k < |Parts(b)| && Parts(a)[..k] == Parts(b)[..k] && Parts(a)[k] != Parts(b)[k]
    && if k == 0 then SectionBefore(norm, sections, Parts(a)[0], Parts(b)[0]) else SiblingBefore(norm, a, b, k)
  }

  lemma {:induction false} CodesBefore(a: string, b: string)
    requires Less(Codes(a), Codes(b))
    ensures TextBefore(a, b)
  {
    if a == "" {
      assert b != "" && a[..0] == b[..0];
    } else if a[0] == b[0] {
      assert Codes(a)[1..] == Codes(a[1..]) && Codes(b)[1..] == Codes(b[1..]);
      CodesBefore(a[1..], b[1..]);
      var i :| 0 <= i <= |a[1..]| && i < |b[1..]| && a[1..][..i] == b[1..][..i] && (i == |a[1..]| || a[1..][i] < b[1..][i]);
      assert a[..i + 1] == [a[0]] + a[1..][..i] && b[..i + 1] == [b[0]] + b[1..][..i];
    } else {
      assert a[..0] == b[..0] && a[0] < b[0];
    }
  }

  lemma {:induction false} KeyBefore(x: int, a: string, y: int, b: string)
    requires Less([x] + Codes(a), [y] + Codes(b))
    ensures x < y || (x == y && TextBefore(a, b))
  {
    assert ([x] + Codes(a))[1..] == Codes(a) && ([y] + Codes(b))[1..] == Codes(b);
    if x == y { CodesBefore(a, b); }
  }

  lemma {:induction false} KeyBefore2(w: int, x: int, a: string, v: int, y: int, b: string)
    requires Less([w, x] + Codes(a), [v, y] + Codes(b))
    ensures w < v || (w == v && (x < y || (x == y && TextBefore(a, b))))
  {
    assert ([w, x] + Codes(a))[1..] == [x] + Codes(a) && ([v, y] + Codes(b))[1..] == [y] + Codes(b);
    if w == v { KeyBefore(x, a, y, b); }
  }

  // ---- the authored orders --------------------------------------------------------------------------

  /** The map has the order of every page in the tree, and none for a section. */
  lemma {:induction false} OrderOf(norm: Normalizer, pages: seq<Page>, i: nat, n: nat, k: nat)
    requires i < |pages| && n <= |pages| && InTree(pages[i]) && 0 < k < |Parts(pages[i])|
    requires DistinctPaths(pages) && AllTogether(norm, pages, |pages|)
    ensures var key := Parts(pages[i])[..k + 1];
            && (key in NavOrders(pages, n) <==> k + 1 == |Parts(pages[i])| && i < n)
            && (key in NavOrders(pages, n) ==> NavOrders(pages, n)[key] == pages[i].navOrder)
  {
    hide AllTogether, DistinctPaths, Parts, InTree, Fit;
    if n > 0 {
      OrderOf(norm, pages, i, n - 1, k);
      var key := Parts(pages[i])[..k + 1];
      if k + 1 == |Parts(pages[i])| { assert key == Parts(pages[i]); }
      if Parts(pages[n - 1]) == key { OnlyItself(norm, pages, i, n - 1, k); }
    }
  }

  lemma {:induction false} OnlyItself(norm: Normalizer, pages: seq<Page>, i: nat, j: nat, k: nat)
    requires i < |pages| && j < |pages| && InTree(pages[i]) && 0 < k < |Parts(pages[i])|
    requires DistinctPaths(pages) && AllTogether(norm, pages, |pages|) && Parts(pages[j]) == Parts(pages[i])[..k + 1]
    ensures i == j && k + 1 == |Parts(pages[i])|
  {
    var a, b := pages[i], pages[j];
    assert Sound(b);
    if IsHome(b) { HomeParts(b); }
    assert InTree(b);
    if i != j {
      assert if i < j then Together(norm, a, b) else Together(norm, b, a);
      FitSymmetric(norm, Parts(a), a.path, Parts(b), b.path);
      FitPrefix(norm, Parts(a), a.path, k + 1, b.path);
    }
  }

  lemma {:induction false} HomeParts(page: Page)
    requires IsHome(page)
    ensures |Parts(page)| <= 1
  {
    assert PosixPath.SlashFree("Home");
    PosixPath.SplitSlashFree("Home");
    assert ["Home"][1..] == [];
  }

  /** A page under the labels of another one cannot share a tree with it. */
  lemma {:induction false} FitPrefix(norm: Normalizer, p: seq<string>, path: string, n: nat, other: string)
    requires 0 < n <= |p| && Fit(norm, p, path, p[..n], other)
    ensures n == |p| && path == other
  {
    if n > 1 {
      assert p[..n][1..] == p[1..][..n - 1];
      FitPrefix(norm, p[1..], path, n - 1, other);
    }
  }

  lemma {:induction false} RankOf(norm: Normalizer, sections: map<string, int>, pages: seq<Page>, i: nat, k: nat)
    requires i < |pages| && InTree(pages[i]) && k < |Parts(pages[i])|
    requires DistinctPaths(pages) && AllTogether(norm, pages, |pages|)
    ensures var p := Parts(pages[i]);
            Rank(OrdersFor(norm, sections, pages), p[..k], p[k], |p| == k + 1) ==
            if k == 0 then [if p[0] in sections then sections[p[0]] else 10000] + Codes(norm(p[0]))
            else [if IsOverview(norm, pages[i], k) then 0 else 1, OrderAt(pages[i], k)] + Codes(norm(p[k]))
  {
    hide AllTogether, DistinctPaths, Parts, InTree;
    var p := Parts(pages[i]);
    if k > 0 {
      OrderOf(norm, pages, i, |pages|, k);
      assert p[..k] + [p[k]] == p[..k + 1];
    }
  }

  lemma {:induction false} PartIsBefore(norm: Normalizer, sections: map<string, int>, pages: seq<Page>, i: nat, j: nat, k: nat)
    requires i < |pages| && j < |pages| && InTree(pages[i]) && InTree(pages[j])
    requires DistinctPaths(pages) && AllTogether(norm, pages, |pages|)
    requires PartAt(OrdersFor(norm, sections, pages), [], Parts(pages[i]), Parts(pages[j]), k)
    ensures PageBefore(norm, sections, pages[i], pages[j])
  {
    hide AllTogether, DistinctPaths, Parts, InTree, Rank, OrdersFor;
    var p, q := Parts(pages[i]), Parts(pages[j]);
    RankOf(norm, sections, pages, i, k);
    RankOf(norm, sections, pages, j, k);
    assert [] + p[..k] == p[..k] && [] + q[..k] == q[..k];
    if k == 0 {
      KeyBefore(if p[0] in sections then sections[p[0]] else 10000, norm(p[0]), if q[0] in sections then sections[q[0]] else 10000, norm(q[0]));
    } else {
      KeyBefore2(if IsOverview(norm, pages[i], k) then 0 else 1, OrderAt(pages[i], k), norm(p[k]),
                 if IsOverview(norm, pages[j], k) then 0 else 1, OrderAt(pages[j], k), norm(q[k]));
    }
    assert PageBeforeAt(norm, sections, pages[i], pages[j], k);
  }

  // ---- the groups -----------------------------------------------------------------------------------

  lemma {:induction false} ConcatLeaves(f: Forest, g: Forest)
    ensures Leaves(Concat(f, g)) == Leaves(f) + Leaves(g)
  {
    hide HeadLeaves;
    if !f.End? {
      ConcatLeaves(f.rest, g);
      HeadAlone(f, Concat(f.rest, g));
    }
  }

  lemma {:induction false} HeadAlone(f: Forest, rest: Forest)
    requires !f.End?
    ensures HeadLeaves(f.(rest := rest)) == HeadLeaves(f)
  {
    hide Leaves;
  }

  /** How many leaves the head entry has. */
  function HeadCount(f: Forest): nat
    requires !f.End?
  {
    |HeadLeaves(f)|
  }

  /** The labels a leaf keeps in the group `d`. */
  function Spliced(norm: Normalizer, labels: seq<string>, d: Domain): seq<string>
    requires labels != []
  {
    if |labels| > 1 && norm(labels[0]) == Name(d) then labels[1..] else labels
  }

  /** What the head entry gives its group. */
  lemma {:induction false} HeadGrouped(norm: Normalizer, tree: Forest, f: Forest, d: Domain)
    requires !f.End?
    ensures var g, later, n := Leaves(Grouped(norm, tree, f, d)), Leaves(Grouped(norm, tree, f.rest, d)), HeadCount(f);
            && n <= |Leaves(f)| && Leaves(f)[n..] == Leaves(f.rest)
            && (SectionDomain(tree, f.text) != d ==> g == later)
            && (SectionDomain(tree, f.text) == d ==>
                  && |g| == n + |later| && g[n..] == later
                  && forall i :: 0 <= i < n ==> var e := Leaves(f)[i];
                       e.labels != [] && e.labels[0] == f.text && g[i] == Entry(Spliced(norm, e.labels, d), e.path))
  {
    hide SectionDomain, Name;
    GroupedStep(norm, tree, f, d);
    var later := Grouped(norm, tree, f.rest, d);
    if f.Branch? {
      ConcatLeaves(f.children, later);
      ConcatLeaves(Branch(f.text, f.children, End), later);
      forall i | 0 <= i < |Leaves(f.children)|
        ensures HeadLeaves(f)[i].labels != [] && HeadLeaves(f)[i].labels[1..] == Leaves(f.children)[i].labels != []
      {
        LeafIsHeld(f.children, i);
      }
    }
  }

  /** The leaf of `f` that leaf `i` of the group comes from. */
  function Origin(norm: Normalizer, tree: Forest, f: Forest, d: Domain, i: nat): nat {
    if f.End? then i
    else
      var n := HeadCount(f);
      if SectionDomain(tree, f.text) != d then n + Origin(norm, tree, f.rest, d, i)
      else if i < n then i
      else n + Origin(norm, tree, f.rest, d, i - n)
  }

  lemma {:induction false} OriginIs(norm: Normalizer, tree: Forest, f: Forest, d: Domain, i: nat)
    requires i < |Leaves(Grouped(norm, tree, f, d))|
    ensures var k := Origin(norm, tree, f, d, i);
            && k < |Leaves(f)| && Leaves(f)[k].labels != [] && SectionDomain(tree, Leaves(f)[k].labels[0]) == d
            && Leaves(Grouped(norm, tree, f, d))[i] == Entry(Spliced(norm, Leaves(f)[k].labels, d), Leaves(f)[k].path)
    decreases f
  {
    hide Leaves, SectionDomain, Spliced, Grouped, HeadCount;
    if f.End? {
      NoLeaves(norm, tree, d);
    } else {
      HeadGrouped(norm, tree, f, d);
      var n, here := HeadCount(f), SectionDomain(tree, f.text) == d;
      if !here || i >= n {
        var j := if here then i - n else i;
        if here { Shifted(Leaves(Grouped(norm, tree, f, d)), n, j); }
        OriginIs(norm, tree, f.rest, d, j);
        Shifted(Leaves(f), n, Origin(norm, tree, f.rest, d, j));
      }
    }
  }

  lemma {:induction false} Shifted(s: seq<Entry>, n: nat, j: nat)
    requires n + j < |s|
    ensures s[n..][j] == s[n + j]
  {}

  lemma {:induction false} NoLeaves(norm: Normalizer, tree: Forest, d: Domain)
    ensures Leaves(Grouped(norm, tree, End, d)) == []
  {}

  lemma {:induction false} OriginGrows(norm: Normalizer, tree: Forest, f: Forest, d: Domain, i: nat, j: nat)
    requires i < j
    ensures Origin(norm, tree, f, d, i) < Origin(norm, tree, f, d, j)
  {
    hide Leaves, SectionDomain, HeadCount;
    if !f.End? {
      var n := HeadCount(f);
      if SectionDomain(tree, f.text) != d {
        OriginGrows(norm, tree, f.rest, d, i, j);
      } else if i >= n {
        OriginGrows(norm, tree, f.rest, d, i - n, j - n);
      }
    }
  }

  /** Every leaf goes to the group of its section. */
  lemma {:induction false} LeafGrouped(norm: Normalizer, tree: Forest, f: Forest, d: Domain, k: nat) returns (i: nat)
    requires k < |Leaves(f)| && Leaves(f)[k].labels != [] && SectionDomain(tree, Leaves(f)[k].labels[0]) == d
    ensures i < |Leaves(Grouped(norm, tree, f, d))| && Leaves(Grouped(norm, tree, f, d))[i].path == Leaves(f)[k].path
  {
    SomeLeaf(f);
    hide *;
    HeadGrouped(norm, tree, f, d);
    var n, here := HeadCount(f), SectionDomain(tree, f.text) == d;
    if k < n {
      HeadLabel(f, k);
      i := k;
    } else {
      Shifted(Leaves(f), n, k - n);
      var j := LeafGrouped(norm, tree, f.rest, d, k - n);
      i := if here then n + j else j;
      if here { Shifted(Leaves(Grouped(norm, tree, f, d)), n, j); }
    }
  }

  lemma {:induction false} SomeLeaf(f: Forest)
    requires Leaves(f) != []
    ensures !f.End?
  {}

  lemma {:induction false} HeadLabel(f: Forest, k: nat)
    requires !f.End? && k < HeadCount(f)
    ensures k < |Leaves(f)| && Leaves(f)[k].labels[0] == f.text
  {
    if f.Branch? { LeafIsHeld(f.children, k); }
  }

  // ---- the whole navigation ---------------------------------------------------------------------------

  /** The page's first path segment, when it names a surface; anything else is knowledge. */
  function Surface(path: string): string {
    if InFolder(path, "observe") then "observe"
    else if InFolder(path, "model") then "model"
    else if InFolder(path, "work") then "work"
    else "know"
  }

  predicate InFolder(path: string, folder: string) { path == folder || StartsWith(path, folder + "/") }

  const SURFACES := ["know", "model", "observe", "work"]
  const TITLES := ["Know", "Model", "Observe", "Work"]

  /** Page `m` is the first one of the top-level section `section`. */
  predicate Opens(pages: seq<Page>, m: nat, section: string) {
    && m < |pages| && InTree(pages[m]) && Parts(pages[m])[0] == section
    && forall l: nat :: l < m && InTree(pages[l]) ==> Parts(pages[l])[0] != section
  }

  /**
   * The entry is page `m`, in group `g`, the one of the first page of its section: under
   * all its labels, or all but the section's when that is called like the group.
   */
  ghost predicate IsEntryOf(norm: Normalizer, pages: seq<Page>, entry: Entry, title: string, m: nat) {
    && m < |pages| && InTree(pages[m]) && entry.path == pages[m].path
    && var labels := Parts(pages[m]);
    exists first: nat, g: nat :: Opens(pages, first, labels[0]) && g < 4 && TITLES[g] == title && SURFACES[g] == Surface(pages[first].path)
                       && entry.labels == if norm(labels[0]) == SURFACES[g] then labels[1..] else labels
  }

  /** Entry `i` of group `g`. */
  predicate At(nav: Nav, g: nat, i: nat, path: string) {
    g < |nav.groups| && i < |Leaves(nav.groups[g].1)| && Leaves(nav.groups[g].1)[i].path == path
  }

  ghost predicate Reads(norm: Normalizer, sections: map<string, int>, pages: seq<Page>, nav: Nav) {
    && HomeIs(pages, nav) && GroupsInOrder(nav) && EntriesArePages(norm, pages, nav) && PagesHaveEntries(pages, nav)
    && EntriesInOrder(norm, sections, pages, nav)
  }

  ghost predicate HomeIs(pages: seq<Page>, nav: Nav) {
    && (forall m: nat :: m < |pages| && IsHome(pages[m]) ==> nav.home == Some(pages[m].path))
    && (nav.home.Some? ==> exists m: nat :: m < |pages| && IsHome(pages[m]))
  }

  /** The groups have their titles in the fixed order, and none is empty. */
  ghost predicate GroupsInOrder(nav: Nav) {
    && (forall g: nat :: g < |nav.groups| ==> nav.groups[g].0 in TITLES && Leaves(nav.groups[g].1) != [])
    && (forall g: nat, h: nat, x: nat, y: nat ::
          g < h < |nav.groups| && x < 4 && y < 4 && TITLES[x] == nav.groups[g].0 && TITLES[y] == nav.groups[h].0 ==> x < y)
  }

  ghost predicate EntriesArePages(norm: Normalizer, pages: seq<Page>, nav: Nav) {
    forall g: nat, i: nat :: g < |nav.groups| && i < |Leaves(nav.groups[g].1)| ==>
      EntryIsPage(norm, pages, Leaves(nav.groups[g].1)[i], nav.groups[g].0)
  }

  ghost predicate EntryIsPage(norm: Normalizer, pages: seq<Page>, entry: Entry, title: string) {
    exists m: nat :: IsEntryOf(norm, pages, entry, title, m)
  }

  ghost predicate PagesHaveEntries(pages: seq<Page>, nav: Nav) {
    forall m: nat :: m < |pages| && InTree(pages[m]) ==> exists g: nat, i: nat :: At(nav, g, i, pages[m].path)
  }

  /** Within a group, pages come in the order of their sections and siblings. */
  ghost predicate EntriesInOrder(norm: Normalizer, sections: map<string, int>, pages: seq<Page>, nav: Nav) {
    forall g: nat, i: nat, j: nat, m: nat, n: nat ::
      i < j && m < |pages| && n < |pages| && At(nav, g, i, pages[m].path) && At(nav, g, j, pages[n].path) ==>
        PageBefore(norm, sections, pages[m], pages[n])
  }

  lemma {:induction false} SurfaceIs(path: string)
    ensures Name(DomainOf(path)) == Surface(path)
  {
    var parts := PosixPath.Split(path);
    HeadIs(path, "observe");
    HeadIs(path, "model");
    HeadIs(path, "work");
  }

  lemma {:induction false} HeadIs(path: string, folder: string)
    requires PosixPath.SlashFree(folder)
    ensures PosixPath.Split(path)[0] == folder <==> InFolder(path, folder)
  {
    if InFolder(path, folder) {
      if path == folder {
        PosixPath.SplitSlashFree(folder);
      } else {
        var rest := path[|folder| + 1..];
        assert path == folder + "/" + rest;
        PosixPath.SplitAtSlash(folder, rest);
        PosixPath.SplitSlashFree(folder);
      }
    }
    if PosixPath.Split(path)[0] == folder { HeadStarts(path); }
  }

  lemma {:induction false} HeadStarts(path: string)
    ensures InFolder(path, PosixPath.Split(path)[0])
  {
    PosixPath.JoinSplit(path);
    var parts := PosixPath.Split(path);
    if |parts| > 1 {
      assert PosixPath.Join(parts) == parts[0] + "/" + PosixPath.Join(parts[1..]);
    }
  }

  lemma {:induction false} FirstOpens(pages: seq<Page>, n: nat, section: string) returns (m: nat)
    requires n <= |pages| && FirstUnder(pages, n, section).Some?
    ensures m < n && Opens(pages, m, section) && FirstUnder(pages, n, section) == Some(pages[m].path)
  {
    if FirstUnder(pages, n - 1, section).Some? { m := FirstOpens(pages, n - 1, section); } else { NoneOpens(pages, n - 1, section); m := n - 1; }
  }

  lemma {:induction false} NoneOpens(pages: seq<Page>, n: nat, section: string)
    requires n <= |pages| && FirstUnder(pages, n, section).None?
    ensures forall l :: 0 <= l < n && InTree(pages[l]) ==> Parts(pages[l])[0] != section
  {
    if n > 0 { NoneOpens(pages, n - 1, section); }
  }

  lemma {:induction false} GroupIs(norm: Normalizer, tree: Forest, serialized: Forest, domains: seq<Domain>, g: nat) returns (x: nat)
    requires g < |GroupList(norm, tree, serialized, domains)|
    ensures x < |domains| && !Grouped(norm, tree, serialized, domains[x]).End?
    ensures GroupList(norm, tree, serialized, domains)[g] == (Title(domains[x]), Grouped(norm, tree, serialized, domains[x]))
  {
    hide Grouped, Title;
    if Grouped(norm, tree, serialized, domains[0]).End? {
      x := GroupIs(norm, tree, serialized, domains[1..], g);
      x := x + 1;
    } else if g == 0 {
      x := 0;
    } else {
      x := GroupIs(norm, tree, serialized, domains[1..], g - 1);
      x := x + 1;
    }
  }

  lemma {:induction false} GroupsGrow(norm: Normalizer, tree: Forest, serialized: Forest, domains: seq<Domain>, g: nat, h: nat) returns (x: nat, y: nat)
    requires g < h < |GroupList(norm, tree, serialized, domains)|
    ensures x < y < |domains| && GroupList(norm, tree, serialized, domains)[g].0 == Title(domains[x])
    ensures GroupList(norm, tree, serialized, domains)[h].0 == Title(domains[y])
  {
    hide Grouped, Title;
    if Grouped(norm, tree, serialized, domains[0]).End? {
      x, y := GroupsGrow(norm, tree, serialized, domains[1..], g, h);
      x, y := x + 1, y + 1;
    } else if g == 0 {
      x, y := 0, 0;
      y := GroupIs(norm, tree, serialized, domains[1..], h - 1);
      y := y + 1;
    } else {
      x, y := GroupsGrow(norm, tree, serialized, domains[1..], g - 1, h - 1);
      x, y := x + 1, y + 1;
    }
  }

  lemma {:induction false} IsListed(norm: Normalizer, tree: Forest, serialized: Forest, domains: seq<Domain>, x: nat) returns (g: nat)
    requires x < |domains| && !Grouped(norm, tree, serialized, domains[x]).End?
    ensures g < |GroupList(norm, tree, serialized, domains)|
    ensures GroupList(norm, tree, serialized, domains)[g] == (Title(domains[x]), Grouped(norm, tree, serialized, domains[x]))
  {
    hide Grouped, Title;
    if x == 0 {
      g := 0;
    } else {
      g := IsListed(norm, tree, serialized, domains[1..], x - 1);
      if !Grouped(norm, tree, serialized, domains[0]).End? { g := g + 1; }
    }
  }

  /** What is known of the built tree and its serialization. */
  ghost predicate Made(norm: Normalizer, sections: map<string, int>, pages: seq<Page>, tree: Forest, sorted: Forest) {
    var o := OrdersFor(norm, sections, pages);
    && DistinctPaths(pages) && AllTogether(norm, pages, |pages|)
    && HoldsPages(pages, |pages|, sorted) && HoldsFirst(pages, |pages|, tree)
    && WellFormed(norm, sorted) && Ordered(o, [], sorted)
  }

  lemma {:induction false} TreeMade(norm: Normalizer, sections: map<string, int>, pages: seq<Page>, s: State)
    requires DistinctPaths(pages) && Build(norm, pages, |pages|) == Ok(s)
    ensures Made(norm, sections, pages, s.tree, Serialize(OrdersFor(norm, sections, pages), [], s.tree)) && HoldsHome(pages, |pages|, s.home)
  {
    assert OrdersFor(norm, sections, pages).norm == norm;
    hide Build, AllTogether, DistinctPaths, HoldsFirst, HoldsHome, OrdersFor, Placed, WellFormed, Ordered, Holds;
    BuildMeans(norm, pages, |pages|);
    Serialized(OrdersFor(norm, sections, pages), [], s.tree);
  }

  /** Each leaf of the serialized tree is a page, under all its labels. */
  lemma {:induction false} LeafIsPage(norm: Normalizer, sections: map<string, int>, pages: seq<Page>, tree: Forest, sorted: Forest, k: nat) returns (m: nat)
    requires Made(norm, sections, pages, tree, sorted) && k < |Leaves(sorted)|
    ensures m < |pages| && InTree(pages[m]) && Leaves(sorted)[k] == Entry(Parts(pages[m]), pages[m].path)
  {
    hide AllTogether, DistinctPaths, HoldsFirst, OrdersFor, WellFormed, Ordered, Holds;
    LeafIsHeld(sorted, k);
    var e := Leaves(sorted)[k];
    assert Placed(pages, |pages|, e.labels, e.path);
    m :| 0 <= m < |pages| && IsAt(pages[m], e.labels, e.path);
  }

  lemma {:induction false} PageIsLeaf(norm: Normalizer, sections: map<string, int>, pages: seq<Page>, tree: Forest, sorted: Forest, m: nat) returns (k: nat)
    requires Made(norm, sections, pages, tree, sorted) && m < |pages| && InTree(pages[m])
    ensures k < |Leaves(sorted)| && Leaves(sorted)[k] == Entry(Parts(pages[m]), pages[m].path)
  {
    hide AllTogether, DistinctPaths, HoldsFirst, OrdersFor, WellFormed, Ordered, Holds, Leaves;
    assert IsAt(pages[m], Parts(pages[m]), pages[m].path);
    k := HeldIsLeaf(sorted, Parts(pages[m]), pages[m].path);
  }

  lemma {:induction false} DomainPlace(d: Domain) returns (x: nat)
    ensures x < 4 && DOMAIN_NAV_ORDER[x] == d && SURFACES[x] == Name(d) && TITLES[x] == Title(d)
  {
    x := match d case Know => 0 case Model => 1 case Observe => 2 case Work => 3;
  }

  /** The domain of a section is the surface of its first page. */
  lemma {:induction false} SectionIs(pages: seq<Page>, tree: Forest, m: nat) returns (first: nat)
    requires HoldsFirst(pages, |pages|, tree) && m < |pages| && InTree(pages[m])
    ensures Opens(pages, first, Parts(pages[m])[0]) && Name(SectionDomain(tree, Parts(pages[m])[0])) == Surface(pages[first].path)
  {
    assert |Parts(pages[m])| > 1;
    hide Parts, InTree, FirstUnder, DomainOf, Name, Surface, Opens;
    var section := Parts(pages[m])[0];
    assert Under(tree, section) == FirstUnder(pages, |pages|, section);
    if FirstUnder(pages, |pages|, section).None? { NoneOpens(pages, |pages|, section); }
    first := FirstOpens(pages, |pages|, section);
    SurfaceIs(pages[first].path);
  }

  lemma {:induction false} EntryPlaced(norm: Normalizer, sections: map<string, int>, pages: seq<Page>, tree: Forest, sorted: Forest, d: Domain, i: nat)
    returns (m: nat)
    requires Made(norm, sections, pages, tree, sorted) && i < |Leaves(Grouped(norm, tree, sorted, d))|
    ensures IsEntryOf(norm, pages, Leaves(Grouped(norm, tree, sorted, d))[i], Title(d), m)
    ensures Origin(norm, tree, sorted, d, i) < |Leaves(sorted)|
    ensures Leaves(sorted)[Origin(norm, tree, sorted, d, i)] == Entry(Parts(pages[m]), pages[m].path)
  {
    hide Parts, HoldsFirst, Leaves, Grouped, SectionDomain, Origin, Surface, Opens, Name, Title;
    OriginIs(norm, tree, sorted, d, i);
    m := LeafIsPage(norm, sections, pages, tree, sorted, Origin(norm, tree, sorted, d, i));
    hide Made;
    var first := SectionIs(pages, tree, m);
    var x := DomainPlace(d);
    assert |Parts(pages[m])| > 1;
    assert Opens(pages, first, Parts(pages[m])[0]) && TITLES[x] == Title(d);
  }

  lemma {:induction false} PathsApart(pages: seq<Page>, m: nat, n: nat)
    requires DistinctPaths(pages) && m < |pages| && n < |pages| && pages[m].path == pages[n].path
    ensures m == n
  {}

  lemma {:induction false} GroupOrdered(norm: Normalizer, sections: map<string, int>, pages: seq<Page>, tree: Forest, sorted: Forest, d: Domain,
                                        i: nat, j: nat, m: nat, n: nat)
    requires Made(norm, sections, pages, tree, sorted) && i < j < |Leaves(Grouped(norm, tree, sorted, d))| && m < |pages| && n < |pages|
    requires Leaves(Grouped(norm, tree, sorted, d))[i].path == pages[m].path && Leaves(Grouped(norm, tree, sorted, d))[j].path == pages[n].path
    ensures PageBefore(norm, sections, pages[m], pages[n])
  {
    hide PageBefore, Leaves, Grouped, Parts, InTree, Origin, OrdersFor, PartAt, DistinctPaths, AllTogether, HoldsFirst, HoldsPages, WellFormed, Ordered;
    var a := EntryPlaced(norm, sections, pages, tree, sorted, d, i);
    var b := EntryPlaced(norm, sections, pages, tree, sorted, d, j);
    PathsApart(pages, a, m);
    PathsApart(pages, b, n);
    OriginGrows(norm, tree, sorted, d, i, j);
    NormIs(norm, sections, pages);
    var k := LeavesInOrder(OrdersFor(norm, sections, pages), [], sorted, Origin(norm, tree, sorted, d, i), Origin(norm, tree, sorted, d, j));
    PartIsBefore(norm, sections, pages, m, n, k);
  }

  lemma {:induction false} NormIs(norm: Normalizer, sections: map<string, int>, pages: seq<Page>)
    ensures OrdersFor(norm, sections, pages).norm == norm
  {}

  lemma {:induction false} PageListed(norm: Normalizer, sections: map<string, int>, pages: seq<Page>, tree: Forest, sorted: Forest, m: nat)
    returns (g: nat, i: nat)
    requires Made(norm, sections, pages, tree, sorted) && m < |pages| && InTree(pages[m])
    ensures var groups := GroupList(norm, tree, sorted, DOMAIN_NAV_ORDER);
            g < |groups| && i < |Leaves(groups[g].1)| && Leaves(groups[g].1)[i].path == pages[m].path
  {
    assert |Parts(pages[m])| > 1;
    hide Made, Parts, InTree, Leaves, Grouped, SectionDomain, GroupList, Name, Title;
    var k := PageIsLeaf(norm, sections, pages, tree, sorted, m);
    var d := SectionDomain(tree, Parts(pages[m])[0]);
    i := LeafGrouped(norm, tree, sorted, d, k);
    SomeLeaf(Grouped(norm, tree, sorted, d));
    var x := DomainPlace(d);
    g := IsListed(norm, tree, sorted, DOMAIN_NAV_ORDER, x);
  }

  lemma {:induction false} EntriesRead(norm: Normalizer, sections: map<string, int>, pages: seq<Page>, tree: Forest, sorted: Forest, nav: Nav)
    requires Made(norm, sections, pages, tree, sorted) && nav.groups == GroupList(norm, tree, sorted, DOMAIN_NAV_ORDER)
    ensures EntriesArePages(norm, pages, nav)
  {
    hide Made, GroupList, Grouped, Leaves, IsEntryOf, Title;
    forall g: nat, i: nat | g < |nav.groups| && i < |Leaves(nav.groups[g].1)|
      ensures EntryIsPage(norm, pages, Leaves(nav.groups[g].1)[i], nav.groups[g].0)
    {
      var x := GroupIs(norm, tree, sorted, DOMAIN_NAV_ORDER, g);
      var m := EntryPlaced(norm, sections, pages, tree, sorted, DOMAIN_NAV_ORDER[x], i);
      assert IsEntryOf(norm, pages, Leaves(nav.groups[g].1)[i], nav.groups[g].0, m);
    }
  }

  lemma {:induction false} PagesRead(norm: Normalizer, sections: map<string, int>, pages: seq<Page>, tree: Forest, sorted: Forest, nav: Nav)
    requires Made(norm, sections, pages, tree, sorted) && nav.groups == GroupList(norm, tree, sorted, DOMAIN_NAV_ORDER)
    ensures PagesHaveEntries(pages, nav)
  {
    hide Made, GroupList, Grouped, Leaves, InTree;
    forall m: nat | m < |pages| && InTree(pages[m]) ensures exists g: nat, i: nat :: At(nav, g, i, pages[m].path) {
      var g, i := PageListed(norm, sections, pages, tree, sorted, m);
      assert At(nav, g, i, pages[m].path);
    }
  }

  lemma {:induction false} OrderReads(norm: Normalizer, sections: map<string, int>, pages: seq<Page>, tree: Forest, sorted: Forest, nav: Nav)
    requires Made(norm, sections, pages, tree, sorted) && nav.groups == GroupList(norm, tree, sorted, DOMAIN_NAV_ORDER)
    ensures EntriesInOrder(norm, sections, pages, nav)
  {
    hide Made, GroupList, Grouped, Leaves, PageBefore, Title;
    forall g: nat, i: nat, j: nat, m: nat, n: nat |
      i < j && m < |pages| && n < |pages| && At(nav, g, i, pages[m].path) && At(nav, g, j, pages[n].path)
      ensures PageBefore(norm, sections, pages[m], pages[n])
    {
      var x := GroupIs(norm, tree, sorted, DOMAIN_NAV_ORDER, g);
      GroupOrdered(norm, sections, pages, tree, sorted, DOMAIN_NAV_ORDER[x], i, j, m, n);
    }
  }

  lemma {:induction false} HomeReads(pages: seq<Page>, s: State, nav: Nav)
    requires HoldsHome(pages, |pages|, s.home) && nav.home == (if s.home == "" then Option.None else Some(s.home)) && DistinctPaths(pages)
    ensures HomeIs(pages, nav)
  {}

  lemma {:induction false} SomeLeaves(norm: Normalizer, f: Forest)
    requires WellFormed(norm, f) && !f.End?
    ensures HeadCount(f) > 0
  {
    if f.Branch? {
      SomeLeaves(norm, f.children);
      assert Leaves(f.children) == HeadLeaves(f.children) + Leaves(f.children.rest);
    }
  }

  lemma {:induction false} SomeGrouped(norm: Normalizer, tree: Forest, f: Forest, d: Domain)
    requires WellFormed(norm, f) && !Grouped(norm, tree, f, d).End?
    ensures Leaves(Grouped(norm, tree, f, d)) != []
  {
    hide Leaves, HeadLeaves, SectionDomain, Concat, Name, Spliced, HeadCount;
    HeadGrouped(norm, tree, f, d);
    SomeLeaves(norm, f);
    if SectionDomain(tree, f.text) != d { SomeGrouped(norm, tree, f.rest, d); }
  }

  lemma {:induction false} TitlePlace(x: nat, y: nat)
    requires x < 4 && y < 4 && TITLES[y] == Title(DOMAIN_NAV_ORDER[x])
    ensures y == x
  {
    assert |TITLES[0]| == 4 && |TITLES[1]| == 5 && |TITLES[2]| == 7 && |TITLES[3]| == 4 && TITLES[0][0] == 'K' && TITLES[3][0] == 'W';
    var z := DomainPlace(DOMAIN_NAV_ORDER[x]);
  }

  lemma {:induction false} GroupsRead(norm: Normalizer, tree: Forest, sorted: Forest, nav: Nav)
    requires WellFormed(norm, sorted) && nav.groups == GroupList(norm, tree, sorted, DOMAIN_NAV_ORDER)
    ensures GroupsInOrder(nav)
  {
    hide GroupList, Grouped, Leaves, Title, WellFormed;
    forall g: nat | g < |nav.groups| ensures nav.groups[g].0 in TITLES && Leaves(nav.groups[g].1) != [] {
      var x := GroupIs(norm, tree, sorted, DOMAIN_NAV_ORDER, g);
      SomeGrouped(norm, tree, sorted, DOMAIN_NAV_ORDER[x]);
      var y := DomainPlace(DOMAIN_NAV_ORDER[x]);
    }
    forall g: nat, h: nat, x: nat, y: nat |
      g < h < |nav.groups| && x < 4 && y < 4 && TITLES[x] == nav.groups[g].0 && TITLES[y] == nav.groups[h].0
      ensures x < y
    {
      var a, b := GroupsGrow(norm, tree, sorted, DOMAIN_NAV_ORDER, g, h);
      TitlePlace(a, x);
      TitlePlace(b, y);
    }
  }

  lemma {:induction false} BuiltIs(norm: Normalizer, sections: map<string, int>, pages: seq<Page>) returns (s: State)
    requires BuiltNav(norm, sections, pages).Ok?
    ensures Build(norm, pages, |pages|) == Ok(s)
    ensures var nav, sorted := BuiltNav(norm, sections, pages).value, Serialize(OrdersFor(norm, sections, pages), [], s.tree);
            && nav.groups == GroupList(norm, s.tree, sorted, DOMAIN_NAV_ORDER) && nav.home == if s.home == "" then Option.None else Some(s.home)
  {
    hide Build, Serialize, GroupList;
    s := Build(norm, pages, |pages|).value;
  }

  /** The navigation that is built reads as the pages, the section order and the authored orders say. */
  lemma {:induction false} NavigationReads(norm: Normalizer, sections: map<string, int>, pages: seq<Page>)
    requires DistinctPaths(pages) && BuiltNav(norm, sections, pages).Ok?
    ensures Reads(norm, sections, pages, BuiltNav(norm, sections, pages).value)
  {
    hide Build, BuiltNav, Serialize, OrdersFor, GroupList, HoldsHome, HomeIs, GroupsInOrder, EntriesArePages, PagesHaveEntries, EntriesInOrder;
    hide DistinctPaths, AllTogether, HoldsPages, HoldsFirst, Ordered, WellFormed;
    var s := BuiltIs(norm, sections, pages);
    var nav := BuiltNav(norm, sections, pages).value;
    var tree, sorted := s.tree, Serialize(OrdersFor(norm, sections, pages), [], s.tree);
    TreeMade(norm, sections, pages, s);
    HomeReads(pages, s, nav);
    GroupsRead(norm, tree, sorted, nav);
    EntriesRead(norm, sections, pages, tree, sorted, nav);
    PagesRead(norm, sections, pages, tree, sorted, nav);
    OrderReads(norm, sections, pages, tree, sorted, nav);
  }

  // ---- the labels of a page ---------------------------------------------------------------------------

  /** A piece between slashes is one label, stripped, or none when it is blank. */
  lemma {:induction false} OnePiece(page: Page)
    requires PosixPath.SlashFree(page.navPath)
    ensures Parts(page) == if Strip(page.navPath) == "" then [] else [Strip(page.navPath)]
  {
    hide Strip;
    PosixPath.SplitSlashFree(page.navPath);
    var one := [page.navPath];
    assert one[1..] == [] && Kept(one[1..]) == [];
    assert Kept(one) == (if Strip(one[0]) == "" then [] else [Strip(one[0])]) + Kept(one[1..]);
  }

  /** The labels on both sides of a slash follow one another. */
  lemma {:induction false} PiecesJoin(page: Page, a: Page, b: Page)
    requires page.navPath == a.navPath + "/" + b.navPath
    ensures Parts(page) == Parts(a) + Parts(b)
  {
    PosixPath.SplitAtSlash(a.navPath, b.navPath);
    KeptConcat(PosixPath.Split(a.navPath), PosixPath.Split(b.navPath));
  }

  lemma {:induction false} KeptConcat(a: seq<string>, b: seq<string>)
    ensures Kept(a + b) == Kept(a) + Kept(b)
  {
    hide Strip;
    if a == [] {
      assert a + b == b;
    } else {
      assert (a + b)[1..] == a[1..] + b;
      KeptConcat(a[1..], b);
    }
  }
}
