/** The navigation as a whole: every page once, and when the order of pages does not matter. */
module NavTheorems {
  import opened Text
  import opened NavTree
  import opened NavOrder
  import opened NavGroups
  import opened BuildNav

  /** The list `build_nav` returns: perhaps Home, then the groups that are not empty. */
  datatype Nav = Nav(home: Option<string>, groups: seq<(string, Forest)>)

  /** `nav_orders`, by the parts that are joined into its keys. */
  function NavOrders(pages: seq<Page>, n: nat): map<seq<string>, int>
    requires n <= |pages|
  {
    if n == 0 then map[] else NavOrders(pages, n - 1)[Parts(pages[n - 1]) := pages[n - 1].navOrder]
  }

  const DOMAIN_NAV_ORDER := [Know, Model, Observe, Work]

  /** The groups of `domains` that are not empty. */
  function GroupList(norm: Normalizer, tree: Forest, serialized: Forest, domains: seq<Domain>): seq<(string, Forest)> {
    if domains == [] then []
    else
      var entries := Grouped(norm, tree, serialized, domains[0]);
      (if entries.End? then [] else [(Title(domains[0]), entries)]) + GroupList(norm, tree, serialized, domains[1..])
  }

  function NavOf(o: Orders, s: State): Nav {
    Nav(if s.home == "" then Option.None else Some(s.home), GroupList(o.norm, s.tree, Serialize(o, [], s.tree), DOMAIN_NAV_ORDER))
  }

  function OrdersFor(norm: Normalizer, sections: map<string, int>, pages: seq<Page>): Orders {
    Orders(norm, sections, NavOrders(pages, |pages|))
  }

  /** `build_nav` in strict mode. */
  function BuiltNav(norm: Normalizer, sections: map<string, int>, pages: seq<Page>): Result<Nav, Conflict> {
    match Build(norm, pages, |pages|)
    case Err(e) => Err(e)
    case Ok(s) => Ok(NavOf(OrdersFor(norm, sections, pages), s))
  }

  method BuildNavigation(norm: Normalizer, sections: map<string, int>, pages: seq<Page>) returns (r: Result<Nav, Conflict>)
    ensures r == BuiltNav(norm, sections, pages)
  {
    hide Add, Grouped, GroupList, Serialize, Parts;
    var s := State(End, "");
    var n := 0;
    while n < |pages|
      invariant n <= |pages| && Build(norm, pages, n) == Ok(s)
    {
      var added := Add(norm, s, pages[n]);
      if added.Err? {
        FailureStays(norm, pages, n + 1, |pages|);
        return Err(added.error);
      }
      s, n := added.value, n + 1;
    }
    var orders: map<seq<string>, int> := map[];
    for i := 0 to |pages|
      invariant orders == NavOrders(pages, i)
    {
      orders := orders[Parts(pages[i]) := pages[i].navOrder];
    }
    var serialized := Serialize(Orders(norm, sections, orders), [], s.tree);
    var groups := ListGroups(norm, s.tree, serialized);
    return Ok(Nav(if s.home == "" then Option.None else Some(s.home), groups));
  }

  /** The groups that are not empty, in their fixed order. */
  method ListGroups(norm: Normalizer, tree: Forest, serialized: Forest) returns (groups: seq<(string, Forest)>)
    ensures groups == GroupList(norm, tree, serialized, DOMAIN_NAV_ORDER)
  {
    hide Grouped, GroupList;
    NoMoreGroups(norm, tree, serialized);
    var grouped := GroupByDomain(norm, tree, serialized);
    var order := DOMAIN_NAV_ORDER;
    groups := [];
    var i := 0;
    while i < |order|
      invariant i <= |order| && order == DOMAIN_NAV_ORDER
      invariant groups + GroupList(norm, tree, serialized, order[i..]) == GroupList(norm, tree, serialized, order)
    {
      var d := order[i];
      AllGrouped(norm, tree, serialized, d);
      NextGroup(norm, tree, serialized, order, i);
      if !grouped[d].End? {
        groups := groups + [(Title(d), grouped[d])];
      }
      i := i + 1;
    }
  }

  lemma {:induction false} NoMoreGroups(norm: Normalizer, tree: Forest, serialized: Forest)
    ensures GroupList(norm, tree, serialized, DOMAIN_NAV_ORDER[|DOMAIN_NAV_ORDER|..]) == []
  {}

  lemma {:induction false} NextGroup(norm: Normalizer, tree: Forest, serialized: Forest, order: seq<Domain>, i: nat)
    requires i < |order|
    ensures var entries, later := Grouped(norm, tree, serialized, order[i]), GroupList(norm, tree, serialized, order[i + 1..]);
            GroupList(norm, tree, serialized, order[i..]) == if entries.End? then later else [(Title(order[i]), entries)] + later
  {
    var later := GroupList(norm, tree, serialized, order[i + 1..]);
    assert order[i..][1..] == order[i + 1..];
    assert [] + later == later;
  }

  lemma {:induction false} AllGrouped(norm: Normalizer, tree: Forest, serialized: Forest, d: Domain)
    ensures var grouped := map[Know := Grouped(norm, tree, serialized, Know), Model := Grouped(norm, tree, serialized, Model),
                               Observe := Grouped(norm, tree, serialized, Observe), Work := Grouped(norm, tree, serialized, Work)];
            d in grouped && grouped[d] == Grouped(norm, tree, serialized, d)
  {
    match d case Know => case Model => case Observe => case Work =>
  }

  lemma {:induction false} FailureStays(norm: Normalizer, pages: seq<Page>, n: nat, m: nat)
    requires n <= m <= |pages| && Build(norm, pages, n).Err?
    ensures Build(norm, pages, m) == Build(norm, pages, n)
  {
    if n < m { FailureStays(norm, pages, n, m - 1); }
  }

  // ---- every page, once ----------------------------------------------------------------

  function GroupPaths(groups: seq<(string, Forest)>): multiset<string> {
    if groups == [] then multiset{} else Paths(groups[0].1) + GroupPaths(groups[1..])
  }

  function NavPaths(nav: Nav): multiset<string> {
    (if nav.home.Some? then multiset{nav.home.value} else multiset{}) + GroupPaths(nav.groups)
  }

  lemma {:induction false} GroupListStep(norm: Normalizer, tree: Forest, serialized: Forest, domains: seq<Domain>)
    requires domains != []
    ensures GroupPaths(GroupList(norm, tree, serialized, domains)) ==
            Paths(Grouped(norm, tree, serialized, domains[0])) + GroupPaths(GroupList(norm, tree, serialized, domains[1..]))
  {
    var entries, later := Grouped(norm, tree, serialized, domains[0]), GroupList(norm, tree, serialized, domains[1..]);
    assert ([(Title(domains[0]), entries)] + later)[1..] == later;
    assert [] + later == later;
  }

  lemma {:induction false} GroupListPaths(norm: Normalizer, tree: Forest, serialized: Forest)
    ensures GroupPaths(GroupList(norm, tree, serialized, DOMAIN_NAV_ORDER)) == Paths(serialized)
  {
    hide Grouped, GroupPaths, GroupList, Paths;
    var ds := DOMAIN_NAV_ORDER;
    GroupListStep(norm, tree, serialized, ds);
    GroupListStep(norm, tree, serialized, ds[1..]);
    GroupListStep(norm, tree, serialized, ds[1..][1..]);
    GroupListStep(norm, tree, serialized, ds[1..][1..][1..]);
    assert ds[1..][1..][1..][1..] == [];
    NoGroups(norm, tree, serialized);
    GroupsKeepPages(norm, tree, serialized);
    Associate(
      Paths(Grouped(norm, tree, serialized, Know)), Paths(Grouped(norm, tree, serialized, Model)),
      Paths(Grouped(norm, tree, serialized, Observe)), Paths(Grouped(norm, tree, serialized, Work)));
  }

  lemma {:induction false} NoGroups(norm: Normalizer, tree: Forest, serialized: Forest)
    ensures GroupPaths(GroupList(norm, tree, serialized, [])) == multiset{}
  {}

  lemma {:induction false} Associate(a: multiset<string>, b: multiset<string>, c: multiset<string>, d: multiset<string>)
    ensures a + (b + (c + (d + multiset{}))) == a + b + c + d
  {}

  /** The leaves of the navigation are exactly the pages, each once. */
  lemma {:induction false} EveryPageOnce(norm: Normalizer, sections: map<string, int>, pages: seq<Page>)
    requires DistinctPaths(pages)
    ensures BuiltNav(norm, sections, pages).Ok? <==> AllTogether(norm, pages, |pages|)
    ensures BuiltNav(norm, sections, pages).Ok? ==> NavPaths(BuiltNav(norm, sections, pages).value) == PathsOf(pages, |pages|)
  {
    BuildMeans(norm, pages, |pages|);
    var r := Build(norm, pages, |pages|);
    if r.Ok? {
      var o := OrdersFor(norm, sections, pages);
      Serialized(o, [], r.value.tree);
      GroupListPaths(norm, r.value.tree, Serialize(o, [], r.value.tree));
    }
  }
}
