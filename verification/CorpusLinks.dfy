/** Accounting for every link of the corpus, and scoring the broken ones by directory. */
module CorpusLinks {
  import opened Text
  import PosixPath
  import LinkResolve
  import Routes

  /** The corpus as ids without ".md", the redirects, and `str.lower`, which this model takes as given. */
  datatype Site = Site(active: set<string>, archived: set<string>, redirects: map<string, string>, lower: string -> string)

  const RETIRED_DOC_HOSTS := ["docs.charliehub.net", "docs-api.charliehub.net"]
  const EXTERNAL_SCHEMES := ["http://", "https://", "mailto:", "tel:", "ftp://", "data:"]
  const ASSET_SUFFIXES := [
    ".png", ".jpg", ".jpeg", ".gif", ".svg", ".webp", ".pdf", ".json", ".yml", ".yaml", ".sh", ".py", ".sql", ".conf",
    ".service", ".timer", ".txt", ".csv", ".zip", ".tar", ".gz", ".ico", ".css", ".js"]
  const APP_ROUTE_PREFIXES := {"dashboard", "api", "healthz", "openapi.json", ".well-known", "static", "assets"}
  const RESOLVER_SUSPECT_MIN_SAMPLE: nat := 50

  predicate Mentions(s: string, hosts: seq<string>) { exists i :: 0 <= i < |hosts| && LinkResolve.Contains(s, hosts[i]) }

  predicate StartsWithAny(s: string, prefixes: seq<string>) { exists i :: 0 <= i < |prefixes| && StartsWith(s, prefixes[i]) }

  predicate EndsWithAny(s: string, suffixes: seq<string>) { exists i :: 0 <= i < |suffixes| && EndsWith(s, suffixes[i]) }

  // ---- one link ------------------------------------------------------------------------

  function StripMd(path: string): string { if EndsWith(path, ".md") then path[..|path| - 3] else path }

  /** `while base.startswith("../")`. */
  function Clamp(base: string): string { if StartsWith(base, "../") then Clamp(base[3..]) else base }

  /** `resolve_link`. */
  function ResolveLink(source: string, target: string): Option<string> {
    var cleaned := Strip(LinkResolve.Before(LinkResolve.Before(target, '#'), '?'));
    if cleaned == "" then Option.None
    else
      var base := Clamp(LinkResolve.StripSlashes(
        if cleaned[0] == '/' then cleaned else PosixPath.NormPath(PosixPath.JoinPath(PosixPath.Dirname(source), cleaned))));
      Some(StripMd(if base == "" || base == "." || base == ".." then "index" else base))
  }

  datatype Outcome =
    | Retired | External | Anchor | Asset | SelfReference | AppRoute | ToActive | ToArchived | Redirected | Broken(resolved: string)

  predicate Internal(o: Outcome) { o.ToActive? || o.ToArchived? || o.Redirected? || o.Broken? }

  /** Where a redirect from `form` ends, if it leads anywhere. */
  function Terminal(site: Site, form: string): Option<string> {
    match Routes.Follow(form + ".md", site.redirects, {})
    case None => Option.None
    case Some(path) => if path == form + ".md" then Option.None else Some(StripMd(path))
  }

  /** The branches of the loop over one page's links, in their order. */
  function Classify(site: Site, source: string, target: string): Outcome {
    var lowered := site.lower(target);
    if Mentions(lowered, RETIRED_DOC_HOSTS) then Retired
    else if StartsWithAny(lowered, EXTERNAL_SCHEMES) then External
    else if StartsWith(target, "#") then Anchor
    else if EndsWithAny(LinkResolve.Before(LinkResolve.Before(lowered, '#'), '?'), ASSET_SUFFIXES) then Asset
    else
      match ResolveLink(source, target)
      case None => SelfReference
      case Some(resolved) =>
        if resolved == StripMd(source) then SelfReference
        else if PosixPath.Split(resolved)[0] in APP_ROUTE_PREFIXES then AppRoute
        else Destination(site, resolved)
  }

  /** A directory URL is served by its index page, so both forms count. */
  function Destination(site: Site, resolved: string): Outcome {
    var index := resolved + "/index";
    if resolved in site.active || index in site.active then ToActive
    else if resolved in site.archived || index in site.archived then ToArchived
    else
      var first := Terminal(site, resolved);
      var terminal := if first.Some? then first else Terminal(site, index);
      if terminal.Some? && terminal.value != "" && (terminal.value in site.active || terminal.value in site.archived)
      then Redirected else Broken(resolved)
  }

  // ---- the whole corpus ------------------------------------------------------------------

  /** An active page with the link targets found in its content, in order. */
  datatype Page = Page(path: string, links: seq<string>)

  datatype Counts = Counts(
    total: nat, retired: nat, external: nat, anchor: nat, asset: nat, self: nat, appRoute: nat,
    internal: nat, active: nat, archived: nat, redirect: nat, broken: nat)

  datatype Entry = Entry(link: string, resolved: string)

  /** The pages with broken links, in the order they were first met. */
  type BrokenPages = seq<(string, seq<Entry>)>

  function Counted(c: Counts, o: Outcome): Counts {
    var d := c.(total := c.total + 1, internal := c.internal + if Internal(o) then 1 else 0);
    match o
    case Retired => d.(retired := d.retired + 1)
    case External => d.(external := d.external + 1)
    case Anchor => d.(anchor := d.anchor + 1)
    case Asset => d.(asset := d.asset + 1)
    case SelfReference => d.(self := d.self + 1)
    case AppRoute => d.(appRoute := d.appRoute + 1)
    case ToActive => d.(active := d.active + 1)
    case ToArchived => d.(archived := d.archived + 1)
    case Redirected => d.(redirect := d.redirect + 1)
    case Broken(_) => d.(broken := d.broken + 1)
  }

  /** Every link is in exactly one class, every internal one in exactly one of its four. */
  predicate Balanced(c: Counts) {
    && c.total == c.retired + c.external + c.anchor + c.asset + c.self + c.appRoute + c.internal
    && c.internal == c.active + c.archived + c.redirect + c.broken
  }

  /** `broken[source].append(entry)`. */
  function Append(pages: BrokenPages, source: string, entry: Entry): BrokenPages {
    if pages == [] then [(source, [entry])]
    else if pages[0].0 == source then [(source, pages[0].1 + [entry])] + pages[1..]
    else [pages[0]] + Append(pages[1..], source, entry)
  }

  function Listed(pages: BrokenPages): nat { if pages == [] then 0 else |pages[0].1| + Listed(pages[1..]) }

  /** `dead_targets`. */
  function DeadTargets(pages: BrokenPages): multiset<string> {
    if pages == [] then multiset{} else Resolved(pages[0].1) + DeadTargets(pages[1..])
  }

  function Resolved(entries: seq<Entry>): multiset<string> {
    if entries == [] then multiset{} else Resolved(entries[..|entries| - 1]) + multiset{entries[|entries| - 1].resolved}
  }

  /** The broken links, each with the page it is on. */
  function Entries(pages: BrokenPages): multiset<(string, Entry)> {
    if pages == [] then multiset{} else EntriesOf(pages[0].0, pages[0].1) + Entries(pages[1..])
  }

  function EntriesOf(source: string, entries: seq<Entry>): multiset<(string, Entry)> {
    if entries == [] then multiset{}
    else EntriesOf(source, entries[..|entries| - 1]) + multiset{(source, entries[|entries| - 1])}
  }

  const NONE := Counts(0, 0, 0, 0, 0, 0, 0, 0, 0, 0, 0, 0)

  /** What became of the first `n` links of a page. */
  function PageOutcomes(site: Site, p: Page, n: nat): (os: seq<Outcome>)
    requires n <= |p.links|
    ensures |os| == n
  {
    if n == 0 then [] else PageOutcomes(site, p, n - 1) + [Classify(site, p.path, p.links[n - 1])]
  }

  /** What became of every link of the first `n` pages. */
  function Outcomes(site: Site, pages: seq<Page>, n: nat): seq<Outcome>
    requires n <= |pages|
  {
    if n == 0 then [] else Outcomes(site, pages, n - 1) + PageOutcomes(site, pages[n - 1], |pages[n - 1].links|)
  }

  /** The links among the first `n` of a page that are broken. */
  function BrokenOn(site: Site, p: Page, n: nat): multiset<(string, Entry)>
    requires n <= |p.links|
  {
    if n == 0 then multiset{}
    else
      BrokenOn(site, p, n - 1)
      + match Classify(site, p.path, p.links[n - 1])
        case Broken(resolved) => multiset{(p.path, Entry(p.links[n - 1], resolved))}
        case _ => multiset{}
  }

  function BrokenIn(site: Site, pages: seq<Page>, n: nat): multiset<(string, Entry)>
    requires n <= |pages|
  {
    if n == 0 then multiset{} else BrokenIn(site, pages, n - 1) + BrokenOn(site, pages[n - 1], |pages[n - 1].links|)
  }

  function CountAll(os: seq<Outcome>): Counts { if os == [] then NONE else Counted(CountAll(os[..|os| - 1]), os[|os| - 1]) }

  function Number(os: seq<Outcome>, want: Outcome -> bool): nat {
    if os == [] then 0 else Number(os[..|os| - 1], want) + if want(os[|os| - 1]) then 1 else 0
  }

  /** The counters balance. */
  lemma {:induction false} CountsBalance(os: seq<Outcome>)
    ensures Balanced(CountAll(os)) && CountAll(os).total == |os|
  {
    if os != [] {
      CountsBalance(os[..|os| - 1]);
      CountedBalances(CountAll(os[..|os| - 1]), os[|os| - 1]);
      hide Counted, Balanced;
    }
  }

  lemma {:induction false} CountedBalances(c: Counts, o: Outcome)
    requires Balanced(c)
    ensures Balanced(Counted(c, o)) && Counted(c, o).total == c.total + 1
  {}

  predicate IsRetired(o: Outcome) { o.Retired? }

  predicate IsExternal(o: Outcome) { o.External? }

  predicate IsAnchor(o: Outcome) { o.Anchor? }

  predicate IsAsset(o: Outcome) { o.Asset? }

  predicate IsSelf(o: Outcome) { o.SelfReference? }

  predicate IsAppRoute(o: Outcome) { o.AppRoute? }

  predicate IsBroken(o: Outcome) { o.Broken? }

  predicate IsActive(o: Outcome) { o.ToActive? }

  predicate IsArchived(o: Outcome) { o.ToArchived? }

  predicate IsRedirected(o: Outcome) { o.Redirected? }

  /** Each counter is the number of links of its class. */
  lemma {:induction false} CountsAreNumbers(os: seq<Outcome>)
    ensures var c := CountAll(os);
            && c.total == |os|
            && c.retired == Number(os, IsRetired) && c.external == Number(os, IsExternal) && c.anchor == Number(os, IsAnchor)
            && c.asset == Number(os, IsAsset) && c.self == Number(os, IsSelf) && c.appRoute == Number(os, IsAppRoute)
            && c.internal == Number(os, Internal) && c.active == Number(os, IsActive) && c.archived == Number(os, IsArchived)
            && c.redirect == Number(os, IsRedirected) && c.broken == Number(os, IsBroken)
  {
    if os != [] {
      var init, last := os[..|os| - 1], os[|os| - 1];
      CountsAreNumbers(init);
      NumbersNext(os);
      CountedNext(CountAll(init), last);
      assert CountAll(os) == Counted(CountAll(init), last);
      hide Number, CountAll, Counted;
    }
  }

  function One(b: bool): nat { if b then 1 else 0 }

  lemma {:induction false} NumberNext(os: seq<Outcome>, want: Outcome -> bool)
    requires os != []
    ensures Number(os, want) == Number(os[..|os| - 1], want) + One(want(os[|os| - 1]))
  {}

  lemma {:induction false} NumbersNext(os: seq<Outcome>)
    requires os != []
    ensures forall want: Outcome -> bool :: Number(os, want) == Number(os[..|os| - 1], want) + One(want(os[|os| - 1]))
  {
    forall want: Outcome -> bool ensures Number(os, want) == Number(os[..|os| - 1], want) + One(want(os[|os| - 1])) { NumberNext(os, want); }
  }

  lemma {:induction false} CountedNext(c: Counts, o: Outcome)
    ensures var d := Counted(c, o);
            && d.total == c.total + 1
            && d.retired == c.retired + One(IsRetired(o)) && d.external == c.external + One(IsExternal(o))
            && d.anchor == c.anchor + One(IsAnchor(o)) && d.asset == c.asset + One(IsAsset(o))
            && d.self == c.self + One(IsSelf(o)) && d.appRoute == c.appRoute + One(IsAppRoute(o))
            && d.internal == c.internal + One(Internal(o)) && d.active == c.active + One(IsActive(o))
            && d.archived == c.archived + One(IsArchived(o)) && d.redirect == c.redirect + One(IsRedirected(o))
            && d.broken == c.broken + One(IsBroken(o))
  {}

  /** How many links the first `n` pages have. */
  function LinksOf(pages: seq<Page>, n: nat): nat
    requires n <= |pages|
  {
    if n == 0 then 0 else LinksOf(pages, n - 1) + |pages[n - 1].links|
  }

  /** The outcomes are those of all links of all pages, in order. */
  lemma {:induction false} OutcomesAreAll(site: Site, pages: seq<Page>, n: nat)
    requires n <= |pages|
    ensures |Outcomes(site, pages, n)| == LinksOf(pages, n)
    ensures forall i, k :: 0 <= i < n && 0 <= k < |pages[i].links| ==> OutcomeAt(site, pages, n, i, k)
  {
    hide OutcomeAt, Outcomes, LinksOf, PageOutcomes, Classify;
    if n == 0 {
      NoOutcomes(site, pages);
    } else {
      OutcomesAreAll(site, pages, n - 1);
      OutcomesNext(site, pages, n);
      forall i, k | 0 <= i < n && 0 <= k < |pages[i].links| ensures OutcomeAt(site, pages, n, i, k) {
        if i < n - 1 {
          assert OutcomeAt(site, pages, n - 1, i, k);
          OutcomeStays(site, pages, n, i, k);
        } else {
          OutcomeLast(site, pages, n, k);
        }
      }
    }
  }

  lemma {:induction false} NoOutcomes(site: Site, pages: seq<Page>)
    ensures |Outcomes(site, pages, 0)| == LinksOf(pages, 0)
  {}

  lemma {:induction false} OutcomeStays(site: Site, pages: seq<Page>, n: nat, i: nat, k: nat)
    requires i < n - 1 < |pages| && k < |pages[i].links| && OutcomeAt(site, pages, n - 1, i, k)
    ensures OutcomeAt(site, pages, n, i, k)
  {
    hide Classify, PageOutcomes, LinksOf;
    OutcomesNext(site, pages, n);
  }

  lemma {:induction false} OutcomeLast(site: Site, pages: seq<Page>, n: nat, k: nat)
    requires 0 < n <= |pages| && k < |pages[n - 1].links| && |Outcomes(site, pages, n - 1)| == LinksOf(pages, n - 1)
    ensures OutcomeAt(site, pages, n, n - 1, k)
  {
    hide Classify, PageOutcomes, LinksOf, Outcomes;
    PageOutcomeAt(site, pages[n - 1], |pages[n - 1].links|);
    OutcomesNext(site, pages, n);
    InSecond(Outcomes(site, pages, n - 1), PageOutcomes(site, pages[n - 1], |pages[n - 1].links|), k);
  }

  lemma {:induction false} InSecond(a: seq<Outcome>, b: seq<Outcome>, k: nat)
    requires k < |b|
    ensures (a + b)[|a| + k] == b[k]
  {}

  predicate OutcomeAt(site: Site, pages: seq<Page>, n: nat, i: nat, k: nat)
    requires i < n <= |pages| && k < |pages[i].links|
  {
    var os, at := Outcomes(site, pages, n), LinksOf(pages, i) + k;
    at < |os| && os[at] == Classify(site, pages[i].path, pages[i].links[k])
  }

  lemma {:induction false} OutcomesNext(site: Site, pages: seq<Page>, n: nat)
    requires 0 < n <= |pages|
    ensures Outcomes(site, pages, n) == Outcomes(site, pages, n - 1) + PageOutcomes(site, pages[n - 1], |pages[n - 1].links|)
    ensures LinksOf(pages, n) == LinksOf(pages, n - 1) + |pages[n - 1].links|
  {}

  lemma {:induction false} PageOutcomeAt(site: Site, p: Page, n: nat)
    requires n <= |p.links|
    ensures forall k :: 0 <= k < n ==> PageOutcomes(site, p, n)[k] == Classify(site, p.path, p.links[k])
  {
    hide Classify;
    if n > 0 { PageOutcomeAt(site, p, n - 1); }
  }

  lemma {:induction false} CountsOneMore(os: seq<Outcome>, o: Outcome)
    ensures CountAll(os + [o]) == Counted(CountAll(os), o)
  {
    assert (os + [o])[..|os|] == os;
  }

  lemma {:induction false} AppendListed(pages: BrokenPages, source: string, entry: Entry)
    ensures Listed(Append(pages, source, entry)) == Listed(pages) + 1
    ensures DeadTargets(Append(pages, source, entry)) == DeadTargets(pages) + multiset{entry.resolved}
  {
    if pages == [] {
      assert Resolved([entry][..0]) == multiset{};
      assert DeadTargets([(source, [entry])][1..]) == multiset{};
    } else if pages[0].0 == source {
      assert (pages[0].1 + [entry])[..|pages[0].1|] == pages[0].1;
      assert ([(source, pages[0].1 + [entry])] + pages[1..])[1..] == pages[1..];
    } else {
      AppendListed(pages[1..], source, entry);
      assert ([pages[0]] + Append(pages[1..], source, entry))[1..] == Append(pages[1..], source, entry);
    }
  }

  lemma {:induction false} AppendEntries(pages: BrokenPages, source: string, entry: Entry)
    ensures Entries(Append(pages, source, entry)) == Entries(pages) + multiset{(source, entry)}
  {
    if pages == [] {
      assert EntriesOf(source, [entry][..0]) == multiset{};
      assert Entries([(source, [entry])][1..]) == multiset{};
    } else if pages[0].0 == source {
      assert (pages[0].1 + [entry])[..|pages[0].1|] == pages[0].1;
      assert ([(source, pages[0].1 + [entry])] + pages[1..])[1..] == pages[1..];
    } else {
      AppendEntries(pages[1..], source, entry);
      assert ([pages[0]] + Append(pages[1..], source, entry))[1..] == Append(pages[1..], source, entry);
    }
  }

  lemma {:induction false} AppendSources(pages: BrokenPages, source: string, entry: Entry)
    ensures forall b :: b in Append(pages, source, entry) ==> b.0 == source || exists c :: c in pages && c.0 == b.0
  {
    if pages != [] && pages[0].0 != source {
      AppendSources(pages[1..], source, entry);
      assert forall c :: c in pages[1..] ==> c in pages;
    }
  }

  /** `_directory`. */
  function Directory(path: string): string {
    var dir := PosixPath.Dirname(path);
    if dir == "" then "(root)" else dir
  }

  /** `broken_here`: the broken links of pages directly in a directory. */
  function BrokenHere(broken: BrokenPages, directory: string): nat {
    if broken == [] then 0
    else (if Directory(broken[0].0) == directory then |broken[0].1| else 0) + BrokenHere(broken[1..], directory)
  }

  /** The broken links on those of the first `n` pages that are directly in a directory. */
  function BrokenUnder(site: Site, pages: seq<Page>, n: nat, directory: string): nat
    requires n <= |pages|
  {
    if n == 0 then 0
    else
      var page := pages[n - 1];
      BrokenUnder(site, pages, n - 1, directory)
      + if Directory(page.path) == directory then Number(PageOutcomes(site, page, |page.links|), IsBroken) else 0
  }

  /** The list has, for each directory, the broken links of the first `n` pages and of `k` links of the next one. */
  ghost predicate SharesSoFar(site: Site, pages: seq<Page>, n: nat, k: nat, broken: BrokenPages)
    requires n < |pages| && k <= |pages[n].links|
  {
    forall d :: BrokenHere(broken, d) ==
                BrokenUnder(site, pages, n, d) + if Directory(pages[n].path) == d then Number(PageOutcomes(site, pages[n], k), IsBroken) else 0
  }

  lemma {:induction false} AppendHere(pages: BrokenPages, source: string, entry: Entry, directory: string)
    ensures BrokenHere(Append(pages, source, entry), directory) == BrokenHere(pages, directory) + One(Directory(source) == directory)
  {
    hide Directory;
    if pages == [] {
      assert [(source, [entry])][1..] == [];
    } else if pages[0].0 == source {
      assert ([(source, pages[0].1 + [entry])] + pages[1..])[1..] == pages[1..];
    } else {
      AppendHere(pages[1..], source, entry, directory);
      assert ([pages[0]] + Append(pages[1..], source, entry))[1..] == Append(pages[1..], source, entry);
    }
  }

  lemma {:induction false} SharesNext(site: Site, pages: seq<Page>, n: nat, k: nat, broken: BrokenPages)
    requires n < |pages| && k < |pages[n].links| && SharesSoFar(site, pages, n, k, broken)
    ensures var page := pages[n];
            var outcome := Classify(site, page.path, page.links[k]);
            SharesSoFar(site, pages, n, k + 1,
                        if outcome.Broken? then Append(broken, page.path, Entry(page.links[k], outcome.resolved)) else broken)
  {
    hide Classify, Directory, Append, BrokenHere, BrokenUnder;
    var page := pages[n];
    var outcome := Classify(site, page.path, page.links[k]);
    var os := PageOutcomes(site, page, k + 1);
    assert os[..|os| - 1] == PageOutcomes(site, page, k) && os[|os| - 1] == outcome;
    NumberNext(os, IsBroken);
    if outcome.Broken? {
      forall d ensures BrokenHere(Append(broken, page.path, Entry(page.links[k], outcome.resolved)), d)
                       == BrokenHere(broken, d) + One(Directory(page.path) == d)
      {
        AppendHere(broken, page.path, Entry(page.links[k], outcome.resolved), d);
      }
    }
    hide Number, PageOutcomes;
  }

  lemma {:induction false} SharesEnd(site: Site, pages: seq<Page>, n: nat, broken: BrokenPages)
    requires n < |pages| && SharesSoFar(site, pages, n, |pages[n].links|, broken)
    ensures forall d :: BrokenHere(broken, d) == BrokenUnder(site, pages, n + 1, d)
  {
    hide BrokenHere, Directory, PageOutcomes, Number;
  }

  lemma {:induction false} SharesStart(site: Site, pages: seq<Page>, n: nat, broken: BrokenPages)
    requires n < |pages| && forall d :: BrokenHere(broken, d) == BrokenUnder(site, pages, n, d)
    ensures SharesSoFar(site, pages, n, 0, broken)
  {
    hide BrokenHere, Directory, BrokenUnder;
  }

  /** `analyse_links`: the counters, the pages with broken links and whether the resolver is suspect. */
  method AnalyseLinks(site: Site, pages: seq<Page>) returns (counts: Counts, broken: BrokenPages, suspect: bool)
    ensures counts == CountAll(Outcomes(site, pages, |pages|))
    ensures Listed(broken) == counts.broken && |DeadTargets(broken)| == counts.broken
    ensures Entries(broken) == BrokenIn(site, pages, |pages|)
    ensures forall b :: b in broken ==> exists p :: p in pages && p.path == b.0
    ensures forall d :: BrokenHere(broken, d) == BrokenUnder(site, pages, |pages|, d)
    ensures suspect <==> counts.internal >= RESOLVER_SUSPECT_MIN_SAMPLE && counts.broken == counts.internal
  {
    hide Classify, Outcomes, PageOutcomes, BrokenIn, Entries;
    counts, broken := NONE, [];
    NothingCounted(site, pages);
    hide CountAll, Listed, DeadTargets, BrokenHere, BrokenUnder;
    var i := 0;
    while i < |pages|
      invariant i <= |pages| && counts == CountAll(Outcomes(site, pages, i))
      invariant Listed(broken) == counts.broken && |DeadTargets(broken)| == counts.broken
      invariant Entries(broken) == BrokenIn(site, pages, i)
      invariant forall b :: b in broken ==> exists p :: p in pages && p.path == b.0
      invariant forall d :: BrokenHere(broken, d) == BrokenUnder(site, pages, i, d)
    {
      counts, broken := AnalysePage(site, pages, i, counts, broken);
      i := i + 1;
    }
    suspect := counts.internal >= RESOLVER_SUSPECT_MIN_SAMPLE && counts.broken == counts.internal;
  }

  lemma {:induction false} NothingCounted(site: Site, pages: seq<Page>)
    ensures CountAll(Outcomes(site, pages, 0)) == NONE && Listed([]) == 0 && DeadTargets([]) == multiset{}
    ensures Entries([]) == multiset{} == BrokenIn(site, pages, 0)
    ensures forall d :: BrokenHere([], d) == BrokenUnder(site, pages, 0, d)
  {}

  /** The counters and the list after the first `n` pages and `k` links of the next one. */
  ghost predicate Accounts(site: Site, pages: seq<Page>, n: nat, k: nat, counts: Counts, broken: BrokenPages)
    requires n < |pages| && k <= |pages[n].links|
  {
    && CountsSoFar(site, pages, n, k, counts)
    && Listed(broken) == counts.broken && |DeadTargets(broken)| == counts.broken
    && Entries(broken) == BrokenIn(site, pages, n) + BrokenOn(site, pages[n], k)
    && forall b :: b in broken ==> exists p :: p in pages && p.path == b.0
  }

  ghost predicate CountsSoFar(site: Site, pages: seq<Page>, n: nat, k: nat, counts: Counts)
    requires n < |pages| && k <= |pages[n].links|
  {
    counts == CountAll(Outcomes(site, pages, n) + PageOutcomes(site, pages[n], k))
  }

  lemma {:induction false} CountsSoFarNext(site: Site, pages: seq<Page>, n: nat, k: nat, counts: Counts)
    requires n < |pages| && k < |pages[n].links| && CountsSoFar(site, pages, n, k, counts)
    ensures CountsSoFar(site, pages, n, k + 1, Counted(counts, Classify(site, pages[n].path, pages[n].links[k])))
  {
    hide Classify, CountAll, Outcomes, Counted;
    var page := pages[n];
    var outcome := Classify(site, page.path, page.links[k]);
    CountsOneMore(Outcomes(site, pages, n) + PageOutcomes(site, page, k), outcome);
    assert Outcomes(site, pages, n) + PageOutcomes(site, page, k) + [outcome] == Outcomes(site, pages, n) + PageOutcomes(site, page, k + 1);
  }

  lemma {:induction false} AccountsNext(site: Site, pages: seq<Page>, n: nat, k: nat, counts: Counts, broken: BrokenPages)
    requires n < |pages| && k < |pages[n].links| && Accounts(site, pages, n, k, counts, broken)
    ensures var page := pages[n];
            var outcome := Classify(site, page.path, page.links[k]);
            Accounts(site, pages, n, k + 1, Counted(counts, outcome),
                     if outcome.Broken? then Append(broken, page.path, Entry(page.links[k], outcome.resolved)) else broken)
  {
    hide Classify, Listed, DeadTargets, Append, Entries, BrokenIn, CountsSoFar, Counted;
    var page := pages[n];
    var outcome := Classify(site, page.path, page.links[k]);
    CountsSoFarNext(site, pages, n, k, counts);
    CountedNext(counts, outcome);
    if outcome.Broken? {
      var entry := Entry(page.links[k], outcome.resolved);
      AppendListed(broken, page.path, entry);
      AppendSources(broken, page.path, entry);
      AppendEntries(broken, page.path, entry);
      assert page in pages;
    }
  }

  /** Link `k` of the page is that broken link. */
  predicate BrokenAt(site: Site, p: Page, k: nat, source: string, entry: Entry) {
    k < |p.links| && p.path == source && p.links[k] == entry.link && Classify(site, source, entry.link) == Broken(entry.resolved)
  }

  lemma {:induction false} BrokenOnLast(site: Site, p: Page, n: nat, source: string, entry: Entry)
    requires n < |p.links|
    ensures (source, entry) in BrokenOn(site, p, n + 1) <==> (source, entry) in BrokenOn(site, p, n) || BrokenAt(site, p, n, source, entry)
  {
    hide Classify;
  }

  lemma {:induction false} NoneBroken(site: Site, p: Page, pages: seq<Page>, source: string, entry: Entry)
    ensures (source, entry) !in BrokenOn(site, p, 0) && (source, entry) !in BrokenIn(site, pages, 0)
  {}

  lemma {:induction false} BrokenOnMeans(site: Site, p: Page, n: nat, source: string, entry: Entry)
    requires n <= |p.links|
    ensures (source, entry) in BrokenOn(site, p, n) <==> exists k :: 0 <= k < n && BrokenAt(site, p, k, source, entry)
  {
    hide Classify, BrokenOn, BrokenAt;
    NoneBroken(site, p, [p], source, entry);
    if n > 0 {
      BrokenOnMeans(site, p, n - 1, source, entry);
      BrokenOnLast(site, p, n - 1, source, entry);
    }
  }

  ghost predicate BrokenSomewhere(site: Site, p: Page, source: string, entry: Entry) { exists k :: 0 <= k < |p.links| && BrokenAt(site, p, k, source, entry) }

  lemma {:induction false} BrokenInLast(site: Site, pages: seq<Page>, n: nat, source: string, entry: Entry)
    requires 0 < n <= |pages|
    ensures (source, entry) in BrokenIn(site, pages, n)
            <==> (source, entry) in BrokenIn(site, pages, n - 1) || (source, entry) in BrokenOn(site, pages[n - 1], |pages[n - 1].links|)
  {
    hide Classify, BrokenOn;
  }

  /** The listed links are the broken links of the pages. */
  lemma {:induction false} BrokenInMeans(site: Site, pages: seq<Page>, n: nat, source: string, entry: Entry)
    requires n <= |pages|
    ensures (source, entry) in BrokenIn(site, pages, n) <==> exists i :: 0 <= i < n && BrokenSomewhere(site, pages[i], source, entry)
  {
    hide Classify, BrokenOn, BrokenAt, BrokenIn;
    if n == 0 {
      NoneBroken(site, Page("", []), pages, source, entry);
    } else {
      BrokenInMeans(site, pages, n - 1, source, entry);
      BrokenOnMeans(site, pages[n - 1], |pages[n - 1].links|, source, entry);
      BrokenInLast(site, pages, n, source, entry);
    }
  }

  method AnalysePage(site: Site, pages: seq<Page>, i: nat, before: Counts, listed: BrokenPages) returns (counts: Counts, broken: BrokenPages)
    requires i < |pages| && before == CountAll(Outcomes(site, pages, i))
    requires Listed(listed) == before.broken && |DeadTargets(listed)| == before.broken
    requires Entries(listed) == BrokenIn(site, pages, i)
    requires forall b :: b in listed ==> exists p :: p in pages && p.path == b.0
    requires forall d :: BrokenHere(listed, d) == BrokenUnder(site, pages, i, d)
    ensures counts == CountAll(Outcomes(site, pages, i + 1))
    ensures Listed(broken) == counts.broken && |DeadTargets(broken)| == counts.broken
    ensures Entries(broken) == BrokenIn(site, pages, i + 1)
    ensures forall b :: b in broken ==> exists p :: p in pages && p.path == b.0
    ensures forall d :: BrokenHere(broken, d) == BrokenUnder(site, pages, i + 1, d)
  {
    hide Classify, Listed, DeadTargets, Append, CountAll, Entries, BrokenHere, BrokenUnder, SharesSoFar;
    SharesStart(site, pages, i, listed);
    var page := pages[i];
    counts, broken := before, listed;
    assert Outcomes(site, pages, i) + [] == Outcomes(site, pages, i);
    assert Accounts(site, pages, i, 0, counts, broken);
    var k := 0;
    while k < |page.links|
      invariant k <= |page.links| && Accounts(site, pages, i, k, counts, broken) && SharesSoFar(site, pages, i, k, broken)
    {
      hide Accounts;
      AccountsNext(site, pages, i, k, counts, broken);
      SharesNext(site, pages, i, k, broken);
      var outcome := Classify(site, page.path, page.links[k]);
      counts := Counted(counts, outcome);
      if outcome.Broken? {
        broken := Append(broken, page.path, Entry(page.links[k], outcome.resolved));
      }
      k := k + 1;
    }
    SharesEnd(site, pages, i, broken);
  }

  // ---- scoring by directory ----------------------------------------------------------------

  /** A BROKEN_INTERNAL_LINKS reason of a review candidate. */
  datatype Reason = Reason(directory: string, measured: nat)

  function Measured(reasons: seq<Reason>): nat { if reasons == [] then 0 else Measured(reasons[..|reasons| - 1]) + reasons[|reasons| - 1].measured }

  function Over(broken: BrokenPages, directories: seq<string>, n: nat): nat
    requires n <= |directories|
  {
    if n == 0 then 0 else Over(broken, directories, n - 1) + BrokenHere(broken, directories[n - 1])
  }

  predicate Distinct(directories: seq<string>) {
    forall i, j :: 0 <= i < j < |directories| ==> directories[i] != directories[j]
  }

  lemma {:induction false} OverNone(directories: seq<string>, n: nat)
    requires n <= |directories|
    ensures Over([], directories, n) == 0
  {
    if n > 0 { OverNone(directories, n - 1); }
  }

  /** The head page is counted in its own directory and in no other. */
  lemma {:induction false} OverHead(broken: BrokenPages, directories: seq<string>, n: nat)
    requires broken != [] && n <= |directories| && Distinct(directories)
    ensures Over(broken, directories, n) ==
            Over(broken[1..], directories, n) + if Directory(broken[0].0) in directories[..n] then |broken[0].1| else 0
  {
    if n > 0 {
      OverHead(broken, directories, n - 1);
      var d := Directory(broken[0].0);
      assert directories[..n] == directories[..n - 1] + [directories[n - 1]];
      if d in directories[..n - 1] { assert d != directories[n - 1]; }
    }
  }

  /** When every page's directory is among them, the directories' shares are the whole. */
  lemma {:induction false} SharesAreAll(broken: BrokenPages, directories: seq<string>)
    requires Distinct(directories) && forall b :: b in broken ==> Directory(b.0) in directories
    ensures Over(broken, directories, |directories|) == Listed(broken)
  {
    if broken == [] {
      OverNone(directories, |directories|);
    } else {
      OverHead(broken, directories, |directories|);
      assert directories[..|directories|] == directories;
      assert broken[0] in broken;
      SharesAreAll(broken[1..], directories);
    }
  }

  /** What the first `n` directories have come to: one reason for each that has broken links, and no other. */
  ghost predicate Scored(directories: seq<string>, n: nat, broken: BrokenPages, suspect: bool, reasons: seq<Reason>)
    requires n <= |directories|
  {
    && (forall r :: r in reasons ==> !suspect && r.directory in directories[..n] && r.measured > 0 && r.measured == BrokenHere(broken, r.directory))
    && (!suspect ==> forall k :: 0 <= k < n && BrokenHere(broken, directories[k]) > 0 ==>
                       Reason(directories[k], BrokenHere(broken, directories[k])) in reasons)
    && (forall i, j :: 0 <= i < j < |reasons| ==> reasons[i].directory != reasons[j].directory)
  }

  lemma {:induction false} ScoredNext(directories: seq<string>, n: nat, broken: BrokenPages, suspect: bool, reasons: seq<Reason>)
    requires Distinct(directories) && n < |directories| && Scored(directories, n, broken, suspect, reasons)
    ensures suspect || BrokenHere(broken, directories[n]) == 0 ==> Scored(directories, n + 1, broken, suspect, reasons)
    ensures !suspect && BrokenHere(broken, directories[n]) > 0 ==>
              Scored(directories, n + 1, broken, suspect, reasons + [Reason(directories[n], BrokenHere(broken, directories[n]))])
  {
    hide BrokenHere;
    assert directories[..n + 1] == directories[..n] + [directories[n]];
    forall r | r in reasons && !suspect ensures r.directory != directories[n] {
      var i :| 0 <= i < n && directories[..n][i] == r.directory;
      assert directories[i] == r.directory;
    }
  }

  lemma {:induction false} NothingScored(directories: seq<string>, broken: BrokenPages, suspect: bool)
    ensures Scored(directories, 0, broken, suspect, []) && Measured([]) == 0 && Over(broken, directories, 0) == 0
  {}

  lemma {:induction false} MeasuredNext(reasons: seq<Reason>, r: Reason)
    ensures Measured(reasons + [r]) == Measured(reasons) + r.measured
  {
    assert (reasons + [r])[..|reasons|] == reasons;
  }

  lemma {:induction false} OverNext(broken: BrokenPages, directories: seq<string>, n: nat)
    requires n < |directories|
    ensures Over(broken, directories, n + 1) == Over(broken, directories, n) + BrokenHere(broken, directories[n])
  {}

  /**
   * The broken-link part of `build`: one reason for each directory that has any.
   * Over all candidates the measures sum to the broken count, or to nothing when
   * the resolver is suspect.
   */
  method ScoreBroken(directories: seq<string>, broken: BrokenPages, suspect: bool) returns (reasons: seq<Reason>)
    requires Distinct(directories) && forall b :: b in broken ==> Directory(b.0) in directories
    ensures Measured(reasons) == if suspect then 0 else Listed(broken)
    ensures Scored(directories, |directories|, broken, suspect, reasons)
  {
    hide Scored, BrokenHere, Distinct, Measured, Over, Listed, Directory;
    NothingScored(directories, broken, suspect);
    reasons := [];
    var i := 0;
    while i < |directories|
      invariant i <= |directories|
      invariant Measured(reasons) == if suspect then 0 else Over(broken, directories, i)
      invariant Scored(directories, i, broken, suspect, reasons)
    {
      ScoredNext(directories, i, broken, suspect, reasons);
      var here := if suspect then 0 else BrokenHere(broken, directories[i]);
      MeasuredNext(reasons, Reason(directories[i], here));
      OverNext(broken, directories, i);
      if here > 0 {
        reasons := reasons + [Reason(directories[i], here)];
      }
      i := i + 1;
    }
    SharesAreAll(broken, directories);
  }

  /** `directories.setdefault(...)`, of which the keys matter here. */
  method AddDirectory(directories: seq<string>, directory: string) returns (r: seq<string>)
    requires Distinct(directories)
    ensures Distinct(r) && directories <= r && directory in r
  {
    r := if directory in directories then directories else directories + [directory];
    if directory !in directories {
      assert r[|directories|] == directory;
      assert forall i :: 0 <= i < |directories| ==> directories[i] in directories;
    }
  }

  /** `"/".join(parts[:index])` for every `index` from 1 up to `n`. */
  method AddParents(directories: seq<string>, parts: seq<string>, n: nat, top: string) returns (r: seq<string>)
    requires Distinct(directories) && n <= |parts|
    ensures Distinct(r) && directories <= r
  {
    r := directories;
    for index := 1 to n + 1
      invariant Distinct(r) && directories <= r
    {
      var joined := PosixPath.Join(parts[..index]);
      r := AddDirectory(r, if joined == "" then top else joined);
    }
  }

  /** The directories that are reviewed: each page's own, and the ones above it. */
  method Directories(pages: seq<Page>, archived: seq<string>) returns (r: seq<string>)
    ensures Distinct(r) && forall p :: p in pages ==> Directory(p.path) in r
  {
    r := [];
    for i := 0 to |pages|
      invariant Distinct(r) && forall k :: 0 <= k < i ==> Directory(pages[k].path) in r
    {
      hide Directory;
      ghost var was := r;
      r := AddDirectory(r, Directory(pages[i].path));
      ghost var mid := r;
      var parts := PosixPath.Split(pages[i].path);
      parts := parts[..|parts| - 1];
      r := AddParents(r, parts, if |parts| > 0 then |parts| - 1 else 0, "");
      StillThere(was, mid);
      StillThere(mid, r);
    }
    ghost var listed := r;
    for i := 0 to |archived|
      invariant Distinct(r) && listed <= r
    {
      var parts := PosixPath.Split(archived[i]);
      r := AddParents(r, parts[..|parts| - 1], |parts| - 1, "(root)");
    }
    StillThere(listed, r);
  }

  lemma {:induction false} StillThere(was: seq<string>, now: seq<string>)
    requires was <= now
    ensures forall d :: d in was ==> d in now
  {
    assert forall i :: 0 <= i < |was| ==> now[i] == was[i];
  }

  /**
   * The review's reasons: one for each directory with broken links on its pages,
   * with how many there are, unless the resolver is suspect.
   */
  ghost predicate Reviewed(site: Site, pages: seq<Page>, suspect: bool, reasons: seq<Reason>) {
    && (forall r :: r in reasons ==> !suspect && r.measured > 0 && r.measured == BrokenUnder(site, pages, |pages|, r.directory))
    && (!suspect ==> forall p :: p in pages && BrokenUnder(site, pages, |pages|, Directory(p.path)) > 0 ==>
                       exists r :: r in reasons && r.directory == Directory(p.path))
    && (forall i, j :: 0 <= i < j < |reasons| ==> reasons[i].directory != reasons[j].directory)
  }

  lemma {:induction false} ScoredReviewed(site: Site, pages: seq<Page>, directories: seq<string>, broken: BrokenPages, suspect: bool, reasons: seq<Reason>)
    requires forall d :: BrokenHere(broken, d) == BrokenUnder(site, pages, |pages|, d)
    requires forall p :: p in pages ==> Directory(p.path) in directories
    requires Scored(directories, |directories|, broken, suspect, reasons)
    ensures Reviewed(site, pages, suspect, reasons)
  {
    hide BrokenHere, BrokenUnder, Directory;
    if !suspect {
      forall p | p in pages && BrokenUnder(site, pages, |pages|, Directory(p.path)) > 0
        ensures exists r :: r in reasons && r.directory == Directory(p.path)
      {
        var k :| 0 <= k < |directories| && directories[k] == Directory(p.path);
        assert Reason(directories[k], BrokenHere(broken, directories[k])) in reasons;
      }
    }
  }

  /** Analysis and scoring together account for every broken link once. */
  method Review(site: Site, pages: seq<Page>, archived: seq<string>) returns (counts: Counts, reasons: seq<Reason>)
    ensures counts == CountAll(Outcomes(site, pages, |pages|))
    ensures var suspect := counts.internal >= RESOLVER_SUSPECT_MIN_SAMPLE && counts.broken == counts.internal;
            Measured(reasons) == (if suspect then 0 else counts.broken) && Reviewed(site, pages, suspect, reasons)
  {
    hide Directory, Outcomes, CountAll, Measured, Listed, DeadTargets, BrokenHere, BrokenUnder, Scored, Reviewed;
    var directories := Directories(pages, archived);
    var broken, suspect;
    counts, broken, suspect := AnalyseLinks(site, pages);
    forall b | b in broken ensures Directory(b.0) in directories {
      var p :| p in pages && p.path == b.0;
    }
    reasons := ScoreBroken(directories, broken, suspect);
    ScoredReviewed(site, pages, directories, broken, suspect, reasons);
  }
}
