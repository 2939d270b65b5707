/** What class the corpus analysis puts a link in, told from the link, the pages and the redirects. */
module LinkClasses {
  import opened Text
  import PosixPath
  import LinkResolve
  import RedirectHop
  import Routes
  import opened CorpusLinks
  import opened PageUrls

  // ---- where a redirect ends ---------------------------------------------------------------------

  /** The chain of redirects from `path` ends at `end`. */
  ghost predicate EndsAt(redirects: Routes.Redirects, path: string, end: string) {
    end !in redirects && exists n :: Routes.Hop(redirects, path, n) == end
  }

  lemma {:induction false} HopShift(redirects: Routes.Redirects, path: string, n: nat)
    requires path in redirects
    ensures Routes.Hop(redirects, redirects[path], n) == Routes.Hop(redirects, path, n + 1)
  {
    if n > 0 {
      HopShift(redirects, path, n - 1);
    } else {
      assert Routes.Hop(redirects, path, 0) == path;
    }
  }

  /** A chain that ends is followed to its end. */
  lemma {:induction false} FollowedTo(redirects: Routes.Redirects, path: string, seen: set<string>, n: nat)
    requires Routes.Hop(redirects, path, n) !in redirects
    requires forall k :: 0 <= k < n && Routes.Hop(redirects, path, k) in redirects ==> Routes.Hop(redirects, path, k) !in seen
    ensures Routes.Follow(path, redirects, seen) == Some(Routes.Hop(redirects, path, n))
    decreases n
  {
    assert Routes.Hop(redirects, path, 0) == path;
    if path in redirects {
      var next := redirects[path];
      HopShift(redirects, path, n - 1);
      Routes.EndsNoCycle(redirects, path, n);
      forall k | 0 <= k < n - 1 && Routes.Hop(redirects, next, k) in redirects ensures Routes.Hop(redirects, next, k) !in seen + {path} {
        HopShift(redirects, path, k);
        assert Routes.Hop(redirects, path, k + 1) == Routes.Hop(redirects, path, 0) ==> Routes.Cycles(redirects, path);
      }
      FollowedTo(redirects, next, seen + {path}, n - 1);
    } else {
      Routes.Stays(redirects, path, 0, n);
    }
  }

  lemma {:induction false} FollowEnds(redirects: Routes.Redirects, path: string, seen: set<string>)
    requires Routes.Follow(path, redirects, seen).Some?
    ensures EndsAt(redirects, path, Routes.Follow(path, redirects, seen).value)
    decreases redirects.Keys - seen
  {
    assert Routes.Hop(redirects, path, 0) == path;
    if path in redirects {
      FollowEnds(redirects, redirects[path], seen + {path});
      var n :| Routes.Hop(redirects, redirects[path], n) == Routes.Follow(path, redirects, seen).value;
      HopShift(redirects, path, n);
    }
  }

  /** `follow_redirects` finds the end of a chain exactly when it has one. */
  lemma {:induction false} FollowsExactly(redirects: Routes.Redirects, path: string, end: string)
    ensures Routes.Follow(path, redirects, {}) == Some(end) <==> EndsAt(redirects, path, end)
  {
    if Routes.Follow(path, redirects, {}).Some? { FollowEnds(redirects, path, {}); }
    if EndsAt(redirects, path, end) {
      var n :| Routes.Hop(redirects, path, n) == end;
      FollowedTo(redirects, path, {}, n);
    }
  }

  // ---- an internal link ----------------------------------------------------------------------------

  /** The page or its index page is among these. */
  predicate Among(r: string, ids: set<string>) { r in ids || r + "/index" in ids }

  /** The page `path` is known. */
  predicate Known(site: Site, path: string) { StripMd(path) in site.active || StripMd(path) in site.archived }

  /** A redirect leads away from the file of `r`. */
  ghost predicate LeadsAway(site: Site, r: string) { exists end :: end != r + ".md" && EndsAt(site.redirects, r + ".md", end) }

  /** It leads from the file of `r` to a known page. */
  ghost predicate LeadsToKnown(site: Site, r: string) {
    exists end :: end != r + ".md" && EndsAt(site.redirects, r + ".md", end) && StripMd(end) != "" && Known(site, end)
  }

  /** The redirect of the page, or else that of its index page, leads to a known page. */
  ghost predicate RedirectFound(site: Site, r: string) {
    if LeadsAway(site, r) then LeadsToKnown(site, r) else LeadsToKnown(site, r + "/index")
  }

  lemma {:induction false} OneEnd(redirects: Routes.Redirects, path: string, a: string, b: string)
    requires EndsAt(redirects, path, a) && EndsAt(redirects, path, b)
    ensures a == b
  {
    FollowsExactly(redirects, path, a);
    FollowsExactly(redirects, path, b);
  }

  lemma {:induction false} TerminalMeans(site: Site, r: string)
    ensures Terminal(site, r).Some? <==> LeadsAway(site, r)
    ensures LeadsToKnown(site, r)
            <==> (var t := Terminal(site, r); t.Some? && t.value != "" && (t.value in site.active || t.value in site.archived))
  {
    var path := r + ".md";
    var followed := Routes.Follow(path, site.redirects, {});
    if followed.Some? {
      FollowsExactly(site.redirects, path, followed.value);
      forall end | EndsAt(site.redirects, path, end) ensures end == followed.value { OneEnd(site.redirects, path, end, followed.value); }
    } else {
      forall end ensures !EndsAt(site.redirects, path, end) { FollowsExactly(site.redirects, path, end); }
    }
    hide EndsAt, Routes.Follow, StripMd;
  }

  /** An internal link leads to an active page, or else an archived one, or else over a redirect, or else it is broken. */
  lemma {:induction false} DestinationMeans(site: Site, r: string)
    ensures Destination(site, r) ==
            if Among(r, site.active) then ToActive else if Among(r, site.archived) then ToArchived
            else if RedirectFound(site, r) then Redirected else Broken(r)
  {
    TerminalMeans(site, r);
    TerminalMeans(site, r + "/index");
    hide Terminal, LeadsAway, LeadsToKnown;
  }

  // ---- any link --------------------------------------------------------------------------------------

  /** An old documentation host. */
  predicate Outdated(lowered: string) {
    LinkResolve.Contains(lowered, "docs.charliehub.net") || LinkResolve.Contains(lowered, "docs-api.charliehub.net")
  }

  predicate Elsewhere(lowered: string) {
    || StartsWith(lowered, "http://") || StartsWith(lowered, "https://") || StartsWith(lowered, "mailto:") || StartsWith(lowered, "tel:")
    || StartsWith(lowered, "ftp://") || StartsWith(lowered, "data:")
  }

  /** An old host, another scheme and an anchor are asked for first, in this order. */
  lemma {:induction false} SpecialMeans(site: Site, source: string, link: string)
    ensures var o, low := Classify(site, source, link), site.lower(link);
            && (o.Retired? <==> Outdated(low))
            && (o.External? <==> !Outdated(low) && Elsewhere(low))
            && (o.Anchor? <==> !Outdated(low) && !Elsewhere(low) && StartsWith(link, "#"))
  {
    Hosts(site.lower(link));
    Schemes(site.lower(link));
    hide Outdated, Elsewhere, Mentions, StartsWithAny, EndsWithAny, ResolveLink, Destination, LinkResolve.Before, StartsWith;
    if ResolveLink(source, link).Some? { DestinationInternal(site, ResolveLink(source, link).value); }
  }

  /** The text before a fragment or a query. */
  predicate PathPart(link: string, path: string) {
    path <= link && '#' !in path && '?' !in path && (|path| == |link| || link[|path|] == '#' || link[|path|] == '?')
  }

  /** It ends as the name of a file that is no page. */
  ghost predicate NamesAsset(lowered: string) {
    exists path, i :: 0 <= i < |ASSET_SUFFIXES| && PathPart(lowered, path) && EndsWith(path, ASSET_SUFFIXES[i])
  }

  lemma {:induction false} BeforeIs(s: string, c: char)
    ensures var b := LinkResolve.Before(s, c); b <= s && c !in b && (|b| == |s| || s[|b|] == c)
  {
    if s != "" && s[0] != c {
      BeforeIs(s[1..], c);
      assert s == [s[0]] + s[1..];
    }
  }

  lemma {:induction false} NotLonger(link: string, p: string, q: string)
    requires PathPart(link, p) && PathPart(link, q)
    ensures |p| <= |q|
  {
    forall i | 0 <= i < |p| ensures link[i] == p[i] && p[i] != '#' && p[i] != '?' { assert p[i] in p; }
  }

  lemma {:induction false} PathPartIs(link: string, path: string)
    ensures PathPart(link, path) <==> path == LinkResolve.Before(LinkResolve.Before(link, '#'), '?')
  {
    var cut := LinkResolve.Before(link, '#');
    var base := LinkResolve.Before(cut, '?');
    BeforeIs(link, '#');
    BeforeIs(cut, '?');
    hide LinkResolve.Before;
    assert forall c :: c in base ==> c in cut;
    assert base == link[..|base|];
    assert PathPart(link, base);
    if PathPart(link, path) {
      NotLonger(link, path, base);
      NotLonger(link, base, path);
      assert path == link[..|path|];
    }
  }

  lemma {:induction false} Assets(low: string)
    ensures EndsWithAny(LinkResolve.Before(LinkResolve.Before(low, '#'), '?'), ASSET_SUFFIXES) <==> NamesAsset(low)
  {
    forall path ensures PathPart(low, path) <==> path == LinkResolve.Before(LinkResolve.Before(low, '#'), '?') { PathPartIs(low, path); }
    hide LinkResolve.Before, PathPart, EndsWith;
    var path := LinkResolve.Before(LinkResolve.Before(low, '#'), '?');
    assert PathPart(low, path);
  }

  /** None of the three. */
  predicate Ordinary(low: string, link: string) { !Outdated(low) && !Elsewhere(low) && !StartsWith(link, "#") }

  /**
   * Then files that are no pages; then links to the page itself, and routes of the
   * application; what is left is internal.
   */
  lemma {:induction false} InternalMeans(site: Site, source: string, link: string)
    ensures var o, low, r := Classify(site, source, link), site.lower(link), ResolveLink(source, link);
            && (o.Asset? <==> Ordinary(low, link) && NamesAsset(low))
            && (o.SelfReference? <==> Ordinary(low, link) && !NamesAsset(low) && (r.None? || r.value == StripMd(source)))
            && (o.AppRoute? <==> Ordinary(low, link) && !NamesAsset(low) && r.Some? && r.value != StripMd(source)
                                 && PosixPath.Split(r.value)[0] in APP_ROUTE_PREFIXES)
            && (Internal(o) <==> Ordinary(low, link) && !NamesAsset(low) && r.Some? && r.value != StripMd(source)
                                 && PosixPath.Split(r.value)[0] !in APP_ROUTE_PREFIXES)
            && (Internal(o) ==> o == Destination(site, r.value))
  {
    Hosts(site.lower(link));
    Schemes(site.lower(link));
    Assets(site.lower(link));
    hide Outdated, Elsewhere, Mentions, StartsWithAny, EndsWithAny, ResolveLink, Destination, LinkResolve.Before, StartsWith, NamesAsset;
    if ResolveLink(source, link).Some? { DestinationInternal(site, ResolveLink(source, link).value); }
  }

  lemma {:induction false} DestinationInternal(site: Site, r: string)
    ensures Internal(Destination(site, r))
  {
    hide Terminal;
  }

  lemma {:induction false} InternalComesFrom(site: Site, source: string, link: string)
    requires Internal(Classify(site, source, link))
    ensures ResolveLink(source, link).Some? && Classify(site, source, link) == Destination(site, ResolveLink(source, link).value)
  {
    hide Mentions, StartsWithAny, EndsWithAny, ResolveLink, Destination, LinkResolve.Before;
  }

  lemma {:induction false} Hosts(low: string)
    ensures Mentions(low, RETIRED_DOC_HOSTS) <==> Outdated(low)
  {
    var hosts := RETIRED_DOC_HOSTS;
    assert hosts[0] == "docs.charliehub.net" && hosts[1] == "docs-api.charliehub.net";
    hide LinkResolve.Contains;
  }

  lemma {:induction false} Schemes(low: string)
    ensures StartsWithAny(low, EXTERNAL_SCHEMES) <==> Elsewhere(low)
  {
    var s := EXTERNAL_SCHEMES;
    assert |s| == 6 && s[0] == "http://" && s[1] == "https://" && s[2] == "mailto:" && s[3] == "tel:" && s[4] == "ftp://" && s[5] == "data:";
    hide StartsWith;
  }

  /** A link that comes to an active page is never broken: its URL, or what the tooling writes for it. */
  lemma {:induction false} ActiveIsNotBroken(site: Site, source: string, link: string, p: string)
    requires ComesTo(source, link, p) && StripMd(p) in site.active
    ensures var o := Classify(site, source, link); Internal(o) ==> o.ToActive?
  {
    var r := ResolveLink(source, link).value;
    if Internal(Classify(site, source, link)) { InternalComesFrom(site, source, link); }
    StripAdded(r);
    StripAdded(r + "/index");
    assert r + "/index" + ".md" == r + "/index.md";
    hide Classify, ResolveLink;
  }

  lemma {:induction false} StripAdded(r: string)
    ensures StripMd(r + ".md") == r
  {
    var p := r + ".md";
    assert p[|p| - 3..] == ".md" && p[..|p| - 3] == r;
  }

  /** Climbing above the root stays at the root. */
  lemma {:induction false} ClampMeans(s: string)
    ensures Clamp("../" + s) == Clamp(s)
    ensures !StartsWith(s, "../") ==> Clamp(s) == s
  {
    assert ("../" + s)[3..] == s && ("../" + s)[..3] == "../";
  }

  // ---- the directories that are reviewed ------------------------------------------------------------

  /** A page is reviewed with the directory its path names. */
  lemma {:induction false} DirectoryMeans(dir: seq<string>, stem: string)
    requires Segments(dir) && LinkResolve.Segment(stem)
    ensures Directory(PathOf(dir, stem)) == if dir == [] then "(root)" else PosixPath.Join(dir)
  {
    hide *;
    PathDir(dir, stem);
    DirectoryIs(PathOf(dir, stem));
  }

  lemma {:induction false} DirectoryIs(path: string)
    ensures Directory(path) == if PosixPath.Dirname(path) == "" then "(root)" else PosixPath.Dirname(path)
  {
    hide PosixPath.Dirname;
  }

  lemma {:induction false} PathDir(dir: seq<string>, stem: string)
    requires Segments(dir) && LinkResolve.Segment(stem)
    ensures PosixPath.Dirname(PathOf(dir, stem)) == PosixPath.Join(dir) && (PosixPath.Join(dir) == "" <==> dir == [])
  {
    PathIsWellFormed(dir, stem);
    hide PosixPath.Dirname, PathOf, LinkResolve.WellFormed;
    PosixPath.JoinSplit(PathOf(dir, stem));
    var parts := dir + [stem + ".md"];
    LinkResolve.PartsArePlain(parts);
    PosixPath.DirnamePlain(parts);
    assert parts[..|parts| - 1] == dir;
    if dir != [] { PosixPath.JoinStartsPlain(dir); }
  }
}
