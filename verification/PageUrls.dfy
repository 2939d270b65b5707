/** The URL a page is served at, and that links to it are understood everywhere. */
module PageUrls {
  import opened Text
  import opened PosixPath
  import opened LinkResolve
  import RedirectHop
  import Routes
  import CorpusLinks
  import LinkReconcile

  // ---- the URL of a page -----------------------------------------------------------------------

  /** The directories with a slash after each. */
  function Folder(dir: seq<string>): string { if dir == [] then "" else Join(dir) + "/" }

  function PathOf(dir: seq<string>, stem: string): string { Folder(dir) + stem + ".md" }

  ghost predicate Segments(dir: seq<string>) { forall s :: s in dir ==> Segment(s) }

  lemma {:induction false} PathIsWellFormed(dir: seq<string>, stem: string)
    requires Segments(dir) && Segment(stem)
    ensures Split(PathOf(dir, stem)) == dir + [stem + ".md"] && WellFormed(PathOf(dir, stem)) && PageName(stem + ".md")
  {
    var name, parts := stem + ".md", dir + [stem + ".md"];
    assert name[|name| - 3..] == ".md" && name[..|name| - 3] == stem;
    assert PageParts(parts);
    PartsArePlain(parts);
    JoinConcatFolder(dir, name);
    SplitJoin(parts);
    assert PathOf(dir, stem) == Folder(dir) + name;
  }

  lemma {:induction false} JoinConcatFolder(dir: seq<string>, name: string)
    ensures Join(dir + [name]) == Folder(dir) + name
  {
    if dir == [] {
      assert dir + [name] == [name];
    } else {
      JoinConcat(dir, [name]);
      assert Join([name]) == name;
    }
  }

  /** A well-formed path is made of such parts. */
  lemma {:induction false} PathParts(p: string) returns (dir: seq<string>, stem: string)
    requires WellFormed(p)
    ensures Segments(dir) && Segment(stem) && p == PathOf(dir, stem)
  {
    var parts := Split(p);
    var name := parts[|parts| - 1];
    dir, stem := parts[..|parts| - 1], name[..|name| - 3];
    JoinSplit(p);
    assert parts == dir + [name] && name == stem + ".md";
    JoinConcatFolder(dir, name);
    assert p == Folder(dir) + (stem + ".md") == PathOf(dir, stem);
  }

  /** Small letters, digits, underscores and hyphens. */
  predicate PlainName(s: string) {
    s != "" && forall i :: 0 <= i < |s| ==> 'a' <= s[i] <= 'z' || '0' <= s[i] <= '9' || s[i] == '_' || s[i] == '-'
  }

  lemma {:induction false} PlainIs(s: string)
    ensures PlainName(s) <==> Segment(s)
  {
    if Segment(s) { assert forall i :: 0 <= i < |s| ==> s[i] in s; }
  }

  ghost predicate MadeOf(p: string, dir: seq<string>, stem: string) {
    p == PathOf(dir, stem) && PlainName(stem) && forall s :: s in dir ==> PlainName(s)
  }

  /** The well-formed paths are plain directory names and a plain page name, joined by slashes. */
  lemma {:induction false} WellFormedMeans(p: string)
    ensures WellFormed(p) <==> exists dir, stem :: MadeOf(p, dir, stem)
  {
    hide PlainName, Segment, WellFormed, PathOf;
    forall s ensures PlainName(s) <==> Segment(s) { PlainIs(s); }
    if WellFormed(p) {
      var dir, stem := PathParts(p);
      assert MadeOf(p, dir, stem);
    }
    if dir, stem :| MadeOf(p, dir, stem) { PathIsWellFormed(dir, stem); }
  }

  /** `a/b.md` and `a/b/index.md` are both served at `/a/b/`; the link tooling and the release agree on it. */
  lemma {:induction false} UrlOf(dir: seq<string>, stem: string)
    requires Segments(dir) && Segment(stem)
    ensures var p, url := PathOf(dir, stem), "/" + Folder(dir) + if stem == "index" then "" else stem + "/";
            RedirectHop.PageUrl(p) == url && Routes.HasName(p) && Routes.RenderedUrl(p) == url
  {
    PathIsWellFormed(dir, stem);
    LinkUrl(dir, stem);
    ReleaseUrl(dir, stem);
  }

  lemma {:induction false} IndexName(stem: string)
    ensures stem + ".md" == "index.md" <==> stem == "index"
  {
    if stem + ".md" == "index.md" { assert stem == (stem + ".md")[..|stem|] == "index.md"[..5]; }
  }

  lemma {:induction false} LinkUrl(dir: seq<string>, stem: string)
    requires Segments(dir) && Segment(stem) && PageName(stem + ".md")
    ensures RedirectHop.PageUrl(PathOf(dir, stem)) == "/" + Folder(dir) + if stem == "index" then "" else stem + "/"
  {
    var name := stem + ".md";
    IndexName(stem);
    StemIs(stem);
    hide RedirectHop.PageUrl, PageName, Segment, Segments;
    if dir == [] {
      assert PathOf(dir, stem) == name;
      RedirectHop.PageUrlTop(name);
    } else {
      assert PathOf(dir, stem) == Join(dir) + "/" + name;
      RedirectHop.PageUrlBelow(Join(dir), name);
    }
  }

  lemma {:induction false} StemIs(stem: string)
    ensures var name := stem + ".md"; name[..|name| - 3] == stem
    ensures RedirectHop.Climb([stem]) == "/" + stem
  {
    assert [stem][1..] == [];
  }

  lemma {:induction false} ComponentsPlain(parts: seq<string>)
    requires AllPlain(parts)
    ensures Routes.Components(parts) == parts
  {
    if parts != [] {
      assert parts[0] in parts && forall p :: p in parts[1..] ==> p in parts;
      ComponentsPlain(parts[1..]);
    }
  }

  lemma {:induction false} StemOf(stem: string)
    requires stem != ""
    ensures Routes.Stem(stem + ".md") == stem
  {
    var name := stem + ".md";
    var n := |stem|;
    assert name[n + 2] == 'd' && name[..n + 2][n + 1] == 'm' && name[..n + 1][n] == '.';
    assert name[..n + 2][..n + 1] == name[..n + 1];
    assert Routes.LastDot(name) == Routes.LastDot(name[..n + 2]) == Routes.LastDot(name[..n + 1]) == n;
    assert name[..n] == stem;
  }

  lemma {:induction false} ParsedIs(dir: seq<string>, stem: string)
    requires Segments(dir) && Segment(stem) && Split(PathOf(dir, stem)) == dir + [stem + ".md"] && WellFormed(PathOf(dir, stem))
    ensures Routes.Parse(PathOf(dir, stem)) == Routes.Parsed("", dir + [stem + ".md"])
  {
    var parts := dir + [stem + ".md"];
    PartsArePlain(parts);
    ComponentsPlain(parts);
    NoRoot(PathOf(dir, stem));
    hide Routes.Components, Routes.Root, Split, WellFormed, Segments, Segment, PathOf;
  }

  lemma {:induction false} ReleaseUrl(dir: seq<string>, stem: string)
    requires Segments(dir) && Segment(stem) && Split(PathOf(dir, stem)) == dir + [stem + ".md"] && WellFormed(PathOf(dir, stem))
    ensures Routes.HasName(PathOf(dir, stem))
    ensures Routes.RenderedUrl(PathOf(dir, stem)) == "/" + Folder(dir) + if stem == "index" then "" else stem + "/"
  {
    assert stem != "";
    hide *;
    ParsedIs(dir, stem);
    StemOf(stem);
    IndexName(stem);
    DirIsSomewhere(dir);
    UrlOfParsed(PathOf(dir, stem), dir, stem + ".md");
    RenderedDir(dir, stem);
  }

  lemma {:induction false} UrlOfParsed(p: string, dir: seq<string>, name: string)
    requires Routes.Parse(p) == Routes.Parsed("", dir + [name])
    ensures Routes.HasName(p)
    ensures var at := Routes.Render(Routes.Parsed("", dir));
            Routes.RenderedUrl(p) ==
            if name == "index.md" then (if at == "." then "/" else "/" + at + "/")
            else "/" + Routes.Render(Routes.Parsed("", dir + [Routes.Stem(name)])) + "/"
  {
    hide Routes.Parse, Routes.Stem, Routes.Render;
    var parts := dir + [name];
    assert parts[..|parts| - 1] == dir;
    assert Routes.NameOf(p) == name && Routes.Parent(p) == Routes.Parsed("", dir);
  }

  lemma {:induction false} RenderedDir(dir: seq<string>, stem: string)
    requires dir != [] ==> Join(dir) != "."
    ensures var at := Routes.Render(Routes.Parsed("", dir)); (if at == "." then "/" else "/" + at + "/") == "/" + Folder(dir)
    ensures Routes.Render(Routes.Parsed("", dir + [stem])) == Folder(dir) + stem
    ensures "/" + (Folder(dir) + stem) + "/" == "/" + Folder(dir) + (stem + "/")
    ensures "/" + Folder(dir) + "" == "/" + Folder(dir)
  {
    RenderedAt(dir);
    JoinConcatFolder(dir, stem);
    RenderedSome(dir + [stem]);
    hide *;
    Regroup("/", Folder(dir), stem, "/");
  }

  lemma {:induction false} RenderedSome(parts: seq<string>)
    requires parts != []
    ensures Routes.Render(Routes.Parsed("", parts)) == Join(parts)
  {
    hide Join;
    assert "" + Join(parts) == Join(parts);
  }

  lemma {:induction false} RenderedAt(dir: seq<string>)
    requires dir != [] ==> Join(dir) != "."
    ensures var at := Routes.Render(Routes.Parsed("", dir)); (if at == "." then "/" else "/" + at + "/") == "/" + Folder(dir)
  {
    if dir != [] {
      RenderedSome(dir);
      hide Routes.Render, Join;
      assert "/" + (Join(dir) + "/") == "/" + Join(dir) + "/";
    } else {
      assert "/" + "" == "/";
    }
  }

  lemma {:induction false} Regroup(a: string, b: string, c: string, d: string)
    ensures a + (b + c) + d == a + b + (c + d) && a + b + "" == a + b
  {}

  lemma {:induction false} DirIsSomewhere(dir: seq<string>)
    requires Segments(dir)
    ensures dir != [] ==> Join(dir) != "."
  {
    if dir != [] {
      assert dir[0] in dir;
      SegmentIsPlain(dir[0]);
      assert Join(dir)[0] == dir[0][0] && dir[0][0] in dir[0];
    }
  }

  lemma {:induction false} NoRoot(p: string)
    requires WellFormed(p)
    ensures Routes.Root(p) == ""
  {
    var dir, stem := PathParts(p);
    if dir == [] {
      assert p[0] == stem[0] && stem[0] in stem;
    } else {
      assert dir[0] in dir && dir[0][0] in dir[0];
      assert p[0] == Join(dir)[0] == dir[0][0];
    }
    assert p[..1] == [p[0]];
  }

  // ---- links to it ------------------------------------------------------------------------------

  /** Text of segments between slashes. */
  ghost predicate Slashed(s: string) { forall c :: c in s ==> PathChar(c) || c == '/' }

  lemma {:induction false} JoinSlashed(parts: seq<string>)
    requires Segments(parts)
    ensures Slashed(Join(parts))
  {
    if parts != [] {
      assert parts[0] in parts && forall p :: p in parts[1..] ==> p in parts;
      JoinSlashed(parts[1..]);
    }
  }

  lemma {:induction false} JoinEnds(parts: seq<string>)
    requires Segments(parts) && parts != []
    ensures Join(parts) != "" && Join(parts)[0] != '/' && Join(parts)[|Join(parts)| - 1] != '/'
  {
    assert parts[0] in parts;
    assert parts[0][0] in parts[0] && parts[0][|parts[0]| - 1] in parts[0];
    if |parts| > 1 {
      assert forall p :: p in parts[1..] ==> p in parts;
      JoinEnds(parts[1..]);
    }
  }

  lemma {:induction false} BeforeNothing(s: string, c: char)
    requires c !in s
    ensures Before(s, c) == s && After(s, c) == ""
  {
    BeforeAll(s, "", c);
    assert s + "" == s;
  }

  /** `strip("/")` of a text between slashes. */
  lemma {:induction false} SlashesOff(s: string)
    requires s != "" && s[0] != '/' && s[|s| - 1] != '/'
    ensures StripSlashes("/" + s + "/") == s
  {
    var t := "/" + s + "/";
    assert t[1..] == s + "/" && (s + "/")[0] == s[0];
    assert StripSlashes(t) == StripSlashes(s + "/") == StripRight(s + "/");
    assert (s + "/")[..|s|] == s;
    assert StripRight(s) == s;
  }

  /** What is known of the text of a directory URL. */
  ghost predicate DirUrl(u: string, core: string) {
    && core != "" && core[0] != '/' && core[|core| - 1] != '/' && u == "/" + core + "/" && Slashed(core) && '.' !in LastSegment(core)
  }

  lemma {:induction false} IsDirUrl(parts: seq<string>)
    requires Segments(parts) && parts != []
    ensures DirUrl("/" + Join(parts) + "/", Join(parts))
  {
    JoinSlashed(parts);
    JoinEnds(parts);
    forall p | p in parts ensures SlashFree(p) { SegmentIsPlain(p); }
    SplitJoin(parts);
    assert parts[|parts| - 1] in parts;
    SegmentIsPlain(parts[|parts| - 1]);
  }

  lemma {:induction false} SlashedText(u: string, core: string)
    requires DirUrl(u, core)
    ensures '#' !in u && '?' !in u && ':' !in u && '%' !in u && '.' !in core && '.' !in u && u[0] == '/' && u[|u| - 1] == '/' && |u| > 2 && u[1] != '/'
    ensures forall i :: 0 <= i < |u| ==> !IsSpace(u[i])
  {
    assert forall c :: c in u ==> c == '/' || c in core;
    forall i | 0 <= i < |u| ensures !IsSpace(u[i]) { assert u[i] in u; }
    assert u[1] == core[0];
  }

  lemma {:induction false} EndHasDot(s: string)
    requires EndsWith(s, ".md")
    ensures '.' in s
  {
    assert s[|s| - 3..][0] == s[|s| - 3];
  }

  lemma {:induction false} StartHasDot(s: string)
    requires StartsWith(s, "../")
    ensures '.' in s && s[0] == '.'
  {
    assert s[..3][0] == s[0];
  }

  lemma {:induction false} UrlCandidates(env: Env, page: string, u: string, core: string)
    requires ValidEnv(env) && DirUrl(u, core)
    ensures ResolveCandidates(env, page, u) == [core + ".md", core + "/index.md"]
  {
    SlashedText(u, core);
    BeforeNothing(u, '#');
    BeforeNothing(u, '?');
    SlashesOff(core);
    if Contains(u, "://") { ContainsNeeds(u); }
    assert StartsWith(u, "/") && !StartsWith(u, "//") by { assert u[..1] == "/" && u[..2][1] == u[1]; }
    if EndsWith(core, ".md") { EndHasDot(core); }
    hide Before, After, Contains, StripSlashes, LastSegment, DirUrl;
  }

  /** A link to the URL a page is served at has that page among its candidates. */
  lemma {:induction false} ServedIsCandidate(env: Env, page: string, p: string)
    requires ValidEnv(env) && WellFormed(p)
    ensures p in ResolveCandidates(env, page, RedirectHop.PageUrl(p))
  {
    var dir, stem := PathParts(p);
    UrlOf(dir, stem);
    if stem == "index" && dir == [] {
      RootCandidates(env, page);
      assert p == "index.md";
    } else {
      var parts := if stem == "index" then dir else dir + [stem];
      ServedParts(dir, stem);
      IsDirUrl(parts);
      UrlCandidates(env, page, "/" + Join(parts) + "/", Join(parts));
    }
  }

  lemma {:induction false} ServedParts(dir: seq<string>, stem: string)
    requires Segments(dir) && Segment(stem) && !(stem == "index" && dir == [])
    ensures var parts := if stem == "index" then dir else dir + [stem];
            && Segments(parts) && parts != []
            && "/" + Join(parts) + "/" == "/" + Folder(dir) + (if stem == "index" then "" else stem + "/")
            && PathOf(dir, stem) == Join(parts) + if stem == "index" then "/index.md" else ".md"
  {
    JoinConcatFolder(dir, stem);
    hide Join;
  }

  lemma {:induction false} RootCandidates(env: Env, page: string)
    requires ValidEnv(env)
    ensures ResolveCandidates(env, page, "/") == ["index.md"]
  {
    BeforeNothing("/", '#');
    BeforeNothing("/", '?');
    assert StripSlashes("/") == StripSlashes("/"[1..]) == "";
    if Contains("/", "://") { ContainsNeeds("/"); }
    assert StartsWith("/", "/");
  }

  // ---- the corpus analysis reads them alike --------------------------------------------------------

  lemma {:induction false} Unpadded(s: string)
    requires s != "" && !IsSpace(s[0]) && !IsSpace(s[|s| - 1])
    ensures Strip(s) == s
  {
    assert Seek(s, 0, NonSpace) == 0 && s[0..] == s;
  }

  lemma {:induction false} UrlIsResolved(source: string, u: string, core: string)
    requires DirUrl(u, core)
    ensures CorpusLinks.ResolveLink(source, u) == Some(core)
  {
    SlashedText(u, core);
    BeforeNothing(u, '#');
    BeforeNothing(u, '?');
    Unpadded(u);
    SlashesOff(core);
    if StartsWith(core, "../") { StartHasDot(core); }
    if EndsWith(core, ".md") { EndHasDot(core); }
    hide Before, After, StripSlashes, Strip, DirUrl;
  }

  /** A link to a page's URL, and one as the tooling writes it, both come to that page. */
  ghost predicate ComesTo(source: string, link: string, p: string) {
    var r := CorpusLinks.ResolveLink(source, link);
    r.Some? && (p == r.value + ".md" || p == r.value + "/index.md")
  }

  lemma {:induction false} ServedIsResolved(source: string, p: string)
    requires WellFormed(p)
    ensures ComesTo(source, RedirectHop.PageUrl(p), p)
  {
    var dir, stem := PathParts(p);
    UrlOf(dir, stem);
    if stem == "index" && dir == [] {
      RootIsResolved(source);
      assert p == "index" + ".md";
    } else {
      var parts := if stem == "index" then dir else dir + [stem];
      ServedParts(dir, stem);
      IsDirUrl(parts);
      UrlIsResolved(source, "/" + Join(parts) + "/", Join(parts));
    }
  }

  lemma {:induction false} RootIsResolved(source: string)
    ensures CorpusLinks.ResolveLink(source, "/") == Some("index")
  {
    BeforeNothing("/", '#');
    BeforeNothing("/", '?');
    Unpadded("/");
    assert StripSlashes("/") == StripSlashes("/"[1..]) == "";
  }

  /** A path's own text, resolved. */
  lemma {:induction false} PathIsResolved(source: string, base: string, p: string)
    requires WellFormed(p) && base != "" && !IsSpace(base[0]) && !IsSpace(base[|base| - 1]) && '?' !in base && '#' !in base
    requires base == "/" + p || (base[0] != '/' && NormPath(JoinPath(Dirname(source), base)) == p)
    ensures |p| > 3 && CorpusLinks.ResolveLink(source, base) == Some(p[..|p| - 3]) && p == p[..|p| - 3] + ".md"
  {
    WellFormedText(p);
    PathStart(p);
    BeforeNothing(base, '#');
    BeforeNothing(base, '?');
    Unpadded(base);
    RootStripped(p);
    if StartsWith(p, "../") { StartHasDot(p); }
    assert StripSlashes(p) == p by { assert ("/" + p)[1..] == p; }
    assert p == p[..|p| - 3] + p[|p| - 3..];
    hide Before, After, StripSlashes, Strip, NormPath, JoinPath, Dirname, WellFormed;
  }

  lemma {:induction false} PathStart(p: string)
    requires WellFormed(p)
    ensures |p| > 3 && PathChar(p[0]) && '#' !in p && '?' !in p
  {
    var dir, stem := PathParts(p);
    if dir == [] {
      assert p[0] == stem[0] && stem[0] in stem;
    } else {
      assert dir[0] in dir && dir[0][0] in dir[0];
      assert p[0] == Join(dir)[0] == dir[0][0];
    }
    PathIsWellFormed(dir, stem);
    JoinSplit(p);
    PartsArePlain(Split(p));
    JoinAvoids(Split(p), '#');
    JoinAvoids(Split(p), '?');
  }

  lemma {:induction false} CutFragment(source: string, base: string, fragment: string)
    requires '#' !in base && (fragment == "" || fragment[0] == '#')
    ensures CorpusLinks.ResolveLink(source, base + fragment) == CorpusLinks.ResolveLink(source, base)
  {
    BeforeAll(base, fragment, '#');
    BeforeNothing(base, '#');
    assert base + "" == base;
    hide Before, StripSlashes, Strip, NormPath, JoinPath, Dirname;
  }

  /** What the tooling writes for a page is resolved to it by the corpus analysis too. */
  lemma {:induction false} RetargetIsResolved(env: Env, source: string, target: string, p: string)
    requires ValidEnv(env) && WellFormed(source) && WellFormed(p)
    ensures Retarget(env, source, target, p).Some? && ComesTo(source, Retarget(env, source, target, p).value, p)
  {
    var fragment := SplitTarget(target).1;
    PathStart(p);
    if SplitTarget(target).2 {
      RootRetarget(env, source, target, p);
      WellFormedText(p);
      var base := "/" + p;
      assert base[|base| - 1] == p[|p| - 1] && EndsWith(p, ".md") && p[|p| - 3..][2] == p[|p| - 1];
      CutFragment(source, base, fragment);
      PathIsResolved(source, base, p);
    } else {
      var rel := RelToPage(env, source, p);
      var base := Join(rel);
      FollowRel(source, p, rel);
      RelEnds(source, p, rel);
      CutFragment(source, base, fragment);
      PathIsResolved(source, base, p);
    }
  }

  lemma {:induction false} RelEnds(source: string, p: string, rel: seq<string>)
    requires WellFormed(p) && rel != [] && rel == RelParts(Split(source)[..|Split(source)| - 1], Split(p))
    requires (forall q :: q in rel ==> SlashFree(q) && q != "") && !StartsWith(Join(rel), "/")
    ensures var base := Join(rel); base != "" && !IsSpace(base[0]) && !IsSpace(base[|base| - 1]) && '?' !in base && base[0] != '/'
  {
    var base := Join(rel);
    LinkReconcile.RelTame(source, p, rel);
    RelHead(rel);
    RelNoQuery(source, p, rel);
    assert base[0] in base && base[|base| - 1] in base;
    assert base[..1] == [base[0]];
  }

  lemma {:induction false} RelNoQuery(source: string, p: string, rel: seq<string>)
    requires WellFormed(p) && rel == RelParts(Split(source)[..|Split(source)| - 1], Split(p))
    ensures '?' !in Join(rel)
  {
    hide Split, CommonPrefix;
    var path := Split(p);
    PartsArePlain(path);
    var rest := path[CommonPrefix(Split(source)[..|Split(source)| - 1], path)..];
    assert forall q :: q in rest ==> q in path;
    forall q | q in rel ensures '?' !in q { if q !in rest { assert q == ".."; } }
    JoinAvoids(rel, '?');
  }
}
