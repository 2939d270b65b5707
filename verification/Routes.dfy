/** Where a release puts its pages and redirect stubs, and where redirects lead. */
module Routes {
  import opened Text
  import opened PosixPath

  // ---- `PurePosixPath` -----------------------------------------------------------------

  /** The root and the components of a parsed path: empty ones and "." are dropped. */
  datatype Parsed = Parsed(root: string, parts: seq<string>)

  function Components(parts: seq<string>): (r: seq<string>)
    ensures forall p :: p in r ==> p in parts && p != "" && p != "."
  {
    if parts == [] then []
    else (if parts[0] == "" || parts[0] == "." then [] else [parts[0]]) + Components(parts[1..])
  }

  /** Two leading slashes are kept, three or more are one. */
  function Root(path: string): string { Slashes(LeadingSlashes(path)) }

  function Parse(path: string): Parsed { Parsed(Root(path), Components(Split(path))) }

  function Render(p: Parsed): string { if p.root == "" && p.parts == [] then "." else p.root + Join(p.parts) }

  predicate HasName(path: string) { Parse(path).parts != [] }

  function NameOf(path: string): string
    requires HasName(path)
  {
    Parse(path).parts[|Parse(path).parts| - 1]
  }

  /** `path.parent`. */
  function Parent(path: string): Parsed
    requires HasName(path)
  {
    var p := Parse(path);
    p.(parts := p.parts[..|p.parts| - 1])
  }

  function LastDot(name: string): nat
    ensures LastDot(name) <= |name|
  {
    if name == "" then 0 else if name[|name| - 1] == '.' then |name| - 1 else LastDot(name[..|name| - 1])
  }

  /** The name without its suffix; a dot that starts or ends the name starts no suffix. */
  function Stem(name: string): (s: string)
    ensures s <= name && (name != "" ==> s != "")
  {
    if 0 < LastDot(name) < |name| - 1 then name[..LastDot(name)] else name
  }

  // ---- routes ----------------------------------------------------------------------------

  function RenderedUrl(path: string): string
    requires HasName(path)
  {
    var dir := Parent(path);
    if NameOf(path) == "index.md" then (if Render(dir) == "." then "/" else "/" + Render(dir) + "/")
    else "/" + Render(dir.(parts := dir.parts + [Stem(NameOf(path))])) + "/"
  }

  function RenderedHtmlPath(path: string): string
    requires HasName(path)
  {
    var dir := Parent(path);
    if NameOf(path) == "index.md" then Render(dir.(parts := dir.parts + ["index.html"]))
    else Render(dir.(parts := dir.parts + [Stem(NameOf(path))])) + "/" + "index.html"
  }

  /** The directory that an output is the index of. */
  function Place(path: string): Parsed
    requires HasName(path)
  {
    var dir := Parent(path);
    if NameOf(path) == "index.md" then dir else dir.(parts := dir.parts + [Stem(NameOf(path))])
  }

  /** A root. */
  predicate Bare(s: string) { s == "" || s == "/" || s == "//" }

  predicate Names(parts: seq<string>) { forall q :: q in parts ==> q != "" && SlashFree(q) }

  /** A place: a root, and components that are names. */
  predicate Proper(p: Parsed) { Bare(p.root) && Names(p.parts) }

  lemma {:induction false} RootIs(path: string)
    ensures Bare(Root(path)) && Root(path) == if LeadingSlashes(path) == 0 then "" else if LeadingSlashes(path) == 1 then "/" else "//"
  {
    hide LeadingSlashes;
    assert Slashes(1) == Slashes(0) + "/" == "/" && Slashes(2) == Slashes(1) + "/" == "//";
  }

  lemma {:induction false} PartsProper(path: string)
    ensures Proper(Parse(path))
  {
    forall q | q in Parse(path).parts ensures q != "" && SlashFree(q) { SplitParts(path, q); }
    hide Components, Split, SlashFree, Root;
    RootIs(path);
  }

  lemma {:induction false} NamesInit(parts: seq<string>, last: string)
    requires parts != [] && Names(parts) && last != "" && SlashFree(last)
    ensures Names(parts[..|parts| - 1]) && Names(parts[..|parts| - 1] + [last])
  {
    hide SlashFree;
    assert forall q :: q in parts[..|parts| - 1] ==> q in parts;
  }

  lemma {:induction false} StemIsName(name: string)
    requires name != "" && SlashFree(name)
    ensures Stem(name) != "" && SlashFree(Stem(name))
  {
    assert forall c :: c in Stem(name) ==> c in name;
  }

  lemma {:induction false} PlaceProper(path: string)
    requires HasName(path)
    ensures Proper(Place(path))
  {
    PartsProper(path);
    var parts, name := Parse(path).parts, NameOf(path);
    hide Parse, Stem, SlashFree, Bare;
    assert name in parts;
    StemIsName(name);
    NamesInit(parts, Stem(name));
    hide Names;
  }

  lemma {:induction false} SplitParts(s: string, part: string)
    requires part in Split(s)
    ensures SlashFree(part)
  {
    if s != [] {
      var rest := Split(s[1..]);
      if s[0] == '/' {
        if part != [] { assert part in rest; SplitParts(s[1..], part); }
      } else {
        SplitParts(s[1..], rest[0]);
        if part != [s[0]] + rest[0] {
          assert part in rest;
          SplitParts(s[1..], part);
        }
      }
    }
  }

  function TextOf(p: Parsed): string { p.root + Join(p.parts) }

  function UrlOf(p: Parsed): string { if TextOf(p) == "" then "/" else "/" + TextOf(p) + "/" }

  function FileOf(p: Parsed): string { if p.parts == [] then p.root + "index.html" else TextOf(p) + "/" + "index.html" }

  lemma {:induction false} JoinProper(parts: seq<string>)
    requires parts != [] && parts[0] != "" && SlashFree(parts[0])
    ensures Join(parts) != "" && Join(parts)[0] == parts[0][0] && Join(parts)[0] != '/'
  {
    assert parts[0][0] in parts[0];
  }

  /** The text tells a bare root from a place with components. */
  lemma {:induction false} TextTells(p: Parsed)
    requires Proper(p)
    ensures p.parts == [] <==> Bare(TextOf(p))
    ensures p.parts == [] ==> TextOf(p) == p.root
  {
    if p.parts != [] {
      assert p.parts[0] in p.parts;
      JoinProper(p.parts);
      assert TextOf(p)[|p.root|] == Join(p.parts)[0];
    }
  }

  /** Two places share an URL exactly when they share a file, which is when they are one text. */
  lemma {:induction false} UrlsAreFiles(p: Parsed, q: Parsed)
    requires Proper(p) && Proper(q)
    ensures UrlOf(p) == UrlOf(q) <==> TextOf(p) == TextOf(q)
    ensures FileOf(p) == FileOf(q) <==> TextOf(p) == TextOf(q)
  {
    TextTells(p);
    TextTells(q);
    hide TextOf, Proper;
    var s, t := TextOf(p), TextOf(q);
    if UrlOf(p) == UrlOf(q) && s != "" && t != "" { assert s == UrlOf(p)[1..|UrlOf(p)| - 1] == t; }
    if FileOf(p) == FileOf(q) { SameFile(s, t, p.parts == [], q.parts == []); }
  }

  lemma {:induction false} CancelSuffix(a: string, b: string, x: string)
    requires a + x == b + x
    ensures a == b
  {
    assert |a| == |b|;
    assert (a + x)[..|a|] == a && (b + x)[..|b|] == b;
  }

  lemma {:induction false} SameFile(s: string, t: string, bareS: bool, bareT: bool)
    requires (bareS <==> Bare(s)) && (bareT <==> Bare(t))
    requires (if bareS then s + "index.html" else s + "/" + "index.html") == (if bareT then t + "index.html" else t + "/" + "index.html")
    ensures s == t
  {
    var left, right := if bareS then s else s + "/", if bareT then t else t + "/";
    CancelSuffix(left, right, "index.html");
    if bareS == bareT {
      if !bareS { CancelSuffix(s, t, "/"); }
    } else if bareS {
      SlashAdded(t, s);
    } else {
      SlashAdded(s, t);
    }
  }

  /** A slash after text that is no root makes no root. */
  lemma {:induction false} SlashAdded(s: string, bare: string)
    requires Bare(bare) && s + "/" == bare
    ensures Bare(s)
  {
    assert |s| + 1 == |bare|;
    assert s == bare[..|s|];
  }

  lemma {:induction false} RenderedAtPlace(path: string)
    requires HasName(path)
    ensures RenderedUrl(path) == UrlOf(Place(path)) && RenderedHtmlPath(path) == FileOf(Place(path))
  {
    var dir := Parent(path);
    PartsProper(path);
    PlaceProper(path);
    TextTells(Place(path));
    if NameOf(path) == "index.md" {
      IndexRendered(dir, path);
    }
  }

  lemma {:induction false} IndexRendered(dir: Parsed, path: string)
    requires HasName(path) && dir == Parent(path)
    ensures (Render(dir) == "." <==> dir.root == "" && dir.parts == [])
    ensures Render(dir.(parts := dir.parts + ["index.html"])) == FileOf(dir)
  {
    NoDots(path);
    hide Parse, Parent, HasName, Undotted, FileOf;
    if dir.parts != [] {
      DotAlone(dir.root, dir.parts);
    } else {
      assert dir.root + Join([]) == dir.root;
    }
    IndexJoined(dir);
  }

  lemma {:induction false} IndexJoined(dir: Parsed)
    ensures Render(dir.(parts := dir.parts + ["index.html"])) == FileOf(dir)
  {
    if dir.parts != [] {
      JoinConcat(dir.parts, ["index.html"]);
      assert Join(["index.html"]) == "index.html";
    } else {
      assert [] + ["index.html"] == ["index.html"];
      assert Join(["index.html"]) == "index.html";
    }
  }

  lemma {:induction false} NoDots(path: string)
    requires HasName(path)
    ensures Bare(Parent(path).root) && Undotted(Parent(path).parts)
  {
    hide Root, Components, Split, Bare, Undotted;
    RootIs(path);
    KeptInit(Split(path));
  }

  lemma {:induction false} KeptInit(parts: seq<string>)
    requires Components(parts) != []
    ensures Undotted(Components(parts)[..|Components(parts)| - 1])
  {
    var kept := Components(parts);
    hide Components;
    var init := kept[..|kept| - 1];
    forall q | q in init ensures q != "" && q != "." { assert q in kept; }
  }

  predicate Undotted(parts: seq<string>) { forall q :: q in parts ==> q != "" && q != "." }

  lemma {:induction false} DotAlone(root: string, parts: seq<string>)
    requires Bare(root) && parts != [] && Undotted(parts)
    ensures root + Join(parts) != "."
  {
    assert parts[0] in parts;
    assert |Join(parts)| >= |parts[0]| && (|parts| > 1 ==> |Join(parts)| >= 2);
    if root != "" { assert (root + Join(parts))[0] == '/'; } else { assert root + Join(parts) == Join(parts); }
  }

  // ---- where an output is, said of its path -----------------------------------------------

  /** What is dropped from a path, and that nothing else is. */
  lemma {:induction false} ComponentsDrop(a: seq<string>, x: string, b: seq<string>)
    requires x == "" || x == "."
    ensures Components(a + [x] + b) == Components(a + b)
  {
    if a == [] {
      assert [] + [x] + b == [x] + b && [] + b == b && ([x] + b)[1..] == b;
    } else {
      ComponentsDrop(a[1..], x, b);
      assert (a + [x] + b)[1..] == a[1..] + [x] + b && (a + b)[1..] == a[1..] + b;
    }
  }

  lemma {:induction false} ComponentsKeep(parts: seq<string>)
    requires Undotted(parts)
    ensures Components(parts) == parts
  {
    if parts != [] {
      assert parts[0] in parts && forall p :: p in parts[1..] ==> p in parts;
      ComponentsKeep(parts[1..]);
    }
  }

  /** `base` is `name` without its suffix, or all of it when it has none. */
  ghost predicate IsStem(name: string, base: string) {
    || (base != "" && exists suffix: string :: suffix != "" && '.' !in suffix && name == base + "." + suffix)
    || (base == name && forall b, suffix: string :: name == b + "." + suffix && '.' !in suffix ==> b == "" || suffix == "")
  }

  lemma {:induction false} LastDotIs(b: string, suffix: string)
    requires '.' !in suffix
    ensures LastDot(b + "." + suffix) == |b|
  {
    var name := b + "." + suffix;
    if suffix != "" {
      LastDotIs(b, suffix[..|suffix| - 1]);
      assert name[..|name| - 1] == b + "." + suffix[..|suffix| - 1];
      assert name[|name| - 1] == suffix[|suffix| - 1];
    }
  }

  lemma {:induction false} DotSplits(name: string)
    requires LastDot(name) < |name|
    ensures var n := LastDot(name);
            n > 0 ==> '.' !in name[n + 1..] && name == name[..n] + "." + name[n + 1..]
  {
    if name[|name| - 1] != '.' {
      var init := name[..|name| - 1];
      if LastDot(init) < |init| {
        DotSplits(init);
        assert name[LastDot(init) + 1..] == init[LastDot(init) + 1..] + [name[|name| - 1]];
        assert name[..LastDot(init)] == init[..LastDot(init)];
      }
    }
  }

  lemma {:induction false} StemMeans(name: string)
    ensures IsStem(name, Stem(name))
  {
    hide LastDot;
    var n := LastDot(name);
    if n < |name| { DotSplits(name); }
    if 0 < n < |name| - 1 {
      assert name == name[..n] + "." + name[n + 1..];
    } else {
      forall b, suffix: string | name == b + "." + suffix && '.' !in suffix ensures b == "" || suffix == "" { LastDotIs(b, suffix); }
    }
  }

  /**
   * A path with `n` leading slashes and the components `dir` and `name`: the URL
   * and the file are in the directory, under the name without its suffix.
   */
  lemma {:induction false} PublishedAt(n: nat, rest: string, dir: seq<string>, name: string)
    requires (rest == "" || rest[0] != '/') && Components(Split(Slashes(n) + rest)) == dir + [name]
    ensures var path, root := Slashes(n) + rest, if n == 0 then "" else if n == 2 then "//" else "/";
            && HasName(path) && IsStem(name, Stem(name))
            && var place := root + Join(if name == "index.md" then dir else dir + [Stem(name)]);
               && RenderedUrl(path) == (if place == "" then "/" else "/" + place + "/")
               && RenderedHtmlPath(path) == if name == "index.md" && dir == [] then root + "index.html" else place + "/" + "index.html"
  {
    var path := Slashes(n) + rest;
    LeadingSlashesAre(n, rest);
    RootIs(path);
    StemMeans(name);
    hide Components, Split, Root, Stem, Slashes, LeadingSlashes, IsStem, Join;
    assert (dir + [name])[..|dir|] == dir;
    assert HasName(path);
    hide Parse;
    RenderedAtPlace(path);
    hide RenderedUrl, RenderedHtmlPath, HasName;
  }

  /** An output has its own URL exactly when it has its own HTML file. */
  lemma {:induction false} OwnUrlOwnFile(a: string, b: string)
    requires HasName(a) && HasName(b)
    ensures RenderedUrl(a) == RenderedUrl(b) <==> RenderedHtmlPath(a) == RenderedHtmlPath(b)
  {
    RenderedAtPlace(a);
    RenderedAtPlace(b);
    PlaceProper(a);
    PlaceProper(b);
    UrlsAreFiles(Place(a), Place(b));
  }

  // ---- the release checks ----------------------------------------------------------------

  datatype Kind = NotMarkdown | SelfRedirect | SourceActive | TargetMissing | Chain | SameUrl

  datatype Conflict = Conflict(kind: Kind, source: string)

  type Redirects = map<string, string>

  /** A path that ends in ".md" has a name. */
  lemma {:induction false} MarkdownHasName(path: string)
    requires EndsWith(path, ".md")
    ensures HasName(path)
  {
    LastPart(path);
    var parts := Split(path);
    var last := parts[|parts| - 1];
    assert last[|last| - 1] == 'd';
    KeptLast(parts);
  }

  lemma {:induction false} LastPart(path: string)
    requires path != "" && path[|path| - 1] != '/'
    ensures var last := Split(path)[|Split(path)| - 1]; last != "" && last[|last| - 1] == path[|path| - 1]
  {
    if |path| > 1 {
      LastPart(path[1..]);
    } else {
      assert path[1..] == "";
      assert Split("") == [""];
    }
  }

  lemma {:induction false} KeptLast(parts: seq<string>)
    requires parts != [] && parts[|parts| - 1] != "" && parts[|parts| - 1] != "."
    ensures Components(parts) != []
  {
    if |parts| > 1 { KeptLast(parts[1..]); }
  }

  /** Markdown paths; the source no page, the target a page and no source, and not where the source renders. */
  predicate SoundAt(redirects: Redirects, active: set<string>, source: string)
    requires source in redirects
  {
    && EndsWith(source, ".md") && EndsWith(redirects[source], ".md")
    && source !in active && redirects[source] in active && redirects[source] !in redirects
    && ApartUrls(source, redirects[source])
  }

  predicate Sound(redirects: Redirects, active: set<string>) {
    forall source :: source in redirects ==> SoundAt(redirects, active, source)
  }

  predicate ApartUrls(a: string, b: string) { HasName(a) && HasName(b) ==> RenderedUrl(a) != RenderedUrl(b) }

  function Active(pages: seq<string>): set<string> { set p | p in pages }

  /** The redirect from `source` is refused for `kind`, the first of these that it is. */
  predicate Refused(redirects: Redirects, active: set<string>, source: string, kind: Kind)
    requires source in redirects
  {
    var target := redirects[source];
    match kind
    case NotMarkdown => !(EndsWith(source, ".md") && EndsWith(target, ".md"))
    case SelfRedirect => EndsWith(source, ".md") && source == target
    case SourceActive => EndsWith(source, ".md") && EndsWith(target, ".md") && source != target && source in active
    case TargetMissing => EndsWith(source, ".md") && EndsWith(target, ".md") && source != target && source !in active && target !in active
    case Chain =>
      EndsWith(source, ".md") && EndsWith(target, ".md") && source != target && source !in active && target in active && target in redirects
    case SameUrl =>
      EndsWith(source, ".md") && EndsWith(target, ".md") && source != target && source !in active && target in active && target !in redirects
      && !ApartUrls(source, target)
  }

  /** The refusal is of the first unsound redirect, in the order of their sources. */
  predicate FirstRefused(redirects: Redirects, active: set<string>, c: Conflict) {
    && c.source in redirects && Refused(redirects, active, c.source, c.kind)
    && forall source :: source in redirects && TextBefore(source, c.source) ==> SoundAt(redirects, active, source)
  }

  /** `validate_redirects`. */
  method ValidateRedirects(redirects: Redirects, pages: seq<string>) returns (r: Option<Conflict>)
    ensures r.None? <==> Sound(redirects, Active(pages))
    ensures r.Some? ==> FirstRefused(redirects, Active(pages), r.value)
  {
    var active, todo := Active(pages), redirects.Keys;
    while todo != {}
      invariant todo <= redirects.Keys
      invariant forall source :: source in redirects && source !in todo ==> SoundAt(redirects, active, source)
      invariant forall a, b :: a in redirects && a !in todo && b in todo ==> TextBefore(a, b)
    {
      var source := FirstText(todo);
      var problem := CheckRedirect(redirects, active, source);
      if problem.Some? {
        forall s | s in redirects && TextBefore(s, source) ensures SoundAt(redirects, active, s) { TextOrder(s, source); }
        return Some(Conflict(problem.value, source));
      }
      todo := todo - {source};
    }
    return Option.None;
  }

  /** The checks of one redirect, in their order. */
  method CheckRedirect(redirects: Redirects, active: set<string>, source: string) returns (r: Option<Kind>)
    requires source in redirects
    ensures r.None? <==> SoundAt(redirects, active, source)
    ensures r.Some? ==> Refused(redirects, active, source, r.value)
  {
    var target := redirects[source];
    if !EndsWith(source, ".md") || !EndsWith(target, ".md") {
      return Some(NotMarkdown);
    }
    if source == target {
      return Some(SelfRedirect);
    }
    if source in active {
      return Some(SourceActive);
    }
    if target !in active {
      return Some(TargetMissing);
    }
    if target in redirects {
      return Some(Chain);
    }
    MarkdownHasName(source);
    MarkdownHasName(target);
    if RenderedUrl(source) == RenderedUrl(target) {
      return Some(SameUrl);
    }
    return Option.None;
  }

  /** An output of a release: a page, or the stub of a redirect. */
  datatype Claim = PageAt(path: string) | StubAt(path: string)

  function Outputs(pages: seq<string>, stubs: seq<string>): (r: seq<Claim>)
    ensures |r| == |pages| + |stubs|
    ensures forall i :: 0 <= i < |r| ==> r[i] == if i < |pages| then PageAt(pages[i]) else StubAt(stubs[i - |pages|])
  {
    seq(|pages|, i requires 0 <= i < |pages| => PageAt(pages[i])) + seq(|stubs|, i requires 0 <= i < |stubs| => StubAt(stubs[i]))
  }

  predicate AllNamed(outputs: seq<Claim>) { forall i :: 0 <= i < |outputs| ==> HasName(outputs[i].path) }

  predicate RendersAt(c: Claim, url: string) { HasName(c.path) && RenderedUrl(c.path) == url }

  /** Those of the first `n` outputs that render at `url`. */
  function ClaimsTo(outputs: seq<Claim>, n: nat, url: string): seq<Claim>
    requires n <= |outputs|
  {
    if n == 0 then []
    else ClaimsTo(outputs, n - 1, url) + if RendersAt(outputs[n - 1], url) then [outputs[n - 1]] else []
  }

  /** No two outputs render at one URL. */
  predicate AllApart(outputs: seq<Claim>) {
    forall i, j :: 0 <= i < j < |outputs| ==> ApartUrls(outputs[i].path, outputs[j].path)
  }

  /**
   * `validate_routes`: the URLs that are claimed more than once, with all that
   * claim them; a release is refused if there is one.
   */
  method ValidateRoutes(pages: seq<string>, stubs: seq<string>) returns (collisions: map<string, seq<Claim>>)
    requires AllNamed(Outputs(pages, stubs))
    ensures collisions == map[] <==> AllApart(Outputs(pages, stubs))
    ensures forall url :: url in collisions <==> |ClaimsTo(Outputs(pages, stubs), |pages| + |stubs|, url)| > 1
    ensures forall url :: url in collisions ==> collisions[url] == ClaimsTo(Outputs(pages, stubs), |pages| + |stubs|, url)
  {
    var outputs := Outputs(pages, stubs);
    var claims: map<string, seq<Claim>> := map[];
    hide *;
    NoneCollected(outputs);
    for i := 0 to |outputs|
      invariant Collected(claims, outputs, i)
    {
      var url := UrlAt(outputs, i);
      CollectNext(claims, outputs, i, url);
      var before := if url in claims then claims[url] else [];
      claims := claims[url := before + [outputs[i]]];
    }
    collisions := map url | url in claims && |claims[url]| > 1 :: claims[url];
    CollisionsAre(outputs);
    CollectedAre(claims, outputs, collisions);
  }

  /** The claims of the first `n` outputs, by URL. */
  ghost predicate Collected(claims: map<string, seq<Claim>>, outputs: seq<Claim>, n: nat) {
    && n <= |outputs|
    && forall url :: ClaimsTo(outputs, n, url) == (if url in claims then claims[url] else []) && (url in claims ==> claims[url] != [])
  }

  function UrlAt(outputs: seq<Claim>, i: nat): (url: string)
    requires i < |outputs| && AllNamed(outputs)
    ensures forall u :: RendersAt(outputs[i], u) <==> u == url
  {
    RenderedUrl(outputs[i].path)
  }

  lemma {:induction false} NoneCollected(outputs: seq<Claim>)
    ensures Collected(map[], outputs, 0)
  {}

  lemma {:induction false} CollectNext(claims: map<string, seq<Claim>>, outputs: seq<Claim>, i: nat, url: string)
    requires Collected(claims, outputs, i) && i < |outputs| && forall u :: RendersAt(outputs[i], u) <==> u == url
    ensures Collected(claims[url := (if url in claims then claims[url] else []) + [outputs[i]]], outputs, i + 1)
  {
    hide RendersAt;
    forall u ensures ClaimsTo(outputs, i + 1, u) == ClaimsTo(outputs, i, u) + if u == url then [outputs[i]] else [] {}
  }

  lemma {:induction false} CollectedAre(claims: map<string, seq<Claim>>, outputs: seq<Claim>, collisions: map<string, seq<Claim>>)
    requires Collected(claims, outputs, |outputs|)
    requires collisions == map url | url in claims && |claims[url]| > 1 :: claims[url]
    ensures forall url :: url in collisions <==> |ClaimsTo(outputs, |outputs|, url)| > 1
    ensures forall url :: url in collisions ==> collisions[url] == ClaimsTo(outputs, |outputs|, url)
    ensures collisions == map[] <==> forall url :: Single(outputs, url)
  {
    hide ClaimsTo;
    assert collisions.Keys == {} ==> collisions == map[];
    forall url ensures Single(outputs, url) <==> url !in collisions {}
    if forall url :: Single(outputs, url) { assert collisions.Keys == {}; }
  }

  predicate Single(outputs: seq<Claim>, url: string) { |ClaimsTo(outputs, |outputs|, url)| <= 1 }

  /** Places in increasing order, of outputs that render at `url`. */
  ghost predicate AreThere(claims: seq<Claim>, outputs: seq<Claim>, n: nat, url: string, at: seq<nat>)
    requires n <= |outputs|
  {
    && |at| == |claims|
    && (forall k :: 0 <= k < |at| ==> at[k] < n && claims[k] == outputs[at[k]] && RendersAt(claims[k], url))
    && (forall j, k :: 0 <= j < k < |at| ==> at[j] < at[k])
    && (forall i :: 0 <= i < n && RendersAt(outputs[i], url) ==> i in at)
  }

  lemma {:induction false} OneMoreThere(claims: seq<Claim>, outputs: seq<Claim>, n: nat, url: string, at: seq<nat>)
    requires n < |outputs| && AreThere(claims, outputs, n, url, at)
    ensures !RendersAt(outputs[n], url) ==> AreThere(claims, outputs, n + 1, url, at)
    ensures RendersAt(outputs[n], url) ==> AreThere(claims + [outputs[n]], outputs, n + 1, url, at + [n])
  {
    hide RendersAt;
    assert (at + [n])[|at|] == n && forall i :: i in at ==> i in at + [n];
  }

  /** What claims an URL are the outputs that render there, in their order. */
  lemma {:induction false} ClaimantsOf(outputs: seq<Claim>, n: nat, url: string) returns (at: seq<nat>)
    requires n <= |outputs|
    ensures AreThere(ClaimsTo(outputs, n, url), outputs, n, url, at)
  {
    hide AreThere, RendersAt;
    if n == 0 {
      NoneThere(outputs, url);
      return [];
    }
    var before := ClaimantsOf(outputs, n - 1, url);
    at := ClaimantsNext(outputs, n - 1, url, before);
  }

  lemma {:induction false} NoneThere(outputs: seq<Claim>, url: string)
    ensures AreThere([], outputs, 0, url, [])
  {}

  lemma {:induction false} ClaimantsNext(outputs: seq<Claim>, n: nat, url: string, before: seq<nat>) returns (at: seq<nat>)
    requires n < |outputs| && AreThere(ClaimsTo(outputs, n, url), outputs, n, url, before)
    ensures AreThere(ClaimsTo(outputs, n + 1, url), outputs, n + 1, url, at)
  {
    hide AreThere, RendersAt;
    OneMoreThere(ClaimsTo(outputs, n, url), outputs, n, url, before);
    if !RendersAt(outputs[n], url) {
      assert ClaimsTo(outputs, n + 1, url) == ClaimsTo(outputs, n, url);
      return before;
    }
    return before + [n];
  }

  /** Every URL has one claim exactly when the outputs have URLs of their own. */
  lemma {:induction false} CollisionsAre(outputs: seq<Claim>)
    ensures AllApart(outputs) <==> forall url :: Single(outputs, url)
  {
    hide RenderedUrl, HasName, AreThere, ClaimsTo;
    forall i, j | 0 <= i < j < |outputs| && !ApartUrls(outputs[i].path, outputs[j].path)
      ensures !Single(outputs, RenderedUrl(outputs[j].path))
    {
      var url := RenderedUrl(outputs[j].path);
      var at := ClaimantsOf(outputs, |outputs|, url);
      TwoPlaces(ClaimsTo(outputs, |outputs|, url), outputs, url, at, i, j);
    }
    forall url | !Single(outputs, url) ensures !AllApart(outputs) { TwoThere(outputs, url); }
  }

  lemma {:induction false} TwoPlaces(claims: seq<Claim>, outputs: seq<Claim>, url: string, at: seq<nat>, i: nat, j: nat)
    requires AreThere(claims, outputs, |outputs|, url, at) && i < j < |outputs|
    requires RendersAt(outputs[i], url) && RendersAt(outputs[j], url)
    ensures |claims| > 1
  {
    hide RendersAt;
    assert i in at && j in at;
  }

  lemma {:induction false} TwoThere(outputs: seq<Claim>, url: string)
    requires !Single(outputs, url)
    ensures !AllApart(outputs)
  {
    hide RenderedUrl, HasName, ClaimsTo;
    var at := ClaimantsOf(outputs, |outputs|, url);
    assert at[0] < at[1];
    assert !ApartUrls(outputs[at[0]].path, outputs[at[1]].path);
  }

  // ---- following redirects ---------------------------------------------------------------

  /** Where `n` hops lead; a path that is no source stays. */
  function Hop(redirects: Redirects, path: string, n: nat): string {
    if n == 0 then path
    else
      var p := Hop(redirects, path, n - 1);
      if p in redirects then redirects[p] else p
  }

  /** The chain from `path` comes back to a path it was at. */
  ghost predicate Cycles(redirects: Redirects, path: string) {
    exists i, j :: 0 <= i < j && Hop(redirects, path, i) == Hop(redirects, path, j) && Hop(redirects, path, i) in redirects
  }

  /** The terminal target from `current` on, `None` when a path already seen comes back. */
  function Follow(current: string, redirects: Redirects, seen: set<string>): Option<string>
    decreases redirects.Keys - seen
  {
    if current !in redirects then Some(current)
    else if current in seen then Option.None
    else Follow(redirects[current], redirects, seen + {current})
  }

  /** `follow_redirects`: it terminates on every map, and is `None` exactly when the chain enters a cycle. */
  method FollowRedirects(path: string, redirects: Redirects) returns (r: Option<string>)
    ensures r == Follow(path, redirects, {})
    ensures r.None? <==> Cycles(redirects, path)
    ensures r.Some? ==> r.value !in redirects && exists n :: Hop(redirects, path, n) == r.value
    ensures r.None? ==> forall n :: Hop(redirects, path, n) in redirects
  {
    var seen: set<string>, current := {}, path;
    ghost var n := 0;
    while current in redirects
      invariant seen <= redirects.Keys && current == Hop(redirects, path, n)
      invariant Follow(current, redirects, seen) == Follow(path, redirects, {})
      invariant forall p :: p in seen <==> exists k :: 0 <= k < n && Hop(redirects, path, k) == p
      decreases redirects.Keys - seen
    {
      if current in seen {
        ghost var i :| 0 <= i < n && Hop(redirects, path, i) == current;
        Around(redirects, path, i, n);
        return Option.None;
      }
      seen := seen + {current};
      current := redirects[current];
      n := n + 1;
    }
    EndsNoCycle(redirects, path, n);
    return Some(current);
  }

  /** In a cycle every hop is a source. */
  lemma {:induction false} Around(redirects: Redirects, path: string, i: nat, j: nat)
    requires i < j && Hop(redirects, path, i) == Hop(redirects, path, j) && Hop(redirects, path, i) in redirects
    requires forall k :: 0 <= k < j ==> Hop(redirects, path, k) in redirects
    ensures forall n :: Hop(redirects, path, n) in redirects
  {
    forall n: nat ensures Hop(redirects, path, n) in redirects { Back(redirects, path, i, j, n); }
  }

  lemma {:induction false} Back(redirects: Redirects, path: string, i: nat, j: nat, n: nat)
    requires i < j && Hop(redirects, path, i) == Hop(redirects, path, j)
    requires forall k :: 0 <= k < j ==> Hop(redirects, path, k) in redirects
    ensures exists k :: 0 <= k < j && Hop(redirects, path, n) == Hop(redirects, path, k)
    ensures Hop(redirects, path, n) in redirects
  {
    if n > 0 {
      Back(redirects, path, i, j, n - 1);
      var k :| 0 <= k < j && Hop(redirects, path, n - 1) == Hop(redirects, path, k);
      assert Hop(redirects, path, n) == Hop(redirects, path, k + 1);
      assert k + 1 == j ==> Hop(redirects, path, n) == Hop(redirects, path, i);
    }
  }

  lemma {:induction false} Stays(redirects: Redirects, path: string, n: nat, m: nat)
    requires n <= m && Hop(redirects, path, n) !in redirects
    ensures Hop(redirects, path, m) == Hop(redirects, path, n)
  {
    if n < m { Stays(redirects, path, n, m - 1); }
  }

  lemma {:induction false} SameFrom(redirects: Redirects, path: string, i: nat, j: nat, n: nat)
    requires Hop(redirects, path, i) == Hop(redirects, path, j)
    ensures Hop(redirects, path, i + n) == Hop(redirects, path, j + n)
  {
    if n > 0 { SameFrom(redirects, path, i, j, n - 1); }
  }

  /** A chain that ends has no cycle. */
  lemma {:induction false} EndsNoCycle(redirects: Redirects, path: string, n: nat)
    requires Hop(redirects, path, n) !in redirects
    ensures !Cycles(redirects, path)
  {
    forall i, j | 0 <= i < j && Hop(redirects, path, i) == Hop(redirects, path, j)
      ensures Hop(redirects, path, i) !in redirects
    {
      Ended(redirects, path, i, j, n);
    }
  }

  lemma {:induction false} Ended(redirects: Redirects, path: string, i: nat, j: nat, n: nat)
    requires i < j && Hop(redirects, path, i) == Hop(redirects, path, j) && Hop(redirects, path, n) !in redirects
    ensures Hop(redirects, path, i) !in redirects
    decreases if i < n then n - i else 0
  {
    if i < n {
      SameFrom(redirects, path, i, j, 1);
      Ended(redirects, path, i + 1, j + 1, n);
      Apart(redirects, path, i, j, n);
    } else {
      Stays(redirects, path, n, i);
    }
  }

  /** Two equal hops before the end would let the end come later too. */
  lemma {:induction false} Apart(redirects: Redirects, path: string, i: nat, j: nat, n: nat)
    requires i < n && i < j && Hop(redirects, path, i) == Hop(redirects, path, j) && Hop(redirects, path, n) !in redirects
    requires Hop(redirects, path, i + 1) !in redirects
    ensures Hop(redirects, path, i) !in redirects
  {
    Stays(redirects, path, i + 1, j);
  }

  // ---- an accepted release -----------------------------------------------------------------

  /**
   * A release that both checks accept gives every page and every redirect stub
   * its own URL and its own HTML file, and every redirect reaches an active page
   * in one hop.
   */
  lemma {:induction false} AcceptedRelease(pages: seq<string>, stubs: seq<string>, redirects: Redirects)
    requires AllNamed(Outputs(pages, stubs)) && (forall s :: s in stubs <==> s in redirects)
    requires Sound(redirects, Active(pages)) && AllApart(Outputs(pages, stubs))
    ensures var outputs := Outputs(pages, stubs);
            forall i, j :: 0 <= i < j < |outputs| ==>
              && RenderedUrl(outputs[i].path) != RenderedUrl(outputs[j].path)
              && RenderedHtmlPath(outputs[i].path) != RenderedHtmlPath(outputs[j].path)
    ensures forall s :: s in redirects ==> Hop(redirects, s, 1) in pages && Hop(redirects, s, 1) !in redirects && !Cycles(redirects, s)
  {
    var outputs := Outputs(pages, stubs);
    forall i, j | 0 <= i < j < |outputs|
      ensures RenderedUrl(outputs[i].path) != RenderedUrl(outputs[j].path)
      ensures RenderedHtmlPath(outputs[i].path) != RenderedHtmlPath(outputs[j].path)
    {
      hide RenderedUrl, RenderedHtmlPath, HasName;
      assert ApartUrls(outputs[i].path, outputs[j].path);
      OwnUrlOwnFile(outputs[i].path, outputs[j].path);
    }
    forall s | s in redirects ensures Hop(redirects, s, 1) in pages && Hop(redirects, s, 1) !in redirects && !Cycles(redirects, s) {
      assert Hop(redirects, s, 0) == s;
      EndsNoCycle(redirects, s, 1);
    }
  }
}
