/** The relative hop a compatibility route serves, checked against RFC 3986. */
module RedirectHop {
  import opened Text
  import opened PosixPath
  import opened LinkResolve

  /** `page_url`: the URL a Markdown path is served at. */
  function PageUrl(md: string): string {
    if EndsWith(md, "/index.md") then "/" + md[..|md| - 8]
    else if md == "index.md" then "/"
    else "/" + md[..if |md| >= 3 then |md| - 3 else 0] + "/"
  }

  /** `expected_redirect_hop`. */
  function ExpectedHop(cwd: string, oldPath: string, newPath: string): string {
    match RelPath(cwd, PageUrl(newPath), PageUrl(oldPath))
    case None => "/"
    case Some(rel) => rel + "/"
  }

  // ---- section 5.2 of RFC 3986 -----------------------------------------------

  /** Where the first path segment ends, its leading '/' included. */
  function FirstSegmentEnd(s: string, i: nat): (k: nat)
    requires i <= |s|
    ensures i <= k <= |s|
    ensures forall j :: i <= j < k ==> s[j] != '/'
    ensures k < |s| ==> s[k] == '/'
    decreases |s| - i
  {
    if i == |s| || s[i] == '/' then i else FirstSegmentEnd(s, i + 1)
  }

  /** Section 5.2.4, step C: the last segment and the '/' before it, if any, go. */
  function DropLastSegment(output: string): string {
    if output == "" then "" else if output[|output| - 1] == '/' then output[..|output| - 1] else DropLastSegment(output[..|output| - 1])
  }

  /** Section 5.2.4: the loop over the input and output buffers. */
  function RemoveDotSegments(input: string, output: string): string
    decreases |input|
  {
    if input == "" then output
    else if StartsWith(input, "../") then RemoveDotSegments(input[3..], output)
    else if StartsWith(input, "./") then RemoveDotSegments(input[2..], output)
    else if StartsWith(input, "/./") then RemoveDotSegments(input[2..], output)
    else if input == "/." then RemoveDotSegments("/", output)
    else if StartsWith(input, "/../") then RemoveDotSegments(input[3..], DropLastSegment(output))
    else if input == "/.." then RemoveDotSegments("/", DropLastSegment(output))
    else if input == "." || input == ".." then output
    else
      var k := FirstSegmentEnd(input, if input[0] == '/' then 1 else 0);
      RemoveDotSegments(input[k..], output + input[..k])
  }

  /** Section 5.2.3, for a base with a path. */
  function Merge(base: string, reference: string): string { base[..AfterLastSlash(base)] + reference }

  /** A reference that is a relative path and nothing else (section 4.2). */
  predicate RelativePathReference(r: string) {
    r != "" && r[0] != '/' && ':' !in r && '?' !in r && '#' !in r
  }

  /** Section 5.2.2 for such a reference. */
  function Follow(base: string, reference: string): string
    requires RelativePathReference(reference)
  {
    RemoveDotSegments(Merge(base, reference), "")
  }

  // ---- URLs as component lists -----------------------------------------------

  /** The directories of a page's URL. */
  function UrlParts(md: string): seq<string>
    requires WellFormed(md)
  {
    var parts := Split(md);
    var name := parts[|parts| - 1];
    parts[..|parts| - 1] + if name == "index.md" then [] else [name[..|name| - 3]]
  }

  /** Each component with a '/' before it. */
  function Climb(parts: seq<string>): string {
    if parts == [] then "" else "/" + parts[0] + Climb(parts[1..])
  }

  lemma {:induction false} ClimbJoin(parts: seq<string>)
    requires parts != []
    ensures Climb(parts) == "/" + Join(parts)
  {
    if |parts| == 1 {
      assert parts[1..] == [];
    } else {
      ClimbJoin(parts[1..]);
    }
  }

  lemma {:induction false} ClimbConcat(a: seq<string>, b: seq<string>)
    ensures Climb(a + b) == Climb(a) + Climb(b)
  {
    if a == [] {
      assert a + b == b;
    } else {
      assert (a + b)[1..] == a[1..] + b;
      ClimbConcat(a[1..], b);
    }
  }

  lemma {:induction false} UrlPartsPlain(md: string)
    requires WellFormed(md)
    ensures AllPlain(UrlParts(md))
    ensures forall p :: p in UrlParts(md) ==> '#' !in p && ':' !in p && '?' !in p
  {
    var parts := Split(md);
    PartsArePlain(parts);
    var name := parts[|parts| - 1];
    SegmentIsPlain(name[..|name| - 3]);
    assert forall p :: p in parts[..|parts| - 1] ==> p in parts;
  }

  lemma {:induction false} IndexSuffix(dir: string, name: string)
    requires PageName(name)
    ensures EndsWith(dir + "/" + name, "/index.md") <==> name == "index.md"
  {
    var md := dir + "/" + name;
    PageNameIsPlain(name);
    if name == "index.md" { assert md[|md| - 9..] == "/" + name; }
    if EndsWith(md, "/index.md") { SlashTail(dir, name, "index.md"); }
  }

  /** Text after the last '/' is determined. */
  lemma {:induction false} SlashTail(dir: string, name: string, tail: string)
    requires SlashFree(name) && SlashFree(tail) && EndsWith(dir + "/" + name, "/" + tail)
    ensures name == tail
  {
    var md := dir + "/" + name;
    AfterLastSlashAt(dir, name);
    AfterLastSlashAt(md[..|md| - |tail| - 1], tail);
    assert md == md[..|md| - |tail| - 1] + "/" + tail;
    assert md[|dir| + 1..] == name && md[|md| - |tail|..] == tail;
  }

  /** `page_url` renders the components of the URL between slashes. */
  lemma {:induction false} PageUrlParts(md: string)
    requires WellFormed(md)
    ensures PageUrl(md) == Climb(UrlParts(md)) + "/"
  {
    var parts := Split(md);
    JoinSplit(md);
    var dir, name := parts[..|parts| - 1], parts[|parts| - 1];
    assert parts == dir + [name];
    if dir == [] {
      assert md == name;
      PageUrlTop(name);
      assert UrlParts(md) == if name == "index.md" then [] else [name[..|name| - 3]];
    } else {
      JoinConcat(dir, [name]);
      assert md == Join(dir) + "/" + name;
      ClimbJoin(dir);
      PageUrlBelow(Join(dir), name);
      assert dir + [] == dir;
      if name != "index.md" { ClimbConcat(dir, [name[..|name| - 3]]); }
    }
  }

  lemma {:induction false} PageUrlTop(name: string)
    requires PageName(name)
    ensures PageUrl(name) == (if name == "index.md" then "" else Climb([name[..|name| - 3]])) + "/"
  {
    ShortName(name);
    var stem := name[..|name| - 3];
    assert name != "index.md" ==> Climb([stem]) == "/" + stem;
  }

  lemma {:induction false} PageUrlBelow(dir: string, name: string)
    requires PageName(name)
    ensures PageUrl(dir + "/" + name) == "/" + dir + (if name == "index.md" then "" else Climb([name[..|name| - 3]])) + "/"
  {
    var md := dir + "/" + name;
    IndexSuffix(dir, name);
    if name == "index.md" {
      assert md[..|md| - 8] == dir + "/";
    } else {
      var stem := name[..|name| - 3];
      assert Climb([stem]) == "/" + stem;
      assert md[..|md| - 3] == dir + "/" + stem;
      IndexAlone(dir, name);
    }
  }

  lemma {:induction false} ShortName(name: string)
    requires PageName(name)
    ensures !EndsWith(name, "/index.md")
  {
    PageNameIsPlain(name);
    if EndsWith(name, "/index.md") { SuffixChar(name, "/index.md", 0); }
  }

  lemma {:induction false} SuffixChar(s: string, tail: string, i: nat)
    requires EndsWith(s, tail) && i < |tail|
    ensures tail[i] in s
  {
    assert s[|s| - |tail|..][i] == s[|s| - |tail| + i];
  }

  lemma {:induction false} IndexAlone(dir: string, name: string)
    ensures dir + "/" + name != "index.md"
  {
    assert (dir + "/" + name)[|dir|] == '/';
    assert '/' !in "index.md";
  }

  // ---- following the hop -----------------------------------------------------

  predicate SegmentOrDots(s: string) { Plain(s) || s == "." || s == ".." }

  lemma {:induction false} DropClimb(a: seq<string>, x: string)
    requires SlashFree(x)
    ensures DropLastSegment(Climb(a + [x])) == Climb(a)
  {
    ClimbConcat(a, [x]);
    assert Climb([x]) == "/" + x + "";
    assert Climb(a + [x]) == Climb(a) + "/" + x;
    DropTail(Climb(a), x);
  }

  lemma {:induction false} DropTail(s: string, x: string)
    requires SlashFree(x)
    ensures DropLastSegment(s + "/" + x) == s
  {
    var whole := s + "/" + x;
    if x == "" {
      assert whole[..|whole| - 1] == s;
    } else {
      assert x[|x| - 1] in x;
      assert whole[..|whole| - 1] == s + "/" + x[..|x| - 1];
      assert forall c :: c in x[..|x| - 1] ==> c in x;
      DropTail(s, x[..|x| - 1]);
    }
  }

  /** "/x/..." starts with "/dots/" only when `x` is the dots. */
  lemma {:induction false} SegmentPrefix(x: string, rest: string, dots: string)
    requires SlashFree(x) && SlashFree(dots) && rest != "" && rest[0] == '/'
    ensures StartsWith("/" + x + rest, "/" + dots + "/") <==> x == dots
  {
    if x == dots {
      assert ("/" + x + rest)[..|x| + 2] == "/" + dots + "/";
    }
    if StartsWith("/" + x + rest, "/" + dots + "/") { PrefixSame(x, rest, dots); }
  }

  lemma {:induction false} PrefixSame(x: string, rest: string, dots: string)
    requires SlashFree(x) && SlashFree(dots) && rest != "" && rest[0] == '/'
    requires StartsWith("/" + x + rest, "/" + dots + "/")
    ensures x == dots
  {
    var input, start := "/" + x + rest, "/" + dots + "/";
    assert input[1 + |x|] == '/' && start[1 + |dots|] == '/';
    assert forall j :: 0 <= j < |x| ==> input[1 + j] == x[j] && x[j] in x;
    assert forall j :: 0 <= j < |dots| ==> start[1 + j] == dots[j] && dots[j] in dots;
    assert forall j :: 0 <= j < |start| ==> input[j] == input[..|start|][j] == start[j];
    assert |x| == |dots|;
  }

  /** How the removal loop starts on "/x/..." . */
  lemma {:induction false} DotPrefixes(x: string, rest: string)
    requires SegmentOrDots(x) && rest != "" && rest[0] == '/'
    ensures var input := "/" + x + rest;
            && !StartsWith(input, "../") && !StartsWith(input, "./")
            && (StartsWith(input, "/./") <==> x == ".")
            && (StartsWith(input, "/../") <==> x == "..")
            && input != "/." && input != "/.." && input != "." && input != ".."
  {
    var input := "/" + x + rest;
    assert input[1 + |x|] == '/';
    assert forall j :: 0 <= j < |x| ==> input[1 + j] == x[j] && x[j] in x;
    SegmentPrefix(x, rest, ".");
    SegmentPrefix(x, rest, "..");
    assert input[0] == '/' && input[1] == x[0];
  }

  lemma {:induction false} StepSegment(x: string, rest: string, output: string)
    requires Plain(x) && rest != "" && rest[0] == '/'
    ensures RemoveDotSegments("/" + x + rest, output) == RemoveDotSegments(rest, output + "/" + x)
  {
    var input := "/" + x + rest;
    DotPrefixes(x, rest);
    var k := FirstSegmentEnd(input, 1);
    assert input[1 + |x|] == '/';
    assert forall j :: 1 <= j < 1 + |x| ==> input[j] == x[j - 1] && x[j - 1] in x;
    assert input[..k] == "/" + x && input[k..] == rest;
    assert output + ("/" + x) == output + "/" + x;
  }

  lemma {:induction false} StepDot(rest: string, output: string)
    requires rest != "" && rest[0] == '/'
    ensures RemoveDotSegments("/" + "." + rest, output) == RemoveDotSegments(rest, output)
  {
    DotPrefixes(".", rest);
    assert ("/" + "." + rest)[2..] == rest;
  }

  lemma {:induction false} StepDotDot(rest: string, output: string)
    requires rest != "" && rest[0] == '/'
    ensures RemoveDotSegments("/" + ".." + rest, output) == RemoveDotSegments(rest, DropLastSegment(output))
  {
    DotPrefixes("..", rest);
    assert ("/" + ".." + rest)[3..] == rest;
  }

  lemma {:induction false} StepLast(output: string)
    ensures RemoveDotSegments("/", output) == output + "/"
  {
    assert FirstSegmentEnd("/", 1) == 1;
    assert RemoveDotSegments("/", output) == RemoveDotSegments("/"[1..], output + "/"[..1]);
    assert "/"[1..] == "" && "/"[..1] == "/";
  }

  /** Removing dot segments is the component fold. */
  lemma {:induction false} RemoveFolds(parts: seq<string>, acc: seq<string>)
    requires (forall p :: p in parts ==> SegmentOrDots(p)) && AllPlain(acc)
    ensures RemoveDotSegments(Climb(parts) + "/", Climb(acc)) == Climb(Fold(parts, true, acc)) + "/"
  {
    if parts == [] {
      StepLast(Climb(acc));
      assert Climb(parts) + "/" == "/";
    } else {
      var x, rest := parts[0], Climb(parts[1..]) + "/";
      assert x in parts;
      assert Climb(parts) + "/" == "/" + x + rest;
      RestStarts(parts[1..]);
      StepAny(x, rest, acc);
      RemoveFolds(parts[1..], Push(x, true, acc));
    }
  }

  lemma {:induction false} RestStarts(parts: seq<string>)
    ensures (Climb(parts) + "/")[0] == '/'
  {
    if parts != [] { assert Climb(parts)[0] == '/'; }
  }

  lemma {:induction false} StepPlain(x: string, rest: string, acc: seq<string>)
    requires Plain(x) && rest != "" && rest[0] == '/'
    ensures RemoveDotSegments("/" + x + rest, Climb(acc)) == RemoveDotSegments(rest, Climb(acc + [x]))
  {
    StepSegment(x, rest, Climb(acc));
    ClimbConcat(acc, [x]);
    assert Climb([x]) == "/" + x + "";
    assert Climb(acc + [x]) == Climb(acc) + "/" + x;
  }

  lemma {:induction false} PushPlain(x: string, acc: seq<string>)
    requires SegmentOrDots(x) && AllPlain(acc)
    ensures AllPlain(Push(x, true, acc))
    ensures x == "." ==> Push(x, true, acc) == acc
    ensures Plain(x) ==> Push(x, true, acc) == acc + [x]
  {
    if x == ".." { PopClimb(acc); }
  }

  lemma {:induction false} StepAny(x: string, rest: string, acc: seq<string>)
    requires SegmentOrDots(x) && AllPlain(acc) && rest != "" && rest[0] == '/'
    ensures RemoveDotSegments("/" + x + rest, Climb(acc)) == RemoveDotSegments(rest, Climb(Push(x, true, acc)))
    ensures AllPlain(Push(x, true, acc))
  {
    PushPlain(x, acc);
    if Plain(x) {
      StepPlain(x, rest, acc);
    } else if x == "." {
      StepDot(rest, Climb(acc));
    } else {
      StepDotDot(rest, Climb(acc));
      PopClimb(acc);
    }
  }

  lemma {:induction false} PopClimb(acc: seq<string>)
    requires AllPlain(acc)
    ensures DropLastSegment(Climb(acc)) == Climb(Push("..", true, acc))
    ensures AllPlain(Push("..", true, acc))
  {
    if acc != [] {
      var init := acc[..|acc| - 1];
      assert acc[|acc| - 1] in acc;
      assert forall p :: p in init ==> p in acc;
      assert acc == init + [acc[|acc| - 1]];
      DropClimb(init, acc[|acc| - 1]);
    }
  }

  lemma {:induction false} UrlRelPath(cwd: string, oldParts: seq<string>, newParts: seq<string>)
    requires AllPlain(oldParts) && AllPlain(newParts)
    ensures RelPath(cwd, Climb(newParts) + "/", Climb(oldParts) + "/") == Some(RelPathOf(oldParts, newParts))
  {
    AbsUrl(cwd, oldParts);
    AbsUrl(cwd, newParts);
  }

  lemma {:induction false} AbsUrl(cwd: string, parts: seq<string>)
    requires AllPlain(parts)
    ensures NonEmpty(Split(AbsPath(cwd, Climb(parts) + "/"))) == parts
  {
    var url := Climb(parts) + "/";
    UrlSplit(parts);
    assert url[0] == '/' && StartsWith(url, "/") by {
      if parts != [] { assert Climb(parts)[0] == '/'; }
      assert url[..1] == "/";
    }
    var n := LeadingSlashes(url);
    NonEmptyRendered(n, parts);
    RootedNotDot(n, parts);
  }

  lemma {:induction false} UrlSplit(parts: seq<string>)
    requires AllPlain(parts)
    ensures Fold(Split(Climb(parts) + "/"), true, []) == parts
  {
    if parts == [] {
      assert Split("/") == ["", ""];
    } else {
      ClimbJoin(parts);
      var s := Join(parts);
      assert Climb(parts) + "/" == "" + "/" + s + "/" + "";
      SplitAtSlash("" + "/" + s, "");
      SplitAtSlash("", s);
      SplitJoin(parts);
      assert Split("") == [""];
      FoldConcat([""] + parts, [""], true, []);
      FoldConcat([""], parts, true, []);
      FoldPlain(parts, true, []);
      assert [] + parts == parts;
      assert Fold([""], true, parts) == parts && Fold([""], true, []) == [];
    }
  }

  lemma {:induction false} HopParts(cwd: string, oldPath: string, newPath: string) returns (rel: seq<string>)
    requires WellFormed(oldPath) && WellFormed(newPath)
    ensures rel == (var r := RelParts(UrlParts(oldPath), UrlParts(newPath)); if r == [] then ["."] else r)
    ensures ExpectedHop(cwd, oldPath, newPath) == Join(rel) + "/"
  {
    PageUrlParts(oldPath);
    PageUrlParts(newPath);
    UrlPartsPlain(oldPath);
    UrlPartsPlain(newPath);
    UrlRelPath(cwd, UrlParts(oldPath), UrlParts(newPath));
    var r := RelParts(UrlParts(oldPath), UrlParts(newPath));
    rel := if r == [] then ["."] else r;
  }

  lemma {:induction false} HopIsReference(rel: seq<string>)
    requires rel != [] && forall p :: p in rel ==> SegmentOrDots(p) && '#' !in p && ':' !in p && '?' !in p
    ensures RelativePathReference(Join(rel) + "/")
  {
    JoinAvoids(rel, '#');
    JoinAvoids(rel, ':');
    JoinAvoids(rel, '?');
    assert rel[0] in rel;
    assert rel[0][0] in rel[0];
    assert Join(rel)[0] == rel[0][0];
  }

  /**
   * Following the expected hop from the old URL, by the rules of section 5.2 of
   * RFC 3986, gives exactly the new URL - from whatever directory the tool runs in.
   */
  lemma {:induction false} HopReachesNewUrl(cwd: string, oldPath: string, newPath: string)
    requires WellFormed(oldPath) && WellFormed(newPath)
    ensures RelativePathReference(ExpectedHop(cwd, oldPath, newPath))
    ensures Follow(PageUrl(oldPath), ExpectedHop(cwd, oldPath, newPath)) == PageUrl(newPath)
  {
    var from, to := UrlParts(oldPath), UrlParts(newPath);
    var rel := HopParts(cwd, oldPath, newPath);
    UrlPartsPlain(oldPath);
    UrlPartsPlain(newPath);
    assert forall p :: p in to[CommonPrefix(from, to)..] ==> p in to;
    HopIsReference(rel);
    PageUrlParts(oldPath);
    PageUrlParts(newPath);
    MergeParts(from, rel);
    RemoveFolds(from + rel, []);
    FoldRelParts(from, to, true);
    if RelParts(from, to) == [] { SamePlace(from, to); }
  }

  lemma {:induction false} MergeParts(from: seq<string>, rel: seq<string>)
    requires rel != []
    ensures Merge(Climb(from) + "/", Join(rel) + "/") == Climb(from + rel) + "/"
  {
    hide Climb, Join;
    ClimbConcat(from, rel);
    ClimbJoin(rel);
    var base := Climb(from) + "/";
    assert AfterLastSlash(base) == |base|;
    assert base[..|base|] == base;
  }

  lemma {:induction false} SamePlace(from: seq<string>, to: seq<string>)
    requires AllPlain(from) && RelParts(from, to) == []
    ensures Fold(from + ["."], true, []) == to
  {
    var i := CommonPrefix(from, to);
    assert |from| == i && |to| == i && from[..i] == from && to[..i] == to;
    FoldConcat(from, ["."], true, []);
    FoldPlain(from, true, []);
    assert [] + from == from;
    assert Fold(["."], true, from) == from;
  }
}
