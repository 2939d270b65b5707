/** What a relative link means: so many directories up, and then down again. */
module RelativeLinks {
  import opened Text
  import opened PosixPath
  import opened LinkResolve
  import CorpusLinks

  /** The text of a link: `up` times "..", the parts below, and a slash at the end or none. */
  function Climb(up: nat, rest: seq<string>, slash: bool): string { Join(Ups(up) + rest) + if slash then "/" else "" }

  /** Where that leads from the directory `dir`; above the top the ".." stay. */
  function Place(dir: seq<string>, up: nat, rest: seq<string>): seq<string> {
    (if up <= |dir| then dir[..|dir| - up] else Ups(up - |dir|)) + rest
  }

  /** Names without the characters that end a path or start a scheme. */
  predicate LinkParts(parts: seq<string>) { AllPlain(parts) && forall p :: p in parts ==> '#' !in p && ':' !in p }

  lemma {:induction false} FoldUpsBeyond(n: nat, acc: seq<string>)
    requires AllPlain(acc)
    ensures Fold(Ups(n), false, acc) == if n <= |acc| then acc[..|acc| - n] else Ups(n - |acc|)
  {
    if n <= |acc| {
      FoldUps(n, false, acc);
    } else {
      UpsConcat(|acc|, n - |acc|);
      FoldConcat(Ups(|acc|), Ups(n - |acc|), false, acc);
      FoldUps(|acc|, false, acc);
      assert acc[..0] == [];
      FoldUpsOn(n - |acc|, 0);
      assert Ups(0) == [];
    }
  }

  lemma {:induction false} UpsConcat(a: nat, b: nat)
    ensures Ups(a) + Ups(b) == Ups(a + b)
  {
    if a > 0 { UpsConcat(a - 1, b); }
  }

  lemma {:induction false} UpKept(k: nat)
    ensures Push("..", false, Ups(k)) == Ups(k + 1)
  {
    UpsConcat(k, 1);
    assert Ups(1) == [".."] by { assert Ups(0) == []; }
    assert k > 0 ==> Ups(k)[k - 1] in Ups(k);
  }

  /** Where there is nothing to leave, ".." is kept. */
  lemma {:induction false} FoldUpsOn(n: nat, k: nat)
    ensures Fold(Ups(n), false, Ups(k)) == Ups(k + n)
  {
    hide Push;
    if n > 0 {
      assert Ups(n)[0] == ".." && Ups(n)[1..] == Ups(n - 1);
      UpKept(k);
      FoldUpsOn(n - 1, k + 1);
    }
  }

  lemma {:induction false} FoldClimb(dir: seq<string>, up: nat, rest: seq<string>, tail: seq<string>)
    requires AllPlain(dir) && AllPlain(rest) && (tail == [] || tail == [""])
    ensures Fold(Ups(up) + rest + tail, false, dir) == Place(dir, up, rest)
  {
    FoldConcat(Ups(up) + rest, tail, false, dir);
    FoldConcat(Ups(up), rest, false, dir);
    FoldUpsBeyond(up, dir);
    FoldPlain(rest, false, Fold(Ups(up), false, dir));
    if tail == [""] { assert tail[1..] == []; }
  }

  lemma {:induction false} ClimbSplits(up: nat, rest: seq<string>, slash: bool)
    requires LinkParts(rest) && up + |rest| > 0
    ensures Split(Climb(up, rest, slash)) == Ups(up) + rest + if slash then [""] else []
    ensures var base := Climb(up, rest, slash); base != "" && !StartsWith(base, "/") && '#' !in base && ':' !in base
  {
    var parts := Ups(up) + rest;
    forall p | p in parts ensures SlashFree(p) && '#' !in p && ':' !in p && p != "" { if p in Ups(up) { assert p == ".."; } }
    SplitJoin(parts);
    JoinAvoids(parts, '#');
    JoinAvoids(parts, ':');
    RelHead(parts);
    assert parts[0] in parts;
    assert Join(parts) != "";
    if slash {
      SplitAtSlash(Join(parts), "");
      assert Join(parts) + "/" + "" == Climb(up, rest, slash);
      assert Split("") == [""];
      assert Climb(up, rest, slash)[..1] == Join(parts)[..1];
    } else {
      assert Climb(up, rest, slash) == Join(parts);
      assert parts + [] == parts;
    }
  }

  lemma {:induction false} PlaceNamed(dir: seq<string>, up: nat, rest: seq<string>)
    requires AllPlain(dir) && AllPlain(rest)
    ensures forall p :: p in Place(dir, up, rest) ==> p != "" && SlashFree(p)
  {
    forall p | p in Place(dir, up, rest) ensures p != "" && SlashFree(p) {
      if p !in rest { assert if up <= |dir| then p in dir else p == ".."; }
    }
  }

  lemma {:induction false} ClimbFold(dir: seq<string>, up: nat, rest: seq<string>, slash: bool)
    requires AllPlain(dir) && LinkParts(rest) && up + |rest| > 0
    ensures var path := JoinPath(Join(dir), Climb(up, rest, slash));
            path != "" && LeadingSlashes(path) == 0 && Fold(Split(path), false, []) == Place(dir, up, rest)
  {
    var base, tail := Climb(up, rest, slash), if slash then [""] else [];
    var path := JoinPath(Join(dir), base);
    ClimbSplits(up, rest, slash);
    FoldClimb(dir, up, rest, tail);
    hide Climb, Place, Ups, Fold;
    if dir == [] {
      assert path == base;
    } else {
      JoinStartsPlain(dir);
      FoldJoinPath(Join(dir), base, false);
      forall p | p in dir ensures SlashFree(p) {}
      SplitJoin(dir);
      FoldPlain(dir, false, []);
      assert [] + dir == dir;
      assert path[0] == Join(dir)[0];
    }
    assert path[..1] == [path[0]];
  }

  /** Followed from the directory it leads to that place. */
  lemma {:induction false} ClimbFollowed(dir: seq<string>, up: nat, rest: seq<string>, slash: bool)
    requires AllPlain(dir) && LinkParts(rest) && up + |rest| > 0
    ensures NormPath(JoinPath(Join(dir), Climb(up, rest, slash))) == if Place(dir, up, rest) == [] then "." else Join(Place(dir, up, rest))
  {
    var place := Place(dir, up, rest);
    ClimbFold(dir, up, rest, slash);
    PlaceNamed(dir, up, rest);
    hide Climb, Place, Fold, Split, LeadingSlashes, JoinPath;
    assert Slashes(0) + Join(place) == Join(place);
    if place != [] { assert place[0] in place && Join(place) != ""; }
  }

  // ---- the pages it may mean -------------------------------------------------------------------

  lemma {:induction false} LastOfJoin(parts: seq<string>)
    requires parts != [] && forall p :: p in parts ==> SlashFree(p)
    ensures LastSegment(Join(parts)) == parts[|parts| - 1]
  {
    SplitJoin(parts);
  }

  /** The text ends with ".md" exactly when its last part does. */
  lemma {:induction false} EndsAlike(parts: seq<string>)
    requires parts != [] && forall p :: p in parts ==> SlashFree(p)
    ensures EndsWith(Join(parts), ".md") <==> EndsWith(parts[|parts| - 1], ".md")
  {
    var s, last := Join(parts), parts[|parts| - 1];
    if |parts| > 1 {
      JoinConcat(parts[..|parts| - 1], [last]);
      assert parts == parts[..|parts| - 1] + [last] && Join([last]) == last;
      var head := Join(parts[..|parts| - 1]);
      assert s == head + "/" + last;
      if |last| >= 3 {
        assert s[|s| - 3..] == last[|last| - 3..];
      } else if |s| >= 3 {
        assert s[|s| - 3..][2 - |last|] == s[|s| - 1 - |last|] == '/';
        assert ".md"[0] != '/' && ".md"[1] != '/' && ".md"[2] != '/';
      }
    }
  }

  lemma {:induction false} SlashEnds(s: string)
    ensures !EndsWith(s + "/", ".md")
  {
    var t := s + "/";
    if |t| >= 3 { assert t[|t| - 3..][2] == '/' && ".md"[2] == 'd'; }
  }

  /** A dot alone or two are no link. */
  predicate OnlyDots(up: nat, rest: seq<string>, slash: bool) { up == 1 && rest == [] && !slash }

  lemma {:induction false} LastPart(up: nat, rest: seq<string>)
    requires up + |rest| > 0
    ensures var parts := Ups(up) + rest; parts[|parts| - 1] == if rest != [] then rest[|rest| - 1] else ".."
  {
    assert up > 0 ==> Ups(up)[up - 1] in Ups(up);
  }

  lemma {:induction false} ClimbText(up: nat, rest: seq<string>, slash: bool)
    requires LinkParts(rest) && up + |rest| > 0
    ensures var base := Climb(up, rest, slash);
            && (EndsWith(base, ".md") <==> rest != [] && EndsWith(rest[|rest| - 1], ".md") && !slash)
            && (base == "." || base == ".." <==> OnlyDots(up, rest, slash)) && !Contains(base, "://")
  {
    var base, parts := Climb(up, rest, slash), Ups(up) + rest;
    ClimbSplits(up, rest, slash);
    LastPart(up, rest);
    if Contains(base, "://") { ContainsNeeds(base); }
    forall p | p in parts ensures SlashFree(p) { if p in Ups(up) { assert p == ".."; } }
    EndsAlike(parts);
    SlashEnds(Join(parts));
    assert !EndsWith("..", ".md");
    assert base == if slash then Join(parts) + "/" else Join(parts);
    DotsSplit(base, up, rest, slash);
  }

  lemma {:induction false} DotsSplit(base: string, up: nat, rest: seq<string>, slash: bool)
    requires AllPlain(rest) && up + |rest| > 0 && Split(base) == Ups(up) + rest + (if slash then [""] else [])
    ensures base == "." || base == ".." <==> OnlyDots(up, rest, slash)
  {
    SplitSlashFree(".");
    SplitSlashFree("..");
    JoinSplit(base);
    if |rest| > 0 { assert rest[0] in rest; }
    if OnlyDots(up, rest, slash) {
      assert Ups(1) == [".."] by { assert Ups(0) == []; }
      assert Split(base) == [".."];
    }
    if base == "." || base == ".." {
      assert |Ups(up) + rest + (if slash then [""] else [])| == 1;
    }
  }

  /** The same of the place it leads to. */
  lemma {:induction false} PlaceText(place: seq<string>)
    requires place != [] && forall p :: p in place ==> p != "" && p != "." && SlashFree(p)
    ensures var joined := Join(place);
            && joined != "." && joined != "" && LastSegment(joined) == place[|place| - 1] && (joined == ".." ==> '.' in place[|place| - 1])
  {
    LastOfJoin(place);
    SplitJoin(place);
    assert place[0] in place;
    SplitSlashFree(".");
    SplitSlashFree("..");
    assert Join(place) == "." ==> Split(Join(place)) == ["."];
  }

  lemma {:induction false} PlaceUndotted(dir: seq<string>, up: nat, rest: seq<string>)
    requires AllPlain(dir) && AllPlain(rest)
    ensures forall p :: p in Place(dir, up, rest) ==> p != "."
  {
    forall p | p in Place(dir, up, rest) ensures p != "." {
      if p !in rest { assert if up <= |dir| then p in dir else p == ".."; }
    }
  }

  /**
   * A link to a Markdown file means that file; one without an extension means
   * the page of that name or the index of that directory, in this order; one to
   * the top, or to another file, means no page.
   */
  lemma {:induction false} RelativeCandidates(env: Env, page: string, up: nat, rest: seq<string>, slash: bool, fragment: string)
    requires WellFormed(page) && LinkParts(rest) && up + |rest| > 0 && (fragment == "" || fragment[0] == '#')
    ensures var place := Place(Split(page)[..|Split(page)| - 1], up, rest);
            ResolveCandidates(env, page, Climb(up, rest, slash) + fragment) ==
            if rest != [] && EndsWith(rest[|rest| - 1], ".md") && !slash then [Join(place)]
            else if place == [] || OnlyDots(up, rest, slash) || '.' in place[|place| - 1] then []
            else [Join(place) + ".md", Join(place) + "/index.md"]
  {
    hide *;
    var dir := Split(page)[..|Split(page)| - 1];
    var base, place := Climb(up, rest, slash), Place(dir, up, rest);
    PartsPlain(rest);
    PageDir(page);
    BaseRead(env, page, base, fragment, up, rest, slash);
    ClimbText(up, rest, slash);
    ClimbFollowed(dir, up, rest, slash);
    PlaceNamed(dir, up, rest);
    PlaceUndotted(dir, up, rest);
    if place != [] { PlaceText(place); }
    LastPlace(dir, up, rest);
  }

  lemma {:induction false} PartsPlain(parts: seq<string>)
    requires LinkParts(parts)
    ensures AllPlain(parts)
  {}

  lemma {:induction false} PageDir(page: string)
    requires WellFormed(page)
    ensures var dir := Split(page)[..|Split(page)| - 1]; AllPlain(dir) && Dirname(page) == Join(dir)
  {
    JoinSplit(page);
    PartsArePlain(Split(page));
    DirnamePlain(Split(page));
    hide Split, Join, Dirname;
  }

  /** The candidates, told from the base of the link. */
  lemma {:induction false} BaseRead(env: Env, page: string, base: string, fragment: string, up: nat, rest: seq<string>, slash: bool)
    requires base == Climb(up, rest, slash) && LinkParts(rest) && up + |rest| > 0 && (fragment == "" || fragment[0] == '#')
    ensures ResolveCandidates(env, page, base + fragment) ==
            if base == "." || base == ".." then []
            else
              var joined := NormPath(JoinPath(Dirname(page), base));
              if EndsWith(base, ".md") then [joined]
              else if joined == "." || joined == "" || joined == ".." || '.' in LastSegment(joined) then []
              else [joined + ".md", joined + "/index.md"]
  {
    ClimbSplits(up, rest, slash);
    ClimbText(up, rest, slash);
    BeforeAll(base, fragment, '#');
    assert base + "" == base && Before(fragment, '#') == "";
    hide Climb, Before, After, Contains, NormPath, JoinPath, Dirname, LastSegment, EndsWith, OnlyDots, LinkParts;
  }

  lemma {:induction false} LastPlace(dir: seq<string>, up: nat, rest: seq<string>)
    ensures rest != [] ==> Place(dir, up, rest) != [] && forall slash :: !OnlyDots(up, rest, slash)
  {}

  // ---- the corpus analysis reads them alike ------------------------------------------------------

  /** Climbing above the top stays at the top. */
  function Within(dir: seq<string>, up: nat, rest: seq<string>): seq<string> { if up <= |dir| then Place(dir, up, rest) else rest }

  lemma {:induction false} ClampUps(n: nat, rest: seq<string>)
    requires AllPlain(rest)
    ensures CorpusLinks.Clamp(Join(Ups(n) + rest)) == if rest != [] then Join(rest) else if n > 0 then ".." else ""
  {
    var parts := Ups(n) + rest;
    if n > 1 || (n == 1 && rest != []) {
      assert parts[0] == ".." && parts[1..] == Ups(n - 1) + rest;
      assert Join(parts) == "../" + Join(parts[1..]) && ("../" + Join(parts[1..]))[..3] == "../" && ("../" + Join(parts[1..]))[3..] == Join(parts[1..]);
      ClampUps(n - 1, rest);
    } else if n == 1 {
      assert parts == [".."] by { assert Ups(0) == []; }
    } else {
      assert parts == rest;
      if rest != [] {
        StartsUp(rest);
      }
    }
  }

  lemma {:induction false} StartsUp(parts: seq<string>)
    requires parts != [] && AllPlain(parts)
    ensures !StartsWith(Join(parts), "../")
  {
    var s, p := Join(parts), parts[0];
    assert p in parts;
    assert s[..|p|] == p && forall i :: 0 <= i < |p| ==> s[i] == p[i];
    assert |s| >= 3 ==> s[..3] == [s[0], s[1], s[2]];
    if |p| >= 3 {
      assert p[2] in p;
    } else if |p| == 2 {
      assert p == [p[0], p[1]];
    } else {
      assert |s| > 1 ==> s[1] == '/';
    }
  }

  lemma {:induction false} NamedJoin(parts: seq<string>)
    requires parts != [] && AllPlain(parts)
    ensures Join(parts) != "" && Join(parts) != "." && Join(parts) != ".."
  {
    SplitJoin(parts);
    assert parts[0] in parts;
    SplitSlashFree(".");
    SplitSlashFree("..");
    assert Join(parts) == "." ==> Split(Join(parts)) == ["."];
    assert Join(parts) == ".." ==> Split(Join(parts)) == [".."];
  }

  lemma {:induction false} EndsBare(parts: seq<string>)
    requires parts != [] && forall p :: p in parts ==> p != "" && SlashFree(p)
    ensures var s := Join(parts); s != "" && s[0] != '/' && s[|s| - 1] != '/' && StripSlashes(s) == s
  {
    assert parts[0] in parts && parts[0][0] in parts[0];
    if |parts| > 1 {
      assert forall p :: p in parts[1..] ==> p in parts;
      EndsBare(parts[1..]);
    } else {
      assert parts[0][|parts[0]| - 1] in parts[0];
    }
  }

  lemma {:induction false} PlaceClamped(dir: seq<string>, up: nat, rest: seq<string>)
    requires AllPlain(dir) && AllPlain(rest)
    ensures var place, within := Place(dir, up, rest), Within(dir, up, rest);
            && AllPlain(within)
            && CorpusLinks.Clamp(StripSlashes(if place == [] then "." else Join(place))) ==
               if within != [] then Join(within) else if place == [] then "." else ".."
  {
    var place, within := Place(dir, up, rest), Within(dir, up, rest);
    PlaceNamed(dir, up, rest);
    if up <= |dir| {
      assert forall p :: p in within ==> p in dir || p in rest;
      ClampUps(0, within);
      assert Ups(0) + within == within;
    } else {
      ClampUps(up - |dir|, rest);
    }
    if place != [] {
      EndsBare(place);
    } else {
      assert StripSlashes(".") == ".";
    }
    hide Join, StripSlashes, Place, Ups;
  }

  /** The base is all there is to read: no query, and no white space around it. */
  predicate Bare(base: string) { base != "" && !IsSpace(base[0]) && !IsSpace(base[|base| - 1]) && '?' !in base }

  lemma {:induction false} BaseResolved(source: string, base: string, fragment: string)
    requires Bare(base) && '#' !in base && (fragment == "" || fragment[0] == '#') && base[0] != '/'
    ensures CorpusLinks.ResolveLink(source, base + fragment) ==
            var found := CorpusLinks.Clamp(StripSlashes(NormPath(JoinPath(Dirname(source), base))));
            Some(CorpusLinks.StripMd(if found == "" || found == "." || found == ".." then "index" else found))
  {
    BeforeAll(base, fragment, '#');
    BeforeAll(base, "", '?');
    assert base + "" == base && Before(fragment, '#') == "" && Before("", '?') == "";
    StripBare(base);
    hide Before, Strip, StripSlashes, NormPath, JoinPath, Dirname;
  }

  lemma {:induction false} StripBare(s: string)
    requires Bare(s)
    ensures Strip(s) == s
  {
    assert Seek(s, 0, NonSpace) == 0 && s[0..] == s;
  }

  /** A relative link is resolved to the same place, where climbing above the top stays there; the top is its index. */
  lemma {:induction false} ClimbResolved(source: string, up: nat, rest: seq<string>, slash: bool, fragment: string)
    requires WellFormed(source) && LinkParts(rest) && up + |rest| > 0 && (fragment == "" || fragment[0] == '#') && Bare(Climb(up, rest, slash))
    ensures var within := Within(Split(source)[..|Split(source)| - 1], up, rest);
            CorpusLinks.ResolveLink(source, Climb(up, rest, slash) + fragment) ==
            Some(CorpusLinks.StripMd(if within == [] then "index" else Join(within)))
  {
    hide *;
    var dir := Split(source)[..|Split(source)| - 1];
    PageDir(source);
    PartsPlain(rest);
    ClimbSplits(up, rest, slash);
    ClimbStarts(Climb(up, rest, slash));
    BaseResolved(source, Climb(up, rest, slash), fragment);
    ClimbFollowed(dir, up, rest, slash);
    PlaceClamped(dir, up, rest);
    if Within(dir, up, rest) != [] { NamedJoin(Within(dir, up, rest)); }
  }

  lemma {:induction false} ClimbStarts(base: string)
    requires base != "" && !StartsWith(base, "/")
    ensures base[0] != '/'
  {
    assert base[..1] == [base[0]];
  }
}
