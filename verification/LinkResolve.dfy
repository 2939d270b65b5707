/** What corpus page a link denotes, and how a destination is written for a page. */
module LinkResolve {
  import opened Text
  import opened PosixPath

  /** The working directory and `urllib.parse.unquote`, which this model takes as given. */
  datatype Env = Env(cwd: string, unquote: string -> string)

  ghost predicate ValidEnv(env: Env) {
    && StartsWith(env.cwd, "/")
    && forall s :: '%' !in s ==> env.unquote(s) == s
  }

  // ---- well-formed corpus paths ----------------------------------------------

  predicate PathChar(c: char) { 'a' <= c <= 'z' || '0' <= c <= '9' || c == '_' || c == '-' }

  predicate Segment(s: string) { s != "" && forall c :: c in s ==> PathChar(c) }

  predicate PageName(s: string) { |s| > 3 && s[|s| - 3..] == ".md" && Segment(s[..|s| - 3]) }

  /** Directory segments and then a page name. */
  predicate PageParts(parts: seq<string>) {
    && parts != [] && PageName(parts[|parts| - 1])
    && forall i :: 0 <= i < |parts| - 1 ==> Segment(parts[i])
  }

  /** `^[a-z0-9/_-]+\.md$` with no empty segment and a non-empty stem. */
  predicate WellFormed(p: string) { PageParts(Split(p)) }

  // ---- resolution ------------------------------------------------------------

  function Before(s: string, c: char): string {
    if s == "" || s[0] == c then "" else [s[0]] + Before(s[1..], c)
  }

  function After(s: string, c: char): string {
    if s == "" then "" else if s[0] == c then s[1..] else After(s[1..], c)
  }

  predicate Contains(s: string, sub: string) {
    StartsWith(s, sub) || (s != "" && Contains(s[1..], sub))
  }

  /** `split_target`: base, "#fragment" or "", and whether it is root-absolute. */
  function SplitTarget(target: string): (string, string, bool) {
    var base, fragment := Before(target, '#'), After(target, '#');
    (base, if fragment == "" then "" else "#" + fragment, StartsWith(base, "/"))
  }

  function StripSlashes(s: string): string {
    if s != "" && s[0] == '/' then StripSlashes(s[1..]) else StripRight(s)
  }

  function LastSegment(s: string): string { Split(s)[|Split(s)| - 1] }

  function AbsoluteCandidates(env: Env, target: string): seq<string> {
    if !StartsWith(target, "/") || StartsWith(target, "//") || Contains(target, "://") then []
    else
      var core := StripSlashes(env.unquote(Before(Before(target, '#'), '?')));
      if core == "" then ["index.md"]
      else if EndsWith(core, ".md") then [core]
      else if '.' in LastSegment(core) then []
      else [core + ".md", core + "/index.md"]
  }

  function ResolveCandidates(env: Env, page: string, target: string): seq<string> {
    var (base, _, rootAbsolute) := SplitTarget(target);
    if Contains(base, "://") then []
    else if rootAbsolute then AbsoluteCandidates(env, base)
    else if base == "" || base == "." || base == ".." then []
    else
      var joined := NormPath(JoinPath(Dirname(page), base));
      if EndsWith(base, ".md") then [joined]
      else if joined == "." || joined == "" || joined == ".." then []
      else if '.' in LastSegment(joined) then []
      else [joined + ".md", joined + "/index.md"]
  }

  /** `resolve`: the first candidate, if any. */
  function Resolve(env: Env, page: string, target: string): Option<string> {
    var cands := ResolveCandidates(env, page, target);
    if cands == [] then Option.None else Some(cands[0])
  }

  /** `retarget`; None where `relpath` raises, on an empty new path. */
  function Retarget(env: Env, page: string, target: string, newPath: string): Option<string> {
    var (_, fragment, rootAbsolute) := SplitTarget(target);
    if rootAbsolute then Some("/" + newPath + fragment)
    else
      match RelPath(env.cwd, newPath, Dirname(page))
      case None => Option.None
      case Some(rel) => Some(rel + fragment)
  }

  // ---- facts about well-formed paths -----------------------------------------

  lemma {:induction false} SegmentIsPlain(s: string)
    requires Segment(s)
    ensures Plain(s) && '#' !in s && ':' !in s && '?' !in s && '%' !in s && '.' !in s
  {
    assert s[0] in s;
    assert forall c :: c in s ==> PathChar(c);
  }

  lemma {:induction false} PageNameIsPlain(s: string)
    requires PageName(s)
    ensures Plain(s) && '#' !in s && ':' !in s && '?' !in s && '%' !in s
  {
    var stem := s[..|s| - 3];
    SegmentIsPlain(stem);
    assert s == stem + ".md";
    assert s[0] == stem[0] && s[0] in stem;
  }

  lemma {:induction false} PartsArePlain(parts: seq<string>)
    requires PageParts(parts)
    ensures AllPlain(parts) && AllPlain(parts[..|parts| - 1])
    ensures forall p :: p in parts ==> '#' !in p && ':' !in p && '?' !in p && '%' !in p
  {
    forall p | p in parts ensures Plain(p) && '#' !in p && ':' !in p && '?' !in p && '%' !in p {
      var i :| 0 <= i < |parts| && parts[i] == p;
      if i < |parts| - 1 { SegmentIsPlain(p); } else { PageNameIsPlain(p); }
    }
    assert forall p :: p in parts[..|parts| - 1] ==> p in parts;
  }

  lemma {:induction false} JoinAvoids(parts: seq<string>, c: char)
    requires c != '/' && forall p :: p in parts ==> c !in p
    ensures c !in Join(parts)
  {
    if |parts| == 1 {
      assert parts[0] in parts;
    } else if parts != [] {
      assert parts[0] in parts;
      JoinAvoids(parts[1..], c);
    }
  }

  lemma {:induction false} BeforeAll(s: string, rest: string, c: char)
    requires c !in s
    ensures Before(s + rest, c) == s + Before(rest, c)
    ensures After(s + rest, c) == After(rest, c)
  {
    if s == "" {
      assert s + rest == rest;
    } else {
      assert s[0] in s;
      assert (s + rest)[1..] == s[1..] + rest;
      assert forall d :: d in s[1..] ==> d in s;
      BeforeAll(s[1..], rest, c);
      assert s == [s[0]] + s[1..];
    }
  }

  /** A destination with a fragment that came out of `split_target` splits back. */
  lemma {:induction false} FragmentKept(base: string, target: string)
    requires '#' !in base
    ensures SplitTarget(base + SplitTarget(target).1) == (base, SplitTarget(target).1, StartsWith(base, "/"))
  {
    var fragment := SplitTarget(target).1;
    BeforeAll(base, fragment, '#');
    assert base + "" == base;
    if fragment != "" { assert fragment[1..] == After(target, '#'); }
  }

  lemma {:induction false} ContainsNeeds(s: string)
    requires Contains(s, "://")
    ensures ':' in s
  {
    if StartsWith(s, "://") { assert s[0] == s[..3][0]; } else { ContainsNeeds(s[1..]); }
  }

  /** The last part of a path that climbs from a directory and comes down to a page. */
  lemma {:induction false} RelPartsEnd(start: seq<string>, path: seq<string>)
    requires PageParts(path) && (forall s :: s in start ==> Segment(s))
    ensures var rel := RelParts(start, path);
            rel != [] && rel[|rel| - 1] == path[|path| - 1]
    ensures forall p :: p in RelParts(start, path) ==> SlashFree(p) && p != "" && '#' !in p && ':' !in p
  {
    var i := CommonPrefix(start, path);
    PartsArePlain(path);
    var name := path[|path| - 1];
    assert name[|name| - 3..][0] == '.' && name[|name| - 3] in name;
    assert name !in start by { if name in start { SegmentIsPlain(name); } }
    assert i > 0 ==> start[i - 1] in start && start[..i][i - 1] == path[..i][i - 1];
    assert forall p :: p in path[i..] ==> p in path;
  }

  lemma {:induction false} JoinEndsWith(parts: seq<string>)
    requires parts != []
    ensures EndsWith(Join(parts), parts[|parts| - 1])
  {
    if |parts| > 1 { JoinEndsWith(parts[1..]); }
  }

  lemma {:induction false} EndsWithMd(s: string, name: string)
    requires EndsWith(s, name) && PageName(name)
    ensures EndsWith(s, ".md")
  {
    assert s[|s| - 3..] == s[|s| - |name|..][|name| - 3..];
  }

  // ---- resolve inverts retarget ----------------------------------------------

  /** `relpath` between well-formed paths, as a string. */
  lemma {:induction false} RelToPage(env: Env, page: string, newPath: string) returns (rel: seq<string>)
    requires ValidEnv(env) && WellFormed(page) && WellFormed(newPath)
    ensures rel == RelParts(Split(page)[..|Split(page)| - 1], Split(newPath)) && rel != []
    ensures RelPath(env.cwd, newPath, Dirname(page)) == Some(Join(rel))
    ensures EndsWith(Join(rel), ".md") && '#' !in Join(rel) && ':' !in Join(rel)
    ensures forall p :: p in rel ==> SlashFree(p) && p != ""
    ensures !StartsWith(Join(rel), "/")
  {
    hide Split, Join, RelPath, Dirname, RelParts;
    var dir, path := Split(page)[..|Split(page)| - 1], Split(newPath);
    JoinSplit(page);
    JoinSplit(newPath);
    PartsArePlain(Split(page));
    PartsArePlain(path);
    DirnamePlain(Split(page));
    RelPathPlain(env.cwd, path, dir);
    rel := RelParts(dir, path);
    RelPartsEnd(dir, path);
    JoinEndsWith(rel);
    EndsWithMd(Join(rel), rel[|rel| - 1]);
    JoinAvoids(rel, '#');
    JoinAvoids(rel, ':');
    RelHead(rel);
  }

  lemma {:induction false} RelHead(rel: seq<string>)
    requires rel != [] && forall p :: p in rel ==> SlashFree(p) && p != ""
    ensures !StartsWith(Join(rel), "/")
  {
    assert rel[0] in rel;
    assert rel[0][0] in rel[0];
    assert Join(rel)[0] == rel[0][0];
  }

  /** Following a relative path from the page's directory reaches the page it was computed for. */
  lemma {:induction false} FollowRel(page: string, newPath: string, rel: seq<string>)
    requires WellFormed(page) && WellFormed(newPath)
    requires rel == RelParts(Split(page)[..|Split(page)| - 1], Split(newPath)) && rel != []
    requires (forall p :: p in rel ==> SlashFree(p) && p != "") && !StartsWith(Join(rel), "/")
    ensures NormPath(JoinPath(Dirname(page), Join(rel))) == newPath
  {
    var dir, path := Split(page)[..|Split(page)| - 1], Split(newPath);
    JoinSplit(page);
    JoinSplit(newPath);
    PartsArePlain(Split(page));
    PartsArePlain(path);
    DirnamePlain(Split(page));
    SplitJoin(rel);
    FoldRelParts(dir, path, false);
    JoinStartsPlain(path);
    if dir == [] {
      assert dir + rel == rel;
      assert JoinPath("", Join(rel)) == Join(rel) != "";
    } else {
      JoinStartsPlain(dir);
      JoinEndsPlain(dir);
      SplitJoin(dir);
      FoldJoinPath(Join(dir), Join(rel), false);
      FoldConcat(dir, rel, false, []);
      assert JoinPath(Join(dir), Join(rel))[0] == Join(dir)[0];
    }
    assert Slashes(0) + Join(path) == Join(path);
  }

  /**
   * A destination written for `page` resolves, on `page`, to exactly the page it
   * was written for, with the old destination's fragment.
   */
  lemma {:induction false} ResolveInvertsRetarget(env: Env, page: string, target: string, newPath: string)
    requires ValidEnv(env) && WellFormed(page) && WellFormed(newPath)
    ensures Retarget(env, page, target, newPath).Some?
    ensures ResolveCandidates(env, page, Retarget(env, page, target, newPath).value) == [newPath]
    ensures SplitTarget(Retarget(env, page, target, newPath).value).1 == SplitTarget(target).1
    ensures SplitTarget(Retarget(env, page, target, newPath).value).2 == SplitTarget(target).2
  {
    if SplitTarget(target).2 {
      RootRetarget(env, page, target, newPath);
    } else {
      var rel := RelToPage(env, page, newPath);
      FragmentKept(Join(rel), target);
      FollowRel(page, newPath, rel);
      if Contains(Join(rel), "://") { ContainsNeeds(Join(rel)); }
      assert Join(rel)[|Join(rel)| - 3..] == ".md";
    }
  }

  lemma {:induction false} RootRetarget(env: Env, page: string, target: string, newPath: string)
    requires ValidEnv(env) && WellFormed(newPath) && SplitTarget(target).2
    ensures Retarget(env, page, target, newPath) == Some("/" + newPath + SplitTarget(target).1)
    ensures SplitTarget("/" + newPath + SplitTarget(target).1) == ("/" + newPath, SplitTarget(target).1, true)
    ensures ResolveCandidates(env, page, "/" + newPath + SplitTarget(target).1) == [newPath]
  {
    JoinSplit(newPath);
    var parts := Split(newPath);
    PartsArePlain(parts);
    JoinAvoids(parts, '#');
    JoinAvoids(parts, ':');
    var base := "/" + newPath;
    FragmentKept(base, target);
    RootBase(env, newPath);
  }

  lemma {:induction false} RootBase(env: Env, newPath: string)
    requires ValidEnv(env) && WellFormed(newPath)
    ensures !Contains("/" + newPath, "://")
    ensures AbsoluteCandidates(env, "/" + newPath) == [newPath]
  {
    var base := "/" + newPath;
    WellFormedText(newPath);
    RootCore(env, newPath);
    RootNoScheme(newPath);
    RootStripped(newPath);
    hide StripSlashes, Contains, WellFormed, Before, LastSegment;
    assert base[..2][1] == newPath[0];
  }

  lemma {:induction false} RootNoScheme(newPath: string)
    requires ':' !in newPath
    ensures !Contains("/" + newPath, "://")
  {
    if Contains("/" + newPath, "://") { ContainsNeeds("/" + newPath); }
  }

  lemma {:induction false} RootStripped(newPath: string)
    requires newPath != "" && newPath[0] != '/' && newPath[|newPath| - 1] != '/'
    ensures StripSlashes("/" + newPath) == newPath
  {
    assert ("/" + newPath)[1..] == newPath;
    assert StripSlashes("/" + newPath) == StripSlashes(newPath);
  }

  /** What a well-formed path looks like as text. */
  lemma {:induction false} WellFormedText(newPath: string)
    requires WellFormed(newPath)
    ensures newPath != "" && newPath[0] != '/' && newPath[|newPath| - 1] != '/'
    ensures EndsWith(newPath, ".md") && ':' !in newPath
  {
    hide Split, Join;
    JoinSplit(newPath);
    var parts := Split(newPath);
    PartsArePlain(parts);
    JoinAvoids(parts, ':');
    JoinStartsPlain(parts);
    JoinEndsPlain(parts);
    JoinEndsWith(parts);
    EndsWithMd(newPath, parts[|parts| - 1]);
  }

  /** No fragment, no query and nothing to unquote in a well-formed path. */
  lemma {:induction false} RootCore(env: Env, newPath: string)
    requires ValidEnv(env) && WellFormed(newPath)
    ensures var base := "/" + newPath; env.unquote(Before(Before(base, '#'), '?')) == base
  {
    JoinSplit(newPath);
    var parts := Split(newPath);
    PartsArePlain(parts);
    JoinAvoids(parts, '#');
    JoinAvoids(parts, '?');
    JoinAvoids(parts, '%');
    var base := "/" + newPath;
    BeforeAll(base, "", '#');
    BeforeAll(base, "", '?');
    assert base + "" == base;
  }
}
