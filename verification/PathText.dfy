/** Paths made of characters that a link destination may hold are again made of such characters. */
module PathText {
  import opened Text
  import opened PosixPath
  import opened LinkSplice
  import opened LinkResolve

  /** Neither the end of a destination nor a quote. */
  predicate CleanChar(c: char) { !In(DestEnd, c) && !In(Quote, c) }

  predicate CleanText(s: string) { forall c :: c in s ==> CleanChar(c) }

  predicate AllClean(parts: seq<string>) { forall p :: p in parts ==> CleanText(p) }

  lemma {:induction false} CleanIs(s: string)
    ensures Clean(s) <==> s != "" && CleanText(s)
  {
    if s != "" && CleanText(s) {
      forall p | 0 <= p < |s| ensures CleanChar(s[p]) { assert s[p] in s; }
    }
    if Clean(s) {
      forall c | c in s ensures CleanChar(c) { var p :| 0 <= p < |s| && s[p] == c; }
    }
  }

  lemma {:induction false} Clean2(a: string, b: string)
    requires CleanText(a) && CleanText(b)
    ensures CleanText(a + b)
  {
    hide CleanChar;
    assert forall c :: c in a + b ==> c in a || c in b;
  }

  lemma {:induction false} CleanSlice(s: string, i: nat, j: nat)
    requires i <= j <= |s| && CleanText(s)
    ensures CleanText(s[i..j])
  {
    hide CleanChar;
    assert forall c :: c in s[i..j] ==> c in s;
  }

  lemma {:induction false} SplitClean(s: string)
    requires CleanText(s)
    ensures AllClean(Split(s))
  {
    hide CleanChar;
    if s != "" {
      CleanSlice(s, 1, |s|);
      SplitClean(s[1..]);
      var rest := Split(s[1..]);
      assert rest[0] in rest;
      assert s[0] in s;
      Clean2([s[0]], rest[0]);
      assert forall p :: p in rest[1..] ==> p in rest;
    }
  }

  lemma {:induction false} JoinClean(parts: seq<string>)
    requires AllClean(parts)
    ensures CleanText(Join(parts))
  {
    assert CleanText("/");
    hide CleanChar, CleanText;
    if parts != [] {
      assert parts[0] in parts;
      assert forall p :: p in parts[1..] ==> p in parts;
      JoinClean(parts[1..]);
      Clean2(parts[0], "/");
      Clean2(parts[0] + "/", Join(parts[1..]));
    } else {
      NothingClean();
    }
  }

  lemma {:induction false} NothingClean()
    ensures CleanText("") && CleanText(".") && CleanText("/") && CleanText("..") && CleanText(".md") && CleanText("/index.md")
  {}

  lemma {:induction false} FoldClean(comps: seq<string>, rooted: bool, acc: seq<string>)
    requires AllClean(comps) && AllClean(acc)
    ensures AllClean(Fold(comps, rooted, acc))
    decreases |comps|
  {
    hide CleanText;
    if comps != [] {
      assert comps[0] in comps;
      assert forall p :: p in comps[1..] ==> p in comps;
      FoldClean(comps[1..], rooted, Push(comps[0], rooted, acc));
    }
  }

  lemma {:induction false} SlashesClean(n: nat)
    ensures CleanText(Slashes(n))
  {
    NothingClean();
    hide CleanText;
    if n > 0 {
      SlashesClean(n - 1);
      Clean2(Slashes(n - 1), "/");
    }
  }

  lemma {:induction false} NormClean(path: string)
    requires CleanText(path)
    ensures CleanText(NormPath(path)) && NormPath(path) != ""
  {
    NothingClean();
    hide CleanText, Split, Join, Fold, Slashes;
    SplitClean(path);
    AllNone();
    FoldClean(Split(path), LeadingSlashes(path) > 0, []);
    JoinClean(Fold(Split(path), LeadingSlashes(path) > 0, []));
    SlashesClean(LeadingSlashes(path));
    Clean2(Slashes(LeadingSlashes(path)), Join(Fold(Split(path), LeadingSlashes(path) > 0, [])));
  }

  lemma {:induction false} AllNone()
    ensures AllClean([])
  {}

  lemma {:induction false} JoinPathClean(a: string, b: string)
    requires CleanText(a) && CleanText(b)
    ensures CleanText(JoinPath(a, b))
  {
    NothingClean();
    hide CleanText;
    Clean2(a, "/");
    Clean2(a + "/", b);
    Clean2(a, b);
  }

  lemma {:induction false} StripRightClean(s: string)
    requires CleanText(s)
    ensures CleanText(StripRight(s))
  {
    if s != "" && s[|s| - 1] == '/' {
      CleanSlice(s, 0, |s| - 1);
      StripRightClean(s[..|s| - 1]);
    }
  }

  lemma {:induction false} DirnameClean(p: string)
    requires CleanText(p)
    ensures CleanText(Dirname(p))
  {
    hide CleanText;
    CleanSlice(p, 0, AfterLastSlash(p));
    assert p[0..AfterLastSlash(p)] == p[..AfterLastSlash(p)];
    StripRightClean(p[..AfterLastSlash(p)]);
  }

  lemma {:induction false} NonEmptyClean(parts: seq<string>)
    requires AllClean(parts)
    ensures AllClean(NonEmpty(parts)) && "" !in NonEmpty(parts)
  {
    hide CleanText;
    if parts != [] {
      assert parts[0] in parts;
      assert forall p :: p in parts[1..] ==> p in parts;
      NonEmptyClean(parts[1..]);
    }
  }

  lemma {:induction false} RelPartsClean(start: seq<string>, path: seq<string>)
    requires AllClean(path) && "" !in path
    ensures AllClean(RelParts(start, path)) && "" !in RelParts(start, path)
  {
    NothingClean();
    hide CleanText;
    var i := CommonPrefix(start, path);
    assert forall p :: p in path[i..] ==> p in path;
  }

  lemma {:induction false} JoinSome(parts: seq<string>)
    requires parts != [] && "" !in parts
    ensures Join(parts) != ""
  {
    assert parts[0] in parts;
  }

  /** `relpath` of a clean path is clean, in a working directory with a clean name. */
  lemma {:induction false} RelPathClean(cwd: string, path: string, start: string)
    requires CleanText(cwd) && CleanText(path) && path != ""
    ensures RelPath(cwd, path, start).Some?
    ensures CleanText(RelPath(cwd, path, start).value) && RelPath(cwd, path, start).value != ""
  {
    NothingClean();
    hide CleanText, AllClean, NormPath, Split, NonEmpty, RelParts, Join, JoinPath;
    JoinPathClean(cwd, path);
    NormClean(if StartsWith(path, "/") then path else JoinPath(cwd, path));
    SplitClean(AbsPath(cwd, path));
    NonEmptyClean(Split(AbsPath(cwd, path)));
    var from, to := NonEmpty(Split(AbsPath(cwd, start))), NonEmpty(Split(AbsPath(cwd, path)));
    RelPartsClean(from, to);
    JoinClean(RelParts(from, to));
    if RelParts(from, to) != [] { JoinSome(RelParts(from, to)); }
  }

  // ---- resolving and retargeting ---------------------------------------------------

  lemma {:induction false} BeforeClean(s: string, c: char)
    requires CleanText(s)
    ensures CleanText(Before(s, c)) && CleanText(After(s, c))
  {
    hide CleanChar;
    if s != "" {
      assert s[0] in s;
      CleanSlice(s, 1, |s|);
      BeforeClean(s[1..], c);
      Clean2([s[0]], Before(s[1..], c));
    }
  }

  lemma {:induction false} SplitTargetClean(target: string)
    requires CleanText(target)
    ensures CleanText(SplitTarget(target).0) && CleanText(SplitTarget(target).1)
  {
    NothingClean();
    assert CleanText("#");
    hide CleanText;
    BeforeClean(target, '#');
    Clean2("#", After(target, '#'));
  }

  /** What a clean relative destination denotes on a page with a clean path. */
  lemma {:induction false} CandidatesClean(env: Env, page: string, target: string)
    requires CleanText(page) && CleanText(target) && !SplitTarget(target).2
    ensures AllClean(ResolveCandidates(env, page, target)) && "" !in ResolveCandidates(env, page, target)
  {
    NothingClean();
    hide CleanText, NormPath, JoinPath, Dirname, SplitTarget;
    var base := SplitTarget(target).0;
    SplitTargetClean(target);
    DirnameClean(page);
    JoinPathClean(Dirname(page), base);
    NormClean(JoinPath(Dirname(page), base));
    var joined := NormPath(JoinPath(Dirname(page), base));
    Clean2(joined, ".md");
    Clean2(joined, "/index.md");
  }

  /** A clean relative destination retargeted to a clean path is clean. */
  lemma {:induction false} RetargetClean(env: Env, page: string, target: string, newPath: string)
    requires CleanText(env.cwd) && CleanText(target) && CleanText(newPath) && newPath != "" && !SplitTarget(target).2
    ensures Retarget(env, page, target, newPath).Some? && Clean(Retarget(env, page, target, newPath).value)
  {
    hide CleanText, RelPath, SplitTarget, Clean;
    SplitTargetClean(target);
    RelPathClean(env.cwd, newPath, Dirname(page));
    var rel := RelPath(env.cwd, newPath, Dirname(page)).value;
    Clean2(rel, SplitTarget(target).1);
    CleanIs(rel + SplitTarget(target).1);
  }
}
