/** The parts of Python's `posixpath` the link tooling calls. */
module PosixPath {
  import opened Text

  /** `s.split("/")`: never empty. */
  function Split(s: string): (parts: seq<string>)
    ensures |parts| >= 1
  {
    if s == [] then [[]]
    else if s[0] == '/' then [[]] + Split(s[1..])
    else
      var rest := Split(s[1..]);
      [[s[0]] + rest[0]] + rest[1..]
  }

  /** `"/".join(parts)`. */
  function Join(parts: seq<string>): string {
    if parts == [] then ""
    else if |parts| == 1 then parts[0]
    else parts[0] + "/" + Join(parts[1..])
  }

  predicate SlashFree(s: string) { '/' !in s }

  lemma {:induction false} SplitAtSlash(a: string, b: string)
    ensures Split(a + "/" + b) == Split(a) + Split(b)
  {
    var whole := a + "/" + b;
    if a == [] {
      assert whole == ['/'] + b && whole[1..] == b;
    } else {
      assert whole[1..] == a[1..] + "/" + b;
      SplitAtSlash(a[1..], b);
    }
  }

  lemma {:induction false} SplitSlashFree(s: string)
    requires SlashFree(s)
    ensures Split(s) == [s]
  {
    if s != [] {
      assert s[0] in s;
      assert forall c :: c in s[1..] ==> c in s;
      SplitSlashFree(s[1..]);
      assert [s[0]] + s[1..] == s;
    }
  }

  lemma {:induction false} SplitJoin(parts: seq<string>)
    requires parts != [] && forall p :: p in parts ==> SlashFree(p)
    ensures Split(Join(parts)) == parts
  {
    SplitSlashFree(parts[0]);
    if |parts| == 1 {
      assert [parts[0]] == parts;
    } else {
      SplitAtSlash(parts[0], Join(parts[1..]));
      SplitJoin(parts[1..]);
      assert [parts[0]] + parts[1..] == parts;
    }
  }

  lemma {:induction false} JoinSplit(s: string)
    ensures Join(Split(s)) == s
    ensures forall p :: p in Split(s) ==> SlashFree(p)
  {
    if s != [] {
      var rest := Split(s[1..]);
      JoinSplit(s[1..]);
      if s[0] == '/' {
        assert Join([[]] + rest) == [] + "/" + Join(rest) by { assert ([[]] + rest)[1..] == rest; }
        assert s == ['/'] + s[1..];
      } else {
        var parts := [[s[0]] + rest[0]] + rest[1..];
        assert parts[1..] == rest[1..];
        assert s == [s[0]] + s[1..];
        if |rest| > 1 { assert Join(parts) == ([s[0]] + rest[0]) + "/" + Join(rest[1..]); }
        assert rest[0] in rest;
      }
    }
  }

  lemma {:induction false} JoinConcat(a: seq<string>, b: seq<string>)
    requires a != [] && b != []
    ensures Join(a + b) == Join(a) + "/" + Join(b)
  {
    if |a| == 1 {
      assert (a + b)[1..] == b;
    } else {
      assert (a + b)[1..] == a[1..] + b;
      JoinConcat(a[1..], b);
    }
  }

  // ---- normpath --------------------------------------------------------------

  /** The component loop of `normpath`. */
  function Fold(comps: seq<string>, rooted: bool, acc: seq<string>): seq<string> {
    if comps == [] then acc
    else Fold(comps[1..], rooted, Push(comps[0], rooted, acc))
  }

  function Push(comp: string, rooted: bool, acc: seq<string>): seq<string> {
    if comp == "" || comp == "." then acc
    else if comp != ".." || (!rooted && acc == []) || (acc != [] && acc[|acc| - 1] == "..") then acc + [comp]
    else if acc != [] then acc[..|acc| - 1]
    else acc
  }

  /** POSIX keeps exactly two leading slashes; one or three and more count as one. */
  function LeadingSlashes(s: string): (n: nat)
    ensures n <= 2
  {
    if !StartsWith(s, "/") then 0
    else if StartsWith(s, "//") && !StartsWith(s, "///") then 2
    else 1
  }

  function Slashes(n: nat): string { if n == 0 then "" else Slashes(n - 1) + "/" }

  lemma {:induction false} SlashesAre(n: nat)
    ensures |Slashes(n)| == n && forall i :: 0 <= i < n ==> Slashes(n)[i] == '/'
  {
    if n > 0 { SlashesAre(n - 1); }
  }

  lemma {:induction false} LeadingSlashesAre(n: nat, rest: string)
    requires rest == "" || rest[0] != '/'
    ensures LeadingSlashes(Slashes(n) + rest) == if n == 0 then 0 else if n == 2 then 2 else 1
  {
    SlashesAre(n);
    hide Slashes;
    var s := Slashes(n) + rest;
    assert forall k: nat :: k < |s| ==> (s[k] == '/' <== k < n) && (k == n ==> s[k] != '/');
    assert |s| >= 1 ==> s[..1] == [s[0]];
    assert |s| >= 2 ==> s[..2] == [s[0], s[1]];
    assert |s| >= 3 ==> s[..3] == [s[0], s[1], s[2]];
  }

  function NormPath(path: string): string {
    if path == "" then "."
    else
      var n := LeadingSlashes(path);
      var p := Slashes(n) + Join(Fold(Split(path), n > 0, []));
      if p == "" then "." else p
  }

  function JoinPath(a: string, b: string): string {
    if StartsWith(b, "/") || a == "" then b
    else if EndsWith(a, "/") then a + b
    else a + "/" + b
  }

  /** One past the last '/', or 0. */
  function AfterLastSlash(p: string): (i: nat)
    ensures i <= |p|
  {
    if p == "" then 0 else if p[|p| - 1] == '/' then |p| else AfterLastSlash(p[..|p| - 1])
  }

  function StripRight(s: string): string {
    if s != "" && s[|s| - 1] == '/' then StripRight(s[..|s| - 1]) else s
  }

  function Dirname(p: string): string {
    var head := p[..AfterLastSlash(p)];
    if forall c :: c in head ==> c == '/' then head else StripRight(head)
  }

  function AbsPath(cwd: string, p: string): string { NormPath(if StartsWith(p, "/") then p else JoinPath(cwd, p)) }

  function NonEmpty(parts: seq<string>): seq<string> {
    if parts == [] then []
    else (if parts[0] == "" then [] else [parts[0]]) + NonEmpty(parts[1..])
  }

  function CommonPrefix(a: seq<string>, b: seq<string>): (n: nat)
    ensures n <= |a| && n <= |b| && a[..n] == b[..n]
    ensures n < |a| && n < |b| ==> a[n] != b[n]
  {
    if a == [] || b == [] || a[0] != b[0] then 0 else 1 + CommonPrefix(a[1..], b[1..])
  }

  function Ups(n: nat): (ups: seq<string>)
    ensures |ups| == n && forall u :: u in ups ==> u == ".."
  {
    if n == 0 then [] else [".."] + Ups(n - 1)
  }

  /** The component list of `relpath`, which becomes "." when it is empty. */
  function RelParts(start: seq<string>, path: seq<string>): seq<string> {
    var i := CommonPrefix(start, path);
    Ups(|start| - i) + path[i..]
  }

  /** `relpath(path, start)`; an empty `path` raises. */
  function RelPath(cwd: string, path: string, start: string): Option<string> {
    if path == "" then Option.None
    else
      Some(RelPathOf(NonEmpty(Split(AbsPath(cwd, start))), NonEmpty(Split(AbsPath(cwd, path)))))
  }

  // ---- lemmas ----------------------------------------------------------------

  /** A component `normpath` keeps. */
  predicate Plain(s: string) { s != "" && s != "." && s != ".." && SlashFree(s) }

  predicate AllPlain(parts: seq<string>) { forall p :: p in parts ==> Plain(p) }

  lemma {:induction false} FoldConcat(a: seq<string>, b: seq<string>, rooted: bool, acc: seq<string>)
    ensures Fold(a + b, rooted, acc) == Fold(b, rooted, Fold(a, rooted, acc))
  {
    if a == [] {
      assert a + b == b;
    } else {
      assert (a + b)[1..] == a[1..] + b;
      FoldConcat(a[1..], b, rooted, Push(a[0], rooted, acc));
    }
  }

  lemma {:induction false} FoldPlain(parts: seq<string>, rooted: bool, acc: seq<string>)
    requires AllPlain(parts)
    ensures Fold(parts, rooted, acc) == acc + parts
  {
    if parts == [] {
      assert acc + parts == acc;
    } else {
      assert parts[0] in parts;
      FoldPlain(parts[1..], rooted, acc + [parts[0]]);
      assert acc + [parts[0]] + parts[1..] == acc + parts;
    }
  }

  lemma {:induction false} FoldUps(n: nat, rooted: bool, acc: seq<string>)
    requires n <= |acc| && AllPlain(acc)
    ensures Fold(Ups(n), rooted, acc) == acc[..|acc| - n]
  {
    if n == 0 {
      assert acc[..|acc|] == acc;
    } else {
      assert acc[|acc| - 1] in acc;
      assert Ups(n)[1..] == Ups(n - 1);
      var less := acc[..|acc| - 1];
      assert forall p :: p in less ==> p in acc;
      FoldUps(n - 1, rooted, less);
      assert less[..|less| - (n - 1)] == acc[..|acc| - n];
    }
  }

  /** What `normpath` keeps is neither empty nor split by a slash. */
  lemma {:induction false} FoldKeeps(comps: seq<string>, rooted: bool, acc: seq<string>)
    requires forall p :: p in comps || p in acc ==> SlashFree(p)
    requires "" !in acc
    ensures "" !in Fold(comps, rooted, acc)
    ensures forall p :: p in Fold(comps, rooted, acc) ==> SlashFree(p)
  {
    if comps != [] {
      var next := Push(comps[0], rooted, acc);
      assert comps[0] in comps;
      assert forall p :: p in next ==> p in acc || (p == comps[0] && p != "");
      FoldKeeps(comps[1..], rooted, next);
    }
  }

  lemma {:induction false} NonEmptyConcat(a: seq<string>, b: seq<string>)
    ensures NonEmpty(a + b) == NonEmpty(a) + NonEmpty(b)
  {
    if a == [] {
      assert a + b == b;
    } else {
      assert (a + b)[1..] == a[1..] + b;
      NonEmptyConcat(a[1..], b);
    }
  }

  lemma {:induction false} NonEmptyAll(parts: seq<string>)
    requires "" !in parts
    ensures NonEmpty(parts) == parts
  {
    if parts != [] {
      NonEmptyAll(parts[1..]);
      assert parts == [parts[0]] + parts[1..];
    }
  }

  /** Splitting a rendered path gives its components back. */
  lemma {:induction false} NonEmptyRendered(n: nat, comps: seq<string>)
    requires "" !in comps && forall p :: p in comps ==> SlashFree(p)
    ensures NonEmpty(Split(Slashes(n) + Join(comps))) == comps
  {
    if n == 0 {
      assert Slashes(0) + Join(comps) == Join(comps);
      if comps != [] { SplitJoin(comps); NonEmptyAll(comps); }
    } else {
      var rest := Join(comps);
      assert Slashes(n) + rest == Slashes(n - 1) + "/" + rest;
      SplitAtSlash(Slashes(n - 1), rest);
      NonEmptySlashes(n - 1);
      NonEmptyConcat(Split(Slashes(n - 1)), Split(rest));
      NonEmptyRendered(0, comps);
      assert Slashes(0) + rest == rest;
    }
  }

  lemma {:induction false} NonEmptySlashes(n: nat)
    ensures NonEmpty(Split(Slashes(n))) == []
  {
    if n > 0 {
      assert Slashes(n) == Slashes(n - 1) + "/" + "";
      SplitAtSlash(Slashes(n - 1), "");
      NonEmptySlashes(n - 1);
      NonEmptyConcat(Split(Slashes(n - 1)), Split(""));
    }
  }

  /** Joining two paths and normalising is normalising one after the other. */
  lemma {:induction false} FoldJoinPath(a: string, b: string, rooted: bool)
    requires a != "" && !StartsWith(b, "/")
    ensures Fold(Split(JoinPath(a, b)), rooted, []) == Fold(Split(b), rooted, Fold(Split(a), rooted, []))
  {
    if EndsWith(a, "/") {
      var x := a[..|a| - 1];
      assert a == x + "/" + "" && a + b == x + "/" + b;
      SplitAtSlash(x, b);
      SplitAtSlash(x, "");
      FoldConcat(Split(x), Split(b), rooted, []);
      FoldConcat(Split(x), [""], rooted, []);
      assert Fold([""], rooted, Fold(Split(x), rooted, [])) == Fold(Split(x), rooted, []);
    } else {
      SplitAtSlash(a, b);
      FoldConcat(Split(a), Split(b), rooted, []);
    }
  }

  lemma {:induction false} JoinStartsPlain(parts: seq<string>)
    requires parts != [] && AllPlain(parts)
    ensures parts[0] != "" && Join(parts) != "" && Join(parts)[0] == parts[0][0] && Join(parts)[0] != '/'
    ensures !StartsWith(Join(parts), "/")
  {
    assert parts[0] in parts;
    assert parts[0][0] in parts[0];
  }

  lemma {:induction false} JoinEndsPlain(parts: seq<string>)
    requires parts != [] && AllPlain(parts)
    ensures var s, last := Join(parts), parts[|parts| - 1];
            && |last| <= |s| && s[|s| - |last|..] == last && s != "" && s[|s| - 1] != '/'
  {
    assert parts[|parts| - 1] in parts;
    var last := parts[|parts| - 1];
    assert last[|last| - 1] in last;
    if |parts| > 1 { JoinEndsPlain(parts[1..]); }
  }

  /** The components of a relative path made absolute, for a plain path. */
  lemma {:induction false} AbsParts(cwd: string, parts: seq<string>)
    requires StartsWith(cwd, "/") && AllPlain(parts)
    ensures NonEmpty(Split(AbsPath(cwd, Join(parts)))) == Fold(Split(cwd), true, []) + parts
  {
    var p := Join(parts);
    if parts != [] { JoinStartsPlain(parts); }
    var whole := JoinPath(cwd, p);
    FoldJoinPath(cwd, p, true);
    var base := Fold(Split(cwd), true, []);
    if parts == [] {
      assert Fold(Split(""), true, base) == base == base + parts;
    } else {
      SplitJoin(parts);
      FoldPlain(parts, true, base);
    }
    JoinSplit(cwd);
    FoldKeeps(Split(cwd), true, []);
    assert whole[0] == '/' && StartsWith(whole, "/") by { assert cwd[..1] == "/"; assert whole[..1] == cwd[..1]; }
    NonEmptyRendered(LeadingSlashes(whole), base + parts);
    RootedNotDot(LeadingSlashes(whole), base + parts);
  }

  lemma {:induction false} RootedNotDot(n: nat, comps: seq<string>)
    requires n > 0
    ensures Slashes(n) + Join(comps) != ""
  {
    assert |Slashes(n)| > 0;
  }

  lemma {:induction false} CommonPrefixShared(c: seq<string>, a: seq<string>, b: seq<string>)
    ensures CommonPrefix(c + a, c + b) == |c| + CommonPrefix(a, b)
  {
    if c == [] {
      assert c + a == a && c + b == b;
    } else {
      assert (c + a)[1..] == c[1..] + a && (c + b)[1..] == c[1..] + b;
      CommonPrefixShared(c[1..], a, b);
    }
  }

  /** `relpath` over the components of two absolute paths. */
  function RelPathOf(start: seq<string>, path: seq<string>): string {
    var rel := RelParts(start, path);
    if rel == [] then "." else Join(rel)
  }

  lemma {:induction false} RelPartsShared(c: seq<string>, start: seq<string>, path: seq<string>)
    ensures RelParts(c + start, c + path) == RelParts(start, path)
  {
    CommonPrefixShared(c, start, path);
    assert (c + path)[|c| + CommonPrefix(start, path)..] == path[CommonPrefix(start, path)..];
  }

  /** For plain paths `relpath` does not depend on the working directory. */
  lemma {:induction false} RelPathPlain(cwd: string, path: seq<string>, start: seq<string>)
    requires StartsWith(cwd, "/") && AllPlain(path) && AllPlain(start) && path != []
    ensures RelPath(cwd, Join(path), Join(start)) == Some(RelPathOf(start, path))
  {
    JoinStartsPlain(path);
    AbsParts(cwd, path);
    AbsParts(cwd, start);
    RelPartsShared(Fold(Split(cwd), true, []), start, path);
  }

  lemma {:induction false} AfterLastSlashAt(a: string, b: string)
    requires SlashFree(b)
    ensures AfterLastSlash(a + "/" + b) == |a| + 1
  {
    var whole := a + "/" + b;
    if b != [] {
      assert b[|b| - 1] in b;
      assert whole[..|whole| - 1] == a + "/" + b[..|b| - 1];
      assert forall c :: c in b[..|b| - 1] ==> c in b;
      AfterLastSlashAt(a, b[..|b| - 1]);
    }
  }

  lemma {:induction false} AfterLastSlashFree(b: string)
    requires SlashFree(b)
    ensures AfterLastSlash(b) == 0
  {
    if b != [] {
      assert b[|b| - 1] in b;
      assert forall c :: c in b[..|b| - 1] ==> c in b;
      AfterLastSlashFree(b[..|b| - 1]);
    }
  }

  lemma {:induction false} DirnameOf(dir: string, name: string)
    requires SlashFree(name) && dir != "" && dir[0] != '/' && dir[|dir| - 1] != '/'
    ensures Dirname(dir + "/" + name) == dir
  {
    AfterLastSlashAt(dir, name);
    var p := dir + "/" + name;
    var head := p[..AfterLastSlash(p)];
    assert head == dir + "/";
    assert head[0] == dir[0] && head[0] in head;
    assert head[|head| - 1] == '/' && head[..|head| - 1] == dir;
    assert StripRight(head) == StripRight(dir) == dir;
  }

  lemma {:induction false} DirnamePlain(parts: seq<string>)
    requires parts != [] && AllPlain(parts)
    ensures Dirname(Join(parts)) == Join(parts[..|parts| - 1])
  {
    hide Dirname;
    var dir, name := parts[..|parts| - 1], parts[|parts| - 1];
    assert SlashFree(name) by { assert name in parts; }
    if dir == [] {
      DirnameBare(name);
      assert parts == [name];
    } else {
      PlainDir(dir, name, parts);
      DirnameOf(Join(dir), name);
    }
  }

  lemma {:induction false} DirnameBare(name: string)
    requires SlashFree(name)
    ensures Dirname(name) == ""
  {
    AfterLastSlashFree(name);
  }

  lemma {:induction false} PlainDir(dir: seq<string>, name: string, parts: seq<string>)
    requires AllPlain(parts) && dir != [] && parts == dir + [name]
    ensures Join(parts) == Join(dir) + "/" + name
    ensures Join(dir) != "" && Join(dir)[0] != '/' && Join(dir)[|Join(dir)| - 1] != '/'
  {
    assert AllPlain(dir) by { assert forall p :: p in dir ==> p in parts; }
    JoinConcat(dir, [name]);
    JoinStartsPlain(dir);
    JoinEndsPlain(dir);
  }

  /** Walking back from `start` to `path` along `RelParts` lands on `path`. */
  lemma {:induction false} FoldRelParts(start: seq<string>, path: seq<string>, rooted: bool)
    requires AllPlain(start) && AllPlain(path)
    ensures Fold(start + RelParts(start, path), rooted, []) == path
  {
    var i := CommonPrefix(start, path);
    FoldAfter(start, RelParts(start, path), rooted);
    FoldConcat(Ups(|start| - i), path[i..], rooted, start);
    FoldUps(|start| - i, rooted, start);
    FoldDown(path, i, rooted);
  }

  lemma {:induction false} FoldAfter(start: seq<string>, rest: seq<string>, rooted: bool)
    requires AllPlain(start)
    ensures Fold(start + rest, rooted, []) == Fold(rest, rooted, start)
  {
    FoldConcat(start, rest, rooted, []);
    FoldPlain(start, rooted, []);
    assert [] + start == start;
  }

  lemma {:induction false} FoldDown(path: seq<string>, i: nat, rooted: bool)
    requires i <= |path| && AllPlain(path)
    ensures Fold(path[i..], rooted, path[..i]) == path
  {
    assert forall p :: p in path[i..] ==> p in path;
    FoldPlain(path[i..], rooted, path[..i]);
    assert path[..i] + path[i..] == path;
  }
}
