/** Two pages whose order decides the navigation. */
module NavExample {
  import opened Text
  import opened NavTree
  import opened NavGroups
  import opened BuildNav
  import opened NavTheorems
  import opened NavPageOrder
  import PosixPath

  /** Both are in the section "S"; one is knowledge, the other an observation. */
  function Know(): Page { Page("a.md", "S/a", 0) }
  function Observed(): Page { Page("observe/b.md", "S/b", 0) }

  lemma {:induction false} OneLetter(s: string)
    requires |s| == 1 && !IsSpace(s[0])
    ensures Strip(s) == s
  {
    assert Seek(s, 0, NonSpace) == 0;
    assert s[0..] == s;
  }

  /** `"S/a"` and the like. */
  lemma {:induction false} TwoParts(page: Page, a: string, b: string)
    requires page.navPath == a + "/" + b && |a| == |b| == 1 && !IsSpace(a[0]) && !IsSpace(b[0]) && a[0] != '/' && b[0] != '/'
    ensures Parts(page) == [a, b] && InTree(page)
  {
    OneLetter(a);
    OneLetter(b);
    hide Strip;
    PosixPath.SplitAtSlash(a, b);
    PosixPath.SplitSlashFree(a);
    PosixPath.SplitSlashFree(b);
    assert Kept([b]) == [b] by { assert [b][1..] == []; }
    assert Kept([a, b]) == [a] + Kept([b]) by { assert [a, b][1..] == [b]; }
    assert [a] + [b] == [a, b];
    assert page.navPath[1] == '/' && "Home"[1] == 'o';
  }

  lemma {:induction false} KnowPlace()
    ensures Parts(Know()) == ["S", "a"] && InTree(Know()) && DomainOf(Know().path) == Domain.Know
  {
    assert "S/a" == "S" + "/" + "a";
    TwoParts(Know(), "S", "a");
    hide Parts, InTree;
    PosixPath.SplitSlashFree("a.md");
    assert "a.md"[0] == 'a' && "observe"[0] == 'o' && "model"[0] == 'm' && "work"[0] == 'w';
  }

  lemma {:induction false} ObservedPlace()
    ensures Parts(Observed()) == ["S", "b"] && InTree(Observed()) && DomainOf(Observed().path) == Observe
  {
    assert "S/b" == "S" + "/" + "b";
    TwoParts(Observed(), "S", "b");
    ObservedPath();
    hide Parts, InTree, Observed, DomainOf;
  }

  lemma {:induction false} ObservedPath()
    ensures DomainOf(Observed().path) == Observe
  {
    assert Observed().path == "observe" + "/" + "b.md";
    assert PosixPath.SlashFree("observe");
    FolderFirst("observe", "b.md");
  }

  lemma {:induction false} FolderFirst(folder: string, rest: string)
    requires PosixPath.SlashFree(folder)
    ensures PosixPath.Split(folder + "/" + rest)[0] == folder
  {
    PosixPath.SplitAtSlash(folder, rest);
    PosixPath.SplitSlashFree(folder);
  }

  /** Fronting one of two pages. */
  lemma {:induction false} FrontedPair(a: Page, b: Page, k: nat)
    requires k < 2
    ensures Fronted([a, b], k) == if k == 0 then [a, b] else [b, a]
  {}

  lemma {:induction false} Pair(norm: Normalizer, p: Page, q: Page)
    requires InTree(p) && InTree(q) && p.path != "" && q.path != "" && p.path != q.path
    requires Fit(norm, Parts(p), p.path, Parts(q), q.path)
    ensures DistinctPaths([p, q]) && AllTogether(norm, [p, q], 2)
  {
    hide Fit, Parts;
    var pages := [p, q];
    assert Sound(p) && Sound(q) && Together(norm, p, q);
    assert forall i, j :: 0 <= i < j < 2 ==> pages[i] == p && pages[j] == q;
  }

  lemma {:induction false} Swapped(p: Page, q: Page)
    requires p.path != "" && q.path != "" && p.path != q.path
    ensures Reordered([p, q], [q, p])
  {
    var one, two := [p, q], [q, p];
    assert one[0] == p && one[1] == q && two[0] == q && two[1] == p;
    assert forall r :: r in one <==> r == p || r == q;
    assert forall r :: r in two <==> r == p || r == q;
  }

  /** Both orders of these pages build, and they build different navigation. */
  lemma {:induction false} MixedSection(norm: Normalizer, sections: map<string, int>)
    requires norm("a") != norm("b")
    ensures var one, two := [Know(), Observed()], [Observed(), Know()];
            && Reordered(one, two)
            && BuiltNav(norm, sections, one).Ok? && BuiltNav(norm, sections, two).Ok?
            && BuiltNav(norm, sections, one) != BuiltNav(norm, sections, two)
  {
    KnowPlace();
    ObservedPlace();
    assert Know().path != Observed().path by { assert Know().path[0] == 'a' && Observed().path[0] == 'o'; }
    assert Know().path != "" && Observed().path != "";
    Fitting(norm);
    hide BuiltNav, Parts, DomainOf, Know, Observed, Fit, InTree, Reordered, DistinctPaths, AllTogether;
    Pair(norm, Know(), Observed());
    Pair(norm, Observed(), Know());
    Swapped(Know(), Observed());
    EveryPageOnce(norm, sections, [Know(), Observed()]);
    EveryPageOnce(norm, sections, [Observed(), Know()]);
    var other := OrderMatters(norm, sections, [Know(), Observed()], Know(), Observed());
    var k :| 0 <= k < 2 && other == Fronted([Know(), Observed()], k);
    FrontedPair(Know(), Observed(), k);
  }

  lemma {:induction false} Fitting(norm: Normalizer)
    requires norm("a") != norm("b")
    ensures Fit(norm, ["S", "a"], Know().path, ["S", "b"], Observed().path)
    ensures Fit(norm, ["S", "b"], Observed().path, ["S", "a"], Know().path)
  {
    assert ["S", "a"][1..] == ["a"] && ["S", "b"][1..] == ["b"];
  }
}
