/** `build_nav`: when it succeeds, what it keeps, and when page order does not matter. */
module BuildNav {
  import opened Text
  import opened NavTree
  import opened NavGroups
  import PosixPath

  datatype Page = Page(path: string, navPath: string, navOrder: int)

  /** The stripped non-empty parts of a list. */
  function Kept(parts: seq<string>): seq<string> {
    if parts == [] then [] else (if Strip(parts[0]) == "" then [] else [Strip(parts[0])]) + Kept(parts[1..])
  }

  /** `[part.strip() for part in nav_path.split("/") if part.strip()]`. */
  function Parts(page: Page): seq<string> { Kept(PosixPath.Split(page.navPath)) }

  predicate IsHome(page: Page) { page.navPath == "Home" }

  /** A page that has a place in the tree. */
  predicate InTree(page: Page) { !IsHome(page) && |Parts(page)| >= 2 }

  // ---- the tree ----------------------------------------------------------------------

  /** The tree and the home page, "" while there is none. */
  datatype State = State(tree: Forest, home: string)

  function Add(norm: Normalizer, s: State, page: Page): Result<State, Conflict> {
    if IsHome(page) then if s.home != "" && s.home != page.path then Err(DuplicateHome) else Ok(s.(home := page.path))
    else if |Parts(page)| < 2 then Err(InvalidPath)
    else
      match Insert(norm, s.tree, Parts(page), page.path)
      case Err(e) => Err(e)
      case Ok(tree) => Ok(s.(tree := tree))
  }

  function Build(norm: Normalizer, pages: seq<Page>, n: nat): Result<State, Conflict>
    requires n <= |pages|
  {
    if n == 0 then Ok(State(End, ""))
    else
      match Build(norm, pages, n - 1)
      case Err(e) => Err(e)
      case Ok(s) => Add(norm, s, pages[n - 1])
  }

  /** Pages have paths, and each its own: `docs.pages.path` is unique. */
  predicate DistinctPaths(pages: seq<Page>) {
    && (forall i :: 0 <= i < |pages| ==> pages[i].path != "")
    && (forall i, j :: 0 <= i < j < |pages| ==> pages[i].path != pages[j].path)
  }

  /** Two pages do not conflict. */
  predicate Together(norm: Normalizer, a: Page, b: Page)
    requires Sound(a) && Sound(b)
  {
    if IsHome(a) || IsHome(b) then !(IsHome(a) && IsHome(b)) else Fit(norm, Parts(a), a.path, Parts(b), b.path)
  }

  predicate Sound(page: Page) { IsHome(page) || InTree(page) }

  /** The pages `pages[..n]` can share a tree. */
  ghost predicate AllTogether(norm: Normalizer, pages: seq<Page>, n: nat)
    requires n <= |pages|
  {
    && (forall i :: 0 <= i < n ==> Sound(pages[i]))
    && (forall i, j :: 0 <= i < j < n ==> Together(norm, pages[i], pages[j]))
  }

  /** The page with this place in the tree is among the first `n`. */
  ghost predicate Placed(pages: seq<Page>, n: nat, parts: seq<string>, path: string)
    requires n <= |pages|
  {
    exists i :: 0 <= i < n && IsAt(pages[i], parts, path)
  }

  predicate IsAt(page: Page, parts: seq<string>, path: string) { InTree(page) && Parts(page) == parts && page.path == path }

  /** The path of the first page under a top-level label. */
  function FirstUnder(pages: seq<Page>, n: nat, text: string): Option<string>
    requires n <= |pages|
  {
    if n == 0 then Option.None
    else
      var found := FirstUnder(pages, n - 1, text);
      if found.Some? then found
      else if InTree(pages[n - 1]) && Parts(pages[n - 1])[0] == text then Some(pages[n - 1].path)
      else Option.None
  }

  function PathsOf(pages: seq<Page>, n: nat): multiset<string>
    requires n <= |pages|
  {
    if n == 0 then multiset{} else PathsOf(pages, n - 1) + multiset{pages[n - 1].path}
  }

  function HomePaths(s: State): multiset<string> { if s.home == "" then multiset{} else multiset{s.home} }

  /** What the state holds after `n` pages. */
  ghost predicate Holding(norm: Normalizer, pages: seq<Page>, n: nat, s: State)
    requires n <= |pages|
  {
    && WellFormed(norm, s.tree) && HoldsPages(pages, n, s.tree) && HoldsHome(pages, n, s.home)
    && Paths(s.tree) + HomePaths(s) == PathsOf(pages, n)
    && HoldsFirst(pages, n, s.tree)
  }

  ghost predicate HoldsPages(pages: seq<Page>, n: nat, tree: Forest)
    requires n <= |pages|
  {
    forall q, path :: Holds(tree, q, path) <==> Placed(pages, n, q, path)
  }

  ghost predicate HoldsHome(pages: seq<Page>, n: nat, home: string)
    requires n <= |pages|
  {
    && (forall i :: 0 <= i < n && IsHome(pages[i]) ==> home == pages[i].path)
    && (home != "" ==> exists i :: 0 <= i < n && IsHome(pages[i]))
  }

  ghost predicate HoldsFirst(pages: seq<Page>, n: nat, tree: Forest)
    requires n <= |pages|
  {
    forall text :: Under(tree, text) == FirstUnder(pages, n, text)
  }

  /** Fitting every page in the tree is fitting every page put there. */
  lemma {:induction false} FitsPlaced(norm: Normalizer, pages: seq<Page>, n: nat, s: State)
    requires n < |pages| && Holding(norm, pages, n, s) && AllTogether(norm, pages, n) && InTree(pages[n])
    ensures FitsAll(norm, s.tree, Parts(pages[n]), pages[n].path) <==> AllTogether(norm, pages, n + 1)
  {
    hide Fit, Parts, HoldsFirst, WellFormed;
    var p := pages[n];
    if FitsAll(norm, s.tree, Parts(p), p.path) {
      forall i | 0 <= i < n ensures Together(norm, pages[i], p) {
        if InTree(pages[i]) {
          assert IsAt(pages[i], Parts(pages[i]), pages[i].path);
          assert Holds(s.tree, Parts(pages[i]), pages[i].path);
          FitSymmetric(norm, Parts(p), p.path, Parts(pages[i]), pages[i].path);
        }
      }
    } else if AllTogether(norm, pages, n + 1) {
      forall q, path | Holds(s.tree, q, path) ensures q != [] && Fit(norm, Parts(p), p.path, q, path) {
        var i :| 0 <= i < n && IsAt(pages[i], q, path);
        assert Together(norm, pages[i], p);
        FitSymmetric(norm, Parts(p), p.path, q, path);
      }
    }
  }

  lemma {:induction false} AddHome(norm: Normalizer, pages: seq<Page>, n: nat, s: State)
    requires n < |pages| && DistinctPaths(pages) && Holding(norm, pages, n, s) && AllTogether(norm, pages, n) && IsHome(pages[n])
    ensures Add(norm, s, pages[n]).Ok? <==> AllTogether(norm, pages, n + 1)
    ensures Add(norm, s, pages[n]).Ok? ==> Holding(norm, pages, n + 1, Add(norm, s, pages[n]).value)
  {
    hide HoldsFirst, WellFormed, Paths, PathsOf, HoldsPages, Fit;
    if s.home != "" {
      var i :| 0 <= i < n && IsHome(pages[i]);
      assert s.home == pages[i].path != pages[n].path;
      assert !Together(norm, pages[i], pages[n]);
    } else {
      forall i | 0 <= i < n ensures Together(norm, pages[i], pages[n]) {}
      PlacedStays(pages, n);
      FirstStays(pages, n, s.tree);
      HomeTakes(norm, pages, n, s);
    }
  }

  lemma {:induction false} HomeTakes(norm: Normalizer, pages: seq<Page>, n: nat, s: State)
    requires n < |pages| && s.home == "" && DistinctPaths(pages) && IsHome(pages[n])
    requires Holding(norm, pages, n, s) && HoldsFirst(pages, n + 1, s.tree)
    requires forall q, path :: Placed(pages, n + 1, q, path) <==> Placed(pages, n, q, path)
    ensures Holding(norm, pages, n + 1, s.(home := pages[n].path))
  {
    hide HoldsFirst, Placed, Holds, WellFormed;
    assert pages[n].path != "" && HoldsHome(pages, n + 1, pages[n].path);
    hide HoldsHome, DistinctPaths;
    assert Paths(s.tree) + multiset{pages[n].path} == PathsOf(pages, n + 1);
  }

  lemma {:induction false} FirstStays(pages: seq<Page>, n: nat, tree: Forest)
    requires n < |pages| && !InTree(pages[n]) && HoldsFirst(pages, n, tree)
    ensures HoldsFirst(pages, n + 1, tree)
  {}

  lemma {:induction false} PlacedStays(pages: seq<Page>, n: nat)
    requires n < |pages| && !InTree(pages[n])
    ensures forall q, path :: Placed(pages, n + 1, q, path) <==> Placed(pages, n, q, path)
  {
    forall q, path | Placed(pages, n + 1, q, path) ensures Placed(pages, n, q, path) {
      var i :| 0 <= i < n + 1 && IsAt(pages[i], q, path);
    }
  }

  lemma {:induction false} PlacedNext(pages: seq<Page>, n: nat)
    requires n < |pages| && InTree(pages[n])
    ensures forall q, path :: Placed(pages, n + 1, q, path) <==> Placed(pages, n, q, path) || (q == Parts(pages[n]) && path == pages[n].path)
  {
    forall q, path | Placed(pages, n + 1, q, path) ensures Placed(pages, n, q, path) || (q == Parts(pages[n]) && path == pages[n].path) {
      var i :| 0 <= i < n + 1 && IsAt(pages[i], q, path);
      if i < n { assert Placed(pages, n, q, path); }
    }
    assert IsAt(pages[n], Parts(pages[n]), pages[n].path);
  }

  lemma {:induction false} NotPlaced(pages: seq<Page>, n: nat)
    requires n < |pages| && DistinctPaths(pages)
    ensures !Placed(pages, n, Parts(pages[n]), pages[n].path)
  {}

  lemma {:induction false} InsertedPages(norm: Normalizer, pages: seq<Page>, n: nat, f: Forest, g: Forest)
    requires n < |pages| && InTree(pages[n]) && HoldsPages(pages, n, f) && Inserted(norm, f, g, Parts(pages[n]), pages[n].path)
    ensures HoldsPages(pages, n + 1, g)
  {
    PlacedNext(pages, n);
    hide Placed;
  }

  lemma {:induction false} InsertedFirst(norm: Normalizer, pages: seq<Page>, n: nat, f: Forest)
    requires n < |pages| && InTree(pages[n]) && HoldsFirst(pages, n, f) && WellFormed(norm, f) && pages[n].path != ""
    requires Insert(norm, f, Parts(pages[n]), pages[n].path).Ok?
    ensures HoldsFirst(pages, n + 1, Insert(norm, f, Parts(pages[n]), pages[n].path).value)
  {
    hide Insert;
    var g := Insert(norm, f, Parts(pages[n]), pages[n].path).value;
    forall text ensures Under(g, text) == FirstUnder(pages, n + 1, text) {
      InsertUnder(norm, f, Parts(pages[n]), pages[n].path, text);
      UnderEntry(f, text);
    }
  }

  lemma {:induction false} SameHome(pages: seq<Page>, n: nat, home: string)
    requires n < |pages| && !IsHome(pages[n]) && HoldsHome(pages, n, home)
    ensures HoldsHome(pages, n + 1, home)
  {}

  lemma {:induction false} InsertedHolding(norm: Normalizer, pages: seq<Page>, n: nat, s: State, g: Forest)
    requires n < |pages| && DistinctPaths(pages) && InTree(pages[n]) && Holding(norm, pages, n, s)
    requires Inserted(norm, s.tree, g, Parts(pages[n]), pages[n].path) && HoldsFirst(pages, n + 1, g)
    ensures Holding(norm, pages, n + 1, s.(tree := g))
  {
    NotPlaced(pages, n);
    InsertedPages(norm, pages, n, s.tree, g);
    SameHome(pages, n, s.home);
    assert Paths(g) == Paths(s.tree) + multiset{pages[n].path};
    hide HoldsPages, HoldsFirst, HoldsHome, DistinctPaths, Inserted;
  }

  lemma {:induction false} AddToTree(norm: Normalizer, pages: seq<Page>, n: nat, s: State)
    requires n < |pages| && DistinctPaths(pages) && Holding(norm, pages, n, s) && AllTogether(norm, pages, n) && InTree(pages[n])
    ensures Add(norm, s, pages[n]).Ok? <==> AllTogether(norm, pages, n + 1)
    ensures Add(norm, s, pages[n]).Ok? ==> Holding(norm, pages, n + 1, Add(norm, s, pages[n]).value)
  {
    assert pages[n].path != "";
    hide HoldsPages, HoldsFirst, HoldsHome, DistinctPaths, Inserted, FitsAll, AllTogether, Insert, PathsOf;
    InsertMeans(norm, s.tree, Parts(pages[n]), pages[n].path);
    FitsPlaced(norm, pages, n, s);
    var r := Insert(norm, s.tree, Parts(pages[n]), pages[n].path);
    if r.Ok? {
      InsertedFirst(norm, pages, n, s.tree);
      InsertedHolding(norm, pages, n, s, r.value);
    }
  }

  lemma {:induction false} TogetherBefore(norm: Normalizer, pages: seq<Page>, n: nat)
    requires n < |pages| && AllTogether(norm, pages, n + 1)
    ensures AllTogether(norm, pages, n) && Sound(pages[n])
  {}

  lemma {:induction false} NoneTogether(norm: Normalizer, pages: seq<Page>)
    ensures AllTogether(norm, pages, 0)
  {}

  /** Building succeeds exactly when the pages go together, two by two, and then holds exactly them. */
  lemma {:induction false} BuildMeans(norm: Normalizer, pages: seq<Page>, n: nat)
    requires n <= |pages| && DistinctPaths(pages)
    ensures Build(norm, pages, n).Ok? <==> AllTogether(norm, pages, n)
    ensures Build(norm, pages, n).Ok? ==> Holding(norm, pages, n, Build(norm, pages, n).value)
  {
    hide Holding, DistinctPaths, Add, AllTogether, InTree, Parts;
    if n > 0 {
      BuildMeans(norm, pages, n - 1);
      var r := Build(norm, pages, n - 1);
      if AllTogether(norm, pages, n) { TogetherBefore(norm, pages, n - 1); }
      if r.Ok? { AddMeans(norm, pages, n - 1, r.value); }
    } else {
      NothingHeld(norm, pages);
      NoneTogether(norm, pages);
    }
  }

  lemma {:induction false} AddMeans(norm: Normalizer, pages: seq<Page>, n: nat, s: State)
    requires n < |pages| && DistinctPaths(pages) && Holding(norm, pages, n, s) && AllTogether(norm, pages, n)
    ensures Add(norm, s, pages[n]).Ok? <==> AllTogether(norm, pages, n + 1)
    ensures Add(norm, s, pages[n]).Ok? ==> Holding(norm, pages, n + 1, Add(norm, s, pages[n]).value)
  {
    hide Holding, DistinctPaths, Insert;
    if IsHome(pages[n]) {
      AddHome(norm, pages, n, s);
    } else if InTree(pages[n]) {
      AddToTree(norm, pages, n, s);
    } else {
      assert !Sound(pages[n]);
    }
  }

  lemma {:induction false} NothingHeld(norm: Normalizer, pages: seq<Page>)
    ensures Holding(norm, pages, 0, State(End, ""))
  {}
}
