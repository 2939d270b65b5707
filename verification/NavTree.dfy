/** The navigation tree: nested dicts in insertion order, and inserting a page into them. */
module NavTree {
  import opened Text

  /** A dict and its later entries: a page, or a section with a dict of its own. */
  datatype Forest =
    | End
    | Leaf(text: string, path: string, rest: Forest)
    | Branch(text: string, children: Forest, rest: Forest)

  datatype Conflict = CaseCollision | LeafVsSection | DuplicateLeaf | DuplicateHome | InvalidPath

  /** `_normalize_segment`, which this model takes as given. */
  type Normalizer = string -> string

  /** `_insert`: at each level the first key that normalizes alike decides. */
  function Insert(norm: Normalizer, f: Forest, parts: seq<string>, path: string): (r: Result<Forest, Conflict>)
    requires parts != []
    decreases |parts|, f
  {
    if f.End? then
      if |parts| == 1 then Ok(Leaf(parts[0], path, End))
      else
        match Insert(norm, End, parts[1..], path)
        case Err(e) => Err(e)
        case Ok(c) => Ok(Branch(parts[0], c, End))
    else if norm(f.text) != norm(parts[0]) then
      match Insert(norm, f.rest, parts, path)
      case Err(e) => Err(e)
      case Ok(rest) => Ok(f.(rest := rest))
    else if f.text != parts[0] then Err(CaseCollision)
    else if |parts| == 1 then
      if f.Branch? then Err(LeafVsSection)
      else if f.path != "" && f.path != path then Err(DuplicateLeaf)
      else Ok(f.(path := path))
    else if f.Leaf? then Err(LeafVsSection)
    else
      match Insert(norm, f.children, parts[1..], path)
      case Err(e) => Err(e)
      case Ok(c) => Ok(f.(children := c))
  }

  // ---- what a tree holds ---------------------------------------------------------

  /** The page at `path` is reached by the labels `parts`. */
  predicate Holds(f: Forest, parts: seq<string>, path: string) {
    match f
    case End => false
    case Leaf(text, p, rest) => (parts == [text] && path == p) || Holds(rest, parts, path)
    case Branch(text, children, rest) =>
      (|parts| > 1 && parts[0] == text && Holds(children, parts[1..], path)) || Holds(rest, parts, path)
  }

  /** No entry at this level normalizes to `name`. */
  predicate Without(norm: Normalizer, f: Forest, name: string) { f.End? || (norm(f.text) != name && Without(norm, f.rest, name)) }

  predicate WellFormed(norm: Normalizer, f: Forest) {
    match f
    case End => true
    case Leaf(text, path, rest) => path != "" && Without(norm, rest, norm(text)) && WellFormed(norm, rest)
    case Branch(text, children, rest) =>
      !children.End? && WellFormed(norm, children) && Without(norm, rest, norm(text)) && WellFormed(norm, rest)
  }

  /** The paths of the pages, with multiplicity. */
  function Paths(f: Forest): multiset<string> {
    match f
    case End => multiset{}
    case Leaf(_, path, rest) => multiset{path} + Paths(rest)
    case Branch(_, children, rest) => Paths(children) + Paths(rest)
  }

  /** The labels and path of the page `_subtree_first_path` finds. */
  function First(f: Forest): (r: (seq<string>, string))
    requires !f.End?
  {
    if f.Leaf? then ([f.text], f.path)
    else if f.children.End? then ([f.text], "")
    else ([f.text] + First(f.children).0, First(f.children).1)
  }

  lemma {:induction false} FirstIsThere(norm: Normalizer, f: Forest)
    requires WellFormed(norm, f) && !f.End?
    ensures Holds(f, First(f).0, First(f).1) && First(f).0 != [] && First(f).0[0] == f.text
    ensures First(f).1 != "" && (|First(f).0| == 1 <==> f.Leaf?)
  {
    if f.Branch? {
      FirstIsThere(norm, f.children);
      assert First(f).0[1..] == First(f.children).0;
    }
  }

  lemma {:induction false} HasPath(f: Forest, parts: seq<string>, path: string)
    requires Holds(f, parts, path)
    ensures path in Paths(f) && parts != []
  {
    match f
    case Leaf(text, p, rest) => if !(parts == [text] && path == p) { HasPath(rest, parts, path); }
    case Branch(text, children, rest) =>
      if |parts| > 1 && parts[0] == text && Holds(children, parts[1..], path) {
        HasPath(children, parts[1..], path);
      } else {
        HasPath(rest, parts, path);
      }
  }

  lemma {:induction false} WithoutHas(norm: Normalizer, f: Forest, parts: seq<string>, path: string, name: string)
    requires Without(norm, f, name) && Holds(f, parts, path)
    ensures parts != [] && norm(parts[0]) != name
  {
    HasPath(f, parts, path);
    match f
    case Leaf(text, p, rest) => if !(parts == [text] && path == p) { WithoutHas(norm, rest, parts, path, name); }
    case Branch(text, children, rest) =>
      if !(|parts| > 1 && parts[0] == text && Holds(children, parts[1..], path)) { WithoutHas(norm, rest, parts, path, name); }
  }

  // ---- when two pages can share a tree --------------------------------------------

  /**
   * Two labelled pages fit together: at the first level where their labels
   * differ they also normalize differently, and neither is a section of the other.
   */
  predicate Fit(norm: Normalizer, p: seq<string>, path: string, q: seq<string>, other: string)
    requires p != [] && q != []
  {
    if norm(p[0]) != norm(q[0]) then true
    else if p[0] != q[0] then false
    else if |p| == 1 || |q| == 1 then |p| == |q| && path == other
    else Fit(norm, p[1..], path, q[1..], other)
  }

  lemma {:induction false} FitSymmetric(norm: Normalizer, p: seq<string>, path: string, q: seq<string>, other: string)
    requires p != [] && q != []
    ensures Fit(norm, p, path, q, other) == Fit(norm, q, other, p, path)
  {
    if |p| > 1 && |q| > 1 { FitSymmetric(norm, p[1..], path, q[1..], other); }
  }

  /** The page fits every page in the tree. */
  ghost predicate FitsAll(norm: Normalizer, f: Forest, parts: seq<string>, path: string)
    requires parts != []
  {
    forall q, other :: Holds(f, q, other) ==> q != [] && Fit(norm, parts, path, q, other)
  }

  lemma {:induction false} InsertAlone(norm: Normalizer, parts: seq<string>, path: string)
    requires parts != [] && path != ""
    ensures var r := Insert(norm, End, parts, path);
            && r.Ok? && !r.value.End? && WellFormed(norm, r.value) && Paths(r.value) == multiset{path}
            && r.value.text == parts[0] && r.value.rest == End && First(r.value) == (parts, path)
            && forall q, other :: Holds(r.value, q, other) <==> q == parts && other == path
  {
    if |parts| == 1 {
      assert parts == [parts[0]];
    } else {
      InsertAlone(norm, parts[1..], path);
      assert [parts[0]] + parts[1..] == parts;
      var r := Insert(norm, End, parts, path);
      forall q, other ensures Holds(r.value, q, other) <==> q == parts && other == path {
        if |q| > 1 && q[0] == parts[0] && q[1..] == parts[1..] { assert q == [q[0]] + q[1..] == parts; }
      }
    }
  }

  /** What a successful insertion does. */
  ghost predicate Inserted(norm: Normalizer, f: Forest, g: Forest, parts: seq<string>, path: string) {
    && !g.End? && WellFormed(norm, g)
    && (forall q, other :: Holds(g, q, other) <==> Holds(f, q, other) || (q == parts && other == path))
    && Paths(g) == Paths(f) + (if Holds(f, parts, path) then multiset{} else multiset{path})
    && First(g) == (if f.End? then (parts, path) else First(f))
    && (forall name :: parts != [] && norm(parts[0]) != name && Without(norm, f, name) ==> Without(norm, g, name))
  }

  /** An entry that normalizes differently fits, and the rest decides. */
  lemma {:induction false} FitsRest(norm: Normalizer, f: Forest, parts: seq<string>, path: string)
    requires !f.End? && parts != [] && norm(f.text) != norm(parts[0])
    ensures FitsAll(norm, f, parts, path) <==> FitsAll(norm, f.rest, parts, path)
  {
    forall q, other | Holds(f, q, other) ensures q != [] && (Holds(f.rest, q, other) || Fit(norm, parts, path, q, other)) {
      HasPath(f, q, other);
    }
  }

  /** Entries after one that normalizes like the page all fit. */
  lemma {:induction false} RestFits(norm: Normalizer, f: Forest, parts: seq<string>, path: string)
    requires parts != [] && Without(norm, f, norm(parts[0]))
    ensures FitsAll(norm, f, parts, path)
  {
    forall q, other | Holds(f, q, other) ensures q != [] && Fit(norm, parts, path, q, other) {
      WithoutHas(norm, f, q, other, norm(parts[0]));
    }
  }

  /** The head entry's own first page does not fit. */
  lemma {:induction false} HeadClashes(norm: Normalizer, f: Forest, parts: seq<string>, path: string)
    requires WellFormed(norm, f) && !f.End? && parts != [] && norm(f.text) == norm(parts[0])
    requires f.text != parts[0] || (|parts| == 1 && f.Branch?) || (|parts| > 1 && f.Leaf?)
    ensures !FitsAll(norm, f, parts, path)
  {
    FirstIsThere(norm, f);
    assert !Fit(norm, parts, path, First(f).0, First(f).1);
  }

  /** Inside the section of the same name, its pages decide. */
  lemma {:induction false} FitsInside(norm: Normalizer, f: Forest, parts: seq<string>, path: string)
    requires WellFormed(norm, f) && f.Branch? && |parts| > 1 && f.text == parts[0]
    ensures FitsAll(norm, f, parts, path) <==> FitsAll(norm, f.children, parts[1..], path)
  {
    RestFits(norm, f.rest, parts, path);
    if FitsAll(norm, f, parts, path) {
      forall q, other | Holds(f.children, q, other) ensures q != [] && Fit(norm, parts[1..], path, q, other) {
        HasPath(f.children, q, other);
        assert ([f.text] + q)[1..] == q;
        assert Holds(f, [f.text] + q, other);
      }
    } else if FitsAll(norm, f.children, parts[1..], path) {
      forall q, other | Holds(f, q, other) ensures q != [] && Fit(norm, parts, path, q, other) { HasPath(f, q, other); }
    }
  }

  lemma {:induction false} FitsLeaf(norm: Normalizer, f: Forest, parts: seq<string>, path: string)
    requires WellFormed(norm, f) && f.Leaf? && |parts| == 1 && f.text == parts[0]
    ensures FitsAll(norm, f, parts, path) <==> f.path == path
  {
    RestFits(norm, f.rest, parts, path);
    assert Holds(f, [f.text], f.path);
    forall q, other | Holds(f, q, other) && f.path == path ensures q != [] && Fit(norm, parts, path, q, other) {
      HasPath(f, q, other);
    }
  }

  lemma {:induction false} NotInRest(norm: Normalizer, f: Forest, parts: seq<string>, path: string)
    requires parts != [] && Without(norm, f, norm(parts[0]))
    ensures !Holds(f, parts, path)
  {
    if Holds(f, parts, path) { WithoutHas(norm, f, parts, path, norm(parts[0])); }
  }

  lemma {:induction false} InsertedRest(norm: Normalizer, f: Forest, g: Forest, parts: seq<string>, path: string)
    requires WellFormed(norm, f) && !f.End? && parts != [] && norm(f.text) != norm(parts[0])
    requires Inserted(norm, f.rest, g, parts, path)
    ensures Inserted(norm, f, f.(rest := g), parts, path)
  {
    var h := f.(rest := g);
    assert Holds(f, parts, path) <==> Holds(f.rest, parts, path);
    assert WellFormed(norm, h) by { assert Without(norm, f.rest, norm(f.text)); }
    forall q, other ensures Holds(h, q, other) <==> Holds(f, q, other) || (q == parts && other == path) {
      assert Holds(g, q, other) <==> Holds(f.rest, q, other) || (q == parts && other == path);
    }
    assert Paths(h) == Paths(f) + (if Holds(f, parts, path) then multiset{} else multiset{path});
    assert First(h) == First(f);
    forall name | norm(parts[0]) != name && Without(norm, f, name) ensures Without(norm, h, name) { assert Without(norm, f.rest, name); }
  }

  lemma {:induction false} InsertedInside(norm: Normalizer, f: Forest, g: Forest, parts: seq<string>, path: string)
    requires WellFormed(norm, f) && f.Branch? && |parts| > 1 && f.text == parts[0]
    requires Inserted(norm, f.children, g, parts[1..], path)
    ensures Inserted(norm, f, f.(children := g), parts, path)
  {
    NotInRest(norm, f.rest, parts, path);
    var h := f.(children := g);
    InsideHolds(f, g, parts, path);
    assert Holds(f, parts, path) <==> Holds(f.children, parts[1..], path);
    hide Holds;
    assert Paths(h) == Paths(f) + (if Holds(f, parts, path) then multiset{} else multiset{path});
    hide Paths;
    assert WellFormed(norm, h);
    assert First(h) == First(f);
  }

  lemma {:induction false} InsideHolds(f: Forest, g: Forest, parts: seq<string>, path: string)
    requires f.Branch? && |parts| > 1 && f.text == parts[0]
    requires forall q, other :: Holds(g, q, other) <==> Holds(f.children, q, other) || (q == parts[1..] && other == path)
    ensures forall q, other :: Holds(f.(children := g), q, other) <==> Holds(f, q, other) || (q == parts && other == path)
  {
    forall q, other ensures Holds(f.(children := g), q, other) <==> Holds(f, q, other) || (q == parts && other == path) {
      if |q| > 1 && q[0] == parts[0] && q[1..] == parts[1..] { assert q == [q[0]] + q[1..] == parts; }
    }
  }

  /**
   * A page can be inserted exactly when it fits every page already there, and
   * insertion adds that page and nothing else.
   */
  lemma {:induction false} InsertMeans(norm: Normalizer, f: Forest, parts: seq<string>, path: string)
    requires WellFormed(norm, f) && parts != [] && path != ""
    ensures Insert(norm, f, parts, path).Ok? <==> FitsAll(norm, f, parts, path)
    ensures Insert(norm, f, parts, path).Ok? ==> Inserted(norm, f, Insert(norm, f, parts, path).value, parts, path)
    decreases |parts|, f
  {
    hide FitsAll, Inserted;
    if f.End? {
      InsertIntoEmpty(norm, parts, path);
    } else if norm(f.text) != norm(parts[0]) {
      InsertMeans(norm, f.rest, parts, path);
      FitsRest(norm, f, parts, path);
      if Insert(norm, f.rest, parts, path).Ok? { InsertedRest(norm, f, Insert(norm, f.rest, parts, path).value, parts, path); }
    } else if f.text != parts[0] || (|parts| == 1 && f.Branch?) || (|parts| > 1 && f.Leaf?) {
      HeadClashes(norm, f, parts, path);
    } else if |parts| == 1 {
      FitsLeaf(norm, f, parts, path);
      if f.path == path { InsertedAgain(norm, f, parts, path); }
    } else {
      InsertMeans(norm, f.children, parts[1..], path);
      FitsInside(norm, f, parts, path);
      if Insert(norm, f.children, parts[1..], path).Ok? { InsertedInside(norm, f, Insert(norm, f.children, parts[1..], path).value, parts, path); }
    }
  }

  lemma {:induction false} InsertIntoEmpty(norm: Normalizer, parts: seq<string>, path: string)
    requires parts != [] && path != ""
    ensures FitsAll(norm, End, parts, path)
    ensures Insert(norm, End, parts, path).Ok? && Inserted(norm, End, Insert(norm, End, parts, path).value, parts, path)
  {
    InsertAlone(norm, parts, path);
  }

  lemma {:induction false} InsertedAgain(norm: Normalizer, f: Forest, parts: seq<string>, path: string)
    requires WellFormed(norm, f) && f.Leaf? && parts == [f.text] && path == f.path
    ensures f.(path := path) == f && Inserted(norm, f, f, parts, path)
  {}
}
