/** Wrapping the top-level sections in the four domain groups. */
module NavGroups {
  import opened Text
  import opened NavTree
  import PosixPath

  datatype Domain = Know | Model | Observe | Work

  /** The key of `_DOMAIN_LABELS` and of `grouped`. */
  function Name(d: Domain): string {
    match d
    case Know => "know"
    case Model => "model"
    case Observe => "observe"
    case Work => "work"
  }

  function Title(d: Domain): string {
    match d
    case Know => "Know"
    case Model => "Model"
    case Observe => "Observe"
    case Work => "Work"
  }

  /** The first path segment decides, and anything else is knowledge. */
  function DomainOf(path: string): Domain {
    var head := PosixPath.Split(path)[0];
    if head == "observe" then Observe else if head == "model" then Model else if head == "work" then Work else Know
  }

  /** The page `_subtree_first_path` finds under the top-level label `text`. */
  function Under(f: Forest, text: string): Option<string> {
    if f.End? then Option.None else if f.text == text then Some(First(f).1) else Under(f.rest, text)
  }

  function SectionDomain(tree: Forest, text: string): Domain {
    match Under(tree, text)
    case None => Know
    case Some(path) => DomainOf(path)
  }

  function Concat(f: Forest, g: Forest): Forest { if f.End? then g else f.(rest := Concat(f.rest, g)) }

  /** What `grouped[d]` receives from the serialized entries `f`, in order. */
  function Grouped(norm: Normalizer, tree: Forest, f: Forest, d: Domain): Forest {
    if f.End? then End
    else if SectionDomain(tree, f.text) != d then Grouped(norm, tree, f.rest, d)
    else if f.Branch? && norm(f.text) == Name(d) then Concat(f.children, Grouped(norm, tree, f.rest, d))
    else f.(rest := Grouped(norm, tree, f.rest, d))
  }

  /** The groups hold what the entries before `entries` add to them. */
  ghost predicate Gathered(norm: Normalizer, tree: Forest, serialized: Forest, entries: Forest, grouped: map<Domain, Forest>) {
    forall d: Domain :: d in grouped && Grouped(norm, tree, serialized, d) == Concat(grouped[d], Grouped(norm, tree, entries, d))
  }

  /** The loop over `serialized`. */
  method GroupByDomain(norm: Normalizer, tree: Forest, serialized: Forest) returns (grouped: map<Domain, Forest>)
    ensures grouped == map[Know := Grouped(norm, tree, serialized, Know), Model := Grouped(norm, tree, serialized, Model),
                           Observe := Grouped(norm, tree, serialized, Observe), Work := Grouped(norm, tree, serialized, Work)]
  {
    grouped := map[Know := End, Model := End, Observe := End, Work := End];
    var entries := serialized;
    forall d: Domain ensures d in grouped && grouped[d] == End { match d case Know => case Model => case Observe => case Work => }
    while !entries.End?
      invariant Gathered(norm, tree, serialized, entries, grouped)
      decreases entries
    {
      var domain := SectionDomain(tree, entries.text);
      var added := if entries.Branch? && norm(entries.text) == Name(domain) then entries.children else entries.(rest := End);
      EntryGathered(norm, tree, serialized, entries, grouped, domain, added);
      grouped := grouped[domain := Concat(grouped[domain], added)];
      entries := entries.rest;
    }
    forall d: Domain ensures Concat(grouped[d], End) == grouped[d] { ConcatEnd(grouped[d]); }
  }

  lemma {:induction false} EntryGathered(norm: Normalizer, tree: Forest, serialized: Forest, entries: Forest, grouped: map<Domain, Forest>,
                                         domain: Domain, added: Forest)
    requires !entries.End? && Gathered(norm, tree, serialized, entries, grouped) && domain == SectionDomain(tree, entries.text)
    requires added == if entries.Branch? && norm(entries.text) == Name(domain) then entries.children else entries.(rest := End)
    ensures Gathered(norm, tree, serialized, entries.rest, grouped[domain := Concat(grouped[domain], added)])
  {
    hide SectionDomain, Concat, Grouped, Name;
    forall d: Domain
      ensures Grouped(norm, tree, serialized, d)
              == Concat(if d == domain then Concat(grouped[d], added) else grouped[d], Grouped(norm, tree, entries.rest, d))
    {
      GroupedStep(norm, tree, entries, d);
      ConcatAssociative(grouped[d], added, Grouped(norm, tree, entries.rest, d));
    }
  }

  lemma {:induction false} GroupedStep(norm: Normalizer, tree: Forest, f: Forest, d: Domain)
    requires !f.End?
    ensures var added := if f.Branch? && norm(f.text) == Name(d) then f.children else f.(rest := End);
            var rest := Grouped(norm, tree, f.rest, d);
            Grouped(norm, tree, f, d) == if SectionDomain(tree, f.text) == d then Concat(added, rest) else rest
  {
    hide SectionDomain;
  }

  lemma {:induction false} ConcatAssociative(f: Forest, g: Forest, h: Forest)
    ensures Concat(Concat(f, g), h) == Concat(f, Concat(g, h))
  {
    if !f.End? { ConcatAssociative(f.rest, g, h); }
  }

  lemma {:induction false} ConcatEnd(f: Forest)
    ensures Concat(f, End) == f
  {
    if !f.End? { ConcatEnd(f.rest); }
  }

  lemma {:induction false} ConcatPaths(f: Forest, g: Forest)
    ensures Paths(Concat(f, g)) == Paths(f) + Paths(g)
  {
    if !f.End? { ConcatPaths(f.rest, g); }
  }

  /** The pages of the head entry alone. */
  function HeadPaths(f: Forest): multiset<string>
    requires !f.End?
  {
    if f.Leaf? then multiset{f.path} else Paths(f.children)
  }

  lemma {:induction false} GroupedHead(norm: Normalizer, tree: Forest, f: Forest, d: Domain)
    requires !f.End?
    ensures Paths(Grouped(norm, tree, f, d)) ==
            Gain(d, SectionDomain(tree, f.text), HeadPaths(f)) + Paths(Grouped(norm, tree, f.rest, d))
  {
    if f.Branch? { ConcatPaths(f.children, Grouped(norm, tree, f.rest, d)); }
  }

  /** Grouping moves pages between groups and loses none. */
  lemma {:induction false} GroupsKeepPages(norm: Normalizer, tree: Forest, f: Forest)
    ensures Paths(Grouped(norm, tree, f, Know)) + Paths(Grouped(norm, tree, f, Model))
            + Paths(Grouped(norm, tree, f, Observe)) + Paths(Grouped(norm, tree, f, Work)) == Paths(f)
  {
    if !f.End? {
      hide Grouped, SectionDomain;
      GroupsKeepPages(norm, tree, f.rest);
      GroupedHead(norm, tree, f, Know);
      GroupedHead(norm, tree, f, Model);
      GroupedHead(norm, tree, f, Observe);
      GroupedHead(norm, tree, f, Work);
      OneGroupGains(
        SectionDomain(tree, f.text), HeadPaths(f), Paths(Grouped(norm, tree, f.rest, Know)), Paths(Grouped(norm, tree, f.rest, Model)),
        Paths(Grouped(norm, tree, f.rest, Observe)), Paths(Grouped(norm, tree, f.rest, Work)));
      assert Paths(f) == HeadPaths(f) + Paths(f.rest);
    }
  }

  function Gain(d: Domain, e: Domain, h: multiset<string>): multiset<string> { if e == d then h else multiset{} }

  lemma {:induction false} OneGroupGains(e: Domain, h: multiset<string>, know: multiset<string>, model: multiset<string>, observe: multiset<string>, work: multiset<string>)
    ensures (Gain(Know, e, h) + know) + (Gain(Model, e, h) + model) + (Gain(Observe, e, h) + observe) + (Gain(Work, e, h) + work)
            == h + (know + model + observe + work)
  {}

  // ---- which page decides a section's domain --------------------------------------------

  predicate HasEntry(f: Forest, text: string) { !f.End? && (f.text == text || HasEntry(f.rest, text)) }

  lemma {:induction false} UnderEntry(f: Forest, text: string)
    ensures HasEntry(f, text) <==> Under(f, text).Some?
  {
    if !f.End? { UnderEntry(f.rest, text); }
  }

  lemma {:induction false} WithoutEntry(norm: Normalizer, f: Forest, text: string)
    requires Without(norm, f, norm(text))
    ensures !HasEntry(f, text)
  {
    if !f.End? { WithoutEntry(norm, f.rest, text); }
  }

  /** Insertion leaves the deciding page of every section, and decides a new one. */
  lemma {:induction false} InsertUnder(norm: Normalizer, f: Forest, parts: seq<string>, path: string, text: string)
    requires WellFormed(norm, f) && parts != [] && path != "" && Insert(norm, f, parts, path).Ok?
    ensures var g := Insert(norm, f, parts, path).value;
            Under(g, text) == if HasEntry(f, text) then Under(f, text) else if text == parts[0] then Some(path) else Option.None
    decreases f
  {
    InsertMeans(norm, f, parts, path);
    UnderEntry(f, text);
    if !f.End? && norm(f.text) != norm(parts[0]) {
      InsertUnder(norm, f.rest, parts, path, text);
    } else if !f.End? {
      WithoutEntry(norm, f.rest, f.text);
    } else {
      InsertAlone(norm, parts, path);
    }
  }
}
