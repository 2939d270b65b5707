/** What a set of rule files asks the meter list to be. */
module MeterRules {
  import opened Text
  import opened EntityStore

  /** A rule in the order `iter_rules` yields it; an absent or empty label is `None`. */
  datatype Rule = Rule(
    file: string, group: string, name: string, ruleKind: string, expr: string, service: Option<string>,
    hasDescription: bool, severity: Option<string>, pendingFor: Option<string>, runbook: Option<string>)

  /** An overlay mapping: a pattern over rule names and the service it assigns. */
  datatype Mapping = Mapping(pattern: string, service: string)

  /** `_slug`, `fnmatchcase` and `catalogue_path` of the run's source, which this model takes as given. */
  datatype Names = Names(slug: string -> string, matches: (string, string) -> bool, cataloguePage: string)

  datatype Origin = RuleLabel | Overlay

  /** One entry of `desired`; `watch` is the service, the name to create it under, and where it came from. */
  datatype Wanted = Wanted(display: string, attributes: Attributes, watch: Option<Watch>)

  datatype Watch = Watch(service: Ref, display: string, origin: Origin)

  function RuleRef(names: Names, rule: Rule): Ref { Ref(MonitorRule, "rule." + names.slug(rule.name)) }

  function AttributesOf(names: Names, rule: Rule): Attributes {
    RuleAttributes(rule.ruleKind, rule.expr, rule.file + ".yml", names.cataloguePage, rule.group,
                   rule.hasDescription, rule.severity, rule.pendingFor, rule.runbook)
  }

  // ---- the overlay -------------------------------------------------------------

  /** The unlabelled names a pattern matches. */
  function Matched(names: Names, rules: seq<Rule>, pattern: string): set<string> {
    set i | 0 <= i < |rules| && rules[i].service.None? && names.matches(rules[i].name, pattern) :: rules[i].name
  }

  /** `assignments` after the first `n` mappings; `None` when two of them conflict. */
  function Assigned(names: Names, rules: seq<Rule>, overlay: seq<Mapping>, known: set<Ref>, n: nat): Option<map<string, Ref>>
    requires n <= |overlay|
  {
    if n == 0 then Some(map[])
    else
      match Assigned(names, rules, overlay, known, n - 1)
      case None => Option.None
      case Some(a) =>
        var service := Ref(Service, overlay[n - 1].service);
        if service !in known then Some(a)
        else Assign(a, Matched(names, rules, overlay[n - 1].pattern), service)
  }

  function Assign(a: map<string, Ref>, matched: set<string>, service: Ref): Option<map<string, Ref>> {
    if exists name :: name in matched && name in a && a[name] != service then Option.None
    else Some(a + map name | name in matched :: service)
  }

  /** Some known mapping gives `name` to `service`. */
  ghost predicate Claims(names: Names, rules: seq<Rule>, overlay: seq<Mapping>, known: set<Ref>, n: nat, name: string, service: Ref)
    requires n <= |overlay|
  {
    exists j :: 0 <= j < n && Claim(names, rules, overlay[j], known, name, service)
  }

  ghost predicate Claim(names: Names, rules: seq<Rule>, m: Mapping, known: set<Ref>, name: string, service: Ref) {
    service == Ref(Service, m.service) && service in known && name in Matched(names, rules, m.pattern)
  }

  /** No name is related to two services. */
  ghost predicate Agreed(claims: (string, Ref) -> bool) {
    forall name, s1, s2 :: claims(name, s1) && claims(name, s2) ==> s1 == s2
  }

  /** `a` holds exactly the pairs that `claims` relates. */
  ghost predicate Holds(a: map<string, Ref>, claims: (string, Ref) -> bool) {
    && (forall name :: name in a ==> claims(name, a[name]))
    && (forall name, s :: claims(name, s) ==> name in a && a[name] == s)
  }

  /**
   * The overlay is refused exactly when two known mappings give one unlabelled
   * rule to different services; otherwise the assignments are the claims.
   */
  lemma {:induction false} AssignedAreClaims(names: Names, rules: seq<Rule>, overlay: seq<Mapping>, known: set<Ref>, n: nat)
    requires n <= |overlay|
    ensures var claims := (name, s) => Claims(names, rules, overlay, known, n, name, s);
            && (Assigned(names, rules, overlay, known, n).Some? <==> Agreed(claims))
            && (Agreed(claims) ==> Holds(Assigned(names, rules, overlay, known, n).value, claims))
  {
    if n > 0 {
      AssignedAreClaims(names, rules, overlay, known, n - 1);
      var m := overlay[n - 1];
      var earlier := (name, s) => Claims(names, rules, overlay, known, n - 1, name, s);
      var later := (name, s) => Claims(names, rules, overlay, known, n, name, s);
      forall name, s
        ensures later(name, s) <==> earlier(name, s) || Claim(names, rules, m, known, name, s)
      {}
      var was := Assigned(names, rules, overlay, known, n - 1);
      if was.Some? && Ref(Service, m.service) in known {
        AssignMeans(was.value, Matched(names, rules, m.pattern), Ref(Service, m.service), earlier, later);
      }
    }
  }

  lemma {:induction false} AssignMeans(a: map<string, Ref>, matched: set<string>, service: Ref, earlier: (string, Ref) -> bool, later: (string, Ref) -> bool)
    requires Holds(a, earlier)
    requires forall name, s :: later(name, s) <==> earlier(name, s) || (s == service && name in matched)
    ensures Assign(a, matched, service).Some? <==> Agreed(later)
    ensures Agreed(later) ==> Holds(Assign(a, matched, service).value, later)
  {
    if name :| name in matched && name in a && a[name] != service {
      assert later(name, a[name]) && later(name, service);
    } else {
      assert Assign(a, matched, service).Some?;
    }
  }

  /** Learning of services that no matching mapping names changes no assignment. */
  lemma {:induction false} AssignedSame(names: Names, rules: seq<Rule>, overlay: seq<Mapping>, known: set<Ref>, wider: set<Ref>, n: nat)
    requires n <= |overlay| && known <= wider
    requires forall m :: m in overlay && Ref(Service, m.service) in wider - known ==> Matched(names, rules, m.pattern) == {}
    ensures Assigned(names, rules, overlay, wider, n) == Assigned(names, rules, overlay, known, n)
  {
    if n > 0 {
      AssignedSame(names, rules, overlay, known, wider, n - 1);
      assert overlay[n - 1] in overlay;
      var was := Assigned(names, rules, overlay, known, n - 1);
      if was.Some? { assert was.value + map[] == was.value; }
    }
  }

  // ---- the desired rules -------------------------------------------------------

  function WantedBy(names: Names, rule: Rule, assignments: map<string, Ref>): Wanted {
    Wanted(
      rule.name, AttributesOf(names, rule),
      match rule.service
      case Some(text) => Some(Watch(Ref(Service, names.slug(text)), text, RuleLabel))
      case None => if rule.name in assignments then Some(Watch(assignments[rule.name], "", Overlay)) else Option.None)
  }

  /** The `desired` dict after the first `n` rules: two rules with one key leave the later one. */
  function DesiredBy(names: Names, rules: seq<Rule>, assignments: map<string, Ref>, n: nat): (d: map<Ref, Wanted>)
    requires n <= |rules|
    ensures forall ref :: ref in d ==> ref.kind == MonitorRule
  {
    if n == 0 then map[]
    else DesiredBy(names, rules, assignments, n - 1)[RuleRef(names, rules[n - 1]) := WantedBy(names, rules[n - 1], assignments)]
  }

  /** The desired meter list, or `None` when the overlay is refused. */
  function Desired(names: Names, rules: seq<Rule>, overlay: seq<Mapping>, known: set<Ref>): Option<map<Ref, Wanted>> {
    match Assigned(names, rules, overlay, known, |overlay|)
    case None => Option.None
    case Some(assignments) => Some(DesiredBy(names, rules, assignments, |rules|))
  }

  /** The rule that `ref` comes from: the last one with its key. */
  ghost predicate IsFrom(names: Names, rules: seq<Rule>, n: nat, ref: Ref, i: nat)
    requires n <= |rules|
  {
    i < n && RuleRef(names, rules[i]) == ref && forall j :: i < j < n ==> RuleRef(names, rules[j]) != ref
  }

  lemma {:induction false} DesiredIsFrom(names: Names, rules: seq<Rule>, assignments: map<string, Ref>, n: nat, ref: Ref) returns (i: nat)
    requires n <= |rules|
    ensures ref in DesiredBy(names, rules, assignments, n) <==> i < n
    ensures i < n ==> IsFrom(names, rules, n, ref, i)
    ensures i < n ==> DesiredBy(names, rules, assignments, n)[ref] == WantedBy(names, rules[i], assignments)
    ensures i >= n ==> forall j :: 0 <= j < n ==> RuleRef(names, rules[j]) != ref
  {
    if n == 0 {
      i := 0;
    } else if RuleRef(names, rules[n - 1]) == ref {
      i := n - 1;
    } else {
      i := DesiredIsFrom(names, rules, assignments, n - 1, ref);
      if i >= n - 1 { i := n; }
    }
  }
}
