/** The meter list as a reader finds it: each card against the rule it comes from, and what a run may take away. */
module MeterTable {
  import opened Text
  import opened EntityStore
  import opened MeterRules
  import opened MeterList
  import opened MeterReconcile
  import opened MeterRun

  // ---- one card ----------------------------------------------------------------------------

  /** No later rule has the same key. */
  predicate IsLast(names: Names, rules: seq<Rule>, i: nat) {
    i < |rules| && forall j :: i < j < |rules| ==> names.slug(rules[j].name) != names.slug(rules[i].name)
  }

  /** A mapping gives the service to rules of this name, and the service was there or is the source. */
  ghost predicate Given(names: Names, overlay: seq<Mapping>, was: Db, source: Ref, name: string, service: Ref) {
    exists m :: 0 <= m < |overlay| && GivenBy(names, overlay[m], was, source, name, service)
  }

  predicate GivenBy(names: Names, m: Mapping, was: Db, source: Ref, name: string, service: Ref) {
    && service == Ref(Service, m.service) && names.matches(name, m.pattern)
    && (service == source || (service in was && was[service].status.Active?))
  }

  /** The card's attributes are the rule's own. */
  predicate SameAttributes(names: Names, rule: Rule, a: Attributes) {
    && a.RuleAttributes? && a.ruleKind == rule.ruleKind && a.expr == rule.expr && a.sourceFile == rule.file + ".yml"
    && a.sourcePagePath == names.cataloguePage && a.group == rule.group && a.hasDescription == rule.hasDescription
    && a.severity == rule.severity && a.pendingFor == rule.pendingFor && a.runbook == rule.runbook
  }

  /** The label's service, or else the overlay's, or else none; and which of the two it was. */
  ghost predicate SameWatches(names: Names, overlay: seq<Mapping>, was: Db, source: Ref, rule: Rule, watches: map<Ref, Metadata>) {
    if rule.service.Some? then watches == map[Ref(Service, names.slug(rule.service.value)) := map["source" := "rule_label"]]
    else
      && (forall s :: Given(names, overlay, was, source, rule.name, s) ==> watches == map[s := map["source" := "overlay"]])
      && ((forall s :: !Given(names, overlay, was, source, rule.name, s)) ==> watches == map[])
  }

  ghost predicate CardIs(names: Names, overlay: seq<Mapping>, was: Db, source: Ref, rule: Rule, db: Db) {
    var ref := Ref(MonitorRule, "rule." + names.slug(rule.name));
    && ref in db && db[ref].status.Active? && db[ref].display == Strip(rule.name)
    && SameAttributes(names, rule, db[ref].attributes)
    && SameWatches(names, overlay, was, source, rule, db[ref].watches)
    && forall s :: s in db[ref].watches ==> s.kind == Service && s in db && db[s].status.Active?
  }

  // ---- the table -----------------------------------------------------------------------------

  predicate FromSome(names: Names, rules: seq<Rule>, ref: Ref) {
    exists i :: 0 <= i < |rules| && ref == Ref(MonitorRule, "rule." + names.slug(rules[i].name))
  }

  /** Every rule of the files has its card, every other rule is RETIRED, and the source is there. */
  ghost predicate Lists(names: Names, rules: seq<Rule>, overlay: seq<Mapping>, was: Db, source: Ref, db: Db) {
    && (forall i: nat :: IsLast(names, rules, i) ==> CardIs(names, overlay, was, source, rules[i], db))
    && (forall ref :: ref in db && ref.kind == MonitorRule && !FromSome(names, rules, ref) ==> db[ref].status.Retired?)
    && source in db && db[source].status.Active?
  }

  /** The ACTIVE rules of a table. */
  function Standing(db: Db): set<Ref> { set ref | ref in db && ref.kind == MonitorRule && db[ref].status.Active? }

  predicate OthersKept(was: Db, now: Db) { forall ref :: ref in was ==> ref in now && (ref.kind != MonitorRule ==> now[ref] == was[ref]) }

  /** What any run keeps: other cards, every identity, every rule of the files, and most of the rest. */
  ghost predicate TakesLittle(names: Names, rules: seq<Rule>, was: Db, now: Db, allowMass: bool) {
    && OthersKept(was, now)
    && (forall ref :: ref in Standing(was) && FromSome(names, rules, ref) ==> ref in Standing(now))
    && (allowMass || |Standing(was) - Standing(now)| <= 5 || 5 * |Standing(was) - Standing(now)| <= |Standing(was)|)
  }

  lemma {:induction false} WantedIsRule(names: Names, rules: seq<Rule>, overlay: seq<Mapping>, was: Db, source: Ref, a: map<string, Ref>, i: nat)
    requires i < |rules| && source.kind == Service && Assigned(names, rules, overlay, KnownAtStart(was, source), |overlay|) == Some(a)
    ensures SameAttributes(names, rules[i], WantedBy(names, rules[i], a).attributes)
    ensures SameWatches(names, overlay, was, source, rules[i], WantedWatches(WantedBy(names, rules[i], a)))
  {
    var rule, known := rules[i], KnownAtStart(was, source);
    hide KnownAtStart, Matched, Claims;
    if rule.service.None? {
      forall s ensures Given(names, overlay, was, source, rule.name, s) <==> rule.name in a && a[rule.name] == s {
        UnlabelledMatch(names, rules, overlay, i);
        ClaimsAreGiven(names, rules, overlay, was, source, rule.name, s);
        ClaimedExactly(names, rules, overlay, known, a, rule.name, s);
      }
      hide Given;
      if rule.name in a { assert Given(names, overlay, was, source, rule.name, a[rule.name]); }
    }
  }

  lemma {:induction false} UnlabelledMatch(names: Names, rules: seq<Rule>, overlay: seq<Mapping>, i: nat)
    requires i < |rules| && rules[i].service.None?
    ensures forall j :: 0 <= j < |overlay| && names.matches(rules[i].name, overlay[j].pattern) ==> rules[i].name in Matched(names, rules, overlay[j].pattern)
  {}

  lemma {:induction false} ClaimedExactly(names: Names, rules: seq<Rule>, overlay: seq<Mapping>, known: set<Ref>, a: map<string, Ref>, name: string, s: Ref)
    requires Assigned(names, rules, overlay, known, |overlay|) == Some(a)
    ensures Claims(names, rules, overlay, known, |overlay|, name, s) <==> name in a && a[name] == s
  {
    hide Claims, Assigned;
    AssignedAreClaims(names, rules, overlay, known, |overlay|);
    var claims := (name, s) => Claims(names, rules, overlay, known, |overlay|, name, s);
    assert Holds(a, claims);
    assert claims(name, s) <==> name in a && a[name] == s;
  }

  lemma {:induction false} ClaimsAreGiven(names: Names, rules: seq<Rule>, overlay: seq<Mapping>, was: Db, source: Ref, name: string, s: Ref)
    requires source.kind == Service
    requires forall j :: 0 <= j < |overlay| && names.matches(name, overlay[j].pattern) ==> name in Matched(names, rules, overlay[j].pattern)
    ensures Given(names, overlay, was, source, name, s) <==> Claims(names, rules, overlay, KnownAtStart(was, source), |overlay|, name, s)
  {
    forall j | 0 <= j < |overlay|
      ensures GivenBy(names, overlay[j], was, source, name, s) <==> Claim(names, rules, overlay[j], KnownAtStart(was, source), name, s) {}
  }

  lemma {:induction false} LastIsFrom(names: Names, rules: seq<Rule>, a: map<string, Ref>, i: nat)
    requires IsLast(names, rules, i)
    ensures var ref := Ref(MonitorRule, "rule." + names.slug(rules[i].name));
            ref in DesiredBy(names, rules, a, |rules|) && DesiredBy(names, rules, a, |rules|)[ref] == WantedBy(names, rules[i], a)
  {
    var ref := RuleRef(names, rules[i]);
    var j := DesiredIsFrom(names, rules, a, |rules|, ref);
    assert RuleRef(names, rules[i]) == ref;
    OneLast(names, rules, i, j);
  }

  lemma {:induction false} OneLast(names: Names, rules: seq<Rule>, i: nat, j: nat)
    requires IsLast(names, rules, i) && IsFrom(names, rules, |rules|, RuleRef(names, rules[i]), j)
    ensures i == j
  {
    SameKey(names, rules[i], rules[j]);
    hide RuleRef;
  }

  lemma {:induction false} SameKey(names: Names, a: Rule, b: Rule)
    ensures RuleRef(names, a) == RuleRef(names, b) <==> names.slug(a.name) == names.slug(b.name)
  {
    var p, x, y := "rule.", names.slug(a.name), names.slug(b.name);
    if p + x == p + y { assert x == (p + x)[|p|..] == (p + y)[|p|..] == y; }
  }

  lemma {:induction false} DesiredAreRules(names: Names, rules: seq<Rule>, a: map<string, Ref>, ref: Ref)
    ensures ref in DesiredBy(names, rules, a, |rules|) <==> FromSome(names, rules, ref)
  {
    var j := DesiredIsFrom(names, rules, a, |rules|, ref);
    if j < |rules| { assert ref == RuleRef(names, rules[j]); }
    if i :| 0 <= i < |rules| && ref == Ref(MonitorRule, "rule." + names.slug(rules[i].name)) { assert RuleRef(names, rules[i]) == ref; }
  }

  /** A table that has what is wanted lists the rules. */
  lemma {:induction false} ConvergedLists(names: Names, rules: seq<Rule>, overlay: seq<Mapping>, was: Db, source: Ref, desired: map<Ref, Wanted>, db: Db)
    requires Desired(names, rules, overlay, KnownAtStart(was, source)) == Some(desired) && source.kind == Service
    requires Converged(db, source, desired) && AllWellKinded(desired)
    ensures Lists(names, rules, overlay, was, source, db)
  {
    var a := Assigned(names, rules, overlay, KnownAtStart(was, source), |overlay|).value;
    hide KnownAtStart, Strip, SameAttributes, SameWatches, WantedBy, Assigned;
    forall i: nat | IsLast(names, rules, i) ensures CardIs(names, overlay, was, source, rules[i], db) {
      LastIsFrom(names, rules, a, i);
      WantedIsRule(names, rules, overlay, was, source, a, i);
      WantedDisplay(names, rules[i], a);
      var ref := Ref(MonitorRule, "rule." + names.slug(rules[i].name));
      DoneIs(db, ref, desired[ref]);
    }
    forall ref | ref in db && ref.kind == MonitorRule && !FromSome(names, rules, ref) ensures db[ref].status.Retired? {
      DesiredAreRules(names, rules, a, ref);
    }
  }

  lemma {:induction false} WantedDisplay(names: Names, rule: Rule, a: map<string, Ref>)
    ensures WantedBy(names, rule, a).display == rule.name
  {}

  lemma {:induction false} DoneIs(db: Db, ref: Ref, w: Wanted)
    requires RuleDone(db, ref, w) && ServiceKinded(w)
    ensures ref in db && db[ref].status.Active? && db[ref].display == Strip(w.display) && db[ref].attributes == w.attributes
    ensures db[ref].watches == WantedWatches(w) && forall s :: s in db[ref].watches ==> s.kind == Service && s in db && db[s].status.Active?
  {}

  lemma {:induction false} SafeTakesLittle(names: Names, rules: seq<Rule>, overlay: seq<Mapping>, was: Db, now: Db, source: Ref, desired: map<Ref, Wanted>, allowMass: bool)
    requires Desired(names, rules, overlay, KnownAtStart(was, source)) == Some(desired) && Safe(was, now, source, desired, allowMass)
    ensures TakesLittle(names, rules, was, now, allowMass)
  {
    var a := Assigned(names, rules, overlay, KnownAtStart(was, source), |overlay|).value;
    forall ref ensures ref in desired <==> FromSome(names, rules, ref) { DesiredAreRules(names, rules, a, ref); }
    hide *;
    SafeIs(was, now, source, desired, allowMass);
    StandingAreActive(was);
    StandingAreActive(now);
    NoneLost(was, now, desired.Keys);
    FewLost(|Standing(was) - Standing(now)|, |Standing(was)|);
    TakesLittleIs(names, rules, was, now, allowMass);
  }

  lemma {:induction false} SafeIs(was: Db, now: Db, source: Ref, desired: map<Ref, Wanted>, allowMass: bool)
    requires Safe(was, now, source, desired, allowMass)
    ensures OthersKept(was, now) && Lost(was, now) <= Absent(was, desired.Keys)
    ensures !allowMass ==> |Lost(was, now)| <= Threshold(|ActiveRules(was)|)
  {
    hide Lost, Absent, ActiveRules, Allowed, WatchedBy, Threshold;
  }

  lemma {:induction false} TakesLittleIs(names: Names, rules: seq<Rule>, was: Db, now: Db, allowMass: bool)
    requires OthersKept(was, now)
    requires forall ref :: ref in Standing(was) && FromSome(names, rules, ref) ==> ref in Standing(now)
    requires allowMass || |Standing(was) - Standing(now)| <= 5 || 5 * |Standing(was) - Standing(now)| <= |Standing(was)|
    ensures TakesLittle(names, rules, was, now, allowMass)
  {
    hide OthersKept, Standing, FromSome;
  }

  lemma {:induction false} StandingAreActive(db: Db)
    ensures Standing(db) == ActiveRules(db)
  {}

  lemma {:induction false} NoneLost(was: Db, now: Db, desired: set<Ref>)
    requires Lost(was, now) <= Absent(was, desired)
    ensures Lost(was, now) == ActiveRules(was) - ActiveRules(now)
    ensures forall ref :: ref in ActiveRules(was) && ref in desired ==> ref in ActiveRules(now)
  {
    hide ActiveRules;
    forall ref | ref in ActiveRules(was) && ref in desired ensures ref in ActiveRules(now) {
      assert ref !in Absent(was, desired);
    }
  }

  lemma {:induction false} FewLost(lost: nat, all: nat)
    ensures lost <= Threshold(all) <==> lost <= 5 || 5 * lost <= all
  {}

  /** The source, or the service of a label. */
  predicate Needed(names: Names, rules: seq<Rule>, source: Ref, s: Ref) {
    s == source || exists i :: 0 <= i < |rules| && rules[i].service.Some? && s == Ref(Service, names.slug(rules[i].service.value))
  }

  /** Why a run stops, told from the rules and the table it found. */
  ghost predicate StopsFor(names: Names, rules: seq<Rule>, overlay: seq<Mapping>, was: Db, source: Ref, allowMass: bool, failure: Failure) {
    match failure
    case Api(error) => error == Unreachable || (error == KeyExists && exists s :: s in was && was[s].status.Retired? && Needed(names, rules, source, s))
    case Truncated =>
      |set s | s in was && s.kind == Service && was[s].status.Active?| > 1000 || |set ref | ref in was && ref.kind == MonitorRule| > 1000
    case OverlayConflict =>
      exists i, s1, s2 :: 0 <= i < |rules| && rules[i].service.None? && s1 != s2
                          && Given(names, overlay, was, source, rules[i].name, s1) && Given(names, overlay, was, source, rules[i].name, s2)
    case MassRetirement =>
      var gone := set ref | ref in Standing(was) && !FromSome(names, rules, ref);
      !allowMass && |gone| > 5 && 5 * |gone| > |Standing(was)|
  }

  lemma {:induction false} StopIsFor(names: Names, rules: seq<Rule>, overlay: seq<Mapping>, was: Db, source: Ref, allowMass: bool, failure: Failure)
    requires source.kind == Service
    requires Explained(was, source, Desired(names, rules, overlay, KnownAtStart(was, source)), allowMass, failure)
    ensures StopsFor(names, rules, overlay, was, source, allowMass, failure)
  {
    hide KnownAtStart;
    var desired := Desired(names, rules, overlay, KnownAtStart(was, source));
    if failure == OverlayConflict {
      Refused(names, rules, overlay, was, source);
    } else if failure == Truncated {
      assert ServicesIn(was) == set s | s in was && s.kind == Service && was[s].status.Active?;
      RulesCount(was);
    } else if failure == Api(KeyExists) {
      Taken(names, rules, overlay, was, source);
    } else if failure == MassRetirement {
      var a := Assigned(names, rules, overlay, KnownAtStart(was, source), |overlay|).value;
      forall ref ensures ref in desired.value <==> FromSome(names, rules, ref) { DesiredAreRules(names, rules, a, ref); }
      hide Desired, FromSome;
      assert Absent(was, desired.value.Keys) == set ref | ref in Standing(was) && !FromSome(names, rules, ref);
      assert ActiveRules(was) == Standing(was);
      FewLost(|Absent(was, desired.value.Keys)|, |Standing(was)|);
    }
  }

  lemma {:induction false} RulesCount(db: Db)
    ensures |RulesIn(db)| == |set ref | ref in db && ref.kind == MonitorRule|
  {
    assert RulesIn(db).Keys == set ref | ref in db && ref.kind == MonitorRule;
    KeysCount(RulesIn(db));
  }

  lemma {:induction false} KeysCount<K, V>(m: map<K, V>)
    ensures |m| == |m.Keys|
  {}

  lemma {:induction false} BlockedIsLabelled(names: Names, rule: Rule, a: map<string, Ref>, was: Db, known: set<Ref>)
    requires Blocked(was, WantedBy(names, rule, a), known) && forall name :: name in a ==> a[name] in known
    ensures rule.service.Some? && WantedBy(names, rule, a).watch.value.service == Ref(Service, names.slug(rule.service.value))
  {}

  /** The key of a service to be created belongs to a RETIRED one. */
  lemma {:induction false} Taken(names: Names, rules: seq<Rule>, overlay: seq<Mapping>, was: Db, source: Ref)
    requires source.kind == Service
    requires var desired := Desired(names, rules, overlay, KnownAtStart(was, source));
             (source in was && source !in ServicesIn(was)) || (desired.Some? && SomeBlocked(was, desired.value, KnownAtStart(was, source)))
    ensures exists s :: s in was && was[s].status.Retired? && Needed(names, rules, source, s)
  {
    if source in was && source !in ServicesIn(was) {
      assert Needed(names, rules, source, source);
    } else {
      var known := KnownAtStart(was, source);
      var a := Assigned(names, rules, overlay, known, |overlay|).value;
      var desired := DesiredBy(names, rules, a, |rules|);
      AssignedAreKnown(names, rules, overlay, known, |overlay|);
      assert forall name :: name in a ==> a[name] in known;
      hide Assigned, KnownAtStart;
      var ref :| ref in desired && Blocked(was, desired[ref], known);
      var i := DesiredIsFrom(names, rules, a, |rules|, ref);
      var s := desired[ref].watch.value.service;
      BlockedIsLabelled(names, rules[i], a, was, known);
      assert Needed(names, rules, source, s);
    }
  }

  /** Two services are given to rules of one name without a label. */
  lemma {:induction false} Refused(names: Names, rules: seq<Rule>, overlay: seq<Mapping>, was: Db, source: Ref)
    requires source.kind == Service && Assigned(names, rules, overlay, KnownAtStart(was, source), |overlay|).None?
    ensures exists i, s1, s2 :: 0 <= i < |rules| && rules[i].service.None? && s1 != s2
              && Given(names, overlay, was, source, rules[i].name, s1) && Given(names, overlay, was, source, rules[i].name, s2)
  {
    hide KnownAtStart, Assigned;
    var known := KnownAtStart(was, source);
    AssignedAreClaims(names, rules, overlay, known, |overlay|);
    var claims := (name, s) => Claims(names, rules, overlay, known, |overlay|, name, s);
    var name, s1, s2 :| claims(name, s1) && claims(name, s2) && s1 != s2;
    var i := ClaimantIs(names, rules, overlay, known, name, s1);
    UnlabelledMatch(names, rules, overlay, i);
    ClaimsAreGiven(names, rules, overlay, was, source, name, s1);
    ClaimsAreGiven(names, rules, overlay, was, source, name, s2);
  }

  lemma {:induction false} ClaimantIs(names: Names, rules: seq<Rule>, overlay: seq<Mapping>, known: set<Ref>, name: string, s: Ref) returns (i: nat)
    requires Claims(names, rules, overlay, known, |overlay|, name, s)
    ensures i < |rules| && rules[i].service.None? && rules[i].name == name
  {
    var j :| 0 <= j < |overlay| && Claim(names, rules, overlay[j], known, name, s);
    i :| 0 <= i < |rules| && rules[i].service.None? && names.matches(rules[i].name, overlay[j].pattern) && rules[i].name == name;
  }

  lemma {:induction false} AddsTakesNothing(names: Names, rules: seq<Rule>, was: Db, now: Db, source: Ref, allowMass: bool)
    requires Adds(was, now, source)
    ensures TakesLittle(names, rules, was, now, allowMass)
  {
    hide FromSome;
    assert forall ref :: ref in was ==> ref in now && now[ref] == was[ref];
    assert Standing(was) - Standing(now) == {};
  }

  /** What the end of a run says, read from the outside. */
  lemma {:induction false} EndsRead(names: Names, rules: seq<Rule>, overlay: seq<Mapping>, was: State, now: State, source: Ref, allowMass: bool,
                                    r: Result<map<Ref, Wanted>, Failure>)
    requires Named(rules) && source.kind == Service
    requires Ends(was, now, source, Desired(names, rules, overlay, KnownAtStart(was.db, source)), allowMass, r)
    ensures TakesLittle(names, rules, was.db, now.db, allowMass)
    ensures r.Ok? ==> Lists(names, rules, overlay, was.db, source, now.db)
    ensures r.Err? ==> StopsFor(names, rules, overlay, was.db, source, allowMass, r.error)
  {
    hide Named, Lists, TakesLittle, StopsFor, Safe, Completed, Explained, Desired, KnownAtStart, Quiet, Adds;
    var desired := Desired(names, rules, overlay, KnownAtStart(was.db, source));
    if desired.Some? {
      SafeTakesLittle(names, rules, overlay, was.db, now.db, source, desired.value, allowMass);
    } else {
      AddsTakesNothing(names, rules, was.db, now.db, source, allowMass);
    }
    if r.Ok? {
      DesiredIsReady(names, rules, overlay, KnownAtStart(was.db, source));
      CompletedConverges(was, now, source, r.value);
      ConvergedLists(names, rules, overlay, was.db, source, r.value, now.db);
    } else {
      StopIsFor(names, rules, overlay, was.db, source, allowMass, r.error);
    }
  }

  lemma {:induction false} CompletedConverges(was: State, now: State, source: Ref, desired: map<Ref, Wanted>)
    requires Completed(was, now, source, desired)
    ensures Converged(now.db, source, desired)
  {}

  /** `reconcile_entities`, read from the outside. */
  method ListMeters(store: Store, names: Names, source: Ref, rules: seq<Rule>, overlay: seq<Mapping>, allowMass: bool)
    returns (r: Result<map<Ref, Wanted>, Failure>)
    requires Stored(store.state.db) && Named(rules) && source.kind == Service
    modifies store
    ensures TakesLittle(names, rules, old(store.state).db, store.state.db, allowMass)
    ensures r.Ok? ==> Lists(names, rules, overlay, old(store.state).db, source, store.state.db)
    ensures r.Err? ==> StopsFor(names, rules, overlay, old(store.state).db, source, allowMass, r.error)
  {
    hide *;
    ghost var was := store.state;
    r := ReconcileEntities(store, names, source, rules, overlay, allowMass);
    EndsRead(names, rules, overlay, was, store.state, source, allowMass, r);
  }
}
