/** Rerunning the reconciler: resuming after a stop, and exactly when nothing is left to do. */
module MeterQuiet {
  import opened Text
  import opened EntityStore
  import opened MeterRules
  import opened MeterList
  import opened MeterReconcile
  import opened MeterRun

  /** Two lists the same rules can want, both of which one table satisfies, are the same list. */
  lemma {:induction false} SameList(names: Names, rules: seq<Rule>, overlay: seq<Mapping>, k1: set<Ref>, k2: set<Ref>, db: Db, source: Ref)
    requires Desired(names, rules, overlay, k1).Some? && Converged(db, source, Desired(names, rules, overlay, k1).value)
    requires Desired(names, rules, overlay, k2).Some? && Converged(db, source, Desired(names, rules, overlay, k2).value)
    ensures Desired(names, rules, overlay, k1) == Desired(names, rules, overlay, k2)
  {
    var a1 := Assigned(names, rules, overlay, k1, |overlay|).value;
    var a2 := Assigned(names, rules, overlay, k2, |overlay|).value;
    var d1, d2 := DesiredBy(names, rules, a1, |rules|), DesiredBy(names, rules, a2, |rules|);
    forall ref ensures (ref in d1 <==> ref in d2) && (ref in d1 ==> d1[ref] == d2[ref]) {
      var i := DesiredIsFrom(names, rules, a1, |rules|, ref);
      var j := DesiredIsFrom(names, rules, a2, |rules|, ref);
      if ref in d1 {
        assert i == j by { assert IsFrom(names, rules, |rules|, ref, i) && IsFrom(names, rules, |rules|, ref, j); }
        assert RuleDone(db, ref, d1[ref]) && RuleDone(db, ref, d2[ref]);
        SameWatch(names, rules[i], a1, a2);
      }
    }
    assert d1 == d2;
  }

  lemma {:induction false} SameWatch(names: Names, rule: Rule, a1: map<string, Ref>, a2: map<string, Ref>)
    requires WantedWatches(WantedBy(names, rule, a1)) == WantedWatches(WantedBy(names, rule, a2))
    ensures WantedBy(names, rule, a1) == WantedBy(names, rule, a2)
  {
    var w1, w2 := WantedBy(names, rule, a1), WantedBy(names, rule, a2);
    if rule.service.None? {
      assert w1.watch.Some? ==> w1.watch.value.service in WantedWatches(w1).Keys;
      assert w2.watch.Some? ==> w2.watch.value.service in WantedWatches(w2).Keys;
    }
  }

  /**
   * After a completed run the table is quiet for the next one exactly when the
   * overlay, read again with the services the run itself added, wants the same
   * rules, and no rule's name has space around it.
   */
  lemma {:induction false} QuietExactly(names: Names, rules: seq<Rule>, overlay: seq<Mapping>, was: State, now: State, source: Ref)
    requires Desired(names, rules, overlay, KnownAtStart(was.db, source)).Some?
    requires Completed(was, now, source, Desired(names, rules, overlay, KnownAtStart(was.db, source)).value)
    ensures var desired := Desired(names, rules, overlay, KnownAtStart(was.db, source)).value;
            var again := Desired(names, rules, overlay, KnownAtStart(now.db, source));
            && KnownAtStart(now.db, source) == KnownAtStart(was.db, source) + WatchedBy(desired, desired.Keys)
            && ((again.Some? && Quiet(now.db, source, again.value)) <==> (again == Some(desired) && Trimmed(desired)))
  {
    hide ServicesIn, WatchedBy, Desired;
    var desired := Desired(names, rules, overlay, KnownAtStart(was.db, source)).value;
    assert KnownAtStart(now.db, source) == KnownAtStart(was.db, source) + WatchedBy(desired, desired.Keys);
    var again := Desired(names, rules, overlay, KnownAtStart(now.db, source));
    if again.Some? && Converged(now.db, source, again.value) {
      SameList(names, rules, overlay, KnownAtStart(was.db, source), KnownAtStart(now.db, source), now.db, source);
    }
  }

  /** No mapping that matches an unlabelled rule names a service that only the run itself would add. */
  ghost predicate NoLateService(names: Names, rules: seq<Rule>, overlay: seq<Mapping>, known: set<Ref>, added: set<Ref>) {
    forall m :: m in overlay && Ref(Service, m.service) in added - known ==> Matched(names, rules, m.pattern) == {}
  }

  /** After any run, completed or stopped at any call, the same rules are wanted. */
  lemma {:induction false} SameDesired(names: Names, rules: seq<Rule>, overlay: seq<Mapping>, was: Db, now: Db, source: Ref, desired: map<Ref, Wanted>, allowMass: bool)
    requires Desired(names, rules, overlay, KnownAtStart(was, source)) == Some(desired)
    requires Safe(was, now, source, desired, allowMass) && source.kind == Service && AllWellKinded(desired)
    requires NoLateService(names, rules, overlay, KnownAtStart(was, source), WatchedBy(desired, desired.Keys))
    ensures Desired(names, rules, overlay, KnownAtStart(now, source)) == Some(desired)
  {
    KnownBetween(was, now, source, desired);
    hide ServicesIn, KnownAtStart, WatchedBy;
    AssignedSame(names, rules, overlay, KnownAtStart(was, source), KnownAtStart(now, source), |overlay|);
  }

  lemma {:induction false} KnownBetween(was: Db, now: Db, source: Ref, desired: map<Ref, Wanted>)
    requires Framed(was, now, source, desired) && source.kind == Service && AllWellKinded(desired)
    ensures KnownAtStart(was, source) <= KnownAtStart(now, source) <= KnownAtStart(was, source) + WatchedBy(desired, desired.Keys)
  {
    hide WatchedBy;
  }

  lemma {:induction false} Guards(was: Db, now: Db, source: Ref, desired: map<Ref, Wanted>, allowMass: bool)
    requires Safe(was, now, source, desired, allowMass)
    ensures Allowed(was, desired.Keys) ==> Allowed(now, desired.Keys)
  {}

  lemma {:induction false} CompletedConverged(was: State, now: State, source: Ref, desired: map<Ref, Wanted>)
    requires Completed(was, now, source, desired)
    ensures Converged(now.db, source, desired)
  {}

  lemma {:induction false} MassRetirementIsGuard(db: Db, source: Ref, desired: Option<map<Ref, Wanted>>, allowMass: bool, failure: Failure)
    requires Explained(db, source, desired, allowMass, failure) && failure.MassRetirement?
    ensures desired.Some? && !allowMass && !Allowed(db, desired.value.Keys)
  {}

  /** What holds before every run: the same rules are wanted, and the guard lets it start if it let the first one. */
  ghost predicate Steady(names: Names, rules: seq<Rule>, overlay: seq<Mapping>, first: Db, db: Db, source: Ref, desired: map<Ref, Wanted>) {
    && Desired(names, rules, overlay, KnownAtStart(db, source)) == Some(desired)
    && NoLateService(names, rules, overlay, KnownAtStart(db, source), WatchedBy(desired, desired.Keys))
    && (Allowed(first, desired.Keys) ==> Allowed(db, desired.Keys))
  }

  lemma {:induction false} FewerLate(names: Names, rules: seq<Rule>, overlay: seq<Mapping>, known: set<Ref>, wider: set<Ref>, added: set<Ref>)
    requires NoLateService(names, rules, overlay, known, added) && known <= wider
    ensures NoLateService(names, rules, overlay, wider, added)
  {}

  lemma {:induction false} SteadyStep(names: Names, rules: seq<Rule>, overlay: seq<Mapping>, first: Db, was: Db, now: Db, source: Ref,
                                      desired: map<Ref, Wanted>, allowMass: bool)
    requires Steady(names, rules, overlay, first, was, source, desired) && source.kind == Service && Named(rules)
    requires Safe(was, now, source, desired, allowMass)
    ensures Steady(names, rules, overlay, first, now, source, desired)
  {
    DesiredIsReady(names, rules, overlay, KnownAtStart(was, source));
    SameDesired(names, rules, overlay, was, now, source, desired, allowMass);
    KnownBetween(was, now, source, desired);
    Guards(was, now, source, desired, allowMass);
    hide ServicesIn, KnownAtStart, WatchedBy, Desired, Safe, Allowed, AllWellKinded;
    FewerLate(names, rules, overlay, KnownAtStart(was, source), KnownAtStart(now, source), WatchedBy(desired, desired.Keys));
  }

  /** Runs one after the other, completed or stopped at any call, with nobody else writing. */
  ghost predicate History(names: Names, rules: seq<Rule>, overlay: seq<Mapping>, source: Ref, allowMass: bool,
                          states: seq<State>, results: seq<Result<map<Ref, Wanted>, Failure>>) {
    && |states| == |results| + 1
    && forall i :: 0 <= i < |results| ==>
         Ends(states[i], states[i + 1], source, Desired(names, rules, overlay, KnownAtStart(states[i].db, source)), allowMass, results[i])
  }

  /**
   * Run any number of times, each run stopped anywhere or completed: every completed
   * run converged to the rules the first one wanted, the mass-retirement guard stops
   * none if it would not have stopped the first, and after a completed run no later
   * one writes anything.
   */
  ghost predicate Resumed(source: Ref, desired: map<Ref, Wanted>, allowMass: bool,
                          states: seq<State>, results: seq<Result<map<Ref, Wanted>, Failure>>, n: nat)
    requires n <= |results| < |states|
  {
    && (forall i :: 0 <= i < n && results[i].Ok? ==> results[i].value == desired && Converged(states[i + 1].db, source, desired))
    && (allowMass || Allowed(states[0].db, desired.Keys) ==> forall i :: 0 <= i < n ==> results[i] != Err(MassRetirement))
    && (Trimmed(desired) ==> forall i, j :: 0 <= i < j <= n && results[i].Ok? ==> states[j] == states[i + 1])
  }

  lemma {:induction false} RunsResume(names: Names, rules: seq<Rule>, overlay: seq<Mapping>, source: Ref, allowMass: bool, desired: map<Ref, Wanted>,
                                      states: seq<State>, results: seq<Result<map<Ref, Wanted>, Failure>>, n: nat)
    requires History(names, rules, overlay, source, allowMass, states, results) && n <= |results|
    requires source.kind == Service && Named(rules)
    requires Desired(names, rules, overlay, KnownAtStart(states[0].db, source)) == Some(desired)
    requires NoLateService(names, rules, overlay, KnownAtStart(states[0].db, source), WatchedBy(desired, desired.Keys))
    ensures Steady(names, rules, overlay, states[0].db, states[n].db, source, desired)
    ensures Resumed(source, desired, allowMass, states, results, n)
  {
    hide Desired, KnownAtStart, Ends, Named, Converged, Trimmed, Allowed, WatchedBy, NoLateService;
    if n > 0 {
      RunsResume(names, rules, overlay, source, allowMass, desired, states, results, n - 1);
      var was, now, r := states[n - 1], states[n], results[n - 1];
      assert Ends(was, now, source, Some(desired), allowMass, r);
      EndsMeans(was, now, source, desired, allowMass, r);
      SteadyStep(names, rules, overlay, states[0].db, was.db, now.db, source, desired, allowMass);
    }
  }

  lemma {:induction false} EndsMeans(was: State, now: State, source: Ref, desired: map<Ref, Wanted>, allowMass: bool, r: Result<map<Ref, Wanted>, Failure>)
    requires Ends(was, now, source, Some(desired), allowMass, r)
    ensures Safe(was.db, now.db, source, desired, allowMass)
    ensures r.Ok? ==> r.value == desired && Converged(now.db, source, desired)
    ensures allowMass || Allowed(was.db, desired.Keys) ==> r != Err(MassRetirement)
    ensures Converged(was.db, source, desired) && Trimmed(desired) ==> now == was
  {
    hide Safe, Completed, Explained, Converged, Trimmed, Allowed;
    if r.Ok? { CompletedConverged(was, now, source, desired); }
    if r == Err(MassRetirement) { MassRetirementIsGuard(was.db, source, Some(desired), allowMass, r.error); }
  }

  method RunRepeatedly(store: Store, names: Names, source: Ref, rules: seq<Rule>, overlay: seq<Mapping>, allowMass: bool, runs: nat)
    returns (results: seq<Result<map<Ref, Wanted>, Failure>>, ghost states: seq<State>)
    requires Stored(store.state.db) && Named(rules) && source.kind == Service
    modifies store
    ensures |results| == runs && |states| == runs + 1 && states[0] == old(store.state) && states[runs] == store.state
    ensures var known := KnownAtStart(old(store.state).db, source);
            var desired := Desired(names, rules, overlay, known);
            desired.Some? && NoLateService(names, rules, overlay, known, WatchedBy(desired.value, desired.value.Keys)) ==>
              Resumed(source, desired.value, allowMass, states, results, runs)
  {
    hide Stored, Named, KnownAtStart, Desired, NoLateService, WatchedBy, Resumed, Ends;
    results, states := [], [store.state];
    for k := 0 to runs
      invariant Stored(store.state.db) && |results| == k && |states| == k + 1 && states[0] == old(store.state) && states[k] == store.state
      invariant History(names, rules, overlay, source, allowMass, states, results)
    {
      ghost var was := store.state;
      var r := ReconcileEntities(store, names, source, rules, overlay, allowMass);
      results, states := results + [r], states + [store.state];
    }
    ghost var desired := Desired(names, rules, overlay, KnownAtStart(states[0].db, source));
    if desired.Some? && NoLateService(names, rules, overlay, KnownAtStart(states[0].db, source), WatchedBy(desired.value, desired.value.Keys)) {
      RunsResume(names, rules, overlay, source, allowMass, desired.value, states, results, runs);
    }
  }

  // ---- a rerun that is not quiet -------------------------------------------------------------

  function LateNames(): Names { Names((s: string) => s, (name: string, pattern: string) => name == pattern, "page.md") }

  function Labelled(): Rule { Rule("f", "g", "a", "alert", "x", Some("svc"), true, Option.None, Option.None, Option.None) }

  function Unlabelled(): Rule { Labelled().(name := "b", service := Option.None) }

  function LateOverlay(): seq<Mapping> { [Mapping("b", "svc")] }

  function LateSource(): Ref { Ref(Service, "prometheus") }

  /** What the two rules and the mapping want when these services are known. */
  function LateDesired(known: set<Ref>): Option<map<Ref, Wanted>> {
    Desired(LateNames(), [Labelled(), Unlabelled()], LateOverlay(), known)
  }

  /**
   * The mapping names a service which only the other rule's label makes known: it is
   * skipped the first time and applies the second.
   */
  lemma {:induction false} LateService()
    ensures var first := LateDesired({LateSource()});
            && first.Some?
            && LateDesired({LateSource()} + WatchedBy(first.value, first.value.Keys)).Some?
            && LateDesired({LateSource()} + WatchedBy(first.value, first.value.Keys)) != first
  {
    var names, labelled, unlabelled := LateNames(), Labelled(), Unlabelled();
    var rules, overlay, source, svc := [labelled, unlabelled], LateOverlay(), LateSource(), Ref(Service, "svc");
    assert svc != source by { assert |svc.key| != |source.key|; }
    assert RuleRef(names, labelled).key[5] == 'a' && RuleRef(names, unlabelled).key[5] == 'b';
    var none: map<string, Ref>, one: map<string, Ref> := map[], map["b" := svc];
    assert Assigned(names, rules, overlay, {source}, 0) == Some(none);
    assert Assigned(names, rules, overlay, {source}, 1) == Some(none);
    var first := TwoRules(names, labelled, unlabelled, none);
    var late := {source} + WatchedBy(first, first.Keys);
    assert svc in WatchedBy(first, first.Keys) by {
      var ref := RuleRef(names, labelled);
      assert ref in first.Keys && first[ref] == WantedBy(names, labelled, none) && first[ref].watch.value.service == svc;
    }
    assert Matched(names, rules, "b") == {"b"} by { assert rules[1].name == "b"; }
    assert Assigned(names, rules, overlay, late, 0) == Some(none);
    OneMapping(names, rules, overlay, late, svc, one);
    var second := TwoRules(names, labelled, unlabelled, one);
    assert first[RuleRef(names, unlabelled)].watch.None? && second[RuleRef(names, unlabelled)].watch.Some?;
  }

  /** So a run that completed on these inputs, from a table with no service but the source, leaves the next one work to do. */
  lemma {:induction false} LateRerun(was: State, now: State)
    requires KnownAtStart(was.db, LateSource()) == {LateSource()} && LateDesired({LateSource()}).Some?
    requires Completed(was, now, LateSource(), LateDesired({LateSource()}).value)
    ensures var again := LateDesired(KnownAtStart(now.db, LateSource()));
            again.Some? && !Quiet(now.db, LateSource(), again.value)
  {
    hide Desired, Completed, Quiet, KnownAtStart, LateSource, LateNames, LateOverlay, Labelled, Unlabelled, WatchedBy;
    LateService();
    QuietExactly(LateNames(), [Labelled(), Unlabelled()], LateOverlay(), was, now, LateSource());
  }

  function DoneCard(w: Wanted): Card { Card(Strip(w.display), w.attributes, Active, 1, WantedWatches(w)) }

  /** A table of services and finished rules. */
  function DoneTable(services: set<Ref>, desired: map<Ref, Wanted>): Db {
    (map s | s in services :: NewCard("", NoAttributes)) + (map ref | ref in desired :: DoneCard(desired[ref]))
  }

  lemma {:induction false} DoneServices(services: set<Ref>, desired: map<Ref, Wanted>)
    requires (forall s :: s in services ==> s.kind == Service) && AllWellKinded(desired)
    ensures ServicesIn(DoneTable(services, desired)) == services
  {
    hide Strip, WantedWatches;
    assert forall ref :: ref in desired ==> ref.kind == MonitorRule;
  }

  lemma {:induction false} DoneRule(services: set<Ref>, desired: map<Ref, Wanted>, ref: Ref)
    requires (forall s :: s in services ==> s.kind == Service) && AllWellKinded(desired) && ref in desired
    requires desired[ref].watch.Some? ==> desired[ref].watch.value.service in services
    ensures RuleDone(DoneTable(services, desired), ref, desired[ref])
  {
    DoneServices(services, desired);
    assert DoneTable(services, desired)[ref] == DoneCard(desired[ref]);
    hide Strip, WantedWatches, ServicesIn, DoneTable;
  }

  lemma {:induction false} DoneConverged(services: set<Ref>, desired: map<Ref, Wanted>, source: Ref)
    requires (forall s :: s in services ==> s.kind == Service) && AllWellKinded(desired) && source in services
    requires WatchedBy(desired, desired.Keys) <= services
    ensures Converged(DoneTable(services, desired), source, desired)
  {
    hide RuleDone, ServicesIn, Strip, DoneCard;
    DoneServices(services, desired);
    forall ref | ref in desired ensures RuleDone(DoneTable(services, desired), ref, desired[ref]) {
      if desired[ref].watch.Some? { assert desired[ref].watch.value.service in WatchedBy(desired, desired.Keys); }
      DoneRule(services, desired, ref);
    }
  }

  /** A table that a completed first run can leave, for any list of rules. */
  lemma {:induction false} SomeTable(source: Ref, desired: map<Ref, Wanted>) returns (now: State)
    requires source.kind == Service && AllWellKinded(desired)
    ensures Completed(State(map[], 0), now, source, desired)
  {
    WatchedAreServices(desired);
    NoServices();
    hide DoneTable, ServicesIn, RuleDone, WatchedBy;
    var services := {source} + WatchedBy(desired, desired.Keys);
    now := State(DoneTable(services, desired), 1);
    DoneServices(services, desired);
    DoneConverged(services, desired, source);
  }

  lemma {:induction false} NoServices()
    ensures ServicesIn(map[]) == {}
  {}

  /** It does happen: from the empty table, a first run can complete and leave the second one work to do. */
  lemma {:induction false} LateExample() returns (now: State)
    ensures var first := LateDesired({LateSource()});
            first.Some? && Completed(State(map[], 0), now, LateSource(), first.value)
    ensures var again := LateDesired(KnownAtStart(now.db, LateSource()));
            again.Some? && !Quiet(now.db, LateSource(), again.value)
  {
    assert Named([Labelled(), Unlabelled()]);
    NoServices();
    assert KnownAtStart(map[], LateSource()) == {LateSource()};
    hide Named, KnownAtStart, Desired, Quiet, Completed, AllWellKinded, LateNames, LateOverlay, Labelled, Unlabelled;
    LateService();
    DesiredIsReady(LateNames(), [Labelled(), Unlabelled()], LateOverlay(), {LateSource()});
    now := SomeTable(LateSource(), LateDesired({LateSource()}).value);
    LateRerun(State(map[], 0), now);
  }

  /** Two completed runs of the reconciler on these inputs: the second one writes. */
  method RunLate(store: Store, allowMass: bool)
    returns (first: Result<map<Ref, Wanted>, Failure>, second: Result<map<Ref, Wanted>, Failure>, ghost between: State)
    requires Stored(store.state.db) && KnownAtStart(store.state.db, LateSource()) == {LateSource()}
    modifies store
    ensures first.Ok? && second.Ok? ==> between.writes < store.state.writes
  {
    ghost var was := store.state;
    assert Named([Labelled(), Unlabelled()]);
    hide Stored, Named, KnownAtStart, Desired, Ends, Quiet, Completed, LateNames, LateOverlay, Labelled, Unlabelled;
    first := ReconcileEntities(store, LateNames(), LateSource(), [Labelled(), Unlabelled()], LateOverlay(), allowMass);
    between := store.state;
    second := ReconcileEntities(store, LateNames(), LateSource(), [Labelled(), Unlabelled()], LateOverlay(), allowMass);
    if first.Ok? && second.Ok? {
      CompletedRun(was, between, LateSource(), LateDesired(KnownAtStart(was.db, LateSource())), allowMass, first);
      CompletedRun(between, store.state, LateSource(), LateDesired(KnownAtStart(between.db, LateSource())), allowMass, second);
      LateRerun(was, between);
      WritesUnlessQuiet(between, store.state, LateSource(), second.value);
    }
  }

  lemma {:induction false} CompletedRun(was: State, now: State, source: Ref, desired: Option<map<Ref, Wanted>>, allowMass: bool,
                                        r: Result<map<Ref, Wanted>, Failure>)
    requires Ends(was, now, source, desired, allowMass, r) && r.Ok?
    ensures desired == Some(r.value) && Completed(was, now, source, r.value)
  {}

  lemma {:induction false} WritesUnlessQuiet(was: State, now: State, source: Ref, desired: map<Ref, Wanted>)
    requires Completed(was, now, source, desired) && Progress(was, now) && !Quiet(was.db, source, desired)
    ensures was.writes < now.writes
  {}

  lemma {:induction false} OneMapping(names: Names, rules: seq<Rule>, overlay: seq<Mapping>, known: set<Ref>, svc: Ref, one: map<string, Ref>)
    requires |overlay| == 1 && svc == Ref(Service, overlay[0].service) && svc in known
    requires Matched(names, rules, overlay[0].pattern) == one.Keys && forall name :: name in one ==> one[name] == svc
    ensures Assigned(names, rules, overlay, known, 1) == Some(one)
  {
    assert Assigned(names, rules, overlay, known, 0) == Some(map[]);
    assert map[] + (map name | name in one.Keys :: svc) == one;
    assert Assign(map[], one.Keys, svc) == Some(one);
  }

  lemma {:induction false} TwoRules(names: Names, r0: Rule, r1: Rule, a: map<string, Ref>) returns (desired: map<Ref, Wanted>)
    ensures desired == DesiredBy(names, [r0, r1], a, 2)
    ensures desired == map[][RuleRef(names, r0) := WantedBy(names, r0, a)][RuleRef(names, r1) := WantedBy(names, r1, a)]
  {
    assert DesiredBy(names, [r0, r1], a, 0) == map[];
    assert DesiredBy(names, [r0, r1], a, 1) == map[][RuleRef(names, r0) := WantedBy(names, r0, a)];
    desired := DesiredBy(names, [r0, r1], a, 2);
  }
}
