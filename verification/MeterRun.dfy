/** `reconcile_entities`: convergence from any table, and exactly when a rerun is quiet. */
module MeterRun {
  import opened Text
  import opened EntityStore
  import opened MeterRules
  import opened MeterList
  import opened MeterReconcile

  const LISTING_LIMIT := 1000

  // ---- what the rule files want ------------------------------------------------

  /** `overlay_assignments`: `None` is the conflict it raises. */
  method OverlayAssignments(names: Names, rules: seq<Rule>, overlay: seq<Mapping>, known: set<Ref>)
    returns (r: Option<map<string, Ref>>)
    ensures r == Assigned(names, rules, overlay, known, |overlay|)
  {
    var assignments: map<string, Ref> := map[];
    var j := 0;
    while j < |overlay|
      invariant j <= |overlay|
      invariant Assigned(names, rules, overlay, known, j) == Some(assignments)
    {
      var service := Ref(Service, overlay[j].service);
      if service in known {
        var given := AssignAll(assignments, Matched(names, rules, overlay[j].pattern), service);
        if given.None? {
          ConflictStays(names, rules, overlay, known, j + 1, |overlay|);
          return Option.None;
        }
        assignments := given.value;
      }
      j := j + 1;
    }
    return Some(assignments);
  }

  lemma {:induction false} ConflictStays(names: Names, rules: seq<Rule>, overlay: seq<Mapping>, known: set<Ref>, j: nat, n: nat)
    requires j <= n <= |overlay| && Assigned(names, rules, overlay, known, j).None?
    ensures Assigned(names, rules, overlay, known, n).None?
  {
    if j < n { ConflictStays(names, rules, overlay, known, j, n - 1); }
  }

  /** `for name in matches`: refuse a different service, else assign. */
  method AssignAll(assignments: map<string, Ref>, matched: set<string>, service: Ref) returns (r: Option<map<string, Ref>>)
    ensures r == Assign(assignments, matched, service)
  {
    var a, todo := assignments, matched;
    while todo != {}
      invariant todo <= matched
      invariant a == assignments + map name | name in matched - todo :: service
      invariant forall name :: name in matched - todo && name in assignments ==> assignments[name] == service
    {
      var name :| name in todo;
      if name in a && a[name] != service {
        return Option.None;
      }
      a, todo := a[name := service], todo - {name};
    }
    assert matched - todo == matched;
    return Some(a);
  }

  method DesiredRules(names: Names, rules: seq<Rule>, assignments: map<string, Ref>) returns (desired: map<Ref, Wanted>)
    ensures desired == DesiredBy(names, rules, assignments, |rules|)
  {
    desired := map[];
    for i := 0 to |rules|
      invariant desired == DesiredBy(names, rules, assignments, i)
    {
      desired := desired[RuleRef(names, rules[i]) := WantedBy(names, rules[i], assignments)];
    }
  }

  /** `parse_rules` drops a rule without a name. */
  predicate Named(rules: seq<Rule>) { forall i :: 0 <= i < |rules| ==> rules[i].name != "" }

  lemma {:induction false} AssignedAreKnown(names: Names, rules: seq<Rule>, overlay: seq<Mapping>, known: set<Ref>, n: nat)
    requires n <= |overlay|
    ensures var a := Assigned(names, rules, overlay, known, n);
            a.Some? ==> forall name :: name in a.value ==> a.value[name] in known && a.value[name].kind == Service
  {
    if n > 0 { AssignedAreKnown(names, rules, overlay, known, n - 1); }
  }

  lemma {:induction false} WantedIsReady(names: Names, rule: Rule, a: map<string, Ref>, known: set<Ref>)
    requires rule.name != "" && forall name :: name in a ==> a[name] in known && a[name].kind == Service
    ensures var w := WantedBy(names, rule, a);
            && w.display != "" && ServiceKinded(w)
            && (w.watch.Some? && w.watch.value.origin.Overlay? ==> w.watch.value.service in known)
  {}

  lemma {:induction false} DesiredIsReady(names: Names, rules: seq<Rule>, overlay: seq<Mapping>, known: set<Ref>)
    requires Named(rules) && Desired(names, rules, overlay, known).Some?
    ensures AllWellKinded(Desired(names, rules, overlay, known).value) && OverlaysKnown(Desired(names, rules, overlay, known).value, known)
  {
    var a := Assigned(names, rules, overlay, known, |overlay|).value;
    var desired := Desired(names, rules, overlay, known).value;
    AssignedAreKnown(names, rules, overlay, known, |overlay|);
    forall ref | ref in desired
      ensures desired[ref].display != "" && ServiceKinded(desired[ref])
      ensures desired[ref].watch.Some? && desired[ref].watch.value.origin.Overlay? ==> desired[ref].watch.value.service in known
    {
      var i := DesiredIsFrom(names, rules, a, |rules|, ref);
      WantedIsReady(names, rules[i], a, known);
    }
  }

  // ---- the run -----------------------------------------------------------------

  /** The services the overlay may name: those listed and the monitoring source. */
  function KnownAtStart(db: Db, source: Ref): set<Ref> { ServicesIn(db) + {source} }

  /**
   * On every exit, early or not: no identity is lost, nothing but rules is
   * changed, only what is wanted is new, only absent rules lose their place,
   * within the bound, and a rerun still passes the guard.
   */
  ghost predicate Safe(was: Db, now: Db, source: Ref, desired: map<Ref, Wanted>, allowMass: bool) {
    && Framed(was, now, source, desired)
    && Lost(was, now) <= Absent(was, desired.Keys)
    && (!allowMass ==> |Lost(was, now)| <= Threshold(|ActiveRules(was)|))
    && (Allowed(was, desired.Keys) ==> Allowed(now, desired.Keys))
  }

  ghost predicate Framed(was: Db, now: Db, source: Ref, desired: map<Ref, Wanted>) {
    && (forall x :: x in was ==> x in now && (x.kind != MonitorRule ==> now[x] == was[x]))
    && (forall x :: x in now && x !in was ==> x == source || x in desired || x in WatchedBy(desired, desired.Keys))
  }

  /** Nothing is left to write. */
  ghost predicate Quiet(db: Db, source: Ref, desired: map<Ref, Wanted>) { Converged(db, source, desired) && Trimmed(desired) }

  /** A completed run has converged, and wrote something unless nothing was left to write. */
  ghost predicate Completed(was: State, now: State, source: Ref, desired: map<Ref, Wanted>) {
    && Converged(now.db, source, desired)
    && ServicesIn(now.db) == KnownAtStart(was.db, source) + WatchedBy(desired, desired.Keys)
    && (now.writes == was.writes <==> Quiet(was.db, source, desired))
  }

  /** Why a run that can reach the store stops. */
  ghost predicate Explained(db: Db, source: Ref, desired: Option<map<Ref, Wanted>>, allowMass: bool, failure: Failure) {
    match failure
    case Api(error) =>
      error == Unreachable || (error == KeyExists &&
        ((source in db && source !in ServicesIn(db)) || (desired.Some? && SomeBlocked(db, desired.value, KnownAtStart(db, source)))))
    case Truncated => |ServicesIn(db)| > LISTING_LIMIT || |RulesIn(db)| > LISTING_LIMIT
    case OverlayConflict => desired.None?
    case MassRetirement => desired.Some? && !allowMass && !Allowed(db, desired.value.Keys)
  }

  lemma {:induction false} RetireThenAdvance(was: Db, mid: Db, now: Db, source: Ref, desired: map<Ref, Wanted>, gone: set<Ref>)
    requires Retiring(was, mid, gone) && gone == Absent(was, desired.Keys) && AllWellKinded(desired)
    requires Advancing(mid, now, desired, WatchedBy(desired, desired.Keys))
    ensures Framed(was, now, source, desired)
    ensures Lost(was, now) <= gone && ActiveRules(now) - desired.Keys <= ActiveRules(was)
  {
    WatchedAreServices(desired);
    forall x | x in was ensures x in now && (x.kind != MonitorRule ==> now[x] == was[x]) { assert x in mid; }
    forall x | x in ActiveRules(now) - desired.Keys ensures x in ActiveRules(was) { assert x in mid && now[x] == mid[x]; }
    forall x | x in Lost(was, now) ensures x in gone { assert x in mid && x in now; }
  }

  lemma {:induction false} WatchedAreServices(desired: map<Ref, Wanted>)
    requires AllWellKinded(desired)
    ensures forall x :: x in WatchedBy(desired, desired.Keys) ==> x.kind == Service
  {}

  lemma {:induction false} SafeAll(was: Db, mid: Db, now: Db, source: Ref, desired: map<Ref, Wanted>, gone: set<Ref>, allowMass: bool)
    requires Retiring(was, mid, gone) && gone == Absent(was, desired.Keys) && AllWellKinded(desired)
    requires allowMass || Allowed(was, desired.Keys)
    requires Advancing(mid, now, desired, WatchedBy(desired, desired.Keys))
    ensures Safe(was, now, source, desired, allowMass)
  {
    RetireThenAdvance(was, mid, now, source, desired, gone);
    hide Framed, Lost, Absent, Retiring, Advancing, AllWellKinded, ActiveRules, Threshold;
    Subset(Lost(was, now), gone);
    if Allowed(was, desired.Keys) { StillAllowed(was, now, desired.Keys); }
  }

  lemma {:induction false} RetiringKeeps(was: Db, now: Db, desired: map<Ref, Wanted>, gone: set<Ref>)
    requires Retiring(was, now, gone) && gone <= ActiveRules(was) - desired.Keys && Stored(was)
    ensures Stored(now) && ServicesIn(now) == ServicesIn(was)
    ensures forall ref :: ref in desired ==> Lookup(now, ref) == Lookup(was, ref)
  {
    hide Strip;
    forall ref | ref in now ensures Strip(now[ref].display) == now[ref].display { assert now[ref].display == was[ref].display; }
    forall ref | ref in was && ref.kind == Service ensures now[ref] == was[ref] { assert ref !in gone; }
  }

  lemma {:induction false} IsSnapshot(was: Db, mid: Db, desired: map<Ref, Wanted>)
    requires AllWellKinded(desired) && forall ref :: ref in desired ==> Lookup(mid, ref) == Lookup(was, ref)
    ensures Snapshot(mid, desired, RulesIn(was))
  {}

  lemma {:induction false} ConvergedAtEnd(was: Db, mid: Db, now: Db, source: Ref, desired: map<Ref, Wanted>, gone: set<Ref>, services: set<Ref>)
    requires Retiring(was, mid, gone) && gone == Absent(was, desired.Keys) && AllWellKinded(desired)
    requires forall ref :: ref in gone ==> ref in mid && mid[ref].status.Retired?
    requires Advancing(mid, now, desired, WatchedBy(desired, desired.Keys)) && AllDone(now, desired, desired.Keys)
    requires source in ServicesIn(now)
    ensures Converged(now, source, desired)
  {
    WatchedAreServices(desired);
    forall ref | ref in now && ref.kind == MonitorRule && ref !in desired ensures now[ref].status.Retired? {
      assert ref in mid && now[ref] == mid[ref];
      if was[ref].status.Active? { assert ref in gone; }
    }
  }

  lemma {:induction false} ServicesAtEnd(mid: Db, now: Db, desired: map<Ref, Wanted>, known: set<Ref>)
    requires Advancing(mid, now, desired, WatchedBy(desired, desired.Keys)) && AllWellKinded(desired)
    requires known == ServicesIn(mid) && known + WatchedBy(desired, desired.Keys) <= ServicesIn(now)
    ensures ServicesIn(now) == known + WatchedBy(desired, desired.Keys)
  {}

  lemma {:induction false} QuietIsSettled(db: Db, source: Ref, desired: map<Ref, Wanted>)
    requires Quiet(db, source, desired)
    ensures AllSettled(db, desired, ServicesIn(db)) && Absent(db, desired.Keys) == {}
  {}

  lemma {:induction false} SettledIsQuiet(db: Db, source: Ref, desired: map<Ref, Wanted>)
    requires Converged(db, source, desired) && Stored(db) && AllAsWanted(db, desired, desired.Keys)
    ensures Quiet(db, source, desired)
  {
    forall ref | ref in desired ensures Strip(desired[ref].display) == desired[ref].display {
      assert AsWanted(db, ref, desired[ref]);
    }
  }

  lemma {:induction false} SafeNow(db: Db, source: Ref, desired: map<Ref, Wanted>, allowMass: bool)
    ensures Safe(db, db, source, desired, allowMass)
  {
    assert Lost(db, db) == {};
  }

  lemma {:induction false} AdvancingNone(db: Db, desired: map<Ref, Wanted>, added: set<Ref>)
    ensures Advancing(db, db, desired, added)
  {}

  lemma {:induction false} BlockedSame(was: Db, mid: Db, desired: map<Ref, Wanted>, services: set<Ref>)
    requires mid.Keys == was.Keys && SomeBlocked(mid, desired, services)
    ensures SomeBlocked(was, desired, services)
  {
    var ref :| ref in desired && Blocked(mid, desired[ref], services);
    assert Blocked(was, desired[ref], services);
  }

  lemma {:induction false} RetiringKeys(was: Db, mid: Db, gone: set<Ref>)
    requires Retiring(was, mid, gone)
    ensures mid.Keys == was.Keys
  {}

  lemma {:induction false} CompletedAtEnd(was: State, mid: State, now: State, source: Ref, desired: map<Ref, Wanted>, gone: set<Ref>, services: set<Ref>, known: set<Ref>)
    requires Retiring(was.db, mid.db, gone) && gone == Absent(was.db, desired.Keys) && AllWellKinded(desired) && Stored(was.db)
    requires forall ref :: ref in gone ==> ref in mid.db && mid.db[ref].status.Retired?
    requires Progress(was, mid) && Handled(mid, now, desired, desired.Keys, known, services)
    requires known == ServicesIn(mid.db) == ServicesIn(was.db) && source in known
    requires Quiet(was.db, source, desired) ==> now == was
    ensures Completed(was, now, source, desired)
  {
    hide Handled, Retiring, Absent, AllWellKinded, Stored, ServicesIn, Advancing, AllDone, AllAsWanted, AllSettled, WatchedBy, Quiet, Converged;
    HandledFacts(mid, now, desired, desired.Keys, known, services);
    HandledEnd(mid, now, desired, known, services);
    ConvergedAtEnd(was.db, mid.db, now.db, source, desired, gone, services);
    ServicesAtEnd(mid.db, now.db, desired, known);
    assert KnownAtStart(was.db, source) == known;
    if now.writes == was.writes { SettledIsQuiet(was.db, source, desired); }
  }

  lemma {:induction false} HandledEnd(was: State, now: State, desired: map<Ref, Wanted>, known: set<Ref>, services: set<Ref>)
    requires Handled(was, now, desired, desired.Keys, known, services)
    ensures AllDone(now.db, desired, desired.Keys) && services == known + WatchedBy(desired, desired.Keys)
    ensures now == was ==> AllAsWanted(was.db, desired, desired.Keys)
  {}

  /** The two loops. */
  method Converge(store: Store, source: Ref, desired: map<Ref, Wanted>, cards: map<Ref, Card>, services: set<Ref>, gone: set<Ref>, ghost allowMass: bool)
    returns (r: Result<(), ApiError>)
    requires Stored(store.state.db) && services == ServicesIn(store.state.db) && source in services && cards == RulesIn(store.state.db)
    requires AllWellKinded(desired) && OverlaysKnown(desired, services)
    requires gone == Absent(store.state.db, desired.Keys) && (allowMass || Allowed(store.state.db, desired.Keys))
    modifies store
    ensures Stored(store.state.db) && Progress(old(store.state), store.state)
    ensures Safe(old(store.state).db, store.state.db, source, desired, allowMass)
    ensures r.Ok? ==> Completed(old(store.state), store.state, source, desired)
    ensures r.Err? ==> r.error == Unreachable || (r.error == KeyExists && SomeBlocked(old(store.state).db, desired, services))
    ensures Quiet(old(store.state).db, source, desired) ==> store.state == old(store.state)
  {
    hide AllWellKinded, OverlaysKnown, Stored, ServicesIn, Safe, Completed, Quiet, Retiring, Advancing, Handled, Snapshot, SomeBlocked;
    hide AllSettled, Allowed, Absent, ActiveRules, RulesIn, WatchedBy, KnownAtStart;
    ghost var was := store.state;
    if Quiet(was.db, source, desired) { QuietIsSettled(was.db, source, desired); }
    assert gone <= ActiveRules(was.db) - desired.Keys by { AbsentAre(was.db, desired.Keys); }
    r := RetireAbsent(store, cards, gone);
    ghost var mid := store.state;
    RetiringKeeps(was.db, mid.db, desired, gone);
    if r.Err? {
      AdvancingNone(mid.db, desired, WatchedBy(desired, desired.Keys));
      SafeAll(was.db, mid.db, mid.db, source, desired, gone, allowMass);
      return;
    }
    IsSnapshot(was.db, mid.db, desired);
    RetiringKeys(was.db, mid.db, gone);
    var done := ReconcileAll(store, desired, cards, services);
    SafeAll(was.db, mid.db, store.state.db, source, desired, gone, allowMass);
    if done.Err? {
      if done.error == KeyExists { BlockedSame(was.db, mid.db, desired, services); }
      return Err(done.error);
    }
    CompletedAtEnd(was, mid, store.state, source, desired, gone, done.value, services);
  }

  lemma {:induction false} AbsentAre(db: Db, desired: set<Ref>)
    ensures Absent(db, desired) == ActiveRules(db) - desired
  {}

  lemma {:induction false} AddedSource(was: Db, now: Db, source: Ref)
    requires Adds(was, now, source) && source.kind == Service
    ensures RulesIn(now) == RulesIn(was) && ActiveRules(now) == ActiveRules(was)
  {}

  lemma {:induction false} SafeFromStart(was: Db, mid: Db, now: Db, source: Ref, desired: map<Ref, Wanted>, allowMass: bool)
    requires Adds(was, mid, source) && source.kind == Service && Safe(mid, now, source, desired, allowMass)
    ensures Safe(was, now, source, desired, allowMass)
  {
    AddedSource(was, mid, source);
    hide ActiveRules, WatchedBy, RulesIn, Threshold;
    FramedFromStart(was, mid, now, source, desired);
    hide Framed, Adds;
  }

  lemma {:induction false} FramedFromStart(was: Db, mid: Db, now: Db, source: Ref, desired: map<Ref, Wanted>)
    requires Adds(was, mid, source) && Framed(mid, now, source, desired)
    ensures Framed(was, now, source, desired)
  {
    hide WatchedBy;
  }

  lemma {:induction false} CompletedFromStart(was: State, mid: State, now: State, source: Ref, desired: map<Ref, Wanted>)
    requires Adds(was.db, mid.db, source) && source.kind == Service && Progress(was, mid) && Progress(mid, now)
    requires ServicesIn(mid.db) == ServicesIn(was.db) + {source} && (source in ServicesIn(was.db) ==> mid == was)
    requires Completed(mid, now, source, desired)
    ensures Completed(was, now, source, desired)
  {}

  lemma {:induction false} ExplainedFromStart(was: Db, mid: Db, source: Ref, desired: map<Ref, Wanted>, allowMass: bool, failure: Failure)
    requires Adds(was, mid, source) && source.kind == Service && ServicesIn(mid) == ServicesIn(was) + {source}
    requires failure.MassRetirement? || (failure.Api? && failure.error == KeyExists && SomeBlocked(mid, desired, ServicesIn(mid)))
    requires failure.MassRetirement? ==> !allowMass && !Allowed(mid, desired.Keys)
    ensures Explained(was, source, Some(desired), allowMass, failure)
  {
    AddedSource(was, mid, source);
    assert KnownAtStart(was, source) == ServicesIn(mid);
    if failure.Api? {
      var ref :| ref in desired && Blocked(mid, desired[ref], ServicesIn(mid));
      assert Blocked(was, desired[ref], ServicesIn(mid));
    }
  }

  lemma {:induction false} AddsServices(was: Db, now: Db, services: set<Ref>, source: Ref)
    requires Adds(was, now, source) && source.kind == Service && services == ServicesIn(was) && services + {source} <= ServicesIn(now)
    ensures ServicesIn(now) == services + {source}
  {}

  /** How a run may end, for the rules it wants. */
  ghost predicate Ends(was: State, now: State, source: Ref, desired: Option<map<Ref, Wanted>>, allowMass: bool, r: Result<map<Ref, Wanted>, Failure>) {
    && (desired.Some? ==> Safe(was.db, now.db, source, desired.value, allowMass))
    && (desired.None? ==> Adds(was.db, now.db, source))
    && (desired.Some? && Quiet(was.db, source, desired.value) ==> now == was)
    && (r.Ok? ==> desired == Some(r.value) && Completed(was, now, source, r.value))
    && (r.Err? ==> Explained(was.db, source, desired, allowMass, r.error))
  }

  lemma {:induction false} EndsAtOnce(was: State, source: Ref, desired: Option<map<Ref, Wanted>>, allowMass: bool, failure: Failure)
    requires failure == Api(Unreachable) || (failure.Truncated? && Explained(was.db, source, desired, allowMass, failure))
    ensures Ends(was, was, source, desired, allowMass, Err(failure))
  {
    if desired.Some? { SafeNow(was.db, source, desired.value, allowMass); }
  }

  lemma {:induction false} EndsTruncated(was: State, source: Ref, desired: Option<map<Ref, Wanted>>, allowMass: bool)
    requires |ServicesIn(was.db)| > LISTING_LIMIT || |RulesIn(was.db)| > LISTING_LIMIT
    ensures Ends(was, was, source, desired, allowMass, Err(Truncated))
  {
    EndsAtOnce(was, source, desired, allowMass, Truncated);
  }

  /** The source service could not be had. */
  lemma {:induction false} EndsWithoutSource(was: State, now: State, source: Ref, desired: Option<map<Ref, Wanted>>, allowMass: bool, error: ApiError)
    requires Adds(was.db, now.db, source) && source.kind == Service && (source in ServicesIn(was.db) ==> now == was)
    requires error == Unreachable || (error == KeyExists && source in was.db && source !in ServicesIn(was.db))
    ensures Ends(was, now, source, desired, allowMass, Err(Api(error)))
  {
    if desired.Some? {
      SafeNow(now.db, source, desired.value, allowMass);
      SafeFromStart(was.db, now.db, now.db, source, desired.value, allowMass);
    }
  }

  lemma {:induction false} EndsAfterSource(was: State, mid: State, now: State, source: Ref, desired: map<Ref, Wanted>, allowMass: bool, r: Result<map<Ref, Wanted>, Failure>)
    requires Adds(was.db, mid.db, source) && source.kind == Service && ServicesIn(mid.db) == ServicesIn(was.db) + {source}
    requires source in ServicesIn(was.db) ==> mid == was
    requires Progress(was, mid) && Progress(mid, now) && Safe(mid.db, now.db, source, desired, allowMass)
    requires Quiet(mid.db, source, desired) ==> now == mid
    requires r.Ok? ==> r.value == desired && Completed(mid, now, source, desired)
    requires r.Err? ==> r.error == Api(Unreachable) || Explained(was.db, source, Some(desired), allowMass, r.error)
    ensures Ends(was, now, source, Some(desired), allowMass, r)
  {
    SafeFromStart(was.db, mid.db, now.db, source, desired, allowMass);
    if r.Ok? { CompletedFromStart(was, mid, now, source, desired); }
    hide Adds, Safe, Completed, Explained, RulesIn, ServicesIn;
    if Quiet(was.db, source, desired) { assert source in ServicesIn(was.db); }
  }

  lemma {:induction false} ConflictEnds(was: State, now: State, source: Ref, allowMass: bool)
    requires Adds(was.db, now.db, source)
    ensures Ends(was, now, source, Option.None, allowMass, Err(OverlayConflict))
  {}

  /** From `ensure_service(source_key, ...)` on. */
  method Act(store: Store, names: Names, source: Ref, rules: seq<Rule>, overlay: seq<Mapping>, cards: map<Ref, Card>, listed: set<Ref>, allowMass: bool)
    returns (r: Result<map<Ref, Wanted>, Failure>)
    requires Stored(store.state.db) && Named(rules) && source.kind == Service
    requires listed == ServicesIn(store.state.db) && cards == RulesIn(store.state.db)
    modifies store
    ensures Stored(store.state.db) && Progress(old(store.state), store.state)
    ensures var desired := Desired(names, rules, overlay, KnownAtStart(old(store.state).db, source));
            Ends(old(store.state), store.state, source, desired, allowMass, r)
  {
    hide Stored, ServicesIn, RulesIn, Ends, Safe, Completed, Explained, Named, AllWellKinded, OverlaysKnown, Adds, Allowed, Absent, Quiet, SomeBlocked;
    ghost var was := store.state;
    ghost var wanted := Desired(names, rules, overlay, KnownAtStart(was.db, source));
    var ensured := EnsureService(store, listed, source, source.key + " (monitoring source)");
    ghost var mid := store.state;
    if ensured.Err? {
      EndsWithoutSource(was, mid, source, wanted, allowMass, ensured.error);
      return Err(Api(ensured.error));
    }
    var services := ensured.value;
    AddsServices(was.db, mid.db, listed, source);
    AddedSource(was.db, mid.db, source);
    assert KnownAtStart(was.db, source) == services;
    var assignments := OverlayAssignments(names, rules, overlay, services);
    if assignments.None? {
      ConflictEnds(was, mid, source, allowMass);
      return Err(OverlayConflict);
    }
    var desired := DesiredRules(names, rules, assignments.value);
    DesiredIsReady(names, rules, overlay, services);
    r := Guarded(store, source, desired, cards, services, allowMass);
    if r.Err? && r.error != Api(Unreachable) {
      ExplainedFromStart(was.db, mid.db, source, desired, allowMass, r.error);
    }
    EndsAfterSource(was, mid, store.state, source, desired, allowMass, r);
  }

  /** The guard, then the two loops. */
  method Guarded(store: Store, source: Ref, desired: map<Ref, Wanted>, cards: map<Ref, Card>, services: set<Ref>, allowMass: bool)
    returns (r: Result<map<Ref, Wanted>, Failure>)
    requires Stored(store.state.db) && services == ServicesIn(store.state.db) && source in services && cards == RulesIn(store.state.db)
    requires AllWellKinded(desired) && OverlaysKnown(desired, services)
    modifies store
    ensures Stored(store.state.db) && Progress(old(store.state), store.state)
    ensures Safe(old(store.state).db, store.state.db, source, desired, allowMass)
    ensures r.Ok? ==> r.value == desired && Completed(old(store.state), store.state, source, desired)
    ensures r.Err? ==>
              || r.error == Api(Unreachable)
              || (r.error == Api(KeyExists) && SomeBlocked(old(store.state).db, desired, services))
              || (r.error == MassRetirement && !allowMass && !Allowed(old(store.state).db, desired.Keys))
    ensures Quiet(old(store.state).db, source, desired) ==> store.state == old(store.state)
  {
    hide Stored, Safe, Completed, AllWellKinded, OverlaysKnown, Quiet, SomeBlocked, ServicesIn;
    var gone := set ref | ref in cards && ref !in desired && cards[ref].status.Active?;
    var active := set ref | ref in cards && cards[ref].status.Active?;
    assert active == ActiveRules(store.state.db) && gone == Absent(store.state.db, desired.Keys);
    if |gone| > Threshold(|active|) && !allowMass {
      SafeNow(store.state.db, source, desired, allowMass);
      return Err(MassRetirement);
    }
    hide RulesIn, ActiveRules;
    var converged := Converge(store, source, desired, cards, services, gone, allowMass);
    r := if converged.Ok? then Ok(desired) else Err(Api(converged.error));
  }

  /** `reconcile_entities`. */
  method ReconcileEntities(store: Store, names: Names, source: Ref, rules: seq<Rule>, overlay: seq<Mapping>, allowMass: bool)
    returns (r: Result<map<Ref, Wanted>, Failure>)
    requires Stored(store.state.db) && Named(rules) && source.kind == Service
    modifies store
    ensures Stored(store.state.db) && Progress(old(store.state), store.state)
    ensures var desired := Desired(names, rules, overlay, KnownAtStart(old(store.state).db, source));
            Ends(old(store.state), store.state, source, desired, allowMass, r)
  {
    hide Stored, ServicesIn, RulesIn, Ends, Desired, Safe, Completed, Explained, KnownAtStart, Named, AllWellKinded, OverlaysKnown, Adds, Absent, ActiveRules;
    ghost var was := store.state;
    ghost var wanted := Desired(names, rules, overlay, KnownAtStart(was.db, source));
    var listed := store.ActiveServices();
    if listed.Err? {
      EndsAtOnce(was, source, wanted, allowMass, Api(listed.error));
      return Err(Api(listed.error));
    }
    var services := listed.value;
    if |services| > LISTING_LIMIT {
      EndsTruncated(was, source, wanted, allowMass);
      return Err(Truncated);
    }
    var listing := store.AllRules();
    if listing.Err? {
      EndsAtOnce(was, source, wanted, allowMass, Api(listing.error));
      return Err(Api(listing.error));
    }
    var cards := listing.value;
    if |cards| > LISTING_LIMIT {
      EndsTruncated(was, source, wanted, allowMass);
      return Err(Truncated);
    }
    r := Act(store, names, source, rules, overlay, cards, services, allowMass);
  }
}
