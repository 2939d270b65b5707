/** The whole reconciliation: what it reaches, what it never does, and when it goes quiet. */
module MeterReconcile {
  import opened Text
  import opened EntityStore
  import opened MeterRules
  import opened MeterList

  const MASS_RETIREMENT_FLOOR := 5

  datatype Failure = Api(error: ApiError) | Truncated | OverlayConflict | MassRetirement

  // ---- the mass-retirement guard -------------------------------------------------

  function ActiveRules(db: Db): set<Ref> { set ref | ref in db && ref.kind == MonitorRule && db[ref].status.Active? }

  /** `to_retire`. */
  function Absent(db: Db, desired: set<Ref>): set<Ref> { ActiveRules(db) - desired }

  /** `max(5, int(0.2 * n))`. */
  function Threshold(active: nat): nat { if active / 5 > MASS_RETIREMENT_FLOOR then active / 5 else MASS_RETIREMENT_FLOOR }

  predicate Allowed(db: Db, desired: set<Ref>) { |Absent(db, desired)| <= Threshold(|ActiveRules(db)|) }

  /** Rules that were ACTIVE and are not any more. */
  function Lost(was: Db, now: Db): set<Ref> { ActiveRules(was) - ActiveRules(now) }

  /** Retiring some of the absent rules leaves a list the guard still accepts. */
  lemma {:induction false} StillAllowed(was: Db, now: Db, desired: set<Ref>)
    requires Allowed(was, desired) && Lost(was, now) <= Absent(was, desired)
    requires ActiveRules(now) - desired <= ActiveRules(was)
    ensures Allowed(now, desired)
  {
    var gone, r := Lost(was, now), Absent(was, desired);
    assert Absent(now, desired) <= r - gone;
    Subset(Absent(now, desired), r - gone);
    assert ActiveRules(was) - gone <= ActiveRules(now);
    Subset(ActiveRules(was) - gone, ActiveRules(now));
    Without(ActiveRules(was), gone);
    Without(r, gone);
  }

  lemma {:induction false} Subset<T>(a: set<T>, b: set<T>)
    requires a <= b
    ensures |a| <= |b|
  {
    assert b == a + (b - a);
  }

  lemma {:induction false} Without<T>(a: set<T>, b: set<T>)
    requires b <= a
    ensures |a - b| == |a| - |b|
  {}

  // ---- retirement ------------------------------------------------------------------

  /** Some of `gone` have been retired and nothing else has changed. */
  predicate Retiring(was: Db, now: Db, gone: set<Ref>) {
    && now.Keys == was.Keys
    && forall ref :: ref in was ==> now[ref] == was[ref] || (ref in gone && now[ref] == WithStatus(was[ref], Retired))
  }

  /** Exactly `gone` have been retired. */
  predicate RetiredThese(was: Db, now: Db, gone: set<Ref>) {
    && now.Keys == was.Keys
    && forall ref :: ref in was ==> now[ref] == if ref in gone then WithStatus(was[ref], Retired) else was[ref]
  }

  lemma {:induction false} RetireStep(was: Db, now: Db, gone: set<Ref>, ref: Ref)
    requires RetiredThese(was, now, gone) && ref in was && ref !in gone
    ensures now[ref] == was[ref]
    ensures RetiredThese(was, now[ref := WithStatus(was[ref], Retired)], gone + {ref})
  {}

  lemma {:induction false} RetiredSome(was: Db, now: Db, done: set<Ref>, gone: set<Ref>)
    requires RetiredThese(was, now, done) && done <= gone
    ensures Retiring(was, now, gone)
    ensures now.Keys == was.Keys
  {}

  lemma {:induction false} RetiredAll(was: Db, now: Db, gone: set<Ref>)
    requires RetiredThese(was, now, gone) && gone <= ActiveRules(was)
    ensures forall ref :: ref in gone ==> ref in now && now[ref].status.Retired?
  {}

  lemma {:induction false} RetiredNone(was: Db)
    ensures RetiredThese(was, was, {})
  {}

  lemma {:induction false} IsListed(db: Db, ref: Ref)
    requires ref in ActiveRules(db)
    ensures ref in db && db[ref].status.Active? && ref in RulesIn(db) && RulesIn(db)[ref] == db[ref]
  {}

  method RetireAbsent(store: Store, rules: map<Ref, Card>, gone: set<Ref>) returns (r: Result<(), ApiError>)
    requires gone <= ActiveRules(store.state.db) && rules == RulesIn(store.state.db)
    modifies store
    ensures Retiring(old(store.state).db, store.state.db, gone) && Progress(old(store.state), store.state)
    ensures gone == {} ==> store.state == old(store.state)
    ensures r.Ok? ==> forall ref :: ref in gone ==> ref in store.state.db && store.state.db[ref].status.Retired?
    ensures r.Err? ==> r.error == Unreachable
  {
    hide RetiredThese, Retiring, ActiveRules, RulesIn;
    ghost var was := store.state;
    var todo := gone;
    RetiredNone(was.db);
    assert gone - todo == {};
    while todo != {}
      invariant todo <= gone && Progress(was, store.state) && (todo == gone ==> store.state == was)
      invariant RetiredThese(was.db, store.state.db, gone - todo)
    {
      var ref :| ref in todo;
      IsListed(was.db, ref);
      RetireStep(was.db, store.state.db, gone - todo, ref);
      RetiredSome(was.db, store.state.db, gone - todo, gone);
      RetiredSome(was.db, store.state.db[ref := WithStatus(was.db[ref], Retired)], gone - todo + {ref}, gone);
      var retired := store.SetStatus(ref, rules[ref].version, Retired);
      if retired.Err? {
        return Err(retired.error);
      }
      assert gone - todo + {ref} == gone - (todo - {ref});
      todo := todo - {ref};
    }
    assert gone - todo == gone;
    RetiredSome(was.db, store.state.db, gone, gone);
    RetiredAll(was.db, store.state.db, gone);
    return Ok(());
  }

  // ---- the desired rules, one by one -----------------------------------------------

  predicate AllWellKinded(desired: map<Ref, Wanted>) {
    forall ref :: ref in desired ==> ref.kind == MonitorRule && desired[ref].display != "" && ServiceKinded(desired[ref])
  }

  predicate ServiceKinded(w: Wanted) { w.watch.Some? ==> w.watch.value.service.kind == Service }

  /** Overlay services are among those known at the start. */
  predicate OverlaysKnown(desired: map<Ref, Wanted>, services: set<Ref>) {
    forall ref :: ref in desired && desired[ref].watch.Some? && desired[ref].watch.value.origin.Overlay? ==>
      desired[ref].watch.value.service in services
  }

  /** The services that the rules `done` watch. */
  function WatchedBy(desired: map<Ref, Wanted>, done: set<Ref>): set<Ref> {
    set ref | ref in done && ref in desired && desired[ref].watch.Some? :: desired[ref].watch.value.service
  }

  /** Only desired rules differ, and only `added` cards are new besides them. */
  predicate Advancing(was: Db, now: Db, desired: map<Ref, Wanted>, added: set<Ref>) {
    && (forall x :: x in was && x !in desired ==> x in now && now[x] == was[x])
    && (forall x :: x in desired ==> Present(was, now, x))
    && (forall x :: x in now && x !in was && x !in desired ==> x in added)
  }

  predicate Untouched(was: Db, now: Db, todo: set<Ref>) { forall ref :: ref in todo ==> Lookup(now, ref) == Lookup(was, ref) }

  predicate AllDone(db: Db, desired: map<Ref, Wanted>, done: set<Ref>) {
    forall ref :: ref in done && ref in desired ==> RuleDone(db, ref, desired[ref])
  }

  predicate AllSettled(db: Db, desired: map<Ref, Wanted>, services: set<Ref>) {
    forall ref :: ref in desired ==> Settled(db, ref, desired[ref], services)
  }

  predicate AllAsWanted(db: Db, desired: map<Ref, Wanted>, done: set<Ref>) {
    forall ref :: ref in done && ref in desired ==> AsWanted(db, ref, desired[ref])
  }

  /** What the loop has achieved when `done` has been handled. */
  ghost predicate Handled(was: State, now: State, desired: map<Ref, Wanted>, done: set<Ref>, known: set<Ref>, services: set<Ref>) {
    && Stored(now.db) && Progress(was, now)
    && Advancing(was.db, now.db, desired, services)
    && AllDone(now.db, desired, done)
    && services == known + WatchedBy(desired, done) && services <= ServicesIn(now.db)
    && (AllSettled(was.db, desired, known) ==> now == was)
    && (now == was ==> AllAsWanted(was.db, desired, done))
  }

  lemma {:induction false} NoneHandled(was: State, desired: map<Ref, Wanted>, known: set<Ref>)
    requires Stored(was.db) && known <= ServicesIn(was.db)
    ensures Handled(was, was, desired, {}, known, known)
  {}

  lemma {:induction false} AdvanceOne(was: Db, mid: Db, now: Db, desired: map<Ref, Wanted>, added: set<Ref>, ref: Ref)
    requires Advancing(was, mid, desired, added) && ref in desired && Touches(mid, now, ref, desired[ref]) && Present(mid, now, ref)
    ensures Advancing(was, now, desired, added + WantedWatches(desired[ref]).Keys)
  {}

  lemma {:induction false} UntouchedOne(was: Db, mid: Db, now: Db, ref: Ref, w: Wanted, todo: set<Ref>)
    requires Untouched(was, mid, todo) && Touches(mid, now, ref, w) && ServiceKinded(w)
    requires forall x :: x in todo ==> x.kind == MonitorRule
    ensures Untouched(was, now, todo - {ref})
  {}

  lemma {:induction false} DoneOne(mid: Db, now: Db, desired: map<Ref, Wanted>, done: set<Ref>, ref: Ref)
    requires AllDone(mid, desired, done) && ref in desired && Touches(mid, now, ref, desired[ref]) && RuleDone(now, ref, desired[ref])
    requires AllWellKinded(desired) && ref !in done
    ensures AllDone(now, desired, done + {ref})
  {
    forall x | x in done && x in desired ensures RuleDone(now, x, desired[x]) {
      assert RuleDone(mid, x, desired[x]);
      ServicesKept(mid, now, ref, desired[ref]);
    }
  }

  lemma {:induction false} ServicesKept(mid: Db, now: Db, ref: Ref, w: Wanted)
    requires Touches(mid, now, ref, w) && ref.kind == MonitorRule
    ensures ServicesIn(mid) <= ServicesIn(now)
  {}

  lemma {:induction false} WatchedOne(desired: map<Ref, Wanted>, done: set<Ref>, ref: Ref)
    requires ref in desired
    ensures WatchedBy(desired, done + {ref}) == WatchedBy(desired, done) + WantedWatches(desired[ref]).Keys
  {
    var w := desired[ref];
    forall x | x in WantedWatches(w).Keys ensures x in WatchedBy(desired, done + {ref}) { assert ref in done + {ref}; }
  }

  lemma {:induction false} SettledOne(db: Db, desired: map<Ref, Wanted>, known: set<Ref>, services: set<Ref>, ref: Ref)
    requires AllSettled(db, desired, known) && ref in desired && known <= services
    ensures Settled(db, ref, desired[ref], services)
  {}

  lemma {:induction false} AsWantedOne(db: Db, desired: map<Ref, Wanted>, done: set<Ref>, ref: Ref)
    requires AllAsWanted(db, desired, done) && (ref in desired ==> AsWanted(db, ref, desired[ref]))
    ensures AllAsWanted(db, desired, done + {ref})
  {}

  lemma {:induction false} HandledOne(was: State, mid: State, now: State, desired: map<Ref, Wanted>, done: set<Ref>, known: set<Ref>, services: set<Ref>, ref: Ref)
    requires Handled(was, mid, desired, done, known, services) && ref in desired && ref !in done && AllWellKinded(desired)
    requires Stored(now.db) && Progress(mid, now)
    requires Touches(mid.db, now.db, ref, desired[ref]) && Present(mid.db, now.db, ref)
    requires Settled(mid.db, ref, desired[ref], services) ==> now == mid
    requires now == mid ==> AsWanted(now.db, ref, desired[ref])
    requires RuleDone(now.db, ref, desired[ref]) && services + WantedWatches(desired[ref]).Keys <= ServicesIn(now.db)
    ensures Handled(was, now, desired, done + {ref}, known, services + WantedWatches(desired[ref]).Keys)
  {
    hide Stored, Advancing, AllDone, ServicesIn, AllSettled, AllAsWanted, RuleDone, Touches, AllWellKinded, WatchedBy, WantedWatches, Settled, AsWanted, Present;
    AdvanceOne(was.db, mid.db, now.db, desired, services, ref);
    DoneOne(mid.db, now.db, desired, done, ref);
    WatchedOne(desired, done, ref);
    if AllSettled(was.db, desired, known) { SettledOne(was.db, desired, known, services, ref); }
    if now == was { AsWantedOne(was.db, desired, done, ref); }
  }

  lemma {:induction false} AdvancingWider(was: Db, now: Db, desired: map<Ref, Wanted>, known: set<Ref>, some: set<Ref>, all: set<Ref>)
    requires Advancing(was, now, desired, known + some) && known <= ServicesIn(was) && some <= all
    ensures Advancing(was, now, desired, all)
  {}

  lemma {:induction false} WatchedWithin(desired: map<Ref, Wanted>, done: set<Ref>)
    ensures WatchedBy(desired, done) <= WatchedBy(desired, desired.Keys)
  {}

  /** A service that blocks the loop blocked it from the start. */
  lemma {:induction false} BlockedBefore(was: Db, mid: Db, desired: map<Ref, Wanted>, known: set<Ref>, services: set<Ref>, ref: Ref)
    requires Advancing(was, mid, desired, services) && AllWellKinded(desired) && ref in desired && known <= services
    requires Blocked(mid, desired[ref], services)
    ensures Blocked(was, desired[ref], known)
  {}

  ghost predicate SomeBlocked(db: Db, desired: map<Ref, Wanted>, services: set<Ref>) {
    exists ref :: ref in desired && Blocked(db, desired[ref], services)
  }

  lemma {:induction false} Failed(was: State, mid: State, now: State, desired: map<Ref, Wanted>, done: set<Ref>, known: set<Ref>, services: set<Ref>, ref: Ref)
    requires Handled(was, mid, desired, done, known, services) && ref in desired && ref !in done && AllWellKinded(desired)
    requires Touches(mid.db, now.db, ref, desired[ref]) && Present(mid.db, now.db, ref) && known <= ServicesIn(was.db)
    ensures Advancing(was.db, now.db, desired, WatchedBy(desired, desired.Keys))
    ensures Blocked(mid.db, desired[ref], services) ==> SomeBlocked(was.db, desired, known)
  {
    hide Advancing, Touches, Present, ServicesIn, Blocked, AllWellKinded, WatchedBy, AllDone, AllSettled, AllAsWanted, Stored;
    AdvanceOne(was.db, mid.db, now.db, desired, services, ref);
    WatchedOne(desired, done, ref);
    WatchedWithin(desired, done + {ref});
    assert known + WatchedBy(desired, done + {ref}) == services + WantedWatches(desired[ref]).Keys;
    AdvancingWider(was.db, now.db, desired, known, WatchedBy(desired, done + {ref}), WatchedBy(desired, desired.Keys));
    if Blocked(mid.db, desired[ref], services) { BlockedBefore(was.db, mid.db, desired, known, services, ref); }
  }

  lemma {:induction false} HandledFacts(was: State, now: State, desired: map<Ref, Wanted>, done: set<Ref>, known: set<Ref>, services: set<Ref>)
    requires Handled(was, now, desired, done, known, services) && known <= ServicesIn(was.db)
    ensures Stored(now.db) && Progress(was, now) && known <= services <= ServicesIn(now.db)
    ensures AllSettled(was.db, desired, known) ==> now == was
    ensures Advancing(was.db, now.db, desired, WatchedBy(desired, desired.Keys))
  {
    WatchedWithin(desired, done);
    AdvancingWider(was.db, now.db, desired, known, WatchedBy(desired, done), WatchedBy(desired, desired.Keys));
  }

  /** A desired rule meets what one pass asks of it. */
  lemma {:induction false} OneIsReady(was: Db, now: Db, desired: map<Ref, Wanted>, rules: map<Ref, Card>, known: set<Ref>, todo: set<Ref>, ref: Ref)
    requires ref in desired && ref in todo && AllWellKinded(desired) && OverlaysKnown(desired, known) && Untouched(was, now, todo)
    requires Snapshot(was, desired, rules)
    ensures WellKinded(ref, desired[ref]) && ServiceKinded(desired[ref])
    ensures desired[ref].watch.Some? && desired[ref].watch.value.origin.Overlay? ==> desired[ref].watch.value.service in known
    ensures Lookup(now, ref) == if ref in rules then Some(rules[ref]) else Option.None
  {}

  /** `rules.get(rule_key)` is the card of every desired rule. */
  predicate Snapshot(db: Db, desired: map<Ref, Wanted>, rules: map<Ref, Card>) {
    forall ref :: ref in desired ==> Lookup(db, ref) == if ref in rules then Some(rules[ref]) else Option.None
  }

  /** `for rule_key in sorted(desired)`: the result holds for whatever order. */
  method ReconcileAll(store: Store, desired: map<Ref, Wanted>, rules: map<Ref, Card>, known: set<Ref>) returns (r: Result<set<Ref>, ApiError>)
    requires Stored(store.state.db) && known <= ServicesIn(store.state.db)
    requires AllWellKinded(desired) && OverlaysKnown(desired, known) && Snapshot(store.state.db, desired, rules)
    modifies store
    ensures Stored(store.state.db) && Progress(old(store.state), store.state)
    ensures Advancing(old(store.state).db, store.state.db, desired, WatchedBy(desired, desired.Keys))
    ensures AllSettled(old(store.state).db, desired, known) ==> store.state == old(store.state)
    ensures r.Ok? ==> Handled(old(store.state), store.state, desired, desired.Keys, known, r.value)
    ensures r.Err? ==> r.error == Unreachable || (r.error == KeyExists && SomeBlocked(old(store.state).db, desired, known))
  {
    hide Advancing, AllDone, ServicesIn, AllSettled, AllAsWanted, AllWellKinded, OverlaysKnown, Snapshot, SomeBlocked, Stored;
    hide WatchedBy, Untouched, Handled, Touches, Present, Blocked, RuleDone, AsWanted, Settled, WellKinded, ServiceKinded, WantedWatches;
    ghost var was := store.state;
    var services, todo := known, desired.Keys;
    NoneHandled(was, desired, known);
    AllUntouched(was.db, todo);
    assert desired.Keys - todo == {};
    while todo != {}
      invariant todo <= desired.Keys
      invariant Handled(was, store.state, desired, desired.Keys - todo, known, services)
      invariant Untouched(was.db, store.state.db, todo)
    {
      var ref :| ref in todo;
      ghost var mid, done := store.state, desired.Keys - todo;
      HandledFacts(was, mid, desired, done, known, services);
      OneIsReady(was.db, mid.db, desired, rules, known, todo, ref);
      var handled := ReconcileRule(store, ref, desired[ref], if ref in rules then Some(rules[ref]) else Option.None, services);
      if handled.Err? {
        Failed(was, mid, store.state, desired, done, known, services, ref);
        if AllSettled(was.db, desired, known) { SettledOne(was.db, desired, known, services, ref); }
        return Err(handled.error);
      }
      HandledOne(was, mid, store.state, desired, done, known, services, ref);
      RulesOnly(desired, todo);
      UntouchedOne(was.db, mid.db, store.state.db, ref, desired[ref], todo);
      assert desired.Keys - (todo - {ref}) == done + {ref};
      services, todo := handled.value, todo - {ref};
    }
    assert desired.Keys - todo == desired.Keys;
    HandledFacts(was, store.state, desired, desired.Keys, known, services);
    return Ok(services);
  }

  lemma {:induction false} AllUntouched(db: Db, todo: set<Ref>)
    ensures Untouched(db, db, todo)
  {}

  lemma {:induction false} RulesOnly(desired: map<Ref, Wanted>, todo: set<Ref>)
    requires AllWellKinded(desired) && todo <= desired.Keys
    ensures forall x :: x in todo ==> x.kind == MonitorRule
  {}
}
