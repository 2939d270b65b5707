/** Driving the entity store to the desired meter list, one call at a time. */
module MeterList {
  import opened Text
  import opened EntityStore
  import opened MeterRules

  // ---- when a rule, and the whole list, are as wanted ---------------------------

  function OriginMetadata(origin: Origin): Metadata { map["source" := if origin.RuleLabel? then "rule_label" else "overlay"] }

  function WantedWatches(w: Wanted): map<Ref, Metadata> {
    match w.watch
    case None => map[]
    case Some(watch) => map[watch.service := OriginMetadata(watch.origin)]
  }

  /** The rule is ACTIVE with the wanted name and attributes and exactly the wanted links. */
  predicate RuleDone(db: Db, ref: Ref, w: Wanted) {
    && ref in db && db[ref].status.Active?
    && db[ref].display == Strip(w.display) && db[ref].attributes == w.attributes
    && db[ref].watches == WantedWatches(w)
    && (w.watch.Some? ==> w.watch.value.service in ServicesIn(db))
  }

  /** Every desired rule is done, every other rule is RETIRED and the source service is there. */
  ghost predicate Converged(db: Db, source: Ref, desired: map<Ref, Wanted>) {
    && (forall ref :: ref in desired ==> RuleDone(db, ref, desired[ref]))
    && (forall ref :: ref in db && ref.kind == MonitorRule && ref !in desired ==> db[ref].status.Retired?)
    && source in ServicesIn(db)
  }

  /** The desired names are what the store makes of them: it strips a name before storing it. */
  predicate Trimmed(desired: map<Ref, Wanted>) { forall ref :: ref in desired ==> Strip(desired[ref].display) == desired[ref].display }

  ghost predicate WellKinded(ref: Ref, w: Wanted) {
    ref.kind == MonitorRule && w.display != "" && (w.watch.Some? ==> w.watch.value.service.kind == Service)
  }

  /** Nothing but these two cards differs, and the service at most appears. */
  predicate Touches(was: Db, now: Db, ref: Ref, w: Wanted) {
    && (forall x :: x in was && x != ref ==> x in now && now[x] == was[x])
    && (forall x :: x in now && x != ref && x !in was ==> w.watch.Some? && x == w.watch.value.service)
  }

  /** Writes are counted, and without one nothing has changed. */
  predicate Progress(was: State, now: State) { was.writes <= now.writes && (was.writes == now.writes ==> now == was) }

  function Lookup(db: Db, ref: Ref): Option<Card> { if ref in db then Some(db[ref]) else Option.None }

  /** An identity is never lost, nor retired. */
  predicate Present(was: Db, now: Db, ref: Ref) {
    ref in was ==> ref in now && (was[ref].status.Active? ==> now[ref].status.Active?)
  }

  // ---- one rule ------------------------------------------------------------------

  /** Reactivate, create or update: afterwards the card is as wanted, its links as they were. */
  method BringUp(store: Store, ref: Ref, w: Wanted, existing: Option<Card>) returns (r: Result<map<Ref, Metadata>, ApiError>)
    requires existing == Lookup(store.state.db, ref) && w.display != "" && Stored(store.state.db)
    modifies store
    ensures Stored(store.state.db)
    ensures Touches(old(store.state).db, store.state.db, ref, w.(watch := Option.None))
    ensures Progress(old(store.state), store.state)
    ensures r.Err? ==> r.error == Unreachable
    ensures Present(old(store.state).db, store.state.db, ref)
    ensures r.Ok? ==>
              && Brought(store.state.db, ref, w) && ref in store.state.db && store.state.db[ref].watches == r.value
              && r.value == (if existing.Some? then existing.value.watches else map[])
    ensures AsWanted(old(store.state).db, ref, w) ==> store.state == old(store.state)
    ensures r.Ok? && !AsWanted(old(store.state).db, ref, w) ==> old(store.state).writes < store.state.writes
  {
    hide Strip;
    if ref in store.state.db { CardStored(store.state.db, ref, WithStatus(store.state.db[ref], Active), ""); }
    CardStored(store.state.db, ref, NewCard(w.display, w.attributes), w.display);
    var card := existing;
    if card.Some? && card.value.status.Retired? {
      var reactivated := store.SetStatus(ref, card.value.version, Active);
      if reactivated.Err? {
        return Err(reactivated.error);
      }
      card := Some(reactivated.value);
    }
    if card.None? {
      var created := store.Create(ref, w.display, w.attributes);
      if created.Err? {
        return Err(created.error);
      }
      return Ok(map[]);
    }
    if card.value.attributes != w.attributes || card.value.display != w.display {
      CardStored(store.state.db, ref, UpdatedCard(card.value, w.display, w.attributes), w.display);
      var updated := store.Update(ref, card.value.version, w.display, w.attributes);
      if updated.Err? {
        return Err(updated.error);
      }
    }
    r := store.Watches(ref);
  }

  predicate Brought(db: Db, ref: Ref, w: Wanted) {
    ref in db && db[ref].status.Active? && db[ref].display == Strip(w.display) && db[ref].attributes == w.attributes
  }

  predicate AsWanted(db: Db, ref: Ref, w: Wanted) {
    ref in db && db[ref].status.Active? && db[ref].display == w.display && db[ref].attributes == w.attributes
  }

  /** Every card is as it was, and only `service` may be new. */
  predicate Adds(was: Db, now: Db, service: Ref) { now == was || (service !in was && service in now && now == was[service := now[service]]) }

  lemma {:induction false} ServiceCreated(db: Db, service: Ref, c: Card)
    requires service !in db && service.kind == Service && c.status.Active?
    ensures ServicesIn(db[service := c]) == ServicesIn(db) + {service}
  {}

  /** `ensure_service`: known services are left alone, a missing one is created. */
  method EnsureService(store: Store, services: set<Ref>, service: Ref, display: string) returns (r: Result<set<Ref>, ApiError>)
    requires services <= ServicesIn(store.state.db) && service.kind == Service && Stored(store.state.db)
    modifies store
    ensures Stored(store.state.db) && Adds(old(store.state).db, store.state.db, service)
    ensures Progress(old(store.state), store.state)
    ensures service in services ==> store.state == old(store.state) && r == Ok(services)
    ensures r.Ok? ==> r.value == services + {service} && r.value <= ServicesIn(store.state.db)
    ensures r.Err? ==> r.error == Unreachable || (r.error == KeyExists && service in old(store.state).db && service !in services)
  {
    hide Strip, ServicesIn, Stored, NewCard;
    if service in services {
      assert services + {service} == services;
      return Ok(services);
    }
    ghost var was, c := store.state.db, NewCard(display, NoAttributes);
    NewIsActive(display);
    CardStored(was, service, c, display);
    if service !in was { ServiceCreated(was, service, c); }
    var created := store.Create(service, display, NoAttributes);
    if created.Err? {
      return Err(created.error);
    }
    return Ok(services + {service});
  }

  lemma {:induction false} NewIsActive(display: string)
    ensures NewCard(display, NoAttributes) == Card(Strip(display), NoAttributes, Active, 1, map[])
  {}

  /** The same table, but for the links of `ref`. */
  predicate Rewired(was: Db, now: Db, ref: Ref) {
    ref in was && ref in now && now == was[ref := was[ref].(watches := now[ref].watches)]
  }

  /** Remove the links that are not wanted. */
  method Unwire(store: Store, ref: Ref, unwanted: set<Ref>) returns (r: Result<(), ApiError>)
    requires ref in store.state.db
    modifies store
    ensures Rewired(old(store.state).db, store.state.db, ref) && Progress(old(store.state), store.state)
    ensures unwanted == {} ==> store.state == old(store.state)
    ensures r.Ok? ==> store.state.db[ref].watches == old(store.state).db[ref].watches - unwanted
    ensures r.Err? ==> r.error == Unreachable
  {
    ghost var was := store.state;
    ghost var card := was.db[ref];
    var todo := unwanted;
    assert unwanted - todo == {} && card.watches - {} == card.watches;
    assert was.db[ref := card] == was.db;
    while todo != {}
      invariant todo <= unwanted && ref in store.state.db && Progress(was, store.state)
      invariant todo == unwanted ==> store.state == was
      invariant store.state.db == was.db[ref := card.(watches := card.watches - (unwanted - todo))]
    {
      var to :| to in todo;
      ghost var done := unwanted - todo;
      var removed := store.Unlink(ref, to);
      if removed.Err? {
        return Err(removed.error);
      }
      todo := todo - {to};
      assert card.watches - done - {to} == card.watches - (unwanted - todo);
    }
    assert unwanted - todo == unwanted;
    return Ok(());
  }

  method AddWatch(store: Store, ref: Ref, watch: Watch, stale: map<Ref, Metadata>) returns (r: Result<(), ApiError>)
    requires ref in store.state.db && stale == store.state.db[ref].watches
    requires watch.service in store.state.db && watch.service != ref
    modifies store
    ensures Rewired(old(store.state).db, store.state.db, ref) && Progress(old(store.state), store.state)
    ensures watch.service in stale && stale[watch.service] == OriginMetadata(watch.origin) ==> store.state == old(store.state)
    ensures r.Ok? ==> store.state.db[ref].watches == stale[watch.service := OriginMetadata(watch.origin)]
    ensures r.Err? ==> r.error == Unreachable
  {
    var metadata := OriginMetadata(watch.origin);
    assert metadata != map[] by { assert "source" in metadata; }
    if watch.service !in stale || stale[watch.service] != metadata {
      r := store.Link(ref, watch.service, metadata);
    } else {
      assert stale[watch.service := metadata] == stale;
      r := Ok(());
    }
  }

  lemma {:induction false} RewiredKeeps(was: Db, now: Db, ref: Ref)
    requires Rewired(was, now, ref) && ref.kind == MonitorRule && Stored(was)
    ensures Stored(now) && ServicesIn(now) == ServicesIn(was)
  {
    CardStored(was, ref, now[ref], "");
  }

  /** A service was at most added, then the rule's links changed. */
  predicate Wired(was: Db, now: Db, ref: Ref, w: Wanted) {
    && ref in was && ref in now && now[ref] == was[ref].(watches := now[ref].watches)
    && Touches(was, now, ref, w)
  }

  lemma {:induction false} AddedThenRewired(was: Db, mid: Db, now: Db, ref: Ref, w: Wanted)
    requires ref in was && w.watch.Some? && w.watch.value.service != ref && Adds(was, mid, w.watch.value.service)
    requires Rewired(mid, now, ref)
    ensures Wired(was, now, ref, w)
  {}

  predicate Known(w: Wanted, services: set<Ref>) { w.watch.Some? ==> w.watch.value.service in services }

  /** The wanted service's key is taken by a card that is not listed: a RETIRED service. */
  predicate Blocked(db: Db, w: Wanted, services: set<Ref>) {
    w.watch.Some? && w.watch.value.service in db && w.watch.value.service !in services
  }

  /** Wire the wanted service, creating it when it is not known. */
  method WireTo(store: Store, ref: Ref, w: Wanted, watch: Watch, stale: map<Ref, Metadata>, services: set<Ref>)
    returns (r: Result<set<Ref>, ApiError>)
    requires ref in store.state.db && stale == store.state.db[ref].watches && w.watch == Some(watch)
    requires Stored(store.state.db) && WellKinded(ref, w) && services <= ServicesIn(store.state.db)
    modifies store
    ensures Stored(store.state.db) && Progress(old(store.state), store.state)
    ensures Wired(old(store.state).db, store.state.db, ref, w)
    ensures watch.service in stale && stale[watch.service] == OriginMetadata(watch.origin) && watch.service in services ==>
              store.state == old(store.state)
    ensures r.Ok? ==> store.state.db[ref].watches == stale[watch.service := OriginMetadata(watch.origin)]
    ensures r.Ok? ==> r.value == services + {watch.service} && r.value <= ServicesIn(store.state.db)
    ensures r.Err? ==> r.error == Unreachable || (r.error == KeyExists && Blocked(old(store.state).db, w, services))
  {
    ghost var was := store.state.db;
    r := EnsureService(store, services, watch.service, watch.display);
    ghost var mid := store.state.db;
    hide ServicesIn, Stored, Wired, Blocked;
    Unrewired(mid, ref);
    AddedThenRewired(was, mid, mid, ref, w);
    if r.Ok? {
      InService(mid, watch.service);
      var linked := AddWatch(store, ref, watch, stale);
      RewiredKeeps(mid, store.state.db, ref);
      AddedThenRewired(was, mid, store.state.db, ref, w);
      if linked.Err? {
        r := Err(linked.error);
      }
    }
  }

  lemma {:induction false} Unrewired(db: Db, ref: Ref)
    requires ref in db
    ensures Rewired(db, db, ref)
  {
    assert db[ref := db[ref]] == db;
  }

  lemma {:induction false} WiredThenRewired(was: Db, mid: Db, now: Db, ref: Ref, w: Wanted)
    requires Wired(was, mid, ref, w) && Rewired(mid, now, ref)
    ensures Wired(was, now, ref, w)
  {}

  /** What remains of the old links once the wanted one is set and the others are dropped. */
  lemma {:induction false} OnlyWantedLeft(stale: map<Ref, Metadata>, w: Wanted)
    ensures var unwanted := stale.Keys - WantedWatches(w).Keys;
            && (w.watch.Some? ==> stale[w.watch.value.service := OriginMetadata(w.watch.value.origin)] - unwanted == WantedWatches(w))
            && (w.watch.None? ==> stale - unwanted == WantedWatches(w))
            && (stale == WantedWatches(w) ==> unwanted == {})
  {}

  lemma {:induction false} WantedIsSet(stale: map<Ref, Metadata>, w: Wanted, watch: Watch)
    requires w.watch == Some(watch)
    ensures stale == WantedWatches(w) ==> watch.service in stale && stale[watch.service] == OriginMetadata(watch.origin)
    ensures WantedWatches(w).Keys == {watch.service}
  {}

  lemma {:induction false} Unwatched(w: Wanted)
    ensures w.watch.None? ==> WantedWatches(w) == map[]
  {}

  lemma {:induction false} Unwired(db: Db, ref: Ref, w: Wanted)
    requires ref in db
    ensures Wired(db, db, ref, w)
  {}

  lemma {:induction false} WiredHas(was: Db, now: Db, ref: Ref, w: Wanted)
    requires Wired(was, now, ref, w)
    ensures ref in now
  {}

  /** The links of one rule: wire the wanted service, then drop every other watch. */
  method Rewire(store: Store, ref: Ref, w: Wanted, stale: map<Ref, Metadata>, services: set<Ref>) returns (r: Result<set<Ref>, ApiError>)
    requires ref in store.state.db && stale == store.state.db[ref].watches
    requires Stored(store.state.db) && WellKinded(ref, w) && services <= ServicesIn(store.state.db)
    requires w.watch.Some? && w.watch.value.origin.Overlay? ==> w.watch.value.service in services
    modifies store
    ensures Stored(store.state.db) && Progress(old(store.state), store.state)
    ensures Wired(old(store.state).db, store.state.db, ref, w)
    ensures stale == WantedWatches(w) && Known(w, services) ==> store.state == old(store.state)
    ensures r.Ok? ==> store.state.db[ref].watches == WantedWatches(w)
    ensures r.Ok? ==> r.value == services + WantedWatches(w).Keys && r.value <= ServicesIn(store.state.db)
    ensures r.Err? ==> r.error == Unreachable || (r.error == KeyExists && Blocked(old(store.state).db, w, services))
  {
    ghost var was := store.state.db;
    r := Ok(services);
    hide ServicesIn, Stored, Blocked, WantedWatches, Wired;
    OnlyWantedLeft(stale, w);
    Unwatched(w);
    Unwired(was, ref, w);
    if w.watch.Some? {
      WantedIsSet(stale, w, w.watch.value);
      r := WireTo(store, ref, w, w.watch.value, stale, services);
    }
    ghost var mid := store.state.db;
    if r.Ok? {
      WiredHas(was, mid, ref, w);
      var unwired := Unwire(store, ref, stale.Keys - WantedWatches(w).Keys);
      RewiredKeeps(mid, store.state.db, ref);
      WiredThenRewired(was, mid, store.state.db, ref, w);
      if unwired.Err? {
        r := Err(unwired.error);
      }
    }
  }

  lemma {:induction false} InService(db: Db, service: Ref)
    requires service in ServicesIn(db)
    ensures service in db
  {}

  /** One pass of the loop over the desired rules. */
  method ReconcileRule(store: Store, ref: Ref, w: Wanted, existing: Option<Card>, services: set<Ref>) returns (r: Result<set<Ref>, ApiError>)
    requires existing == Lookup(store.state.db, ref)
    requires Stored(store.state.db) && WellKinded(ref, w) && services <= ServicesIn(store.state.db)
    requires w.watch.Some? && w.watch.value.origin.Overlay? ==> w.watch.value.service in services
    modifies store
    ensures Stored(store.state.db) && Progress(old(store.state), store.state)
    ensures Touches(old(store.state).db, store.state.db, ref, w) && Present(old(store.state).db, store.state.db, ref)
    ensures Settled(old(store.state).db, ref, w, services) ==> store.state == old(store.state)
    ensures r.Ok? && store.state == old(store.state) ==> AsWanted(store.state.db, ref, w)
    ensures r.Ok? ==> RuleDone(store.state.db, ref, w)
    ensures r.Ok? ==> r.value == services + WantedWatches(w).Keys && r.value <= ServicesIn(store.state.db)
    ensures r.Err? ==> r.error == Unreachable || (r.error == KeyExists && Blocked(old(store.state).db, w, services))
  {
    hide Touches, Wired, Stored, ServicesIn, WantedWatches, Blocked, AsWanted, Present, Brought, RuleDone;
    ghost var was := store.state.db;
    var stale := BringUp(store, ref, w, existing);
    ghost var mid := store.state.db;
    if stale.Err? {
      BroughtOnly(was, mid, ref, w);
      return Err(stale.error);
    }
    SameServices(was, mid, ref, w);
    r := Rewire(store, ref, w, stale.value, services);
    BroughtThenWired(was, mid, store.state.db, ref, w, services);
    if r.Ok? {
      WiredHas(mid, store.state.db, ref, w);
      RuleIsDone(mid, store.state.db, ref, w);
    }
  }

  lemma {:induction false} BroughtOnly(was: Db, mid: Db, ref: Ref, w: Wanted)
    requires Touches(was, mid, ref, w.(watch := Option.None))
    ensures Touches(was, mid, ref, w)
  {}

  lemma {:induction false} RuleIsDone(mid: Db, now: Db, ref: Ref, w: Wanted)
    requires Brought(mid, ref, w) && Wired(mid, now, ref, w) && now[ref].watches == WantedWatches(w)
    requires WantedWatches(w).Keys <= ServicesIn(now)
    ensures RuleDone(now, ref, w)
  {}

  /** Nothing is left to do for the rule. */
  predicate Settled(db: Db, ref: Ref, w: Wanted, services: set<Ref>) {
    AsWanted(db, ref, w) && db[ref].watches == WantedWatches(w) && Known(w, services)
  }

  lemma {:induction false} SameServices(was: Db, now: Db, ref: Ref, w: Wanted)
    requires Touches(was, now, ref, w.(watch := Option.None)) && ref.kind == MonitorRule
    ensures ServicesIn(now) == ServicesIn(was)
  {}

  lemma {:induction false} BroughtThenWired(was: Db, mid: Db, now: Db, ref: Ref, w: Wanted, services: set<Ref>)
    requires Touches(was, mid, ref, w.(watch := Option.None)) && Wired(mid, now, ref, w) && WellKinded(ref, w)
    requires Present(was, mid, ref)
    ensures Touches(was, now, ref, w) && Present(was, now, ref)
    ensures Blocked(mid, w, services) ==> Blocked(was, w, services)
  {}
}
