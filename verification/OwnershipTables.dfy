/** The ownership requests statement by statement, inside their transactions. */
module OwnershipTables {
  import opened Text
  import opened Ownership
  import opened OwnershipMeaning

  /** What the database itself refuses: two owners of one page, two declarations of one key. */
  ghost predicate IndexesHold(db: Db) {
    && (forall a, b, p :: (a, p) in db.targets && (b, p) in db.targets ==> a == b)
    && OneDeclaration(db.artifacts)
  }

  /** `INSERT INTO artifact_targets`; `None` is a unique violation. */
  method InsertTarget(work: Db, a: ArtifactId, p: PageId) returns (r: Option<Db>)
    ensures r == if Owned(work, p) then Option.None else Some(work.(targets := work.targets + {(a, p)}))
  {
    if exists t :: t in work.targets && t.1 == p {
      return Option.None;
    }
    return Some(work.(targets := work.targets + {(a, p)}));
  }

  /** `INSERT INTO generated_artifacts`; `None` is a violation of the one-active-key index. */
  method InsertArtifact(work: Db, id: ArtifactId, row: Artifact) returns (r: Option<Db>)
    ensures r == if KeyTaken(work, row.key) then Option.None else Some(work.(artifacts := work.artifacts[id := row]))
  {
    if KeyTaken(work, row.key) {
      return Option.None;
    }
    return Some(work.(artifacts := work.artifacts[id := row]));
  }

  /** No index is violated and each of the pages has an owner. */
  ghost predicate Covered(db: Db, continuing: set<PageId>) { IndexesHold(db) && forall p :: p in continuing ==> Owned(db, p) }

  ghost predicate NoneOwned(db: Db, pages: set<PageId>) { forall p :: p in pages ==> !Owned(db, p) }

  /** One row written to the artifacts, or one statement on their targets, or on the pages. */
  ghost predicate OneStatement(was: Db, now: Db) {
    || (now.targets == was.targets && now.pages == was.pages && exists a :: a in now.artifacts && now.artifacts == was.artifacts[a := now.artifacts[a]])
    || (now.artifacts == was.artifacts && now.pages == was.pages && OnTargets(was, now))
    || (now.artifacts == was.artifacts && now.targets == was.targets && now.pages.Keys == was.pages.Keys)
  }

  /** A row inserted, rows deleted, or rows given to another artifact. */
  ghost predicate OnTargets(was: Db, now: Db) {
    (exists t :: now.targets == was.targets + {t}) || now.targets <= was.targets || forall p :: Owned(now, p) <==> Owned(was, p)
  }

  /** The states follow one another by one statement each. */
  ghost predicate Stepwise(start: Db, trace: seq<Db>) {
    forall k :: 0 <= k < |trace| ==> OneStatement(Before(start, trace, k), trace[k])
  }

  /** What statement `k` of the trace works on. */
  function Before(start: Db, trace: seq<Db>, k: nat): Db
    requires k <= |trace|
  {
    if k == 0 then start else trace[k - 1]
  }

  function LastOf(start: Db, trace: seq<Db>): Db { if trace == [] then start else trace[|trace| - 1] }

  lemma {:induction false} StepsOn(start: Db, trace: seq<Db>, next: Db)
    requires Stepwise(start, trace) && OneStatement(LastOf(start, trace), next)
    ensures Stepwise(start, trace + [next]) && LastOf(start, trace + [next]) == next
  {
    hide OneStatement;
    forall k | 0 <= k < |trace| + 1 ensures OneStatement(Before(start, trace + [next], k), (trace + [next])[k]) {
      if k < |trace| { assert OneStatement(Before(start, trace, k), trace[k]); }
    }
  }

  lemma {:induction false} StepsJoin(start: Db, trace: seq<Db>, more: seq<Db>)
    requires Stepwise(start, trace) && Stepwise(LastOf(start, trace), more)
    ensures Stepwise(start, trace + more) && LastOf(start, trace + more) == LastOf(LastOf(start, trace), more)
  {
    hide OneStatement;
    var all := trace + more;
    forall k | 0 <= k < |all| ensures OneStatement(Before(start, all, k), all[k]) {
      if k < |trace| {
        assert OneStatement(Before(start, trace, k), trace[k]);
      } else {
        assert all[k] == more[k - |trace|] && OneStatement(Before(LastOf(start, trace), more, k - |trace|), more[k - |trace|]);
      }
    }
  }

  /** The insert loop. It goes through exactly when nobody owns any of the pages. */
  method InsertTargets(work: Db, a: ArtifactId, pages: set<PageId>) returns (r: Option<Db>, ghost trace: seq<Db>)
    ensures r == if NoneOwned(work, pages) then Some(work.(targets := work.targets + Rows(a, pages))) else Option.None
    ensures forall s :: s in trace ==> Extends(work, s, a, pages)
    ensures Stepwise(work, trace) && (r.Some? ==> LastOf(work, trace) == r.value)
  {
    var now, todo := work, pages;
    trace := [];
    hide OneStatement, Stepwise;
    NoSteps(work);
    assert Rows(a, {}) == {} && work.targets + {} == work.targets;
    assert pages - todo == {};
    while todo != {}
      invariant todo <= pages && now == work.(targets := work.targets + Rows(a, pages - todo))
      invariant NoneOwned(work, pages - todo)
      invariant forall s :: s in trace ==> Extends(work, s, a, pages)
      invariant Stepwise(work, trace) && LastOf(work, trace) == now
    {
      var p :| p in todo;
      ghost var done := pages - todo;
      OwnedNext(work, now, a, done, p);
      var inserted := InsertTarget(now, a, p);
      if inserted.None? {
        return Option.None, trace;
      }
      Inserts(now, inserted.value, (a, p));
      StepsOn(work, trace, inserted.value);
      now, todo := inserted.value, todo - {p};
      assert pages - todo == done + {p};
      RowsNext(work, a, done, p);
      ExtendsRows(work, a, done + {p}, pages);
      trace := trace + [now];
    }
    assert pages - todo == pages;
    return Some(now), trace;
  }

  lemma {:induction false} NoSteps(start: Db)
    ensures Stepwise(start, []) && LastOf(start, []) == start
  {}

  lemma {:induction false} Inserts(was: Db, now: Db, t: (ArtifactId, PageId))
    requires now == was.(targets := was.targets + {t})
    ensures OneStatement(was, now)
  {}

  lemma {:induction false} WritesArtifact(was: Db, now: Db, a: ArtifactId, row: Artifact)
    requires now == was.(artifacts := was.artifacts[a := row])
    ensures OneStatement(was, now)
  {}

  lemma {:induction false} Deletes(was: Db, now: Db, rows: set<(ArtifactId, PageId)>)
    requires now == was.(targets := was.targets - rows)
    ensures OneStatement(was, now)
  {}

  lemma {:induction false} Marks(was: Db, now: Db, pages: set<PageId>)
    requires now == was.(pages := Marked(was.pages, pages))
    ensures OneStatement(was, now)
  {}

  /** Rows change their owner where they are. */
  lemma {:induction false} Moves(was: Db, now: Db, id: ArtifactId, newId: ArtifactId, pages: set<PageId>)
    requires pages <= OwnedBy(was, id) && now == was.(targets := was.targets - Rows(id, pages) + Rows(newId, pages))
    ensures OneStatement(was, now)
  {
    forall p ensures Owned(now, p) <==> Owned(was, p) {
      if t :| t in was.targets && t.1 == p {
        if t in Rows(id, pages) { assert (newId, p) in now.targets; } else { assert t in now.targets; }
      }
      if t :| t in now.targets && t.1 == p {
        if t !in was.targets { assert p in OwnedBy(was, id); }
      }
    }
  }

  /** Some of the rows were added. */
  ghost predicate Extends(was: Db, now: Db, a: ArtifactId, pages: set<PageId>) {
    && now.artifacts == was.artifacts && now.pages == was.pages && was.targets <= now.targets
    && forall b, p :: (b, p) in now.targets && (b, p) !in was.targets ==> b == a && p in pages
  }

  lemma {:induction false} OwnedNext(work: Db, now: Db, a: ArtifactId, done: set<PageId>, p: PageId)
    requires now == work.(targets := work.targets + Rows(a, done)) && p !in done
    ensures Owned(now, p) == Owned(work, p)
  {
    if Owned(work, p) {
      var t :| t in work.targets && t.1 == p;
      assert t in now.targets;
    }
  }

  lemma {:induction false} RowsNext(work: Db, a: ArtifactId, done: set<PageId>, p: PageId)
    ensures work.targets + Rows(a, done) + {(a, p)} == work.targets + Rows(a, done + {p})
  {
    assert Rows(a, done + {p}) == Rows(a, done) + {(a, p)};
  }

  lemma {:induction false} ExtendsRows(work: Db, a: ArtifactId, some: set<PageId>, pages: set<PageId>)
    requires some <= pages
    ensures Extends(work, work.(targets := work.targets + Rows(a, some)), a, pages)
  {}

  class Tables {
    var db: Db

    constructor (db: Db)
      ensures this.db == db
    {
      this.db := db;
    }

    /** `reconcile_targets`: the checks, then the statements, then the caller's commit. */
    method ReconcileTargets(id: ArtifactId, expected: nat, ids: seq<PageId>, paths: seq<string>, generatorVersion: string, who: Principal)
      returns (r: Result<bool, Refusal>)
      requires Sound(db) && ExactSet(ids, paths)
      modifies this
      ensures match Reconcile(old(db), id, expected, ids, paths, generatorVersion, who)
              case Err(e) => r == Err(e) && db == old(db)
              case Ok(out) => r == Ok(out.changed) && db == out.db
      ensures ReconcileOutcome(old(db), db, id, expected, ids, paths, generatorVersion, who, r)
    {
      hide ReconcileOutcome;
      ReconcileMeans(db, id, expected, ids, paths, generatorVersion, who);
      if id !in db.artifacts {
        return Err(NotFound);
      }
      var artifact := db.artifacts[id];
      var refused := Custody(artifact, who, expected);
      if refused.Some? {
        return Err(refused.value);
      }
      var desired, current := Ids(ids), OwnedBy(db, id);
      refused := TargetsRefused(db, id, ids, paths);
      if refused.Some? {
        return Err(refused.value);
      }
      var removed, added := current - desired, desired - current;
      NothingChanges(current, desired);
      if removed == {} && added == {} && artifact.paths == multiset(paths) && artifact.generatorVersion == generatorVersion {
        return Ok(false);
      }
      var work := db.(targets := db.targets - Rows(id, removed));
      AddedAreFree(db, work, id, desired);
      var inserted, _ := InsertTargets(work, id, added);
      if inserted.None? {
        return Err(TargetConflict);
      }
      work := inserted.value;
      work := work.(pages := Marked(work.pages, added));
      work := work.(artifacts := work.artifacts[id := artifact.(generatorVersion := generatorVersion, paths := multiset(paths), version := artifact.version + 1)]);
      db := work;
      return Ok(true);
    }

    /**
     * `handoff_targets`. The trace is what the transaction sees after each of its
     * statements: a continuing page always has an owner, and no unique index is
     * ever violated.
     */
    method HandoffTargets(id: ArtifactId, expected: nat, s: Successor, who: Principal, newId: ArtifactId)
      returns (r: Result<(), Refusal>, ghost trace: seq<Db>)
      requires Sound(db) && ExactSet(s.ids, s.paths) && newId !in db.artifacts
      modifies this
      ensures match Handoff(old(db), id, expected, s, who, newId)
              case Err(e) => r == Err(e) && db == old(db)
              case Ok(now) => r == Ok(()) && db == now
      ensures HandoffOutcome(old(db), db, id, expected, s, who, newId, r)
      ensures Stepwise(old(db), trace) && LastOf(old(db), trace) == db
      ensures forall w :: w in trace ==> Covered(w, OwnedBy(old(db), id) * Ids(s.ids))
    {
      hide HandoffOutcome, OneStatement, Stepwise;
      HandoffMeans(db, id, expected, s, who, newId);
      NoSteps(db);
      trace := [];
      if id !in db.artifacts {
        return Err(NotFound), trace;
      }
      var predecessor := db.artifacts[id];
      var refused := Custody(predecessor, who, expected);
      if refused.Some? {
        return Err(refused.value), trace;
      }
      if s.key != predecessor.key {
        return Err(KeyMismatch), trace;
      }
      if s.contractVersion <= predecessor.contractVersion {
        return Err(ContractNotNewer), trace;
      }
      refused := TargetsRefused(db, id, s.ids, s.paths);
      if refused.Some? {
        return Err(refused.value), trace;
      }
      if !s.sourceExists {
        return Err(EntityMissing), trace;
      }
      r, trace := Transfer(id, s, who, newId);
    }

    /** `declare_artifact`. Here the unique indexes do the refusing. */
    method DeclareArtifact(d: Declaration, who: Principal, automation: bool, newId: ArtifactId) returns (r: Result<(), Refusal>)
      requires Sound(db) && newId !in db.artifacts
      modifies this
      ensures match Declare(old(db), d, who, automation, newId)
              case Err(e) => r == Err(e) && db == old(db)
              case Ok(now) => r == Ok(()) && db == now
      ensures DeclareOutcome(old(db), db, d, who, automation, newId, r)
    {
      hide DeclareOutcome;
      DeclareMeans(db, d, who, automation, newId);
      if !automation {
        return Err(NotAutomation);
      }
      if !d.sourceExists {
        return Err(EntityMissing);
      }
      if !(Ids(d.ids) <= db.pages.Keys) {
        return Err(PageMissing);
      }
      var declared := InsertArtifact(db, newId, Artifact(d.key, d.generatorVersion, d.contractVersion, multiset(d.paths), who, Declared, 1));
      if declared.None? {
        return Err(KeyExists);
      }
      FreeForNew(db, declared.value, Ids(d.ids), newId);
      var inserted, _ := InsertTargets(declared.value, newId, Ids(d.ids));
      if inserted.None? {
        return Err(TargetConflict);
      }
      db := inserted.value.(pages := Marked(inserted.value.pages, Ids(d.ids)));
      return Ok(());
    }

    /** `retire_artifact`. */
    method RetireArtifact(id: ArtifactId, expected: nat, who: Principal) returns (r: Result<(), Refusal>)
      modifies this
      ensures match Retire(old(db), id, expected, who)
              case Err(e) => r == Err(e) && db == old(db)
              case Ok(now) => r == Ok(()) && db == now
      ensures RetireOutcome(old(db), db, id, expected, who, r)
    {
      hide RetireOutcome;
      RetireMeans(db, id, expected, who);
      if id !in db.artifacts {
        return Err(NotFound);
      }
      var artifact := db.artifacts[id];
      if artifact.declaredBy != who {
        return Err(Forbidden);
      }
      if artifact.version != expected {
        return Err(Stale);
      }
      if artifact.status.Retired? {
        return Ok(());
      }
      if OwnedBy(db, id) != {} {
        return Err(HasTargets);
      }
      db := db.(artifacts := db.artifacts[id := RetiredRow(artifact)]);
      return Ok(());
    }

    /** `reassign_artifact_custody`. */
    method ReassignCustody(id: ArtifactId, expected: nat, to: Principal, account: Option<Account>) returns (r: Result<(), Refusal>)
      modifies this
      ensures match Reassign(old(db), id, expected, to, account)
              case Err(e) => r == Err(e) && db == old(db)
              case Ok(now) => r == Ok(()) && db == now
      ensures ReassignOutcome(old(db), db, id, expected, to, account, r)
    {
      hide ReassignOutcome;
      ReassignMeans(db, id, expected, to, account);
      if id !in db.artifacts {
        return Err(NotFound);
      }
      var artifact := db.artifacts[id];
      if artifact.status.Retired? {
        return Err(NotDeclared);
      }
      if artifact.version != expected {
        return Err(Stale);
      }
      if account.None? {
        return Err(DestinationMissing);
      }
      if !account.value.automation || !account.value.active {
        return Err(DestinationUnfit);
      }
      db := db.(artifacts := db.artifacts[id := artifact.(declaredBy := to, version := artifact.version + 1)]);
      return Ok(());
    }

    /** The statements of a handoff whose checks have passed. */
    method Transfer(id: ArtifactId, s: Successor, who: Principal, newId: ArtifactId) returns (r: Result<(), Refusal>, ghost trace: seq<Db>)
      requires Sound(db) && newId !in db.artifacts && id in db.artifacts && db.artifacts[id].status.Declared? && s.key == db.artifacts[id].key
      requires !Conflicts(db, Ids(s.ids), id)
      modifies this
      ensures r == Ok(()) && db == HandedOff(old(db), id, s, who, newId)
      ensures Stepwise(old(db), trace) && LastOf(old(db), trace) == db
      ensures forall w :: w in trace ==> Covered(w, OwnedBy(old(db), id) * Ids(s.ids))
    {
      hide Covered, Sound, OwnedBy, Owned, Marked, Ids, Rows, KeyTaken, Conflicts, NoneOwned, Extends, OneStatement, Stepwise, LastOf;
      ghost var was := db;
      var current, desired := OwnedBy(db, id), Ids(s.ids);
      var removed, added, continuing := current - desired, desired - current, current * desired;
      var work := db.(artifacts := db.artifacts[id := RetiredRow(db.artifacts[id])]);
      NoSteps(was);
      WritesArtifact(was, work, id, RetiredRow(db.artifacts[id]));
      StepsOn(was, [], work);
      trace := [] + [work];
      HandoffDeclares(was, id, s, who, newId);
      var declared := InsertArtifact(work, newId, SuccessorRow(s, who));
      if declared.None? {
        return Err(KeyExists), trace;
      }
      WritesArtifact(work, declared.value, newId, SuccessorRow(s, who));
      StepsOn(was, trace, declared.value);
      work := declared.value;
      trace := trace + [work];
      HandoffMoves(was, work, id, newId, desired);
      var moved := work.(targets := work.targets - Rows(id, continuing) + Rows(newId, continuing));
      SameOwned(was, work, id);
      Moves(work, moved, id, newId, continuing);
      StepsOn(was, trace, moved);
      trace := trace + [moved];
      work := moved.(targets := moved.targets - Rows(id, removed));
      Deletes(moved, work, Rows(id, removed));
      StepsOn(was, trace, work);
      trace := trace + [work];
      ghost var base := work;
      HandoffAdds(was, base, id, newId, desired);
      var inserted, states := InsertTargets(work, newId, added);
      if inserted.None? {
        return Err(TargetConflict), trace;
      }
      forall w | w in states ensures Covered(w, continuing) { ExtendsCovered(base, w, newId, added, continuing); }
      StepsJoin(was, trace, states);
      trace := trace + states;
      ExtendsRows(base, newId, added, added);
      ExtendsCovered(base, inserted.value, newId, added, continuing);
      HandoffRows(was, base.targets, id, newId, desired);
      work := inserted.value.(pages := Marked(inserted.value.pages, added));
      SameRowsCovered(inserted.value, work, continuing);
      Marks(inserted.value, work, added);
      StepsOn(was, trace, work);
      trace := trace + [work];
      db := work;
      return Ok(()), trace;
    }
  }

  lemma {:induction false} SameOwned(was: Db, now: Db, id: ArtifactId)
    requires now.targets == was.targets
    ensures OwnedBy(now, id) == OwnedBy(was, id)
  {}

  /** For a new artifact, nobody may own any of the pages. */
  lemma {:induction false} FreeForNew(db: Db, work: Db, pages: set<PageId>, newId: ArtifactId)
    requires Sound(db) && newId !in db.artifacts && work.targets == db.targets
    ensures NoneOwned(work, pages) <==> !Conflicts(db, pages, newId)
  {
    if NoneOwned(work, pages) {
      forall t | t in db.targets ensures t.1 !in pages { assert Owned(work, t.1); }
    } else {
      var p :| p in pages && Owned(work, p);
      var t :| t in work.targets && t.1 == p;
      assert t == (t.0, t.1);
    }
  }

  lemma {:induction false} SameRowsCovered(was: Db, now: Db, continuing: set<PageId>)
    requires Covered(was, continuing) && now.targets == was.targets && now.artifacts == was.artifacts
    ensures Covered(now, continuing)
  {
    forall p | p in continuing ensures Owned(now, p) { assert Owned(was, p); }
  }

  /** Adding rows for pages that nobody owns keeps every index and every owner. */
  lemma {:induction false} ExtendsCovered(base: Db, now: Db, a: ArtifactId, added: set<PageId>, continuing: set<PageId>)
    requires Covered(base, continuing) && NoneOwned(base, added) && Extends(base, now, a, added)
    ensures Covered(now, continuing)
  {
    forall b, c, p | (b, p) in now.targets && (c, p) in now.targets ensures b == c {
      if (b, p) in base.targets { IsOwned(base, b, p); }
      if (c, p) in base.targets { IsOwned(base, c, p); }
    }
    forall p | p in continuing ensures Owned(now, p) {
      assert Owned(base, p);
      var t :| t in base.targets && t.1 == p;
      assert t in now.targets;
    }
  }

  lemma {:induction false} HandoffAdds(was: Db, base: Db, id: ArtifactId, newId: ArtifactId, desired: set<PageId>)
    requires !Conflicts(was, desired, id)
    requires base.targets == was.targets - Rows(id, OwnedBy(was, id) * desired) + Rows(newId, OwnedBy(was, id) * desired) - Rows(id, OwnedBy(was, id) - desired)
    ensures NoneOwned(base, desired - OwnedBy(was, id))
  {
    NoConflict(was, desired, id);
    forall p | p in desired - OwnedBy(was, id) ensures !Owned(base, p) {
      OwnedByHas(was, id, p);
      forall t | t in base.targets ensures t.1 != p { assert t == (t.0, t.1); }
    }
  }

  lemma {:induction false} HandoffRows(was: Db, base: set<(ArtifactId, PageId)>, id: ArtifactId, newId: ArtifactId, desired: set<PageId>)
    requires id != newId
    requires base == was.targets - Rows(id, OwnedBy(was, id) * desired) + Rows(newId, OwnedBy(was, id) * desired) - Rows(id, OwnedBy(was, id) - desired)
    ensures base + Rows(newId, desired - OwnedBy(was, id)) == was.targets - Rows(id, OwnedBy(was, id)) + Rows(newId, desired)
  {
    var current := OwnedBy(was, id);
    hide OwnedBy;
    assert Rows(newId, desired) == Rows(newId, current * desired) + Rows(newId, desired - current);
    assert Rows(id, current) == Rows(id, current * desired) + Rows(id, current - desired);
  }

  /** The predecessor is retired first, so its key is free for the successor. */
  lemma {:induction false} HandoffDeclares(db: Db, id: ArtifactId, s: Successor, who: Principal, newId: ArtifactId)
    requires Sound(db) && newId !in db.artifacts && id in db.artifacts && db.artifacts[id].status.Declared? && s.key == db.artifacts[id].key
    ensures var retired := db.(artifacts := db.artifacts[id := RetiredRow(db.artifacts[id])]);
            && Covered(retired, OwnedBy(db, id) * Ids(s.ids)) && !KeyTaken(retired, s.key)
            && Covered(retired.(artifacts := retired.artifacts[newId := SuccessorRow(s, who)]), OwnedBy(db, id) * Ids(s.ids))
            && OneDeclaration(retired.artifacts[newId := SuccessorRow(s, who)])
  {
    OneStays(db, id, RetiredRow(db.artifacts[id]));
    SuccessorDeclares(db, id, s, who, newId);
    forall p | p in OwnedBy(db, id) ensures (id, p) in db.targets { OwnedByHas(db, id, p); }
    forall a | a in db.artifacts && db.artifacts[a].status.Declared? && db.artifacts[a].key == s.key ensures a == id {
      assert BothDeclare(db.artifacts[a], db.artifacts[id]);
    }
    hide BothDeclare, OneDeclaration, OwnedBy, Ids;
    assert forall p :: p in OwnedBy(db, id) ==> (id, p) in db.targets && (id, p).1 == p;
  }

  /** Continuing rows change owner, then the removed ones go. */
  lemma {:induction false} HandoffMoves(was: Db, work: Db, id: ArtifactId, newId: ArtifactId, desired: set<PageId>)
    requires Sound(was) && newId !in was.artifacts && work.targets == was.targets && OneDeclaration(work.artifacts)
    ensures var current := OwnedBy(was, id);
            var moved := work.(targets := work.targets - Rows(id, current * desired) + Rows(newId, current * desired));
            && Covered(moved, current * desired)
            && Covered(moved.(targets := moved.targets - Rows(id, current - desired)), current * desired)
  {
    var current := OwnedBy(was, id);
    forall p | p in current ensures (id, p) in was.targets { OwnedByHas(was, id, p); }
    forall p | p in current * desired ensures (newId, p) in Rows(newId, current * desired) && (newId, p).1 == p {}
    hide OneDeclaration, OwnedBy;
    var moved := work.(targets := work.targets - Rows(id, current * desired) + Rows(newId, current * desired));
    assert forall p :: p in current * desired ==> (newId, p) in moved.targets && (newId, p).1 == p;
  }

  lemma {:induction false} NothingChanges(current: set<PageId>, desired: set<PageId>)
    ensures (current - desired == {} && desired - current == {}) <==> current == desired
  {
    if current - desired == {} && desired - current == {} {
      assert forall p :: p in current ==> p !in current - desired;
      assert forall p :: p in desired ==> p !in desired - current;
    }
  }

  /** Nobody owns a page that is to be added. */
  lemma {:induction false} AddedAreFree(db: Db, work: Db, id: ArtifactId, desired: set<PageId>)
    requires !Conflicts(db, desired, id) && work.targets <= db.targets
    ensures NoneOwned(work, desired - OwnedBy(db, id))
  {
    NoConflict(db, desired, id);
    forall p | p in desired - OwnedBy(db, id) ensures !Owned(work, p) {
      OwnedByHas(db, id, p);
      forall t | t in work.targets ensures t.1 != p { assert t == (t.0, t.1); }
    }
  }
}
