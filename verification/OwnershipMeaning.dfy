/** What an ownership request needs and what it leaves, told from the tables alone; and who can change what. */
module OwnershipMeaning {
  import opened Text
  import opened Ownership

  // ---- what a request needs --------------------------------------------------------------

  /** The artifact is DECLARED by this principal, at this version. */
  predicate InCustody(db: Db, id: ArtifactId, expected: nat, who: Principal) {
    && id in db.artifacts && db.artifacts[id].status.Declared?
    && db.artifacts[id].declaredBy == who && db.artifacts[id].version == expected
  }

  /** The pages exist, each at the path listed for it. */
  predicate PathsAgree(db: Db, ids: seq<PageId>, paths: seq<string>)
    requires |ids| == |paths|
  {
    forall i :: 0 <= i < |ids| ==> ids[i] in db.pages && db.pages[ids[i]].path == paths[i]
  }

  /** No artifact but `id` owns any of the pages. */
  ghost predicate NobodyElses(db: Db, ids: seq<PageId>, id: ArtifactId) { forall a, p :: (a, p) in db.targets && p in ids ==> a == id }

  /** Every page of `id` that is not listed is archived. */
  ghost predicate LetsGoArchived(db: Db, ids: seq<PageId>, id: ArtifactId) {
    forall p :: (id, p) in db.targets && p !in ids ==> p in db.pages && db.pages[p].archived
  }

  /** The target set can become `ids`. */
  ghost predicate CanTarget(db: Db, id: ArtifactId, ids: seq<PageId>, paths: seq<string>)
    requires |ids| == |paths|
  {
    PathsAgree(db, ids, paths) && NobodyElses(db, ids, id) && LetsGoArchived(db, ids, id)
  }

  // ---- what it leaves --------------------------------------------------------------------

  /** `to` owns exactly the listed pages, `from` nothing more, and everybody else what they owned. */
  ghost predicate OwnsNow(was: Db, now: Db, from: ArtifactId, to: ArtifactId, ids: seq<PageId>) {
    forall a, p :: (a, p) in now.targets <==> if a == to then p in ids else a != from && (a, p) in was.targets
  }

  /** Pages that `from` did not own and that are listed become GENERATED; nothing else changes. */
  ghost predicate PagesNow(was: Db, now: Db, from: ArtifactId, ids: seq<PageId>) {
    && now.pages.Keys == was.pages.Keys
    && forall p :: p in was.pages ==>
         now.pages[p] == Page(was.pages[p].path, was.pages[p].archived, was.pages[p].generated || (p in ids && (from, p) !in was.targets))
  }

  /** Only the rows of `some` differ, and no row is gone. */
  ghost predicate OthersKept(was: Db, now: Db, some: set<ArtifactId>) {
    && now.artifacts.Keys == was.artifacts.Keys + some
    && forall a :: a in was.artifacts && a !in some ==> now.artifacts[a] == was.artifacts[a]
  }

  /** Somebody asked for what was not so already. */
  ghost predicate AsksForChange(db: Db, id: ArtifactId, ids: seq<PageId>, paths: seq<string>, generatorVersion: string)
    requires id in db.artifacts
  {
    || (exists p :: (id, p) in db.targets && p !in ids) || (exists p :: p in ids && (id, p) !in db.targets)
    || db.artifacts[id].paths != multiset(paths) || db.artifacts[id].generatorVersion != generatorVersion
  }

  ghost predicate Reconciles(was: Db, now: Db, id: ArtifactId, ids: seq<PageId>, paths: seq<string>, generatorVersion: string, changed: bool)
    requires id in was.artifacts
  {
    && OthersKept(was, now, {id}) && OwnsNow(was, now, id, id, ids) && PagesNow(was, now, id, ids)
    && (changed <==> AsksForChange(was, id, ids, paths, generatorVersion)) && (!changed ==> now == was)
    && var a := was.artifacts[id];
    now.artifacts[id] == Artifact(a.key, generatorVersion, a.contractVersion, multiset(paths), a.declaredBy, Declared,
                                  if changed then a.version + 1 else a.version)
  }

  ghost predicate HandsOff(was: Db, now: Db, id: ArtifactId, s: Successor, who: Principal, newId: ArtifactId)
    requires id in was.artifacts
  {
    && OthersKept(was, now, {id, newId}) && OwnsNow(was, now, id, newId, s.ids) && PagesNow(was, now, id, s.ids)
    && now.artifacts[newId] == Artifact(s.key, s.generatorVersion, s.contractVersion, multiset(s.paths), who, Declared, 1)
    && var a := was.artifacts[id];
    now.artifacts[id] == Artifact(a.key, a.generatorVersion, a.contractVersion, a.paths, a.declaredBy, Retired, a.version + 1)
  }

  ghost predicate Declares(was: Db, now: Db, d: Declaration, who: Principal, newId: ArtifactId) {
    && OthersKept(was, now, {newId}) && OwnsNow(was, now, newId, newId, d.ids) && PagesNow(was, now, newId, d.ids)
    && now.artifacts[newId] == Artifact(d.key, d.generatorVersion, d.contractVersion, multiset(d.paths), who, Declared, 1)
  }

  /** Only the row of `id` is another. */
  ghost predicate RowNow(was: Db, now: Db, id: ArtifactId, row: Artifact) {
    OthersKept(was, now, {id}) && now.artifacts[id] == row && now.targets == was.targets && now.pages == was.pages
  }

  // ---- the target checks -------------------------------------------------------------------

  /** The checks on targets pass exactly when the target set can become `ids`, and a refusal names what is wrong. */
  lemma {:induction false} TargetChecks(db: Db, id: ArtifactId, ids: seq<PageId>, paths: seq<string>)
    requires |ids| == |paths| && Sound(db)
    ensures TargetsRefused(db, id, ids, paths).None? <==> CanTarget(db, id, ids, paths)
    ensures TargetsRefused(db, id, ids, paths).Some? ==> TargetProblem(db, id, ids, paths, TargetsRefused(db, id, ids, paths).value)
  {
    forall i | 0 <= i < |ids| ensures ids[i] in Ids(ids) {}
    assert forall p :: p in Ids(ids) <==> p in ids;
    forall a, p | (a, p) in db.targets ensures p in OwnedBy(db, a) && (a, p).1 == p && (a, p).0 == a { OwnedByHas(db, a, p); }
    forall p | p in OwnedBy(db, id) ensures (id, p) in db.targets { OwnedByHas(db, id, p); }
    forall t | t in db.targets ensures t == (t.0, t.1) {}
    assert Conflicts(db, Ids(ids), id) <==> !NobodyElses(db, ids, id);
    assert Unarchived(db, OwnedBy(db, id) - Ids(ids)) <==> !LetsGoArchived(db, ids, id);
    assert PathsAgree(db, ids, paths) <==> Ids(ids) <= db.pages.Keys && !Mismatch(db, ids, paths);
  }

  ghost predicate TargetProblem(db: Db, id: ArtifactId, ids: seq<PageId>, paths: seq<string>, e: Refusal)
    requires |ids| == |paths|
  {
    match e
    case PageMissing => exists i :: 0 <= i < |ids| && ids[i] !in db.pages
    case PathMismatch => exists i :: 0 <= i < |ids| && ids[i] in db.pages && db.pages[ids[i]].path != paths[i]
    case TargetConflict => !NobodyElses(db, ids, id)
    case RemovalNotArchived => !LetsGoArchived(db, ids, id)
    case _ => false
  }

  /** What a refusal says of custody. */
  ghost predicate CustodyProblem(db: Db, id: ArtifactId, expected: nat, who: Principal, e: Refusal) {
    match e
    case NotFound => id !in db.artifacts
    case NotDeclared => id in db.artifacts && db.artifacts[id].status.Retired?
    case Forbidden => id in db.artifacts && db.artifacts[id].declaredBy != who
    case Stale => id in db.artifacts && db.artifacts[id].version != expected
    case _ => false
  }

  // ---- each request --------------------------------------------------------------------------

  /** What `reconcile_targets` answers and leaves. */
  ghost predicate ReconcileOutcome(was: Db, now: Db, id: ArtifactId, expected: nat, ids: seq<PageId>, paths: seq<string>, generatorVersion: string,
                                   who: Principal, r: Result<bool, Refusal>)
    requires |ids| == |paths|
  {
    && (r.Ok? <==> InCustody(was, id, expected, who) && CanTarget(was, id, ids, paths))
    && (r.Ok? ==> Reconciles(was, now, id, ids, paths, generatorVersion, r.value))
    && (r.Err? ==> now == was && (CustodyProblem(was, id, expected, who, r.error) || TargetProblem(was, id, ids, paths, r.error)))
  }

  lemma {:induction false} ReconcileMeans(db: Db, id: ArtifactId, expected: nat, ids: seq<PageId>, paths: seq<string>, generatorVersion: string, who: Principal)
    requires |ids| == |paths| && Sound(db)
    ensures var r := Reconcile(db, id, expected, ids, paths, generatorVersion, who);
            && (r.Err? ==> ReconcileOutcome(db, db, id, expected, ids, paths, generatorVersion, who, Err(r.error)))
            && (r.Ok? ==> ReconcileOutcome(db, r.value.db, id, expected, ids, paths, generatorVersion, who, Ok(r.value.changed)))
  {
    hide Sound, CanTarget, TargetsRefused, Reconciles, TargetProblem, Retargeted;
    TargetChecks(db, id, ids, paths);
    if InCustody(db, id, expected, who) && CanTarget(db, id, ids, paths) {
      RetargetedMeans(db, id, ids, paths, generatorVersion);
    }
  }

  lemma {:induction false} RetargetedMeans(db: Db, id: ArtifactId, ids: seq<PageId>, paths: seq<string>, generatorVersion: string)
    requires |ids| == |paths| && Sound(db) && id in db.artifacts && db.artifacts[id].status.Declared?
    ensures var a := db.artifacts[id];
            if OwnedBy(db, id) == Ids(ids) && a.paths == multiset(paths) && a.generatorVersion == generatorVersion
            then Reconciles(db, db, id, ids, paths, generatorVersion, false)
            else Reconciles(db, Retargeted(db, id, Ids(ids), multiset(paths), generatorVersion), id, ids, paths, generatorVersion, true)
  {
    var now := Retargeted(db, id, Ids(ids), multiset(paths), generatorVersion);
    Listed(ids);
    RetargetedRows(db, id, Ids(ids), multiset(paths), generatorVersion);
    forall p ensures p in OwnedBy(db, id) <==> (id, p) in db.targets { OwnedByHas(db, id, p); }
    hide OwnedBy, Ids, Rows;
    assert AsksForChange(db, id, ids, paths, generatorVersion)
      <==> !(OwnedBy(db, id) == Ids(ids) && db.artifacts[id].paths == multiset(paths) && db.artifacts[id].generatorVersion == generatorVersion)
    by { Differ(OwnedBy(db, id), Ids(ids)); }
    if OwnedBy(db, id) == Ids(ids) {
      assert OwnsNow(db, db, id, id, ids);
      SamePages(db, id, ids);
    }
    assert PagesNow(db, now, id, ids);
  }

  lemma {:induction false} SamePages(db: Db, id: ArtifactId, ids: seq<PageId>)
    requires forall p :: p in ids ==> (id, p) in db.targets
    ensures PagesNow(db, db, id, ids)
  {}

  lemma {:induction false} Differ(a: set<PageId>, b: set<PageId>)
    ensures a != b <==> (exists p :: p in a && p !in b) || (exists p :: p in b && p !in a)
  {}

  lemma {:induction false} Listed(ids: seq<PageId>)
    ensures forall p :: p in Ids(ids) <==> p in ids
  {}

  /** What `handoff_targets` answers and leaves. */
  ghost predicate HandoffOutcome(was: Db, now: Db, id: ArtifactId, expected: nat, s: Successor, who: Principal, newId: ArtifactId, r: Result<(), Refusal>)
    requires |s.ids| == |s.paths|
  {
    && (r.Ok? <==> InCustody(was, id, expected, who) && Succeeds(was, id, s) && CanTarget(was, id, s.ids, s.paths) && s.sourceExists)
    && (r.Ok? ==> HandsOff(was, now, id, s, who, newId))
    && (r.Err? ==> now == was && (CustodyProblem(was, id, expected, who, r.error) || TargetProblem(was, id, s.ids, s.paths, r.error)
                                  || SuccessorProblem(was, id, s, r.error)))
  }

  /** A successor keeps the key and has a newer contract. */
  predicate Succeeds(db: Db, id: ArtifactId, s: Successor)
    requires id in db.artifacts
  {
    s.key == db.artifacts[id].key && s.contractVersion > db.artifacts[id].contractVersion
  }

  predicate SuccessorProblem(db: Db, id: ArtifactId, s: Successor, e: Refusal) {
    match e
    case KeyMismatch => id in db.artifacts && s.key != db.artifacts[id].key
    case ContractNotNewer => id in db.artifacts && s.contractVersion <= db.artifacts[id].contractVersion
    case EntityMissing => !s.sourceExists
    case _ => false
  }

  lemma {:induction false} HandoffMeans(db: Db, id: ArtifactId, expected: nat, s: Successor, who: Principal, newId: ArtifactId)
    requires |s.ids| == |s.paths| && Sound(db) && newId !in db.artifacts
    ensures var r := Handoff(db, id, expected, s, who, newId);
            HandoffOutcome(db, if r.Ok? then r.value else db, id, expected, s, who, newId, if r.Ok? then Ok(()) else Err(r.error))
  {
    hide Sound, CanTarget, TargetsRefused, HandsOff, TargetProblem, HandedOff;
    TargetChecks(db, id, s.ids, s.paths);
    if InCustody(db, id, expected, who) { HandedOffMeans(db, id, s, who, newId); }
  }

  lemma {:induction false} HandedOffMeans(db: Db, id: ArtifactId, s: Successor, who: Principal, newId: ArtifactId)
    requires |s.ids| == |s.paths| && Sound(db) && id in db.artifacts && newId !in db.artifacts
    ensures HandsOff(db, HandedOff(db, id, s, who, newId), id, s, who, newId)
  {
    Listed(s.ids);
    HandedOffRows(db, id, s, who, newId);
    forall p ensures p in OwnedBy(db, id) <==> (id, p) in db.targets { OwnedByHas(db, id, p); }
    hide OwnedBy, Ids, Rows;
  }

  /** What `declare_artifact` answers and leaves. */
  ghost predicate DeclareOutcome(was: Db, now: Db, d: Declaration, who: Principal, automation: bool, newId: ArtifactId, r: Result<(), Refusal>) {
    && (r.Ok? <==> automation && d.sourceExists && AllThere(was, d.ids) && !KeyDeclared(was, d.key) && NobodyElses(was, d.ids, newId))
    && (r.Ok? ==> Declares(was, now, d, who, newId))
    && (r.Err? ==> now == was && DeclareProblem(was, d, automation, newId, r.error))
  }

  predicate AllThere(db: Db, ids: seq<PageId>) { forall i :: 0 <= i < |ids| ==> ids[i] in db.pages }

  ghost predicate KeyDeclared(db: Db, key: string) {
    exists a :: a in db.artifacts && db.artifacts[a].status.Declared? && db.artifacts[a].key == key
  }

  ghost predicate DeclareProblem(db: Db, d: Declaration, automation: bool, newId: ArtifactId, e: Refusal) {
    match e
    case NotAutomation => !automation
    case EntityMissing => !d.sourceExists
    case PageMissing => !AllThere(db, d.ids)
    case KeyExists => KeyDeclared(db, d.key)
    case TargetConflict => !NobodyElses(db, d.ids, newId)
    case _ => false
  }

  lemma {:induction false} DeclareMeans(db: Db, d: Declaration, who: Principal, automation: bool, newId: ArtifactId)
    requires Sound(db) && newId !in db.artifacts
    ensures var r := Declare(db, d, who, automation, newId);
            DeclareOutcome(db, if r.Ok? then r.value else db, d, who, automation, newId, if r.Ok? then Ok(()) else Err(r.error))
  {
    Listed(d.ids);
    assert Ids(d.ids) <= db.pages.Keys <==> AllThere(db, d.ids);
    forall t | t in db.targets ensures t == (t.0, t.1) {}
    assert Conflicts(db, Ids(d.ids), newId) <==> !NobodyElses(db, d.ids, newId);
    hide Ids, Conflicts;
  }

  /** What `retire_artifact` answers and leaves: it can be repeated. */
  ghost predicate RetireOutcome(was: Db, now: Db, id: ArtifactId, expected: nat, who: Principal, r: Result<(), Refusal>) {
    && (r.Ok? <==> id in was.artifacts && was.artifacts[id].declaredBy == who && was.artifacts[id].version == expected
                   && (was.artifacts[id].status.Retired? || forall p :: (id, p) !in was.targets))
    && (r.Ok? && was.artifacts[id].status.Retired? ==> now == was)
    && (r.Ok? && was.artifacts[id].status.Declared? ==>
          var a := was.artifacts[id];
          RowNow(was, now, id, Artifact(a.key, a.generatorVersion, a.contractVersion, a.paths, a.declaredBy, Retired, a.version + 1)))
    && (r.Err? ==> now == was && (CustodyProblem(was, id, expected, who, r.error) || (r.error.HasTargets? && exists p :: (id, p) in was.targets)))
  }

  lemma {:induction false} RetireMeans(db: Db, id: ArtifactId, expected: nat, who: Principal)
    ensures var r := Retire(db, id, expected, who);
            RetireOutcome(db, if r.Ok? then r.value else db, id, expected, who, if r.Ok? then Ok(()) else Err(r.error))
  {
    forall p ensures p in OwnedBy(db, id) <==> (id, p) in db.targets { OwnedByHas(db, id, p); }
    if OwnedBy(db, id) != {} { var p :| p in OwnedBy(db, id); }
    hide OwnedBy;
  }

  /** What `reassign_artifact_custody` answers and leaves. */
  ghost predicate ReassignOutcome(was: Db, now: Db, id: ArtifactId, expected: nat, to: Principal, account: Option<Account>, r: Result<(), Refusal>) {
    && (r.Ok? <==> id in was.artifacts && was.artifacts[id].status.Declared? && was.artifacts[id].version == expected
                   && account == Some(Account(true, true)))
    && (r.Ok? ==> var a := was.artifacts[id];
                  RowNow(was, now, id, Artifact(a.key, a.generatorVersion, a.contractVersion, a.paths, to, Declared, a.version + 1)))
    && (r.Err? ==> now == was && ((CustodyProblem(was, id, expected, to, r.error) && !r.error.Forbidden?)
                                  || (r.error.DestinationMissing? && account.None?)
                                  || (r.error.DestinationUnfit? && account.Some? && account.value != Account(true, true))))
  }

  lemma {:induction false} ReassignMeans(db: Db, id: ArtifactId, expected: nat, to: Principal, account: Option<Account>)
    ensures var r := Reassign(db, id, expected, to, account);
            ReassignOutcome(db, if r.Ok? then r.value else db, id, expected, to, account, if r.Ok? then Ok(()) else Err(r.error))
  {}

  // ---- who can change what -----------------------------------------------------------------------

  /** Row and pages of `a` are as they were. */
  ghost predicate Untouched(was: Db, now: Db, a: ArtifactId) {
    && a in was.artifacts && a in now.artifacts && now.artifacts[a] == was.artifacts[a]
    && forall p :: (a, p) in now.targets <==> (a, p) in was.targets
  }

  /** A request about `a` by the principal `c`. */
  predicate AsksAs(op: Op, a: ArtifactId, c: Principal) {
    match op
    case DoReconcile(id, _, _, _, _, who) => id == a && who == c
    case DoHandoff(id, _, _, who, _) => id == a && who == c
    case DoRetire(id, _, who) => id == a && who == c
    case _ => false
  }

  predicate Reassigns(op: Op, a: ArtifactId) { op.DoReassign? && op.id == a }

  lemma {:induction false} StepByCustodian(db: Db, op: Op, a: ArtifactId)
    requires Sound(db) && Proper(db, op) && a in db.artifacts && !Reassigns(op, a)
    ensures var now := After(db, op);
            && a in now.artifacts && now.artifacts[a].declaredBy == db.artifacts[a].declaredBy
            && (Untouched(db, now, a) || AsksAs(op, a, db.artifacts[a].declaredBy))
  {
    hide Sound, Reconcile, Handoff, Declare, Retire, Reassign;
    match op
    case DoDeclare(d, who, automation, newId) => DeclareMeans(db, d, who, automation, newId);
    case DoReconcile(id, expected, ids, paths, generatorVersion, who) => ReconcileMeans(db, id, expected, ids, paths, generatorVersion, who);
    case DoHandoff(id, expected, s, who, newId) => HandoffMeans(db, id, expected, s, who, newId);
    case DoRetire(id, expected, who) => RetireMeans(db, id, expected, who);
    case DoReassign(id, expected, to, account) => ReassignMeans(db, id, expected, to, account);
    case EditPage(_, _, _) =>
    case AddPage(_, _, _) =>
  }

  /**
   * Over every run: as long as custody of an artifact is not reassigned, its custodian
   * stays the same, and its row and the pages it owns only change by that principal's
   * own requests.
   */
  lemma {:induction false} OnlyItsCustodian(states: seq<Db>, ops: seq<Op>, i: nat, j: nat, a: ArtifactId)
    requires Run(states, ops) && Sound(states[0]) && i <= j < |states| && a in states[i].artifacts
    requires forall k :: i <= k < j ==> !Reassigns(ops[k], a)
    ensures var c := states[i].artifacts[a].declaredBy;
            && a in states[j].artifacts && states[j].artifacts[a].declaredBy == c
            && (Untouched(states[i], states[j], a) || exists k :: i <= k < j && AsksAs(ops[k], a, c))
    decreases j
  {
    hide Sound, After, Proper, AsksAs;
    if i < j {
      OnlyItsCustodian(states, ops, i, j - 1, a);
      RunKeeps(states, ops, j - 1, j - 1);
      assert Step(states[j - 1], ops[j - 1], states[j - 1 + 1]);
      StepByCustodian(states[j - 1], ops[j - 1], a);
    }
  }
}
