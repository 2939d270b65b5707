/** Which generated artifact owns which page: the tables, and what each request makes of them. */
module Ownership {
  import opened Text

  type ArtifactId = nat
  type PageId = nat
  type Principal = nat

  datatype Status = Declared | Retired

  /** A row of `generated_artifacts`; the listed paths matter up to their order. */
  datatype Artifact = Artifact(
    key: string, generatorVersion: string, contractVersion: nat, paths: multiset<string>,
    declaredBy: Principal, status: Status, version: nat)

  datatype Page = Page(path: string, archived: bool, generated: bool)

  /** The artifacts, the rows of `artifact_targets`, and the pages. */
  datatype Db = Db(artifacts: map<ArtifactId, Artifact>, targets: set<(ArtifactId, PageId)>, pages: map<PageId, Page>)

  datatype Refusal =
    | NotFound | NotDeclared | Forbidden | Stale
    | PageMissing | PathMismatch | TargetConflict | RemovalNotArchived
    | KeyMismatch | ContractNotNewer | EntityMissing | KeyExists | HasTargets | NotAutomation | DestinationMissing | DestinationUnfit

  // ---- the invariant ---------------------------------------------------------------

  /** Each page has one owner; owners are DECLARED; owned pages are GENERATED; a key has one declaration. */
  ghost predicate Sound(db: Db) {
    && (forall a, b, p :: (a, p) in db.targets && (b, p) in db.targets ==> a == b)
    && (forall a, p :: (a, p) in db.targets ==> a in db.artifacts && db.artifacts[a].status.Declared?)
    && (forall a, p :: (a, p) in db.targets ==> p in db.pages && db.pages[p].generated)
    && OneDeclaration(db.artifacts)
  }

  ghost predicate OneDeclaration(artifacts: map<ArtifactId, Artifact>) {
    forall a, b ::
      a in artifacts && b in artifacts && BothDeclare(artifacts[a], artifacts[b]) ==> a == b
  }

  predicate BothDeclare(a: Artifact, b: Artifact) { a.status.Declared? && b.status.Declared? && a.key == b.key }

  /** No artifact or page disappears, and versions never decrease. */
  ghost predicate Grows(was: Db, now: Db) {
    && (forall a :: a in was.artifacts ==> a in now.artifacts && was.artifacts[a].version <= now.artifacts[a].version)
    && was.pages.Keys <= now.pages.Keys
  }

  /** The pages `a` owns. */
  function OwnedBy(db: Db, a: ArtifactId): set<PageId> { set t | t in db.targets && t.0 == a :: t.1 }

  predicate Owned(db: Db, p: PageId) { exists t :: t in db.targets && t.1 == p }

  /** A page that had an owner has one still, unless it is archived. */
  ghost predicate KeepsProtection(was: Db, now: Db) {
    forall p :: Owned(was, p) && !Owned(now, p) ==> p in was.pages && was.pages[p].archived
  }

  // ---- the checks ------------------------------------------------------------------

  function Ids(ids: seq<PageId>): set<PageId> { set i | 0 <= i < |ids| :: ids[i] }

  /** What the request validators of `ArtifactTargetSet` and `ArtifactSuccessor` accept. */
  predicate ExactSet(ids: seq<PageId>, paths: seq<string>) {
    && |ids| == |paths|
    && (forall i, j :: 0 <= i < j < |ids| ==> ids[i] != ids[j])
    && (forall i, j :: 0 <= i < j < |paths| ==> paths[i] != paths[j])
  }

  /** `_validate_custody`. */
  function Custody(a: Artifact, who: Principal, expected: nat): Option<Refusal> {
    if a.status.Retired? then Some(NotDeclared)
    else if a.declaredBy != who then Some(Forbidden)
    else if a.version != expected then Some(Stale)
    else Option.None
  }

  predicate Mismatch(db: Db, ids: seq<PageId>, paths: seq<string>)
    requires |ids| == |paths|
  {
    exists i :: 0 <= i < |ids| && ids[i] in db.pages && db.pages[ids[i]].path != paths[i]
  }

  predicate Conflicts(db: Db, desired: set<PageId>, allowed: ArtifactId) {
    exists t :: t in db.targets && t.1 in desired && t.0 != allowed
  }

  predicate Unarchived(db: Db, removed: set<PageId>) { exists p :: p in removed && p in db.pages && !db.pages[p].archived }

  /** The checks `reconcile_targets` and `handoff_targets` share, after custody. */
  function TargetsRefused(db: Db, id: ArtifactId, ids: seq<PageId>, paths: seq<string>): Option<Refusal>
    requires |ids| == |paths|
  {
    if !(Ids(ids) <= db.pages.Keys) then Some(PageMissing)
    else if Mismatch(db, ids, paths) then Some(PathMismatch)
    else if Conflicts(db, Ids(ids), id) then Some(TargetConflict)
    else if Unarchived(db, OwnedBy(db, id) - Ids(ids)) then Some(RemovalNotArchived)
    else Option.None
  }

  // ---- the single statements ---------------------------------------------------------

  function Marked(pages: map<PageId, Page>, which: set<PageId>): map<PageId, Page> {
    map p | p in pages :: if p in which then pages[p].(generated := true) else pages[p]
  }

  function Rows(a: ArtifactId, pages: set<PageId>): set<(ArtifactId, PageId)> { set p | p in pages :: (a, p) }

  function RetiredRow(a: Artifact): Artifact { a.(status := Retired, version := a.version + 1) }

  // ---- the requests ----------------------------------------------------------------

  datatype Reconciled = Reconciled(db: Db, changed: bool)

  /** `reconcile_targets`. */
  function Reconcile(db: Db, id: ArtifactId, expected: nat, ids: seq<PageId>, paths: seq<string>, generatorVersion: string, who: Principal)
    : Result<Reconciled, Refusal>
    requires |ids| == |paths|
  {
    if id !in db.artifacts then Err(NotFound)
    else
      var a := db.artifacts[id];
      match Custody(a, who, expected)
      case Some(e) => Err(e)
      case None =>
        match TargetsRefused(db, id, ids, paths)
        case Some(e) => Err(e)
        case None =>
          if OwnedBy(db, id) == Ids(ids) && a.paths == multiset(paths) && a.generatorVersion == generatorVersion
          then Ok(Reconciled(db, false))
          else Ok(Reconciled(Retargeted(db, id, Ids(ids), multiset(paths), generatorVersion), true))
  }

  /** The table after the target set of `id` was replaced. */
  function Retargeted(db: Db, id: ArtifactId, desired: set<PageId>, paths: multiset<string>, generatorVersion: string): Db
    requires id in db.artifacts
  {
    var a, current := db.artifacts[id], OwnedBy(db, id);
    Db(db.artifacts[id := a.(generatorVersion := generatorVersion, paths := paths, version := a.version + 1)],
       db.targets - Rows(id, current - desired) + Rows(id, desired - current),
       Marked(db.pages, desired - current))
  }

  datatype Successor = Successor(key: string, generatorVersion: string, contractVersion: nat, ids: seq<PageId>, paths: seq<string>, sourceExists: bool)

  /** `handoff_targets`, with the identifier the table gives the successor. */
  function Handoff(db: Db, id: ArtifactId, expected: nat, s: Successor, who: Principal, newId: ArtifactId): Result<Db, Refusal>
    requires |s.ids| == |s.paths|
  {
    if id !in db.artifacts then Err(NotFound)
    else
      var a := db.artifacts[id];
      match Custody(a, who, expected)
      case Some(e) => Err(e)
      case None =>
        if s.key != a.key then Err(KeyMismatch)
        else if s.contractVersion <= a.contractVersion then Err(ContractNotNewer)
        else
          match TargetsRefused(db, id, s.ids, s.paths)
          case Some(e) => Err(e)
          case None => if !s.sourceExists then Err(EntityMissing) else Ok(HandedOff(db, id, s, who, newId))
  }

  function HandedOff(db: Db, id: ArtifactId, s: Successor, who: Principal, newId: ArtifactId): Db
    requires id in db.artifacts
  {
    var current, desired := OwnedBy(db, id), Ids(s.ids);
    Db(db.artifacts[id := RetiredRow(db.artifacts[id])][newId := SuccessorRow(s, who)],
       db.targets - Rows(id, current) + Rows(newId, desired),
       Marked(db.pages, desired - current))
  }

  function SuccessorRow(s: Successor, who: Principal): Artifact {
    Artifact(s.key, s.generatorVersion, s.contractVersion, multiset(s.paths), who, Declared, 1)
  }

  datatype Declaration = Declaration(key: string, generatorVersion: string, contractVersion: nat, ids: seq<PageId>, paths: seq<string>, sourceExists: bool)

  /** `declare_artifact`. */
  function Declare(db: Db, d: Declaration, who: Principal, automation: bool, newId: ArtifactId): Result<Db, Refusal> {
    if !automation then Err(NotAutomation)
    else if !d.sourceExists then Err(EntityMissing)
    else if !(Ids(d.ids) <= db.pages.Keys) then Err(PageMissing)
    else if KeyTaken(db, d.key) then Err(KeyExists)
    else if Conflicts(db, Ids(d.ids), newId) then Err(TargetConflict)
    else
      Ok(Db(db.artifacts[newId := Artifact(d.key, d.generatorVersion, d.contractVersion, multiset(d.paths), who, Declared, 1)],
            db.targets + Rows(newId, Ids(d.ids)),
            Marked(db.pages, Ids(d.ids))))
  }

  /** The partial unique index on the key of DECLARED artifacts. */
  predicate KeyTaken(db: Db, key: string) {
    exists a :: a in db.artifacts && db.artifacts[a].status.Declared? && db.artifacts[a].key == key
  }

  /** `retire_artifact`. */
  function Retire(db: Db, id: ArtifactId, expected: nat, who: Principal): Result<Db, Refusal> {
    if id !in db.artifacts then Err(NotFound)
    else
      var a := db.artifacts[id];
      if a.declaredBy != who then Err(Forbidden)
      else if a.version != expected then Err(Stale)
      else if a.status.Retired? then Ok(db)
      else if OwnedBy(db, id) != {} then Err(HasTargets)
      else Ok(db.(artifacts := db.artifacts[id := RetiredRow(a)]))
  }

  /** A principal as `reassign_artifact_custody` reads it. */
  datatype Account = Account(automation: bool, active: bool)

  function Reassign(db: Db, id: ArtifactId, expected: nat, to: Principal, account: Option<Account>): Result<Db, Refusal> {
    if id !in db.artifacts then Err(NotFound)
    else
      var a := db.artifacts[id];
      if a.status.Retired? then Err(NotDeclared)
      else if a.version != expected then Err(Stale)
      else if account.None? then Err(DestinationMissing)
      else if !(account.value.automation && account.value.active) then Err(DestinationUnfit)
      else Ok(db.(artifacts := db.artifacts[id := a.(declaredBy := to, version := a.version + 1)]))
  }

  // ---- what every request keeps -------------------------------------------------------

  lemma {:induction false} OwnedByHas(db: Db, a: ArtifactId, p: PageId)
    ensures p in OwnedBy(db, a) <==> (a, p) in db.targets
  {
    if (a, p) in db.targets { assert (a, p).1 == p; }
  }

  lemma {:induction false} IsOwned(db: Db, a: ArtifactId, p: PageId)
    requires (a, p) in db.targets
    ensures Owned(db, p)
  {
    assert (a, p).1 == p;
  }

  /** The rows after the target set of `id` became `desired`. */
  ghost predicate SetTargets(was: set<(ArtifactId, PageId)>, now: set<(ArtifactId, PageId)>, from: ArtifactId, to: ArtifactId, desired: set<PageId>) {
    forall a, p :: (a, p) in now <==> (a == to && p in desired) || (a != from && a != to && (a, p) in was)
  }

  lemma {:induction false} RetargetedRows(db: Db, id: ArtifactId, desired: set<PageId>, paths: multiset<string>, generatorVersion: string)
    requires id in db.artifacts
    ensures SetTargets(db.targets, Retargeted(db, id, desired, paths, generatorVersion).targets, id, id, desired)
  {
    var now := Retargeted(db, id, desired, paths, generatorVersion).targets;
    forall a, p ensures (a, p) in now <==> (a == id && p in desired) || (a != id && (a, p) in db.targets) { OwnedByHas(db, a, p); }
  }

  lemma {:induction false} HandedOffRows(db: Db, id: ArtifactId, s: Successor, who: Principal, newId: ArtifactId)
    requires id in db.artifacts && newId !in db.artifacts && Sound(db)
    ensures SetTargets(db.targets, HandedOff(db, id, s, who, newId).targets, id, newId, Ids(s.ids))
  {
    var now := HandedOff(db, id, s, who, newId).targets;
    forall a, p ensures (a, p) in now <==> (a == newId && p in Ids(s.ids)) || (a != id && a != newId && (a, p) in db.targets) {
      OwnedByHas(db, a, p);
    }
  }

  lemma {:induction false} NoConflict(db: Db, desired: set<PageId>, allowed: ArtifactId)
    requires !Conflicts(db, desired, allowed)
    ensures forall a, p :: (a, p) in db.targets && p in desired ==> a == allowed
  {
    forall a, p | (a, p) in db.targets && p in desired ensures a == allowed { assert (a, p).1 in desired ==> (a, p).0 == allowed; }
  }

  /** Giving pages that nobody else owns, and that are GENERATED now, keeps the rows sound. */
  lemma {:induction false} TargetsSound(was: Db, now: Db, from: ArtifactId, to: ArtifactId, desired: set<PageId>)
    requires Sound(was) && SetTargets(was.targets, now.targets, from, to, desired) && !Conflicts(was, desired, from)
    requires to in now.artifacts && now.artifacts[to].status.Declared? && OneDeclaration(now.artifacts)
    requires forall a :: a in was.artifacts && a != from && a != to ==> a in now.artifacts && now.artifacts[a].status == was.artifacts[a].status
    requires desired <= now.pages.Keys && forall p :: p in desired ==> now.pages[p].generated
    requires forall p :: p in was.pages && was.pages[p].generated ==> p in now.pages && now.pages[p].generated
    ensures Sound(now)
  {
    NoConflict(was, desired, from);
    forall a, p | (a, p) in now.targets ensures p in now.pages && now.pages[p].generated {}
  }

  lemma {:induction false} ReconcileSound(db: Db, id: ArtifactId, expected: nat, ids: seq<PageId>, paths: seq<string>, generatorVersion: string, who: Principal)
    requires |ids| == |paths| && Sound(db) && Reconcile(db, id, expected, ids, paths, generatorVersion, who).Ok?
    ensures var r := Reconcile(db, id, expected, ids, paths, generatorVersion, who).value; Sound(r.db) && Grows(db, r.db)
  {
    var r := Reconcile(db, id, expected, ids, paths, generatorVersion, who).value;
    if r.changed {
      RetargetedRows(db, id, Ids(ids), multiset(paths), generatorVersion);
      DesiredMarked(db, id, Ids(ids));
      hide SetTargets, Conflicts, Ids, OwnedBy, Sound;
      OneStays(db, id, r.db.artifacts[id]);
      TargetsSound(db, r.db, id, id, Ids(ids));
    }
  }

  lemma {:induction false} DesiredMarked(db: Db, id: ArtifactId, desired: set<PageId>)
    requires Sound(db) && desired <= db.pages.Keys
    ensures var now := Marked(db.pages, desired - OwnedBy(db, id)); forall p :: p in desired ==> now[p].generated
  {
    forall p | p in desired ensures Marked(db.pages, desired - OwnedBy(db, id))[p].generated { OwnedByHas(db, id, p); }
  }

  /** Changing a row without declaring a key keeps one declaration for each key. */
  lemma {:induction false} OneStays(db: Db, id: ArtifactId, row: Artifact)
    requires Sound(db) && id in db.artifacts && row.key == db.artifacts[id].key && (row.status.Declared? ==> db.artifacts[id].status.Declared?)
    ensures OneDeclaration(db.artifacts[id := row])
  {
    var now := db.artifacts[id := row];
    forall a, b | a in now && b in now && BothDeclare(now[a], now[b]) ensures a == b {
      assert BothDeclare(db.artifacts[a], db.artifacts[b]);
    }
  }

  lemma {:induction false} HandoffSound(db: Db, id: ArtifactId, expected: nat, s: Successor, who: Principal, newId: ArtifactId)
    requires |s.ids| == |s.paths| && Sound(db) && newId !in db.artifacts && Handoff(db, id, expected, s, who, newId).Ok?
    ensures var now := Handoff(db, id, expected, s, who, newId).value; Sound(now) && Grows(db, now)
  {
    var now := HandedOff(db, id, s, who, newId);
    HandedOffRows(db, id, s, who, newId);
    DesiredMarked(db, id, Ids(s.ids));
    SuccessorDeclares(db, id, s, who, newId);
    hide SetTargets, Conflicts, Ids, OwnedBy, Sound, OneDeclaration;
    TargetsSound(db, now, id, newId, Ids(s.ids));
  }

  lemma {:induction false} SuccessorDeclares(db: Db, id: ArtifactId, s: Successor, who: Principal, newId: ArtifactId)
    requires Sound(db) && id in db.artifacts && newId !in db.artifacts && db.artifacts[id].status.Declared? && s.key == db.artifacts[id].key
    ensures OneDeclaration(HandedOff(db, id, s, who, newId).artifacts)
  {
    var now := HandedOff(db, id, s, who, newId).artifacts;
    forall a, b | a in now && b in now && BothDeclare(now[a], now[b]) ensures a == b {
      var c, d := if a == newId then id else a, if b == newId then id else b;
      assert BothDeclare(db.artifacts[c], db.artifacts[d]);
    }
  }

  lemma {:induction false} DeclareSound(db: Db, d: Declaration, who: Principal, automation: bool, newId: ArtifactId)
    requires Sound(db) && newId !in db.artifacts && Declare(db, d, who, automation, newId).Ok?
    ensures var now := Declare(db, d, who, automation, newId).value; Sound(now) && Grows(db, now)
  {
    var now := Declare(db, d, who, automation, newId).value;
    var none := Artifact(d.key, d.generatorVersion, d.contractVersion, multiset(d.paths), who, Declared, 1);
    forall a, p ensures (a, p) in now.targets <==> (a == newId && p in Ids(d.ids)) || (a != newId && (a, p) in db.targets) {}
    hide Conflicts, Ids;
    forall a, b | a in now.artifacts && b in now.artifacts && BothDeclare(now.artifacts[a], now.artifacts[b]) ensures a == b {
      if a != newId && b != newId { assert BothDeclare(db.artifacts[a], db.artifacts[b]); }
    }
    assert OneDeclaration(now.artifacts);
    hide OneDeclaration;
    TargetsSound(db, now, newId, newId, Ids(d.ids));
  }

  lemma {:induction false} RetireSound(db: Db, id: ArtifactId, expected: nat, who: Principal)
    requires Sound(db) && Retire(db, id, expected, who).Ok?
    ensures var now := Retire(db, id, expected, who).value; Sound(now) && Grows(db, now)
  {
    OneStays(db, id, RetiredRow(db.artifacts[id]));
    var now := Retire(db, id, expected, who).value;
    forall a, p | (a, p) in now.targets ensures a in now.artifacts && now.artifacts[a].status.Declared? { OwnedByHas(db, a, p); }
  }

  lemma {:induction false} ReassignSound(db: Db, id: ArtifactId, expected: nat, to: Principal, account: Option<Account>)
    requires Sound(db) && Reassign(db, id, expected, to, account).Ok?
    ensures var now := Reassign(db, id, expected, to, account).value; Sound(now) && Grows(db, now)
  {
    var now := Reassign(db, id, expected, to, account).value;
    OneStays(db, id, now.artifacts[id]);
  }

  // ---- what a change of targets achieves --------------------------------------------

  /** A successful reconcile leaves exactly the wanted set, and lets go of archived pages only. */
  lemma {:induction false} ReconcileReaches(db: Db, id: ArtifactId, expected: nat, ids: seq<PageId>, paths: seq<string>, generatorVersion: string, who: Principal)
    requires |ids| == |paths| && Sound(db) && Reconcile(db, id, expected, ids, paths, generatorVersion, who).Ok?
    ensures var r := Reconcile(db, id, expected, ids, paths, generatorVersion, who).value;
            && OwnedBy(r.db, id) == Ids(ids)
            && (forall a :: a != id ==> OwnedBy(r.db, a) == OwnedBy(db, a))
            && KeepsProtection(db, r.db)
            && r.db.artifacts[id].paths == multiset(paths) && r.db.artifacts[id].generatorVersion == generatorVersion
            && (r.changed <==> r.db != db) && (r.changed <==> r.db.artifacts[id].version != expected)
  {
    var r := Reconcile(db, id, expected, ids, paths, generatorVersion, who).value;
    if r.changed {
      RetargetedRows(db, id, Ids(ids), multiset(paths), generatorVersion);
      OwnedAfter(db, r.db, id, id, Ids(ids));
      ProtectionAfter(db, r.db, id, id, Ids(ids));
    }
  }

  lemma {:induction false} OwnedAfter(was: Db, now: Db, from: ArtifactId, to: ArtifactId, desired: set<PageId>)
    requires SetTargets(was.targets, now.targets, from, to, desired)
    ensures OwnedBy(now, to) == desired && (from != to ==> OwnedBy(now, from) == {})
    ensures forall a :: a != from && a != to ==> OwnedBy(now, a) == OwnedBy(was, a)
  {
    forall a: ArtifactId, p: PageId ensures p in OwnedBy(now, a) <==> (a, p) in now.targets { OwnedByHas(now, a, p); }
    forall a: ArtifactId, p: PageId ensures p in OwnedBy(was, a) <==> (a, p) in was.targets { OwnedByHas(was, a, p); }
    hide OwnedBy;
    forall a | a != from && a != to ensures OwnedBy(now, a) == OwnedBy(was, a) {
      assert forall p :: p in OwnedBy(now, a) <==> p in OwnedBy(was, a);
    }
  }

  lemma {:induction false} ProtectionAfter(was: Db, now: Db, from: ArtifactId, to: ArtifactId, desired: set<PageId>)
    requires SetTargets(was.targets, now.targets, from, to, desired) && !Unarchived(was, OwnedBy(was, from) - desired)
    requires Sound(was) && (to == from || to !in was.artifacts)
    ensures KeepsProtection(was, now)
  {
    forall p | Owned(was, p) && !Owned(now, p) ensures p in was.pages && was.pages[p].archived {
      var t :| t in was.targets && t.1 == p;
      assert t == (t.0, p);
      if p in desired { IsOwned(now, to, p); }
      if t.0 != from { IsOwned(now, t.0, p); }
      OwnedByHas(was, from, p);
    }
  }

  /** After a handoff the successor owns exactly the wanted set, the predecessor nothing, and only archived pages are let go. */
  lemma {:induction false} HandoffReaches(db: Db, id: ArtifactId, expected: nat, s: Successor, who: Principal, newId: ArtifactId)
    requires |s.ids| == |s.paths| && Sound(db) && newId !in db.artifacts && Handoff(db, id, expected, s, who, newId).Ok?
    ensures var now := Handoff(db, id, expected, s, who, newId).value;
            && OwnedBy(now, newId) == Ids(s.ids) && OwnedBy(now, id) == {}
            && (forall a :: a != id && a != newId ==> OwnedBy(now, a) == OwnedBy(db, a))
            && KeepsProtection(db, now)
            && now.artifacts[id].status.Retired? && now.artifacts[newId].status.Declared?
            && now.artifacts[newId].key == db.artifacts[id].key && now.artifacts[newId].declaredBy == db.artifacts[id].declaredBy
  {
    var now := HandedOff(db, id, s, who, newId);
    HandedOffRows(db, id, s, who, newId);
    OwnedAfter(db, now, id, newId, Ids(s.ids));
    ProtectionAfter(db, now, id, newId, Ids(s.ids));
  }

  /** Repeating a reconcile at the version it returned succeeds and changes nothing. */
  lemma {:induction false} ReconcileAgain(db: Db, id: ArtifactId, expected: nat, ids: seq<PageId>, paths: seq<string>, generatorVersion: string, who: Principal)
    requires |ids| == |paths| && Sound(db) && Reconcile(db, id, expected, ids, paths, generatorVersion, who).Ok?
    ensures var out := Reconcile(db, id, expected, ids, paths, generatorVersion, who).value.db;
            Reconcile(out, id, out.artifacts[id].version, ids, paths, generatorVersion, who) == Ok(Reconciled(out, false))
  {
    var r := Reconcile(db, id, expected, ids, paths, generatorVersion, who).value;
    ReconcileReaches(db, id, expected, ids, paths, generatorVersion, who);
    ReconcileSound(db, id, expected, ids, paths, generatorVersion, who);
    StillAccepted(db, r.db, id, ids, paths);
  }

  lemma {:induction false} StillAccepted(db: Db, now: Db, id: ArtifactId, ids: seq<PageId>, paths: seq<string>)
    requires |ids| == |paths| && TargetsRefused(db, id, ids, paths).None? && Sound(now) && OwnedBy(now, id) == Ids(ids)
    requires now.pages.Keys == db.pages.Keys && forall p :: p in db.pages ==> now.pages[p].path == db.pages[p].path
    ensures TargetsRefused(now, id, ids, paths).None?
  {
    assert Mismatch(now, ids, paths) ==> Mismatch(db, ids, paths);
    forall t | t in now.targets && t.1 in Ids(ids) ensures t.0 == id {
      OwnedByHas(now, id, t.1);
      assert t == (t.0, t.1);
    }
    assert OwnedBy(now, id) - Ids(ids) == {};
  }

  // ---- every run ----------------------------------------------------------------------

  /** A committed request, or an edit of a page by the rest of the system. */
  datatype Op =
    | DoDeclare(declaration: Declaration, who: Principal, automation: bool, newId: ArtifactId)
    | DoReconcile(id: ArtifactId, expected: nat, ids: seq<PageId>, paths: seq<string>, generatorVersion: string, who: Principal)
    | DoHandoff(id: ArtifactId, expected: nat, successor: Successor, who: Principal, newId: ArtifactId)
    | DoRetire(id: ArtifactId, expected: nat, who: Principal)
    | DoReassign(id: ArtifactId, expected: nat, to: Principal, account: Option<Account>)
    | EditPage(page: PageId, path: string, archived: bool)
    | AddPage(page: PageId, path: string, generated: bool)

  /** Identifiers are fresh, and the request models have validated the lists. */
  predicate Proper(db: Db, op: Op) {
    match op
    case DoDeclare(_, _, _, newId) => newId !in db.artifacts
    case DoReconcile(_, _, ids, paths, _, _) => ExactSet(ids, paths)
    case DoHandoff(_, _, s, _, newId) => newId !in db.artifacts && ExactSet(s.ids, s.paths)
    case AddPage(page, _, _) => page !in db.pages
    case _ => true
  }

  /** The tables after the operation; a refused request rolls back. */
  function After(db: Db, op: Op): Db
    requires Proper(db, op)
  {
    match op
    case DoDeclare(d, who, automation, newId) => Kept(db, Declare(db, d, who, automation, newId))
    case DoReconcile(id, expected, ids, paths, generatorVersion, who) =>
      (match Reconcile(db, id, expected, ids, paths, generatorVersion, who) case Ok(r) => r.db case Err(_) => db)
    case DoHandoff(id, expected, s, who, newId) => Kept(db, Handoff(db, id, expected, s, who, newId))
    case DoRetire(id, expected, who) => Kept(db, Retire(db, id, expected, who))
    case DoReassign(id, expected, to, account) => Kept(db, Reassign(db, id, expected, to, account))
    case EditPage(page, path, archived) =>
      if page in db.pages then db.(pages := db.pages[page := Page(path, archived, db.pages[page].generated)]) else db
    case AddPage(page, path, generated) => db.(pages := db.pages[page := Page(path, false, generated)])
  }

  function Kept(db: Db, r: Result<Db, Refusal>): Db { if r.Ok? then r.value else db }

  /** A run of operations, each proper where it is made. */
  ghost predicate Run(states: seq<Db>, ops: seq<Op>) {
    && |states| == |ops| + 1
    && forall i :: 0 <= i < |ops| ==> Step(states[i], ops[i], states[i + 1])
  }

  predicate Step(was: Db, op: Op, now: Db) { Proper(was, op) && now == After(was, op) }

  lemma {:induction false} StepKeeps(db: Db, op: Op)
    requires Sound(db) && Proper(db, op)
    ensures Sound(After(db, op)) && Grows(db, After(db, op))
    ensures op.DoDeclare? || KeepsProtection(db, After(db, op))
  {
    match op
    case DoDeclare(d, who, automation, newId) => if Declare(db, d, who, automation, newId).Ok? { DeclareSound(db, d, who, automation, newId); }
    case DoReconcile(id, expected, ids, paths, generatorVersion, who) =>
      if Reconcile(db, id, expected, ids, paths, generatorVersion, who).Ok? {
        ReconcileSound(db, id, expected, ids, paths, generatorVersion, who);
        ReconcileReaches(db, id, expected, ids, paths, generatorVersion, who);
      }
    case DoHandoff(id, expected, s, who, newId) =>
      if Handoff(db, id, expected, s, who, newId).Ok? {
        HandoffSound(db, id, expected, s, who, newId);
        HandoffReaches(db, id, expected, s, who, newId);
      }
    case DoRetire(id, expected, who) => if Retire(db, id, expected, who).Ok? { RetireSound(db, id, expected, who); }
    case DoReassign(id, expected, to, account) => if Reassign(db, id, expected, to, account).Ok? { ReassignSound(db, id, expected, to, account); }
    case EditPage(_, _, _) =>
    case AddPage(_, _, _) =>
  }

  /** Over every run the invariant holds in every state, nothing disappears and versions never decrease. */
  lemma {:induction false} RunKeeps(states: seq<Db>, ops: seq<Op>, i: nat, j: nat)
    requires Run(states, ops) && Sound(states[0]) && i <= j < |states|
    ensures Sound(states[i]) && Sound(states[j]) && Grows(states[i], states[j])
    decreases j
  {
    hide Sound, After, Proper;
    if j > 0 {
      RunKeeps(states, ops, if i < j then i else j - 1, j - 1);
      assert Step(states[j - 1], ops[j - 1], states[j - 1 + 1]);
      StepKeeps(states[j - 1], ops[j - 1]);
    }
  }
}
