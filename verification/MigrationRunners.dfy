/** Any number of migration runners against one database, step by step, in any interleaving. */
module MigrationRunners {
  import opened Text
  import opened MigrationHistory

  /** Where a runner stands; `next` counts the pending migrations it has dealt with. */
  datatype Phase = Starting | Ready(next: nat) | Locked(next: nat) | Absent(next: nat) | Executed(next: nat) | Finished | Failed

  /** A process with the migrations of its image and those it found pending. */
  datatype Runner = Runner(image: seq<Migration>, pending: seq<Migration>, phase: Phase)

  /**
   * The committed ledger, the migrations whose statements have taken effect, in
   * order, and who holds the transaction-level advisory lock.
   */
  datatype System = System(ledger: Ledger, effects: seq<Migration>, lock: Option<nat>, runners: seq<Runner>)

  // ---- the steps -----------------------------------------------------------------------

  /** `[migration for migration in migrations if migration.ordinal not in history]`. */
  function Pending(ms: seq<Migration>, ledger: Ledger): seq<Migration> {
    if ms == [] then [] else (if ms[0].ordinal in ledger then [] else [ms[0]]) + Pending(ms[1..], ledger)
  }

  /** Read the ledger, without the lock, check it and list what is pending. */
  predicate Start(s: System, t: System, i: nat)
    requires i < |s.runners| && Contiguous(s.runners[i].image)
  {
    var r := s.runners[i];
    && r.phase.Starting?
    && t == s.(runners := s.runners[i := if Accepts(r.image, s.ledger) then r.(pending := Pending(r.image, s.ledger), phase := Ready(0)) else r.(phase := Failed)])
  }

  function Moved(s: System, i: nat, phase: Phase): seq<Runner>
    requires i < |s.runners|
  {
    s.runners[i := s.runners[i].(phase := phase)]
  }

  /** Open a transaction and wait for the lock. */
  predicate Lock(s: System, t: System, i: nat)
    requires i < |s.runners|
  {
    var r := s.runners[i];
    r.phase.Ready? && r.phase.next < |r.pending| && s.lock.None? && t == s.(lock := Some(i), runners := Moved(s, i, Locked(r.phase.next)))
  }

  /** Read the migration's row under the lock: none, one by another runner, or a different one. */
  predicate Look(s: System, t: System, i: nat)
    requires i < |s.runners|
  {
    var r := s.runners[i];
    && r.phase.Locked? && r.phase.next < |r.pending|
    && var m := r.pending[r.phase.next];
       if m.ordinal !in s.ledger then t == s.(runners := Moved(s, i, Absent(r.phase.next)))
       else
         var after := if s.ledger[m.ordinal] == RecordOf(m) then Ready(r.phase.next + 1) else Failed;
         t == s.(lock := Option.None, runners := Moved(s, i, after))
  }

  /** Run the migration's statements; nobody else sees them yet. */
  predicate Execute(s: System, t: System, i: nat)
    requires i < |s.runners|
  {
    s.runners[i].phase.Absent? && t == s.(runners := Moved(s, i, Executed(s.runners[i].phase.next)))
  }

  /** Insert the row and commit: statements and row become visible together. */
  predicate Commit(s: System, t: System, i: nat)
    requires i < |s.runners|
  {
    var r := s.runners[i];
    && r.phase.Executed? && r.phase.next < |r.pending|
    && var m := r.pending[r.phase.next];
       m.ordinal !in s.ledger
       && t == System(s.ledger[m.ordinal := RecordOf(m)], s.effects + [m], Option.None, Moved(s, i, Ready(r.phase.next + 1)))
  }

  predicate Finish(s: System, t: System, i: nat)
    requires i < |s.runners|
  {
    var r := s.runners[i];
    r.phase.Ready? && r.phase.next >= |r.pending| && t == s.(runners := Moved(s, i, Finished))
  }

  predicate Holds(phase: Phase) { phase.Locked? || phase.Absent? || phase.Executed? }

  /** At any point a statement can fail or the process die: the transaction rolls back. */
  predicate Fail(s: System, t: System, i: nat)
    requires i < |s.runners|
  {
    var r := s.runners[i];
    !r.phase.Finished? && t == s.(lock := if Holds(r.phase) then Option.None else s.lock, runners := Moved(s, i, Failed))
  }

  predicate StepOf(s: System, t: System, i: nat)
    requires i < |s.runners| && Contiguous(s.runners[i].image)
  {
    Start(s, t, i) || Lock(s, t, i) || Look(s, t, i) || Execute(s, t, i) || Commit(s, t, i) || Finish(s, t, i) || Fail(s, t, i)
  }

  ghost predicate Step(s: System, t: System) {
    exists i :: 0 <= i < |s.runners| && Contiguous(s.runners[i].image) && StepOf(s, t, i)
  }

  // ---- the invariant -------------------------------------------------------------------

  /** The ledger is a gap-free run from `first`, and each row is the migration that took effect there. */
  ghost predicate Orderly(ledger: Ledger, effects: seq<Migration>, first: nat) {
    && (forall k :: 0 <= k < |effects| ==> effects[k].ordinal == first + k)
    && (forall o :: o in ledger <==> first <= o < first + |effects|)
    && (forall k :: 0 <= k < |effects| ==> ledger[first + k] == RecordOf(effects[k]))
  }

  ghost predicate Recorded(s: System, first: nat) { Orderly(s.ledger, s.effects, first) }

  /** No row is lost or rewritten. */
  predicate Extends(was: Ledger, now: Ledger) { forall o :: o in was ==> o in now && now[o] == was[o] }

  lemma {:induction false} ExtendsItself(ledger: Ledger)
    ensures Extends(ledger, ledger)
  {}

  /** The first `n` migrations of an image are recorded as the image has them. */
  ghost predicate HasFirst(ledger: Ledger, image: seq<Migration>, n: int) {
    forall k :: 0 <= k < n && k < |image| ==> image[k].ordinal in ledger && ledger[image[k].ordinal] == RecordOf(image[k])
  }

  function Dealt(r: Runner): int {
    match r.phase
    case Ready(next) => |r.image| - |r.pending| + next
    case Locked(next) => |r.image| - |r.pending| + next
    case Absent(next) => |r.image| - |r.pending| + next
    case Executed(next) => |r.image| - |r.pending| + next
    case Finished => |r.image|
    case _ => 0
  }

  /** What is pending is the end of the image. */
  predicate IsRest(r: Runner) { |r.pending| <= |r.image| && r.pending == r.image[|r.image| - |r.pending|..] }

  /** One runner is where the ledger allows it to be. */
  ghost predicate RunnerOk(s: System, first: nat, i: nat)
    requires i < |s.runners|
  {
    var r := s.runners[i];
    && Contiguous(r.image) && r.image[0].ordinal == first
    && (!r.phase.Starting? && !r.phase.Failed? ==> IsRest(r) && HasFirst(s.ledger, r.image, Dealt(r)))
    && (r.phase.Ready? ==> r.phase.next <= |r.pending|)
    && (Holds(r.phase) ==> s.lock == Some(i) && r.phase.next < |r.pending|)
    && (r.phase.Absent? || r.phase.Executed? ==> r.pending[r.phase.next].ordinal !in s.ledger)
  }

  ghost predicate Inv(s: System, first: nat) {
    && Recorded(s, first)
    && (forall i :: 0 <= i < |s.runners| ==> RunnerOk(s, first, i))
    && (s.lock.Some? ==> s.lock.value < |s.runners| && Holds(s.runners[s.lock.value].phase))
  }

  // ---- every step keeps it ---------------------------------------------------------------

  /** Against a gap-free ledger from the same first ordinal, what is pending is the rest of the image. */
  lemma {:induction false} PendingIsRest(ms: seq<Migration>, ledger: Ledger, first: nat, top: nat)
    requires forall k :: 0 <= k < |ms| ==> ms[k].ordinal == first + k
    requires forall o :: o in ledger && o >= first ==> o < top
    requires forall o :: first <= o < top ==> o in ledger
    ensures var n := if top <= first then 0 else if top - first < |ms| then top - first else |ms|;
            Pending(ms, ledger) == ms[n..]
  {
    if ms != [] {
      assert forall k :: 0 <= k < |ms[1..]| ==> ms[1..][k] == ms[k + 1];
      PendingIsRest(ms[1..], ledger, first + 1, top);
    }
  }

  lemma {:induction false} StartsOk(s: System, first: nat, i: nat)
    requires Recorded(s, first) && i < |s.runners|
    requires var r := s.runners[i]; Contiguous(r.image) && r.image[0].ordinal == first && Accepts(r.image, s.ledger)
    ensures var image, pending := s.runners[i].image, Pending(s.runners[i].image, s.ledger);
            && |pending| <= |image| && pending == image[|image| - |pending|..]
            && HasFirst(s.ledger, image, |image| - |pending|)
  {
    var image := s.runners[i].image;
    PendingIsRest(image, s.ledger, first, first + |s.effects|);
    assert forall k :: 0 <= k < |image| ==> Agrees(s.ledger, image[k]);
  }

  /** Runners that are not at work on a transaction do not mind a longer ledger. */
  lemma {:induction false} OthersOk(s: System, t: System, first: nat, i: nat, j: nat)
    requires Inv(s, first) && i < |s.runners| == |t.runners| && j < |s.runners| && j != i
    requires t.runners[j] == s.runners[j]
    requires t.ledger == s.ledger || s.lock == Some(i)
    requires forall o :: o in s.ledger ==> o in t.ledger && t.ledger[o] == s.ledger[o]
    requires t.lock == s.lock || s.lock == Some(i) || s.lock.None?
    ensures RunnerOk(t, first, j)
  {
    assert RunnerOk(s, first, j);
  }

  /** What a step of runner `i` may change. */
  ghost predicate Changes(s: System, t: System, i: nat)
    requires i < |s.runners|
  {
    && |t.runners| == |s.runners|
    && (t.ledger == s.ledger || s.lock == Some(i)) && (t.lock == s.lock || s.lock == Some(i) || s.lock.None?)
    && Extends(s.ledger, t.ledger) && s.effects <= t.effects
    && (t.lock.Some? ==> (t.lock == Some(i) && Holds(t.runners[i].phase)) || (t.lock == s.lock && s.lock != Some(i)))
    && (forall j :: 0 <= j < |s.runners| && j != i ==> t.runners[j] == s.runners[j])
  }

  lemma {:induction false} StepChanges(s: System, t: System, i: nat)
    requires i < |s.runners| && Contiguous(s.runners[i].image) && StepOf(s, t, i) && (s.lock == Some(i) <==> Holds(s.runners[i].phase))
    ensures Changes(s, t, i)
  {
    hide Accepts, Pending, Contiguous, RecordOf;
  }

  lemma {:induction false} StartKeeps(s: System, t: System, first: nat, i: nat)
    requires Recorded(s, first) && i < |s.runners| && RunnerOk(s, first, i) && Start(s, t, i)
    ensures Recorded(t, first) && RunnerOk(t, first, i)
  {
    if Accepts(s.runners[i].image, s.ledger) { StartsOk(s, first, i); }
    hide Accepts, Pending, Contiguous;
  }

  /** One more migration of the image is recorded. */
  lemma {:induction false} OneMore(was: Ledger, ledger: Ledger, image: seq<Migration>, d: nat)
    requires HasFirst(was, image, d) && Extends(was, ledger)
    requires d < |image| && image[d].ordinal in ledger && ledger[image[d].ordinal] == RecordOf(image[d])
    ensures HasFirst(ledger, image, d + 1)
  {
    hide RecordOf;
  }

  /** The runner goes on to the next migration, the one before being recorded. */
  lemma {:induction false} NextKeeps(s: System, t: System, first: nat, i: nat)
    requires i < |s.runners| && RunnerOk(s, first, i) && Holds(s.runners[i].phase)
    requires t.runners == Moved(s, i, Ready(s.runners[i].phase.next + 1))
    requires HasFirst(t.ledger, s.runners[i].image, Dealt(s.runners[i]) + 1)
    ensures RunnerOk(t, first, i)
  {
    hide Contiguous, RecordOf, HasFirst, IsRest;
    SameRest(s.runners[i], t.runners[i]);
    assert Dealt(t.runners[i]) == Dealt(s.runners[i]) + 1;
  }

  lemma {:induction false} LookKeeps(s: System, t: System, first: nat, i: nat)
    requires Recorded(s, first) && i < |s.runners| && RunnerOk(s, first, i) && Look(s, t, i)
    ensures Recorded(t, first) && RunnerOk(t, first, i)
  {
    var r := s.runners[i];
    var m := r.pending[r.phase.next];
    hide Contiguous, HasFirst, IsRest, RecordOf, Recorded, Orderly, RunnerOk, Dealt;
    if m.ordinal !in s.ledger {
      LookFindsNone(s, t, first, i);
    } else {
      LookFound(s, t, first);
      if s.ledger[m.ordinal] == RecordOf(m) { LookFindsOwn(s, t, first, i); } else { FailedOk(s, t, first, i); }
    }
  }

  lemma {:induction false} LookFindsNone(s: System, t: System, first: nat, i: nat)
    requires Recorded(s, first) && i < |s.runners| && RunnerOk(s, first, i) && s.runners[i].phase.Locked?
    requires s.runners[i].pending[s.runners[i].phase.next].ordinal !in s.ledger && t == s.(runners := Moved(s, i, Absent(s.runners[i].phase.next)))
    ensures Recorded(t, first) && RunnerOk(t, first, i)
  {
    hide Contiguous, HasFirst, IsRest, RecordOf, Recorded, Orderly;
    PhaseKeeps(s, t, first, i, Absent(s.runners[i].phase.next));
  }

  lemma {:induction false} LookFindsOwn(s: System, t: System, first: nat, i: nat)
    requires i < |s.runners| && RunnerOk(s, first, i) && s.runners[i].phase.Locked? && s.runners[i].phase.next < |s.runners[i].pending|
    requires var m := s.runners[i].pending[s.runners[i].phase.next]; m.ordinal in s.ledger && s.ledger[m.ordinal] == RecordOf(m)
    requires t.ledger == s.ledger && t.runners == Moved(s, i, Ready(s.runners[i].phase.next + 1))
    ensures RunnerOk(t, first, i)
  {
    NextIs(s, first, i);
    ExtendsItself(s.ledger);
    hide Contiguous, HasFirst, IsRest, RecordOf, RunnerOk, Dealt;
    OneMore(s.ledger, s.ledger, s.runners[i].image, Dealt(s.runners[i]));
    NextKeeps(s, t, first, i);
  }

  lemma {:induction false} FailedOk(s: System, t: System, first: nat, i: nat)
    requires i < |s.runners| && RunnerOk(s, first, i) && t.runners == Moved(s, i, Failed)
    ensures RunnerOk(t, first, i)
  {
    hide HasFirst, IsRest, Contiguous;
  }

  lemma {:induction false} LookFound(s: System, t: System, first: nat)
    requires Recorded(s, first) && t.ledger == s.ledger && t.effects == s.effects
    ensures Recorded(t, first)
  {}

  lemma {:induction false} SameRest(r: Runner, q: Runner)
    requires r.image == q.image && r.pending == q.pending && IsRest(r)
    ensures IsRest(q)
  {}

  /** Only the phase of runner `i` changes, and it has dealt with as much as before. */
  lemma {:induction false} PhaseKeeps(s: System, t: System, first: nat, i: nat, phase: Phase)
    requires Recorded(s, first) && i < |s.runners| && RunnerOk(s, first, i)
    requires t.ledger == s.ledger && t.effects == s.effects && t.runners == Moved(s, i, phase)
    requires !s.runners[i].phase.Starting? && !s.runners[i].phase.Failed? && !phase.Starting? && !phase.Failed? && !phase.Ready?
    requires Dealt(t.runners[i]) == Dealt(s.runners[i])
    requires Holds(phase) ==> t.lock == Some(i) && phase.next < |s.runners[i].pending|
    requires phase.Absent? || phase.Executed? ==> s.runners[i].pending[phase.next].ordinal !in s.ledger
    ensures Recorded(t, first) && RunnerOk(t, first, i)
  {
    hide Contiguous, RecordOf, HasFirst, IsRest, Dealt;
    SameRest(s.runners[i], t.runners[i]);
  }

  lemma {:induction false} FailKeeps(s: System, t: System, first: nat, i: nat)
    requires Recorded(s, first) && i < |s.runners| && RunnerOk(s, first, i) && Fail(s, t, i)
    ensures Recorded(t, first) && RunnerOk(t, first, i)
  {
    hide Contiguous, RecordOf, HasFirst, IsRest, Dealt;
  }

  lemma {:induction false} SmallStepKeeps(s: System, t: System, first: nat, i: nat)
    requires Recorded(s, first) && i < |s.runners| && RunnerOk(s, first, i)
    requires Lock(s, t, i) || Execute(s, t, i) || Finish(s, t, i)
    ensures Recorded(t, first) && RunnerOk(t, first, i)
  {
    hide Contiguous, RecordOf, HasFirst, IsRest, Recorded;
    PhaseKeeps(s, t, first, i, t.runners[i].phase);
  }

  lemma {:induction false} OwnStep(s: System, t: System, first: nat, i: nat)
    requires Inv(s, first) && i < |s.runners| && Contiguous(s.runners[i].image) && StepOf(s, t, i)
    ensures Recorded(t, first) && RunnerOk(t, first, i) && Changes(s, t, i)
  {
    assert RunnerOk(s, first, i) && (s.lock == Some(i) <==> Holds(s.runners[i].phase));
    StepChanges(s, t, i);
    hide Recorded, RunnerOk, Changes, Start, Look, Lock, Execute, Finish, Fail, Commit, Contiguous;
    if Start(s, t, i) {
      StartKeeps(s, t, first, i);
    } else if Look(s, t, i) {
      LookKeeps(s, t, first, i);
    } else if Commit(s, t, i) {
      CommitsNext(s, t, first, i);
      CommitKeeps(s, t, first, i);
    } else if Fail(s, t, i) {
      FailKeeps(s, t, first, i);
    } else {
      SmallStepKeeps(s, t, first, i);
    }
  }

  /** The pending migration a runner has reached is the next of its image. */
  lemma {:induction false} NextIs(s: System, first: nat, i: nat)
    requires i < |s.runners| && RunnerOk(s, first, i) && Holds(s.runners[i].phase)
    ensures var r := s.runners[i];
            && 0 <= Dealt(r) < |r.image| && r.pending[r.phase.next] == r.image[Dealt(r)] && r.image[Dealt(r)].ordinal == first + Dealt(r)
  {}

  /** A migration is committed exactly where the ledger ends. */
  lemma {:induction false} CommitsNext(s: System, t: System, first: nat, i: nat)
    requires Recorded(s, first) && i < |s.runners| && RunnerOk(s, first, i) && Commit(s, t, i)
    ensures Dealt(s.runners[i]) == |s.effects|
    ensures s.runners[i].pending[s.runners[i].phase.next].ordinal == first + |s.effects|
  {
    var r := s.runners[i];
    NextIs(s, first, i);
    var d := Dealt(r);
    if d > 0 {
      assert r.image[d - 1].ordinal in s.ledger;
      assert r.image[d - 1].ordinal == first + d - 1;
    }
  }

  lemma {:induction false} CommitKeeps(s: System, t: System, first: nat, i: nat)
    requires Recorded(s, first) && i < |s.runners| && RunnerOk(s, first, i) && Commit(s, t, i)
    requires s.runners[i].pending[s.runners[i].phase.next].ordinal == first + |s.effects|
    ensures Recorded(t, first) && RunnerOk(t, first, i)
  {
    CommitRecorded(s, t, first, i);
    NextIs(s, first, i);
    NotYet(s, t, first, i);
    OneMore(s.ledger, t.ledger, s.runners[i].image, Dealt(s.runners[i]));
    hide Recorded, Contiguous, HasFirst, IsRest, RecordOf, RunnerOk;
    NextKeeps(s, t, first, i);
  }

  lemma {:induction false} NotYet(s: System, t: System, first: nat, i: nat)
    requires i < |s.runners| && Commit(s, t, i)
    ensures Extends(s.ledger, t.ledger)
  {}

  lemma {:induction false} CommitRecorded(s: System, t: System, first: nat, i: nat)
    requires Recorded(s, first) && i < |s.runners| && Commit(s, t, i)
    requires s.runners[i].pending[s.runners[i].phase.next].ordinal == first + |s.effects|
    ensures Recorded(t, first)
  {}

  /** No step of any runner breaks the invariant, rewrites a row or undoes an effect. */
  lemma {:induction false} StepKeeps(s: System, t: System, first: nat)
    requires Inv(s, first) && Step(s, t)
    ensures Inv(t, first) && s.effects <= t.effects
    ensures forall o :: o in s.ledger ==> o in t.ledger && t.ledger[o] == s.ledger[o]
  {
    var i :| 0 <= i < |s.runners| && Contiguous(s.runners[i].image) && StepOf(s, t, i);
    hide StepOf, Recorded;
    OwnStep(s, t, first, i);
    forall j | 0 <= j < |t.runners| ensures RunnerOk(t, first, j) {
      hide RunnerOk;
      if j != i { OthersOk(s, t, first, i, j); }
    }
  }

  // ---- every run ---------------------------------------------------------------------------

  ghost predicate Run(states: seq<System>) { |states| > 0 && forall k :: 0 < k < |states| ==> Step(states[k - 1], states[k]) }

  /** Runners that have not started, over a ledger that an earlier run may have left. */
  ghost predicate Initial(s: System, first: nat) {
    && Recorded(s, first) && s.lock.None?
    && forall i :: 0 <= i < |s.runners| ==>
         s.runners[i].phase.Starting? && Contiguous(s.runners[i].image) && s.runners[i].image[0].ordinal == first
  }

  /**
   * In any interleaving of any number of runners from images with one first
   * ordinal, able to fail anywhere, the ledger stays a gap-free run, no row is
   * rewritten, and the migrations take effect once each and in ordinal order.
   */
  lemma {:induction false} RunsAreOrderly(states: seq<System>, first: nat, i: nat, j: nat)
    requires Run(states) && Initial(states[0], first) && i <= j < |states|
    ensures Inv(states[i], first) && Inv(states[j], first)
    ensures states[i].effects <= states[j].effects
    ensures forall o :: o in states[i].ledger ==> o in states[j].ledger && states[j].ledger[o] == states[i].ledger[o]
    decreases j
  {
    if j == 0 {
      assert Inv(states[0], first);
    } else {
      RunsAreOrderly(states, first, if i < j then i else j - 1, j - 1);
      hide Inv;
      assert Step(states[j - 1], states[j]);
      StepKeeps(states[j - 1], states[j], first);
    }
  }

  /** A runner that finishes finds every migration of its image recorded as it has it, and still does later. */
  lemma {:induction false} FinishedIsRecorded(states: seq<System>, first: nat, i: nat, j: nat, r: nat)
    requires Run(states) && Initial(states[0], first) && i <= j < |states|
    requires r < |states[i].runners| && states[i].runners[r].phase.Finished?
    ensures HasFirst(states[j].ledger, states[i].runners[r].image, |states[i].runners[r].image|)
  {
    RunsAreOrderly(states, first, i, j);
    assert RunnerOk(states[i], first, r);
  }

  /** A gap-free ledger from the image's own first ordinal can only be refused for drift. */
  lemma {:induction false} RefusedForDriftOnly(s: System, first: nat, image: seq<Migration>)
    requires Recorded(s, first) && Contiguous(image) && image[0].ordinal == first
    ensures !Accepts(image, s.ledger) <==>
            exists o :: o in s.ledger && first <= o < first + |image| && s.ledger[o] != RecordOf(image[o - first])
  {
    if !Accepts(image, s.ledger) {
      var k :| 0 <= k < |image| && !Agrees(s.ledger, image[k]);
      assert s.ledger[first + k] != RecordOf(image[first + k - first]);
    }
    if o :| o in s.ledger && first <= o < first + |image| && s.ledger[o] != RecordOf(image[o - first]) {
      assert !Agrees(s.ledger, image[o - first]);
    }
  }

  // ---- one runner's own loop -----------------------------------------------------------------

  /** What other runners commit before transaction `i`. */
  function Between(others: seq<seq<Migration>>, i: nat): (ms: seq<Migration>)
    ensures Alone(others) ==> ms == []
  {
    if i < |others| then others[i] else []
  }

  predicate Alone(others: seq<seq<Migration>>) { forall k :: 0 <= k < |others| ==> others[k] == [] }

  class Database {
    var ledger: Ledger
    var effects: seq<Migration>

    constructor ()
      ensures ledger == map[] && effects == []
    {
      ledger, effects := map[], [];
    }

    /** The insert and the statements of one migration become visible together. */
    method Record(m: Migration, ghost first: nat)
      requires Orderly(ledger, effects, first) && m.ordinal == first + |effects|
      modifies this
      ensures Orderly(ledger, effects, first) && Extends(old(ledger), ledger)
      ensures ledger == old(ledger)[m.ordinal := RecordOf(m)] && effects == old(effects) + [m]
    {
      ledger, effects := ledger[m.ordinal := RecordOf(m)], effects + [m];
    }

    /** What other runners commit between two of this runner's transactions. */
    method Meanwhile(others: seq<Migration>, first: nat)
      requires Orderly(ledger, effects, first)
      modifies this
      ensures Orderly(ledger, effects, first) && Extends(old(ledger), ledger) && old(effects) <= effects
      ensures others == [] ==> effects == old(effects)
    {
      for i := 0 to |others|
        invariant Orderly(ledger, effects, first) && Extends(old(ledger), ledger) && old(effects) <= effects
        invariant others == [] ==> effects == old(effects)
      {
        if others[i].ordinal == first + |effects| {
          Record(others[i], first);
        }
      }
    }

    /** One transaction of `apply_pending`: the row exists already, or its statements run or fail. */
    method ApplyOne(m: Migration, ghost ms: seq<Migration>, ghost n: nat) returns (r: Result<bool, Problem>)
      requires Contiguous(ms) && n < |ms| && m == ms[n] && Orderly(ledger, effects, ms[0].ordinal) && HasFirst(ledger, ms, n)
      modifies this
      ensures Orderly(ledger, effects, ms[0].ordinal) && Extends(old(ledger), ledger)
      ensures effects == if r == Ok(true) then old(effects) + [m] else old(effects)
      ensures r.Ok? ==> HasFirst(ledger, ms, n + 1)
      ensures r.Err? ==> Stops(ledger, m, r.error) && ledger == old(ledger)
    {
      if m.ordinal in ledger {
        if ledger[m.ordinal] != RecordOf(m) {
          return Err(AppliedDifferently(m.ordinal));
        }
        return Ok(false);
      }
      if * {
        return Err(StatementFailed(m.ordinal));
      }
      EndsHere(ledger, effects, ms, n);
      Record(m, ms[0].ordinal);
      return Ok(true);
    }

    /** The next transaction, after what others commit before it; `gained` is what has taken effect since. */
    method ApplyNext(m: Migration, others: seq<Migration>, ms: seq<Migration>, ghost n: nat)
      returns (r: Result<bool, Problem>, ghost theirs: seq<Migration>)
      requires Contiguous(ms) && n < |ms| && m == ms[n] && Orderly(ledger, effects, ms[0].ordinal) && HasFirst(ledger, ms, n)
      modifies this
      ensures Orderly(ledger, effects, ms[0].ordinal) && Extends(old(ledger), ledger)
      ensures effects == old(effects) + (if r == Ok(true) then theirs + [m] else theirs)
      ensures others == [] ==> theirs == []
      ensures r.Ok? ==> HasFirst(ledger, ms, n + 1)
      ensures r.Err? ==> Stops(ledger, m, r.error)
    {
      ghost var start, before := ledger, effects;
      hide Orderly, Extends, HasFirst, Contiguous, Stops;
      Meanwhile(others, ms[0].ordinal);
      ghost var was := ledger;
      HasStill(start, was, ms, n);
      theirs := effects[|before|..];
      r := ApplyOne(m, ms, n);
      ExtendsOn(start, was, ledger);
    }

    /** The transactions of the migrations found pending, one after the other. */
    method ApplyAll(ms: seq<Migration>, pending: seq<Migration>, others: seq<seq<Migration>>) returns (r: Result<seq<string>, Problem>)
      requires Contiguous(ms) && |pending| <= |ms| && pending == ms[|ms| - |pending|..]
      requires Orderly(ledger, effects, ms[0].ordinal) && HasFirst(ledger, ms, |ms| - |pending|)
      modifies this
      ensures Orderly(ledger, effects, ms[0].ordinal) && Extends(old(ledger), ledger) && old(effects) <= effects
      ensures r.Ok? ==> HasFirst(ledger, ms, |ms|) && IsReport(r.value, old(effects), effects, Alone(others))
      ensures r.Err? ==> exists m :: m in ms && Stops(ledger, m, r.error)
    {
      var names: seq<string>, i := [], 0;
      ghost var n: nat, alone := |ms| - |pending|, Alone(others);
      ghost var start, before := ledger, effects;
      NothingYet(before, alone);
      ExtendsItself(ledger);
      hide Orderly, Extends, HasFirst, Contiguous, IsReport, Stops, Alone, Between;
      while i < |pending|
        invariant 0 <= i <= |pending| && n == |ms| - |pending| + i
        invariant Orderly(ledger, effects, ms[0].ordinal) && Extends(start, ledger) && HasFirst(ledger, ms, n)
        invariant before <= effects && IsReport(names, before, effects, alone)
      {
        ghost var was, had := ledger, effects;
        ghost var theirs;
        var m := pending[i];
        var applied;
        var between := Between(others, i);
        applied, theirs := ApplyNext(m, between, ms, n);
        ExtendsOn(start, was, ledger);
        ReportNext(names, before, had, effects, alone, theirs, m);
        if applied.Err? {
          assert m in ms;
          return Err(applied.error);
        }
        if applied.value {
          names := names + [m.filename];
        }
        i, n := i + 1, n + 1;
      }
      return Ok(names);
    }

    /**
     * `apply_pending`. Other runners commit whatever `others` says before each
     * of its transactions, and its own statements may fail.
     */
    method ApplyPending(ms: seq<Migration>, others: seq<seq<Migration>>) returns (r: Result<seq<string>, Problem>)
      requires Contiguous(ms) && Orderly(ledger, effects, ms[0].ordinal)
      modifies this
      ensures Orderly(ledger, effects, ms[0].ordinal) && Extends(old(ledger), ledger) && old(effects) <= effects
      ensures r.Ok? ==> HasFirst(ledger, ms, |ms|) && IsReport(r.value, old(effects), effects, Alone(others))
      ensures r.Err? ==> (RefusedFor(ms, old(ledger), r.error) && ledger == old(ledger)) || exists m :: m in ms && Stops(ledger, m, r.error)
      ensures !Accepts(ms, old(ledger)) ==> r.Err? && ledger == old(ledger)
    {
      ExtendsItself(ledger);
      var verified := VerifyHistory(ms, ledger);
      if verified.Err? {
        return Err(verified.error);
      }
      var pending := Pending(ms, ledger);
      RestOf(ledger, effects, ms);
      hide Orderly, Extends, HasFirst, Contiguous, Pending, Accepts, IsReport, RefusedFor, Stops;
      r := ApplyAll(ms, pending, others);
    }
  }

  /** Why a transaction is given up: its statements fail, or the row is another's. */
  predicate Stops(ledger: Ledger, m: Migration, p: Problem) {
    if m.ordinal in ledger
    then p == AppliedDifferently(m.ordinal) && (ledger[m.ordinal].filename != m.filename || ledger[m.ordinal].checksum != m.checksum)
    else p == StatementFailed(m.ordinal)
  }

  function Filenames(ms: seq<Migration>): seq<string> { seq(|ms|, k requires 0 <= k < |ms| => ms[k].filename) }

  /** The names are those of some of the migrations, in their order. */
  ghost predicate NamedAmong(names: seq<string>, ms: seq<Migration>) {
    exists at: seq<nat> :: |at| == |names| && Ascending(at) && forall k :: 0 <= k < |at| ==> at[k] < |ms| && names[k] == ms[at[k]].filename
  }

  /** The names of what took effect since: all of it, if no other runner was at work. */
  ghost predicate IsReport(names: seq<string>, before: seq<Migration>, now: seq<Migration>, alone: bool)
    requires before <= now
  {
    NamedAmong(names, now[|before|..]) && (alone ==> names == Filenames(now[|before|..]))
  }

  lemma {:induction false} NothingYet(before: seq<Migration>, alone: bool)
    ensures IsReport([], before, before, alone)
  {
    var at: seq<nat> := [];
    assert Ascending(at);
  }

  lemma {:induction false} ReportNext(names: seq<string>, before: seq<Migration>, had: seq<Migration>, now: seq<Migration>,
                                      alone: bool, theirs: seq<Migration>, m: Migration)
    requires before <= had <= now && IsReport(names, before, had, alone) && (alone ==> theirs == [])
    ensures now == had + theirs ==> IsReport(names, before, now, alone)
    ensures now == had + (theirs + [m]) ==> IsReport(names + [m.filename], before, now, alone)
  {
    var own, with := had[|before|..], had[|before|..] + theirs;
    assert alone ==> with == own;
    hide NamedAmong, Filenames;
    NamedStill(names, own, with);
    if now == had + theirs { assert now[|before|..] == with; }
    if now == had + (theirs + [m]) {
      NamedNext(names, with, m);
      assert now[|before|..] == with + [m];
    }
  }

  lemma {:induction false} NamedStill(names: seq<string>, ms: seq<Migration>, more: seq<Migration>)
    requires NamedAmong(names, ms) && ms <= more
    ensures NamedAmong(names, more)
  {
    hide Ascending;
  }

  lemma {:induction false} NamedNext(names: seq<string>, ms: seq<Migration>, m: Migration)
    requires NamedAmong(names, ms)
    ensures NamedAmong(names + [m.filename], ms + [m]) && Filenames(ms + [m]) == Filenames(ms) + [m.filename]
  {
    var at: seq<nat> :| |at| == |names| && Ascending(at) && forall k :: 0 <= k < |at| ==> at[k] < |ms| && names[k] == ms[at[k]].filename;
    AddedLast(at, |ms|);
    hide Ascending;
    var next: seq<nat> := at + [|ms|];
    assert forall k :: 0 <= k < |next| ==> next[k] < |ms + [m]| && (names + [m.filename])[k] == (ms + [m])[next[k]].filename;
  }

  lemma {:induction false} ExtendsOn(a: Ledger, b: Ledger, c: Ledger)
    requires Extends(a, b) && Extends(b, c)
    ensures Extends(a, c)
  {}

  lemma {:induction false} HasStill(was: Ledger, now: Ledger, ms: seq<Migration>, n: nat)
    requires HasFirst(was, ms, n) && Extends(was, now)
    ensures HasFirst(now, ms, n)
  {}

  lemma {:induction false} RestOf(ledger: Ledger, effects: seq<Migration>, ms: seq<Migration>)
    requires Contiguous(ms) && Orderly(ledger, effects, ms[0].ordinal) && Accepts(ms, ledger)
    ensures var p := Pending(ms, ledger); |p| <= |ms| && p == ms[|ms| - |p|..] && HasFirst(ledger, ms, |ms| - |p|)
  {
    var s := System(ledger, effects, Option.None, [Runner(ms, [], Starting)]);
    StartsOk(s, ms[0].ordinal, 0);
  }

  /** With everything before it recorded, a migration that is not recorded is the next. */
  lemma {:induction false} EndsHere(ledger: Ledger, effects: seq<Migration>, ms: seq<Migration>, n: nat)
    requires Contiguous(ms) && Orderly(ledger, effects, ms[0].ordinal) && n < |ms| && HasFirst(ledger, ms, n) && ms[n].ordinal !in ledger
    ensures ms[n].ordinal == ms[0].ordinal + |effects|
  {
    if n > 0 { assert ms[n - 1].ordinal in ledger; }
  }
}
