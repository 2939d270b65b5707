/** No migration runner is ever stuck: it can finish, whatever the others have done or left undone. */
module MigrationProgress {
  import opened Text
  import opened MigrationHistory
  import opened MigrationRunners

  /** The ledger has nothing that the image would refuse. */
  ghost predicate Agreeing(ledger: Ledger, image: seq<Migration>) { forall k :: 0 <= k < |image| ==> Agrees(ledger, image[k]) }

  /** How many steps of its own a runner has left at most. */
  function Left(r: Runner): int {
    match r.phase
    case Starting => 4 * |r.image| + 2
    case Ready(next) => 4 * (|r.pending| - next) + 1
    case Locked(next) => 4 * (|r.pending| - next)
    case Absent(next) => 4 * (|r.pending| - next) - 1
    case Executed(next) => 4 * (|r.pending| - next) - 2
    case _ => 0
  }

  predicate Working(r: Runner) { !r.phase.Finished? && !r.phase.Failed? }

  /** Runner `i` is at work, what is recorded agrees with its image, and nobody else has the lock. */
  ghost predicate Clear(s: System, first: nat, i: nat) {
    && Inv(s, first) && i < |s.runners| && !s.runners[i].phase.Failed?
    && Agreeing(s.ledger, s.runners[i].image) && (s.lock.None? || s.lock == Some(i))
  }

  /** A step of runner `i` that brings it nearer its end. */
  ghost predicate Nearer(s: System, t: System, first: nat, i: nat) {
    && Step(s, t) && Clear(t, first, i) && i < |s.runners| == |t.runners| && t.runners[i].image == s.runners[i].image
    && 0 <= Left(t.runners[i]) < Left(s.runners[i])
  }

  lemma {:induction false} AcceptsAgreeing(ledger: Ledger, effects: seq<Migration>, image: seq<Migration>, first: nat)
    requires Orderly(ledger, effects, first) && Contiguous(image) && image[0].ordinal == first && Agreeing(ledger, image)
    ensures Accepts(image, ledger)
  {
    hide Agrees;
  }

  lemma {:induction false} PendingShort(ms: seq<Migration>, ledger: Ledger)
    ensures |Pending(ms, ledger)| <= |ms|
  {
    if ms != [] { PendingShort(ms[1..], ledger); }
  }

  /** Runner `i` is `r` in `t`, and can still be brought to its end. */
  ghost predicate NowAt(s: System, t: System, i: nat, r: Runner) {
    && i < |s.runners| == |t.runners| && t.runners[i] == r && r.image == s.runners[i].image && !r.phase.Failed?
    && 0 <= Left(r) < Left(s.runners[i]) && (t.lock.None? || t.lock == Some(i)) && Agreeing(t.ledger, r.image)
  }

  lemma {:induction false} IsNearer(s: System, t: System, first: nat, i: nat, r: Runner)
    requires Clear(s, first, i) && Step(s, t) && NowAt(s, t, i, r)
    ensures Nearer(s, t, first, i)
  {
    hide Inv, Step, Agreeing, Left;
    StepKeeps(s, t, first);
  }

  lemma {:induction false} StepIs(s: System, t: System, i: nat)
    requires i < |s.runners| && Contiguous(s.runners[i].image)
    requires Start(s, t, i) || Lock(s, t, i) || Look(s, t, i) || Execute(s, t, i) || Commit(s, t, i) || Finish(s, t, i) || Fail(s, t, i)
    ensures Step(s, t)
  {
    hide Start, Lock, Look, Execute, Commit, Finish, Fail, Contiguous;
    assert StepOf(s, t, i);
  }

  /** Where a runner at work stands. */
  lemma {:induction false} StandsAt(s: System, first: nat, i: nat)
    requires Clear(s, first, i) && Working(s.runners[i])
    ensures Contiguous(s.runners[i].image) && s.runners[i].image[0].ordinal == first && Recorded(s, first)
    ensures var r := s.runners[i];
            && (r.phase.Ready? ==> r.phase.next <= |r.pending| && s.lock.None?)
            && (Holds(r.phase) ==> s.lock == Some(i) && r.phase.next < |r.pending|)
            && (r.phase.Absent? || r.phase.Executed? ==> r.pending[r.phase.next].ordinal !in s.ledger)
  {
    assert RunnerOk(s, first, i);
    hide Recorded, HasFirst, IsRest;
  }

  lemma {:induction false} Begins(s: System, first: nat, i: nat) returns (t: System)
    requires Clear(s, first, i) && s.runners[i].phase.Starting?
    ensures Nearer(s, t, first, i)
  {
    hide Inv, RunnerOk, Pending, Accepts, Contiguous, Agreeing, Nearer;
    StandsAt(s, first, i);
    var r := s.runners[i];
    AcceptsAgreeing(s.ledger, s.effects, r.image, first);
    PendingShort(r.image, s.ledger);
    var q := r.(pending := Pending(r.image, s.ledger), phase := Ready(0));
    t := s.(runners := s.runners[i := q]);
    assert Start(s, t, i);
    hide Start;
    StepIs(s, t, i);
    IsNearer(s, t, first, i, q);
  }

  lemma {:induction false} TakesNext(s: System, first: nat, i: nat) returns (t: System)
    requires Clear(s, first, i) && s.runners[i].phase.Ready?
    ensures Nearer(s, t, first, i)
  {
    hide Inv, RunnerOk, Contiguous, Agreeing, Nearer;
    StandsAt(s, first, i);
    var r := s.runners[i];
    if r.phase.next < |r.pending| {
      t := s.(lock := Some(i), runners := Moved(s, i, Locked(r.phase.next)));
      assert Lock(s, t, i);
    } else {
      t := s.(runners := Moved(s, i, Finished));
      assert Finish(s, t, i);
    }
    hide Lock, Finish;
    StepIs(s, t, i);
    IsNearer(s, t, first, i, t.runners[i]);
  }

  lemma {:induction false} Looks(s: System, first: nat, i: nat) returns (t: System)
    requires Clear(s, first, i) && s.runners[i].phase.Locked?
    ensures Nearer(s, t, first, i)
  {
    hide Inv, RunnerOk, Contiguous, Agreeing, Nearer;
    StandsAt(s, first, i);
    NextAgrees(s, first, i);
    var r := s.runners[i];
    var m := r.pending[r.phase.next];
    if m.ordinal in s.ledger {
      t := s.(lock := Option.None, runners := Moved(s, i, Ready(r.phase.next + 1)));
    } else {
      t := s.(runners := Moved(s, i, Absent(r.phase.next)));
    }
    assert Look(s, t, i);
    hide Look;
    StepIs(s, t, i);
    IsNearer(s, t, first, i, t.runners[i]);
  }

  /** The next migration of a runner is one of its image. */
  lemma {:induction false} NextAgrees(s: System, first: nat, i: nat)
    requires Clear(s, first, i) && Holds(s.runners[i].phase) && s.runners[i].phase.next < |s.runners[i].pending|
    ensures var r := s.runners[i];
            var m := r.pending[r.phase.next];
            && Agrees(s.ledger, m) && 0 <= Dealt(r) < |r.image| && m == r.image[Dealt(r)]
            && forall k :: 0 <= k < |r.image| && k != Dealt(r) ==> r.image[k].ordinal != m.ordinal
  {
    assert RunnerOk(s, first, i);
    NextIs(s, first, i);
    hide Recorded, HasFirst;
  }

  lemma {:induction false} Executes(s: System, first: nat, i: nat) returns (t: System)
    requires Clear(s, first, i) && s.runners[i].phase.Absent?
    ensures Nearer(s, t, first, i)
  {
    hide Inv, RunnerOk, Contiguous, Agreeing, Nearer;
    StandsAt(s, first, i);
    t := s.(runners := Moved(s, i, Executed(s.runners[i].phase.next)));
    assert Execute(s, t, i);
    hide Execute;
    StepIs(s, t, i);
    IsNearer(s, t, first, i, t.runners[i]);
  }

  lemma {:induction false} Commits(s: System, first: nat, i: nat) returns (t: System)
    requires Clear(s, first, i) && s.runners[i].phase.Executed?
    ensures Nearer(s, t, first, i)
  {
    hide Inv, RunnerOk, Contiguous, Nearer, Agrees, Dealt, RecordOf;
    StandsAt(s, first, i);
    NextAgrees(s, first, i);
    var r := s.runners[i];
    var m := r.pending[r.phase.next];
    t := System(s.ledger[m.ordinal := RecordOf(m)], s.effects + [m], Option.None, Moved(s, i, Ready(r.phase.next + 1)));
    assert Commit(s, t, i);
    hide Commit;
    StepIs(s, t, i);
    AgreesStill(s.ledger, r.image, m);
    hide Agreeing;
    IsNearer(s, t, first, i, t.runners[i]);
  }

  lemma {:induction false} AgreesStill(ledger: Ledger, image: seq<Migration>, m: Migration)
    requires Agreeing(ledger, image) && forall k :: 0 <= k < |image| && image[k].ordinal == m.ordinal ==> image[k] == m
    ensures Agreeing(ledger[m.ordinal := RecordOf(m)], image)
  {
    assert forall k :: 0 <= k < |image| ==> Agrees(ledger, image[k]);
  }

  lemma {:induction false} GoOn(s: System, first: nat, i: nat) returns (t: System)
    requires Clear(s, first, i) && Working(s.runners[i])
    ensures Nearer(s, t, first, i)
  {
    hide Nearer, Inv, Agreeing;
    match s.runners[i].phase
    case Starting => t := Begins(s, first, i);
    case Ready(_) => t := TakesNext(s, first, i);
    case Locked(_) => t := Looks(s, first, i);
    case Absent(_) => t := Executes(s, first, i);
    case Executed(_) => t := Commits(s, first, i);
  }

  /** A run from `s` that brings runner `i` to its end. */
  ghost predicate Completes(states: seq<System>, s: System, i: nat) {
    && Run(states) && states[0] == s && i < |s.runners|
    && Ended(states[|states| - 1], s.runners[i].image, i)
  }

  ghost predicate Ended(s: System, image: seq<Migration>, i: nat) {
    i < |s.runners| && s.runners[i].phase.Finished? && s.runners[i].image == image && HasFirst(s.ledger, image, |image|)
  }

  lemma {:induction false} Finishes(s: System, first: nat, i: nat) returns (states: seq<System>)
    requires Clear(s, first, i)
    ensures Completes(states, s, i)
    decreases Left(s.runners[i])
  {
    if !Working(s.runners[i]) {
      assert RunnerOk(s, first, i);
      return [s];
    }
    var t := GoOn(s, first, i);
    var rest := Finishes(t, first, i);
    Prefixed(s, t, rest, i);
    states := [s] + rest;
  }

  lemma {:induction false} Prefixed(s: System, t: System, rest: seq<System>, i: nat)
    requires Step(s, t) && Completes(rest, t, i) && i < |s.runners| && s.runners[i].image == t.runners[i].image
    ensures Completes([s] + rest, s, i)
  {
    hide Step, Ended;
    var states := [s] + rest;
    forall k | 0 < k < |states| ensures Step(states[k - 1], states[k]) {
      assert states[k] == rest[k - 1];
      if k > 1 { assert states[k - 1] == rest[k - 2]; }
    }
    assert states[|states| - 1] == rest[|rest| - 1];
  }

  /** The runner that holds the lock can fail. */
  lemma {:induction false} Releases(s: System, first: nat, j: nat) returns (t: System)
    requires Inv(s, first) && s.lock == Some(j)
    ensures Step(s, t) && Inv(t, first) && t.lock.None? && t.ledger == s.ledger && |t.runners| == |s.runners|
    ensures forall i :: 0 <= i < |s.runners| && i != j ==> t.runners[i] == s.runners[i]
  {
    assert RunnerOk(s, first, j);
    t := s.(lock := Option.None, runners := Moved(s, j, Failed));
    assert Fail(s, t, j);
    hide Inv, RunnerOk, Fail;
    StepIs(s, t, j);
    StepKeeps(s, t, first);
  }

  /** A run from `s`, with the transaction ended that another runner holds the lock for. */
  lemma {:induction false} CanFinish(s: System, first: nat, i: nat) returns (states: seq<System>)
    requires Inv(s, first) && i < |s.runners| && !s.runners[i].phase.Failed? && Agreeing(s.ledger, s.runners[i].image)
    ensures Completes(states, s, i)
  {
    if s.lock.None? || s.lock == Some(i) {
      states := Finishes(s, first, i);
    } else {
      var j := s.lock.value;
      var t := Releases(s, first, j);
      hide Inv, Step, Completes, Agreeing;
      var rest := Finishes(t, first, i);
      Prefixed(s, t, rest, i);
      states := [s] + rest;
    }
  }

  lemma {:induction false} RunKeeps(states: seq<System>, first: nat, n: nat)
    requires Run(states) && Inv(states[0], first) && n < |states|
    ensures Inv(states[n], first) && Extends(states[0].ledger, states[n].ledger)
  {
    hide Inv, Step;
    if n > 0 {
      RunKeeps(states, first, n - 1);
      assert Step(states[n - 1], states[n]);
      StepKeeps(states[n - 1], states[n], first);
    }
  }

  /**
   * In whatever state the runners are, one of them can come to its end, with all
   * its migrations in the ledger, exactly when what is recorded agrees with its image.
   */
  lemma {:induction false} CanFinishExactly(s: System, first: nat, i: nat)
    requires Inv(s, first) && i < |s.runners| && !s.runners[i].phase.Failed?
    ensures (exists states :: Completes(states, s, i)) <==> Agreeing(s.ledger, s.runners[i].image)
  {
    if Agreeing(s.ledger, s.runners[i].image) {
      var states := CanFinish(s, first, i);
    }
    if states :| Completes(states, s, i) {
      hide Inv, Run;
      RunKeeps(states, first, |states| - 1);
    }
  }
}
