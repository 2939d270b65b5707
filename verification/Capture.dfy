/** Capturing structure and migration ledger together while migrations may be running. */
module Capture {
  import opened Text

  type Structure = seq<string>

  /** A ledger row: `filename` and `sha256`. */
  datatype Row = Row(filename: string, sha: string)

  /**
   * What is committed in the source database. It is `half` between the commit of
   * a migration's statements and the commit of its ledger row; the capture's role
   * may or may not be allowed to read the ledger.
   */
  datatype State = State(structure: Structure, ledger: seq<Row>, half: bool, readable: bool)

  /** `capture_ledger`. */
  datatype Reading = Captured(rows: seq<Row>) | Empty | Unavailable

  function ReadLedger(s: State): Reading {
    if !s.readable then Unavailable else if s.ledger == [] then Empty else Captured(s.ledger)
  }

  /** `identity`: the status and, of a captured ledger, its size, head and digest. */
  datatype Identity = Identity(status: nat, rows: nat, head: string, digest: string)

  function IdentityOf(digest: seq<Row> -> string, r: Reading): Identity {
    match r
    case Captured(rows) => Identity(0, |rows|, if rows == [] then "" else rows[|rows| - 1].filename, digest(rows))
    case Empty => Identity(1, 0, "", "")
    case Unavailable => Identity(2, 0, "", "")
  }

  datatype Refusal = MigrationInProgress | SourceChangedDuringCapture | ReadFailed

  datatype Info = Info(attempts: nat, waited: nat, consistent: bool)

  /** Structure in two parts: the rows of the snapshot, and definitions the server renders from its caches. */
  datatype Result4 = Result4(catalogue: Structure, definitions: Structure, ledger: Reading, info: Info)

  /**
   * The source database with the advisory lock of its ledger. Migration writers
   * hold the lock exclusively from before their first commit until after their
   * ledger row's; captures hold it shared.
   */
  class Source {
    var now: State
    var exclusive: bool
    var shared: set<nat>
    /** Every state that was ever committed, oldest first. */
    ghost var past: seq<State>

    ghost predicate Valid()
      reads this
    {
      && past != [] && past[|past| - 1] == now
      && (now.half ==> exclusive)
      && (exclusive ==> shared == {})
    }

    constructor (structure: Structure, ledger: seq<Row>)
      ensures Valid() && shared == {} && !exclusive
    {
      now, exclusive, shared := State(structure, ledger, false, true), false, {};
      past := [State(structure, ledger, false, true)];
    }

    method Commit(s: State)
      requires Valid() && (s.half ==> exclusive)
      modifies this`now, this`past
      ensures Valid() && now == s && past == old(past) + [s]
    {
      now := s;
      past := past + [s];
    }

    /** One step of anybody but capture `me`: a migration writer, another capture, or an operator changing grants. */
    method OtherStep(me: nat)
      requires Valid()
      modifies this
      ensures Valid() && Undisturbed(old(now), now, me in old(shared)) && old(past) <= past
      ensures me in shared <==> me in old(shared)
    {
      var step: nat, structure: Structure, row: Row, other: nat, readable: bool := *, *, *, *, *;
      if step == 0 && !exclusive && shared == {} {
        exclusive := true;
      } else if step == 1 && exclusive && !now.half {
        Commit(now.(structure := structure, half := true));
      } else if step == 2 && exclusive && now.half {
        Commit(now.(ledger := now.ledger + [row], half := false));
      } else if step == 3 && exclusive && !now.half {
        exclusive := false;
      } else if step == 4 && other != me && !exclusive {
        shared := shared + {other};
      } else if step == 5 && other != me {
        shared := shared - {other};
      } else if step == 6 {
        Commit(now.(readable := readable));
      }
    }

    method Others(me: nat)
      requires Valid()
      modifies this
      ensures Valid() && Undisturbed(old(now), now, me in old(shared)) && old(past) <= past
      ensures me in shared <==> me in old(shared)
    {
      var steps: int := *;
      while steps > 0
        invariant Valid() && Undisturbed(old(now), now, me in old(shared)) && old(past) <= past
        invariant me in shared <==> me in old(shared)
      {
        OtherStep(me);
        steps := steps - 1;
      }
    }

    /** `pg_try_advisory_lock_shared`. */
    method TryShared(me: nat) returns (acquired: bool)
      requires Valid()
      modifies this`shared
      ensures Valid() && acquired == !exclusive && shared == if acquired then old(shared) + {me} else old(shared)
    {
      acquired := !exclusive;
      if acquired {
        shared := shared + {me};
      }
    }

    /** `pg_advisory_unlock_shared`, or the end of the session. */
    method Release(me: nat)
      requires Valid()
      modifies this`shared
      ensures Valid() && shared == old(shared) - {me}
    {
      shared := shared - {me};
    }
  }

  /** A held shared lock keeps migrations out: only grants can change under it. */
  predicate Undisturbed(was: State, now: State, held: bool) {
    held ==> now.structure == was.structure && now.ledger == was.ledger && now.half == was.half
  }

  /** `_acquire_shared_lock`; `polls` is how often the clock allows to ask again. */
  method AcquireShared(source: Source, me: nat, polls: nat, poll: nat) returns (r: Option<nat>)
    requires source.Valid() && me !in source.shared
    modifies source
    ensures source.Valid() && old(source.past) <= source.past && (me in source.shared <==> r.Some?)
    ensures r.Some? ==> exists k :: 0 <= k <= polls && r.value == k * poll
    ensures r.Some? ==> !source.exclusive && !source.now.half
  {
    var waited, asked := 0, 0;
    while true
      invariant source.Valid() && old(source.past) <= source.past && me !in source.shared
      invariant asked <= polls && waited == asked * poll
      decreases polls - asked
    {
      source.Others(me);
      var acquired := source.TryShared(me);
      if acquired {
        return Some(waited);
      }
      if asked >= polls {
        return Option.None;
      }
      waited, asked := waited + poll, asked + 1;
    }
  }

  /** The three ledger readings of an attempt with the structure read between them. */
  datatype Attempt = Attempt(catalogue: Structure, definitions: Structure, before: Reading, during: Reading, after: Reading)

  /** The states from the one that was current when only `was` had been committed. */
  ghost function During(was: seq<State>, past: seq<State>): seq<State>
    requires was != [] && was <= past
  {
    past[|was| - 1..]
  }

  /** The permission to read the ledger was given or taken away at some time. */
  ghost predicate GrantsMoved(past: seq<State>) { exists i, j :: 0 <= i < j < |past| && past[i].readable != past[j].readable }

  /** What happened in a part of some time happened in that time. */
  lemma {:induction false} GrantsMovedWithin(start: seq<State>, was: seq<State>, past: seq<State>, end: seq<State>)
    requires start != [] && start <= was <= past <= end && GrantsMoved(During(was, past))
    ensures GrantsMoved(During(start, end))
  {
    var part := During(was, past);
    var i, j :| 0 <= i < j < |part| && part[i].readable != part[j].readable;
    var d, all := |was| - |start|, During(start, end);
    assert all[i + d] == end[|was| - 1 + i] == past[|was| - 1 + i] == part[i];
    assert all[j + d] == end[|was| - 1 + j] == past[|was| - 1 + j] == part[j];
  }

  lemma {:induction false} OneStateWithin(start: seq<State>, was: seq<State>, past: seq<State>, catalogue: Structure, definitions: Structure, ledger: Reading)
    requires start != [] && start <= was <= past && OneState(During(was, past), catalogue, definitions, ledger)
    ensures OneState(During(start, past), catalogue, definitions, ledger)
  {
    var part := During(was, past);
    var i :| 0 <= i < |part| && PairIn(part[i], catalogue, definitions, ledger);
    assert During(start, past)[i + |was| - |start|] == part[i];
  }

  /** The reads of one attempt, all under the shared lock. Any of them may fail. */
  method ReadAll(source: Source, me: nat) returns (r: Option<Attempt>)
    requires source.Valid() && me in source.shared
    modifies source
    ensures source.Valid() && old(source.past) <= source.past && me in source.shared
    ensures r.Some? ==> OneState(During(old(source.past), source.past), r.value.catalogue, r.value.definitions, r.value.during)
    ensures r.Some? && !(r.value.before == r.value.during == r.value.after) ==> GrantsMoved(During(old(source.past), source.past))
  {
    source.Others(me);
    var before := ReadLedger(source.now);
    ghost var first := |source.past| - 1;
    source.Others(me);
    var snapshot := source.now;
    ghost var at := |source.past| - 1;
    var catalogue := snapshot.structure;
    source.Others(me);
    if * {
      return Option.None;
    }
    var definitions := source.now.structure;
    source.Others(me);
    var during := ReadLedger(snapshot);
    source.Others(me);
    var after := ReadLedger(source.now);
    ghost var last := |source.past| - 1;
    source.Others(me);
    ghost var seen, start := During(old(source.past), source.past), |old(source.past)| - 1;
    assert start <= first <= at <= last < |source.past|;
    assert seen[at - start] == source.past[at] == snapshot;
    assert seen[first - start] == source.past[first] && seen[last - start] == source.past[last];
    assert ReadLedger(source.past[first]) == before && ReadLedger(source.past[last]) == after;
    return Some(Attempt(catalogue, definitions, before, during, after));
  }

  /** Both parts of the structure and the ledger are those of one committed state, and no migration is half recorded in it. */
  ghost predicate OneState(past: seq<State>, catalogue: Structure, definitions: Structure, ledger: Reading) {
    exists i :: 0 <= i < |past| && PairIn(past[i], catalogue, definitions, ledger)
  }

  predicate PairIn(s: State, catalogue: Structure, definitions: Structure, ledger: Reading) {
    !s.half && s.structure == catalogue && s.structure == definitions && Reads(s, ledger)
  }

  /** The ledger as the capture's role sees it in that state. */
  predicate Reads(s: State, ledger: Reading) {
    match ledger
    case Captured(rows) => s.readable && rows == s.ledger && rows != []
    case Empty => s.readable && s.ledger == []
    case Unavailable => !s.readable
  }

  /**
   * `capture_with_ledger`. The lock is released on every exit, at most `attempts`
   * attempts are made, and a capture pairs structure
   * and ledger from one state with no half-recorded migration. That state, and any
   * change of grants that is blamed, fall between the call and the return.
   */
  method CaptureWithLedger(source: Source, me: nat, digest: seq<Row> -> string, attempts: nat, polls: nat, poll: nat)
    returns (r: Result<Result4, Refusal>)
    requires source.Valid() && me !in source.shared && attempts >= 1
    modifies source
    ensures source.Valid() && me !in source.shared && old(source.past) <= source.past
    ensures r.Ok? ==> 1 <= r.value.info.attempts <= attempts
    ensures r.Ok? ==> (r.value.info.consistent <==> r.value.ledger.Captured?)
    ensures r.Ok? ==> OneState(During(old(source.past), source.past), r.value.catalogue, r.value.definitions, r.value.ledger)
    ensures r.Ok? ==> exists k :: 0 <= k <= polls && r.value.info.waited == k * poll
    ensures r == Err(SourceChangedDuringCapture) ==> GrantsMoved(During(old(source.past), source.past))
  {
    var attempt := 1;
    while attempt <= attempts
      invariant source.Valid() && me !in source.shared && old(source.past) <= source.past
      invariant 1 <= attempt <= attempts + 1
      invariant attempt > 1 ==> GrantsMoved(During(old(source.past), source.past))
    {
      hide GrantsMoved, OneState, During;
      var waited := AcquireShared(source, me, polls, poll);
      if waited.None? {
        return Err(MigrationInProgress);
      }
      ghost var locked := source.past;
      var read := ReadAll(source, me);
      source.Release(me);
      if read.None? {
        return Err(ReadFailed);
      }
      var a := read.value;
      var before, during, after := IdentityOf(digest, a.before), IdentityOf(digest, a.during), IdentityOf(digest, a.after);
      if before == during && during == after {
        OneStateWithin(old(source.past), locked, source.past, a.catalogue, a.definitions, a.during);
        return Ok(Result4(a.catalogue, a.definitions, a.during, Info(attempt, waited.value, a.during.Captured?)));
      }
      GrantsMovedWithin(old(source.past), locked, source.past, source.past);
      attempt := attempt + 1;
    }
    return Err(SourceChangedDuringCapture);
  }
}
