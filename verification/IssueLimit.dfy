/** The sliding windows that bound self-service credential issuance. */
module IssueLimit {
  import opened Text

  const HOUR_SECONDS: nat := 3600

  /** Timestamps are in microseconds. */
  function Micros(seconds: nat): nat { seconds * 1000000 }

  /** An issued principal: when its transaction began, in microseconds, and for whom. */
  datatype Issued = Issued(created: int, source: string)

  datatype Policy = Policy(burstLimit: nat, burstWindow: nat, sourceLimit: nat, globalLimit: nat)

  /** One check of `_rate_limit`: a limit, a window in seconds, and the source it is for, if any. */
  datatype Check = Check(limit: nat, window: nat, source: Option<string>)

  function Checks(p: Policy, source: string): seq<Check> {
    [Check(p.burstLimit, p.burstWindow, Some(source)), Check(p.sourceLimit, HOUR_SECONDS, Some(source)),
     Check(p.globalLimit, HOUR_SECONDS, Option.None)]
  }

  predicate Concerns(scope: Option<string>, i: Issued) { scope.None? || i.source == scope.value }

  // ---- what one check counts -------------------------------------------------------------

  /** Rows of the scope, among the first `n`, created after `since`. */
  function Since(rows: seq<Issued>, n: nat, scope: Option<string>, since: int): nat
    requires n <= |rows|
  {
    if n == 0 then 0
    else Since(rows, n - 1, scope, since) + if Concerns(scope, rows[n - 1]) && rows[n - 1].created > since then 1 else 0
  }

  /** The earliest of them. */
  function Earliest(rows: seq<Issued>, n: nat, scope: Option<string>, since: int): (t: Option<int>)
    requires n <= |rows|
    ensures t.Some? <==> Since(rows, n, scope, since) > 0
    ensures t.Some? ==> t.value > since
  {
    if n == 0 then Option.None
    else
      var rest, last := Earliest(rows, n - 1, scope, since), rows[n - 1];
      if !(Concerns(scope, last) && last.created > since) then rest
      else if rest.Some? && rest.value <= last.created then rest
      else Some(last.created)
  }

  /** `GREATEST(1, CEIL(min(created_at) + window - now))`, or 1 when nothing was counted. */
  function RetryAfter(earliest: Option<int>, window: nat, now: int): nat {
    if earliest.None? then 1
    else
      var left := earliest.value + Micros(window) - now;
      if left <= 1000000 then 1 else (left + 999999) / 1000000
  }

  datatype Refusal = RateLimited(check: Check, count: nat, retryAfter: nat)

  function Usage(rows: seq<Issued>, check: Check, now: int): (nat, nat) {
    var since := now - Micros(check.window);
    (Since(rows, |rows|, check.source, since), RetryAfter(Earliest(rows, |rows|, check.source, since), check.window, now))
  }

  predicate Passes(rows: seq<Issued>, check: Check, now: int) { Usage(rows, check, now).0 < check.limit }

  // ---- one request, in plain counts --------------------------------------------------------------

  datatype Request = Request(source: string, now: int)

  /** The rows of `source` created after `since`. */
  function Recent(rows: seq<Issued>, source: string, since: int): set<nat> {
    set i: nat | i < |rows| && rows[i].source == source && rows[i].created > since
  }

  function AnyRecent(rows: seq<Issued>, since: int): set<nat> { set i: nat | i < |rows| && rows[i].created > since }

  /** The rows of `source` created in the `length` microseconds from `from` on. */
  function During(rows: seq<Issued>, source: string, from: int, length: nat): set<nat> {
    set i: nat | i < |rows| && rows[i].source == source && from <= rows[i].created < from + length
  }

  function AnyDuring(rows: seq<Issued>, from: int, length: nat): set<nat> {
    set i: nat | i < |rows| && from <= rows[i].created < from + length
  }

  const HOUR: nat := 3600000000

  predicate BurstFull(p: Policy, rows: seq<Issued>, q: Request) {
    |Recent(rows, q.source, q.now - p.burstWindow * 1000000)| >= p.burstLimit
  }

  predicate SourceFull(p: Policy, rows: seq<Issued>, q: Request) { |Recent(rows, q.source, q.now - HOUR)| >= p.sourceLimit }

  predicate AllFull(p: Policy, rows: seq<Issued>, q: Request) { |AnyRecent(rows, q.now - HOUR)| >= p.globalLimit }

  /** One request: it is issued exactly when all three counts are below their limits. */
  predicate Serves(p: Policy, was: seq<Issued>, q: Request, now: seq<Issued>) {
    now == if BurstFull(p, was, q) || SourceFull(p, was, q) || AllFull(p, was, q) then was else was + [Issued(q.now, q.source)]
  }

  /** The wait that is told: the fewest whole seconds, and at least one, after which the earliest counted row has left. */
  ghost predicate LeastWait(rows: seq<Issued>, counted: set<nat>, length: nat, now: int, told: nat)
    requires forall i :: i in counted ==> i < |rows|
  {
    && told >= 1
    && (counted == {} ==> told == 1)
    && forall i :: i in counted && (forall j :: j in counted ==> rows[i].created <= rows[j].created) ==>
         && rows[i].created + length <= now + told * 1000000
         && (told > 1 ==> rows[i].created + length > now + (told - 1) * 1000000)
  }

  /** The first check that is full refuses, with what it counted and the wait. */
  ghost predicate RefusedBy(p: Policy, rows: seq<Issued>, q: Request, r: Refusal) {
    if BurstFull(p, rows, q) then
      Told(rows, Recent(rows, q.source, q.now - p.burstWindow * 1000000), p.burstLimit, p.burstWindow, q.now, r)
    else if SourceFull(p, rows, q) then Told(rows, Recent(rows, q.source, q.now - HOUR), p.sourceLimit, 3600, q.now, r)
    else AllFull(p, rows, q) && Told(rows, AnyRecent(rows, q.now - HOUR), p.globalLimit, 3600, q.now, r)
  }

  ghost predicate Told(rows: seq<Issued>, counted: set<nat>, limit: nat, window: nat, now: int, r: Refusal)
    requires forall i :: i in counted ==> i < |rows|
  {
    && r.check.limit == limit && r.check.window == window && r.count == |counted|
    && LeastWait(rows, counted, window * 1000000, now, r.retryAfter)
  }

  // ---- the counts are those of the checks ------------------------------------------------------

  function Counted(rows: seq<Issued>, n: nat, scope: Option<string>, since: int): set<nat>
    requires n <= |rows|
  {
    set i: nat | i < n && Concerns(scope, rows[i]) && rows[i].created > since
  }

  lemma {:induction false} SinceCounts(rows: seq<Issued>, n: nat, scope: Option<string>, since: int)
    requires n <= |rows|
    ensures Since(rows, n, scope, since) == |Counted(rows, n, scope, since)|
  {
    if n > 0 {
      SinceCounts(rows, n - 1, scope, since);
      var before, here := Counted(rows, n - 1, scope, since), Counted(rows, n, scope, since);
      if Concerns(scope, rows[n - 1]) && rows[n - 1].created > since {
        assert here == before + {n - 1};
      } else {
        assert here == before;
      }
    } else {
      assert Counted(rows, 0, scope, since) == {};
    }
  }

  lemma {:induction false} ScopedCounts(rows: seq<Issued>, source: string, since: int)
    ensures Since(rows, |rows|, Some(source), since) == |Recent(rows, source, since)|
    ensures Since(rows, |rows|, Option.None, since) == |AnyRecent(rows, since)|
  {
    SinceCounts(rows, |rows|, Some(source), since);
    SinceCounts(rows, |rows|, Option.None, since);
    assert Counted(rows, |rows|, Some(source), since) == Recent(rows, source, since);
    assert Counted(rows, |rows|, Option.None, since) == AnyRecent(rows, since);
  }

  lemma {:induction false} EarliestIsLeast(rows: seq<Issued>, n: nat, scope: Option<string>, since: int)
    requires n <= |rows|
    ensures var counted, e := Counted(rows, n, scope, since), Earliest(rows, n, scope, since);
            && (e.None? <==> counted == {})
            && (e.Some? ==> (exists i :: i in counted && rows[i].created == e.value) && forall j :: j in counted ==> e.value <= rows[j].created)
  {
    SinceCounts(rows, n, scope, since);
    if n > 0 {
      EarliestIsLeast(rows, n - 1, scope, since);
      var last, before, rest := rows[n - 1], Counted(rows, n - 1, scope, since), Earliest(rows, n - 1, scope, since);
      var counted := Counted(rows, n, scope, since);
      assert forall j :: j in counted ==> j in before || (j == n - 1 && Concerns(scope, last) && last.created > since);
      if Concerns(scope, last) && last.created > since {
        assert n - 1 in counted;
      }
      if rest.Some? {
        var i :| i in before && rows[i].created == rest.value;
        assert i in counted;
      }
    }
  }

  // ---- the table ---------------------------------------------------------------------------

  /** Half-open window: rows of the scope among the first `n` created in `[from, to)`. */
  function InWindow(rows: seq<Issued>, n: nat, scope: Option<string>, from: int, to: int): nat
    requires n <= |rows|
  {
    if n == 0 then 0
    else InWindow(rows, n - 1, scope, from, to) + if Concerns(scope, rows[n - 1]) && from <= rows[n - 1].created < to then 1 else 0
  }

  /** The row was let in by the checks, whatever its timestamp. */
  ghost predicate LetInAt(rows: seq<Issued>, n: nat, p: Policy)
    requires n < |rows|
  {
    forall c :: c in Checks(p, rows[n].source) ==> Since(rows, n, c.source, rows[n].created - Micros(c.window)) < c.limit
  }

  /** Check `k` refuses, and none before it. */
  predicate IsRefusal(rows: seq<Issued>, checks: seq<Check>, k: nat, now: int, r: Refusal)
    requires k < |checks|
  {
    && (forall j :: 0 <= j < k ==> Passes(rows, checks[j], now)) && !Passes(rows, checks[k], now)
    && r == RateLimited(checks[k], Usage(rows, checks[k], now).0, Usage(rows, checks[k], now).1)
  }

  predicate FirstRefusal(rows: seq<Issued>, checks: seq<Check>, now: int, r: Refusal) {
    exists k :: 0 <= k < |checks| && IsRefusal(rows, checks, k, now, r)
  }

  /** The three checks are the three counts. */
  lemma {:induction false} ThreeChecks(p: Policy, rows: seq<Issued>, q: Request)
    ensures Passes(rows, Checks(p, q.source)[0], q.now) <==> !BurstFull(p, rows, q)
    ensures Passes(rows, Checks(p, q.source)[1], q.now) <==> !SourceFull(p, rows, q)
    ensures Passes(rows, Checks(p, q.source)[2], q.now) <==> !AllFull(p, rows, q)
  {
    ScopedCounts(rows, q.source, q.now - Micros(p.burstWindow));
    ScopedCounts(rows, q.source, q.now - HOUR);
    hide Since, Earliest, RetryAfter;
  }

  lemma {:induction false} ChecksCount(p: Policy, rows: seq<Issued>, q: Request)
    ensures (forall c :: c in Checks(p, q.source) ==> Passes(rows, c, q.now))
            <==> !BurstFull(p, rows, q) && !SourceFull(p, rows, q) && !AllFull(p, rows, q)
  {
    ThreeChecks(p, rows, q);
    hide Passes, BurstFull, SourceFull, AllFull;
    var checks := Checks(p, q.source);
    assert checks[0] in checks && checks[1] in checks && checks[2] in checks;
  }

  /** What one check tells is the least wait. */
  lemma {:induction false} UsageIsTold(rows: seq<Issued>, check: Check, now: int)
    ensures var counted := Counted(rows, |rows|, check.source, now - Micros(check.window));
            && Usage(rows, check, now).0 == |counted|
            && LeastWait(rows, counted, check.window * 1000000, now, Usage(rows, check, now).1)
  {
    var since := now - Micros(check.window);
    SinceCounts(rows, |rows|, check.source, since);
    EarliestIsLeast(rows, |rows|, check.source, since);
    hide Since, Earliest;
  }

  /** The rows the three checks count. */
  lemma {:induction false} ThreeScopes(p: Policy, rows: seq<Issued>, q: Request)
    ensures var checks := Checks(p, q.source);
            && Counted(rows, |rows|, checks[0].source, q.now - Micros(checks[0].window)) == Recent(rows, q.source, q.now - p.burstWindow * 1000000)
            && Counted(rows, |rows|, checks[1].source, q.now - Micros(checks[1].window)) == Recent(rows, q.source, q.now - HOUR)
            && Counted(rows, |rows|, checks[2].source, q.now - Micros(checks[2].window)) == AnyRecent(rows, q.now - HOUR)
  {}

  lemma {:induction false} RefusalIsTold(p: Policy, rows: seq<Issued>, q: Request, r: Refusal)
    requires FirstRefusal(rows, Checks(p, q.source), q.now, r)
    ensures RefusedBy(p, rows, q, r)
  {
    hide Passes, BurstFull, SourceFull, AllFull, Usage, LeastWait, Counted, Recent, AnyRecent;
    ThreeChecks(p, rows, q);
    ThreeScopes(p, rows, q);
    var checks := Checks(p, q.source);
    var k :| 0 <= k < |checks| && IsRefusal(rows, checks, k, q.now, r);
    UsageIsTold(rows, checks[k], q.now);
  }

  /** Every row was, in the order of the lock. */
  ghost predicate LetIn(rows: seq<Issued>, p: Policy) { forall n :: 0 <= n < |rows| ==> LetInAt(rows, n, p) }

  class Principals {
    /** The committed rows, in the order in which their transactions held the lock. */
    var rows: seq<Issued>

    constructor ()
      ensures rows == []
    {
      rows := [];
    }

    /** `_rate_limit`, under the lock: the checks in order, the first that refuses decides. */
    method RateLimit(p: Policy, source: string, now: int) returns (r: Option<Refusal>)
      ensures r.None? <==> forall c :: c in Checks(p, source) ==> Passes(rows, c, now)
      ensures r.Some? ==> FirstRefusal(rows, Checks(p, source), now, r.value)
    {
      var checks := Checks(p, source);
      hide Usage, Checks;
      var k := 0;
      while k < |checks|
        invariant k <= |checks| && forall j :: 0 <= j < k ==> Passes(rows, checks[j], now)
      {
        var (count, retryAfter) := Usage(rows, checks[k], now);
        if count >= checks[k].limit {
          assert checks[k] in checks;
          assert IsRefusal(rows, checks, k, now, RateLimited(checks[k], count, retryAfter));
          return Some(RateLimited(checks[k], count, retryAfter));
        }
        k := k + 1;
      }
      return Option.None;
    }

    /** `self_issue_agent_token`: the checks and the insert share one transaction. */
    method SelfIssue(p: Policy, source: string, now: int) returns (r: Option<Refusal>)
      requires LetIn(rows, p)
      modifies this
      ensures LetIn(rows, p)
      ensures rows == if r.None? then old(rows) + [Issued(now, source)] else old(rows)
      ensures r.None? <==> forall c :: c in Checks(p, source) ==> Passes(old(rows), c, now)
      ensures r.Some? ==> FirstRefusal(rows, Checks(p, source), now, r.value)
      ensures Serves(p, old(rows), Request(source, now), rows) && (r.None? <==> rows != old(rows))
      ensures r.Some? ==> RefusedBy(p, rows, Request(source, now), r.value)
    {
      r := RateLimit(p, source, now);
      ChecksCount(p, rows, Request(source, now));
      if r.Some? { RefusalIsTold(p, rows, Request(source, now), r.value); }
      if r.None? {
        LetInNext(rows, p, Issued(now, source));
        rows := rows + [Issued(now, source)];
      }
    }
  }

  lemma {:induction false} SincePrefix(rows: seq<Issued>, i: Issued, n: nat, scope: Option<string>, since: int)
    requires n <= |rows|
    ensures Since(rows + [i], n, scope, since) == Since(rows, n, scope, since)
  {
    if n > 0 { SincePrefix(rows, i, n - 1, scope, since); }
  }

  lemma {:induction false} LetInNext(rows: seq<Issued>, p: Policy, i: Issued)
    requires LetIn(rows, p) && forall c :: c in Checks(p, i.source) ==> Passes(rows, c, i.created)
    ensures LetIn(rows + [i], p)
  {
    var now := rows + [i];
    forall n | 0 <= n < |now| ensures LetInAt(now, n, p) {
      hide Checks;
      forall c | c in Checks(p, now[n].source) ensures Since(now, n, c.source, now[n].created - Micros(c.window)) < c.limit {
        SincePrefix(rows, i, n, c.source, now[n].created - Micros(c.window));
        if n == |rows| { assert Passes(rows, c, i.created); } else { assert now[n] == rows[n] && LetInAt(rows, n, p); }
      }
    }
  }

  // ---- the windows ---------------------------------------------------------------------------

  lemma {:induction false} WindowWithin(rows: seq<Issued>, n: nat, scope: Option<string>, from: int, to: int, since: int)
    requires n <= |rows| && since < from
    ensures InWindow(rows, n, scope, from, to) <= Since(rows, n, scope, since)
  {
    if n > 0 { WindowWithin(rows, n - 1, scope, from, to, since); }
  }

  /** However the timestamps are ordered, no window of the configured length holds more than the limit. */
  lemma {:induction false} WindowHolds(rows: seq<Issued>, n: nat, p: Policy, check: Check, from: int)
    requires LetIn(rows, p) && n <= |rows|
    requires check == Check(p.globalLimit, HOUR_SECONDS, Option.None)
             || (check.source.Some? && check in Checks(p, check.source.value))
    ensures InWindow(rows, n, check.source, from, from + Micros(check.window)) <= check.limit
  {
    hide LetIn, Checks, Earliest, RetryAfter;
    if n > 0 {
      WindowHolds(rows, n - 1, p, check, from);
      var last := rows[n - 1];
      if Concerns(check.source, last) && from <= last.created < from + Micros(check.window) {
        WasChecked(rows, n - 1, p, check);
        WindowWithin(rows, n - 1, check.source, from, from + Micros(check.window), last.created - Micros(check.window));
      }
    }
  }

  lemma {:induction false} WasChecked(rows: seq<Issued>, n: nat, p: Policy, check: Check)
    requires LetIn(rows, p) && n < |rows| && Concerns(check.source, rows[n])
    requires check == Check(p.globalLimit, HOUR_SECONDS, Option.None) || (check.source.Some? && check in Checks(p, check.source.value))
    ensures Since(rows, n, check.source, rows[n].created - Micros(check.window)) < check.limit
  {
    hide Since;
    assert LetInAt(rows, n, p) && check in Checks(p, rows[n].source);
  }

  // ---- the advice to retry -------------------------------------------------------------------

  lemma {:induction false} FewerLater(rows: seq<Issued>, n: nat, scope: Option<string>, since: int, later: int)
    requires n <= |rows| && since <= later
    requires Earliest(rows, n, scope, since).Some? && Earliest(rows, n, scope, since).value <= later
    ensures Since(rows, n, scope, later) < Since(rows, n, scope, since)
  {
    var last := rows[n - 1];
    NoMoreLater(rows, n - 1, scope, since, later);
    if !(Concerns(scope, last) && last.created > since && last.created <= later) {
      FewerLater(rows, n - 1, scope, since, later);
    }
  }

  lemma {:induction false} NoMoreLater(rows: seq<Issued>, n: nat, scope: Option<string>, since: int, later: int)
    requires n <= |rows| && since <= later
    ensures Since(rows, n, scope, later) <= Since(rows, n, scope, since)
  {
    if n > 0 { NoMoreLater(rows, n - 1, scope, since, later); }
  }

  /** What was counted at `since` and is not at `later` lies between. */
  lemma {:induction false} SinceSplits(rows: seq<Issued>, n: nat, scope: Option<string>, since: int, later: int)
    requires n <= |rows| && since <= later
    ensures Since(rows, n, scope, since) == InWindow(rows, n, scope, since + 1, later + 1) + Since(rows, n, scope, later)
  {
    if n > 0 { SinceSplits(rows, n - 1, scope, since, later); }
  }

  /**
   * A refused request is heard at some time, waits and begins again at `later`; no row
   * was added in between. It passes the check exactly when more of the rows that were
   * counted have left the window than were in it above the limit.
   */
  lemma {:induction false} RetryExactly(rows: seq<Issued>, check: Check, now: int, heard: int)
    requires !Passes(rows, check, now) && now <= heard
    ensures var (count, told) := Usage(rows, check, now);
            var since, later := now - Micros(check.window), heard + Micros(told);
            Passes(rows, check, later)
            <==> InWindow(rows, |rows|, check.source, since + 1, since + (later - now) + 1) > count - check.limit
  {
    var since, later := now - Micros(check.window), heard + Micros(Usage(rows, check, now).1);
    SinceSplits(rows, |rows|, check.source, since, later - Micros(check.window));
  }

  /** The order of timestamps matters here: without rows from the future a check never counts more than its limit. */
  lemma {:induction false} CountedAtMost(rows: seq<Issued>, p: Policy, check: Check, now: int)
    requires LetIn(rows, p) && forall i :: 0 <= i < |rows| ==> rows[i].created <= now
    requires check == Check(p.globalLimit, HOUR_SECONDS, Option.None)
             || (check.source.Some? && check in Checks(p, check.source.value))
    ensures Usage(rows, check, now).0 <= check.limit
  {
    hide LetIn, Checks, Earliest, RetryAfter;
    var since := now - Micros(check.window);
    SinceSplits(rows, |rows|, check.source, since, now);
    NoneAfter(rows, |rows|, check.source, now);
    WindowHolds(rows, |rows|, p, check, since + 1);
  }

  lemma {:induction false} NoneAfter(rows: seq<Issued>, n: nat, scope: Option<string>, since: int)
    requires n <= |rows| && forall i :: 0 <= i < n ==> rows[i].created <= since
    ensures Since(rows, n, scope, since) == 0
  {
    if n > 0 { NoneAfter(rows, n - 1, scope, since); }
  }

  /** Refused at exactly the limit, a request that waits as told and finds no new rows passes that check. */
  lemma {:induction false} RetryPasses(rows: seq<Issued>, check: Check, now: int, later: int)
    requires Usage(rows, check, now).0 == check.limit && check.limit > 0
    requires later >= now + Micros(Usage(rows, check, now).1)
    ensures Passes(rows, check, later)
  {
    var since := now - Micros(check.window);
    FewerLater(rows, |rows|, check.source, since, later - Micros(check.window));
  }

  /** So a refused request that began after every row it saw can rely on the wait it is told. */
  lemma {:induction false} RetryInOrder(rows: seq<Issued>, p: Policy, check: Check, now: int, heard: int)
    requires LetIn(rows, p) && forall i :: 0 <= i < |rows| ==> rows[i].created <= now
    requires check == Check(p.globalLimit, HOUR_SECONDS, Option.None)
             || (check.source.Some? && check in Checks(p, check.source.value))
    requires !Passes(rows, check, now) && check.limit > 0 && now <= heard
    ensures Usage(rows, check, now).0 == check.limit
    ensures Passes(rows, check, heard + Micros(Usage(rows, check, now).1))
  {
    hide LetIn, Checks, Since, Earliest, RetryAfter;
    CountedAtMost(rows, p, check, now);
    RetryPasses(rows, check, now, heard + Micros(Usage(rows, check, now).1));
  }

  /**
   * And so can one that began before every row it counted: the wait is then a whole
   * window, and the rows were created before the refusal was heard.
   */
  lemma {:induction false} RetryFromBefore(rows: seq<Issued>, check: Check, now: int, heard: int)
    requires !Passes(rows, check, now) && check.limit > 0
    requires forall i :: 0 <= i < |rows| ==> rows[i].created <= heard
    requires var earliest := Earliest(rows, |rows|, check.source, now - Micros(check.window)); earliest.Some? ==> now <= earliest.value
    ensures Passes(rows, check, heard + Micros(Usage(rows, check, now).1))
  {
    NoneAfter(rows, |rows|, check.source, heard);
    NoMoreLater(rows, |rows|, check.source, heard, heard + Micros(Usage(rows, check, now).1) - Micros(check.window));
  }

  /**
   * Transactions can take the lock in another order than they began. A request that
   * began between the two rows it finds counts both, waits for the older one as told,
   * and is refused again by the younger one.
   */
  lemma {:induction false} RetryCanFail()
    ensures var p, check := Policy(1, 2, 30, 300), Check(1, 2, Some("a"));
            var rows, now, heard := [Issued(1000000, "a"), Issued(3000000, "a")], 2000000, 3500000;
            && LetIn(rows, p) && check in Checks(p, "a")
            && (forall i :: 0 <= i < |rows| ==> rows[i].created <= heard) && now <= heard
            && Usage(rows, check, now) == (2, 1)
            && !Passes(rows, check, heard + Micros(1))
  {
    var p, check := Policy(1, 2, 30, 300), Check(1, 2, Some("a"));
    var rows := [Issued(1000000, "a"), Issued(3000000, "a")];
    forall n | 0 <= n < |rows| ensures LetInAt(rows, n, p) {
      forall c | c in Checks(p, rows[n].source) ensures Since(rows, n, c.source, rows[n].created - Micros(c.window)) < c.limit {
        SinceAtMost(rows, n, c.source, rows[n].created - Micros(c.window));
        TwoRows(rows[0], rows[1], c.source, rows[n].created - Micros(c.window));
      }
    }
    TwoRows(rows[0], rows[1], check.source, 0);
    TwoRows(rows[0], rows[1], check.source, 2500000);
  }

  lemma {:induction false} SinceAtMost(rows: seq<Issued>, n: nat, scope: Option<string>, since: int)
    requires n <= |rows|
    ensures Since(rows, n, scope, since) <= n
  {
    if n > 0 { SinceAtMost(rows, n - 1, scope, since); }
  }

  lemma {:induction false} TwoRows(a: Issued, b: Issued, scope: Option<string>, since: int)
    ensures var one := if Concerns(scope, a) && a.created > since then 1 else 0;
            && Since([a, b], 1, scope, since) == one
            && Since([a, b], 2, scope, since) == one + if Concerns(scope, b) && b.created > since then 1 else 0
    ensures Concerns(scope, a) && a.created > since && a.created <= b.created ==> Earliest([a, b], 2, scope, since) == Some(a.created)
  {
    assert Since([a, b], 0, scope, since) == 0;
    assert Earliest([a, b], 0, scope, since).None?;
    assert Concerns(scope, a) && a.created > since ==> Earliest([a, b], 1, scope, since) == Some(a.created);
  }
}
