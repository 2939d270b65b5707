/** Any run of credential requests from an empty table, and what the table can hold after it. */
module IssueRuns {
  import opened Text
  import opened IssueLimit

  /** A run from the empty table. */
  ghost predicate IsRun(p: Policy, tables: seq<seq<Issued>>, requests: seq<Request>) {
    && |tables| == |requests| + 1 && tables[0] == []
    && forall k :: 0 <= k < |requests| ==> Serves(p, tables[k], requests[k], tables[k + 1])
  }

  lemma {:induction false} WindowCounts(rows: seq<Issued>, n: nat, scope: Option<string>, from: int, to: int)
    requires n <= |rows|
    ensures InWindow(rows, n, scope, from, to) == |set i: nat | i < n && Concerns(scope, rows[i]) && from <= rows[i].created < to|
  {
    var here := set i: nat | i < n && Concerns(scope, rows[i]) && from <= rows[i].created < to;
    if n > 0 {
      WindowCounts(rows, n - 1, scope, from, to);
      var before := set i: nat | i < n - 1 && Concerns(scope, rows[i]) && from <= rows[i].created < to;
      if Concerns(scope, rows[n - 1]) && from <= rows[n - 1].created < to {
        assert here == before + {n - 1};
      } else {
        assert here == before;
      }
    } else {
      assert here == {};
    }
  }

  lemma {:induction false} TablesLetIn(p: Policy, tables: seq<seq<Issued>>, requests: seq<Request>, k: nat)
    requires IsRun(p, tables, requests) && k < |tables|
    ensures LetIn(tables[k], p)
  {
    hide LetIn, Checks, BurstFull, SourceFull, AllFull, Passes;
    if k > 0 {
      TablesLetIn(p, tables, requests, k - 1);
      var was, q := tables[k - 1], requests[k - 1];
      assert Serves(p, was, q, tables[k - 1 + 1]);
      ChecksCount(p, was, q);
      if tables[k] != was { LetInNext(was, p, Issued(q.now, q.source)); }
    } else {
      NothingLetIn(p);
    }
  }

  lemma {:induction false} NothingLetIn(p: Policy)
    ensures LetIn([], p)
  {}

  /**
   * Over every run, whatever the order of the timestamps: no source gets more than its
   * limit in any burst window or in any hour, and all together no more than theirs in any hour.
   */
  lemma {:induction false} RunHolds(p: Policy, tables: seq<seq<Issued>>, requests: seq<Request>, k: nat, source: string, from: int)
    requires IsRun(p, tables, requests) && k < |tables|
    ensures |During(tables[k], source, from, p.burstWindow * 1000000)| <= p.burstLimit
    ensures |During(tables[k], source, from, HOUR)| <= p.sourceLimit
    ensures |AnyDuring(tables[k], from, HOUR)| <= p.globalLimit
  {
    var rows := tables[k];
    TablesLetIn(p, tables, requests, k);
    var checks := Checks(p, source);
    assert checks[0] in checks && checks[1] in checks && checks[2] in checks;
    hide LetIn, IsRun;
    WindowHolds(rows, |rows|, p, checks[0], from);
    WindowHolds(rows, |rows|, p, checks[1], from);
    WindowHolds(rows, |rows|, p, checks[2], from);
    WindowCounts(rows, |rows|, Some(source), from, from + Micros(p.burstWindow));
    WindowCounts(rows, |rows|, Some(source), from, from + HOUR);
    WindowCounts(rows, |rows|, Option.None, from, from + HOUR);
    hide InWindow;
    assert During(rows, source, from, p.burstWindow * 1000000)
        == set i: nat | i < |rows| && Concerns(Some(source), rows[i]) && from <= rows[i].created < from + Micros(p.burstWindow);
    assert During(rows, source, from, HOUR)
        == set i: nat | i < |rows| && Concerns(Some(source), rows[i]) && from <= rows[i].created < from + HOUR;
    assert AnyDuring(rows, from, HOUR)
        == set i: nat | i < |rows| && Concerns(Option.None, rows[i]) && from <= rows[i].created < from + HOUR;
  }

  /** Requests one after the other, each in its own transaction. */
  method IssueAll(p: Policy, requests: seq<Request>) returns (principals: Principals, ghost tables: seq<seq<Issued>>)
    ensures IsRun(p, tables, requests) && principals.rows == tables[|requests|]
    ensures forall source, from :: |During(principals.rows, source, from, p.burstWindow * 1000000)| <= p.burstLimit
    ensures forall source, from :: |During(principals.rows, source, from, HOUR)| <= p.sourceLimit
    ensures forall from :: |AnyDuring(principals.rows, from, HOUR)| <= p.globalLimit
  {
    hide LetIn, Serves, Checks, During, AnyDuring;
    principals := new Principals();
    NothingLetIn(p);
    tables := [[]];
    for k := 0 to |requests|
      invariant IsRun(p, tables, requests[..k]) && principals.rows == tables[k] && LetIn(principals.rows, p)
    {
      var _ := principals.SelfIssue(p, requests[k].source, requests[k].now);
      assert requests[..k + 1] == requests[..k] + [requests[k]];
      assert requests[k] == Request(requests[k].source, requests[k].now);
      tables := tables + [principals.rows];
    }
    assert requests[..|requests|] == requests;
    forall source, from
      ensures |During(principals.rows, source, from, p.burstWindow * 1000000)| <= p.burstLimit
      ensures |During(principals.rows, source, from, HOUR)| <= p.sourceLimit
    {
      RunHolds(p, tables, requests, |requests|, source, from);
    }
    forall from ensures |AnyDuring(principals.rows, from, HOUR)| <= p.globalLimit { RunHolds(p, tables, requests, |requests|, "", from); }
  }
}
