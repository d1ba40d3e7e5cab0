/** The server's page of runs: a bounded scan of worktrees in key order that
    also stops before a byte budget is exceeded. Proved to honour the paging
    contract that the console's list relies on. */
module TestServer {
  import opened Common
  import opened TestCache

  /** A registered worktree, its current run if it has one, and that run's encoded size. */
  datatype Worktree = Worktree(id: nat, repo: string, current: Option<Run>, size: nat)

  const BYTE_BUDGET := 160 * 1024

  ghost predicate Sound(row: Worktree) {
    row.id > 0 && (row.current.Some? ==> row.current.value.worktree == row.id && row.current.value.repo == row.repo)
  }

  ghost predicate Ascending(rows: seq<Worktree>) {
    forall i, j :: 0 <= i < j < |rows| ==> rows[i].id < rows[j].id
  }

  ghost predicate Registered(rows: seq<Worktree>) {
    Ascending(rows) && forall i :: 0 <= i < |rows| ==> Sound(rows[i])
  }

  ghost function Current(rows: seq<Worktree>): Database {
    if rows == [] then map[]
    else
      var db := Current(rows[..|rows| - 1]);
      var last := rows[|rows| - 1];
      if last.current.Some? then db[last.id := last.current.value] else db
  }

  lemma {:induction false} CurrentHolds(rows: seq<Worktree>, w: nat)
    requires Registered(rows)
    ensures w in Current(rows) <==> exists i :: 0 <= i < |rows| && rows[i].id == w && rows[i].current.Some?
    ensures forall i :: 0 <= i < |rows| && rows[i].id == w && rows[i].current.Some? ==>
              w in Current(rows) && Current(rows)[w] == rows[i].current.value
  {
    if rows != [] {
      CurrentHolds(rows[..|rows| - 1], w);
      assert forall i :: 0 <= i < |rows| - 1 ==> rows[..|rows| - 1][i] == rows[i];
    }
  }

  lemma {:induction false} CurrentKeyed(rows: seq<Worktree>)
    requires Registered(rows)
    ensures Keyed(Current(rows))
  {
    forall w | w in Current(rows) ensures Current(rows)[w].worktree == w && w > 0 {
      CurrentHolds(rows, w);
    }
  }

  predicate Selected(row: Worktree, p: Params) {
    (p.repo == "" || row.repo == p.repo) && row.id > p.after
  }

  /** `found` are the selected rows among the first `last`, and cover all if fewer than the limit were asked for. */
  ghost predicate Scanned(rows: seq<Worktree>, p: Params, found: seq<Worktree>, last: nat) {
    && last <= |rows| && Ascending(found)
    && (forall row :: row in found <==> row in rows[..last] && Selected(row, p))
    && (forall i, k :: last <= i < |rows| && 0 <= k < |found| ==> rows[i].id > found[k].id)
  }

  /** The rows of the query: selected, in key order, at most `limit + 1`. */
  method Query(rows: seq<Worktree>, p: Params, limit: nat) returns (found: seq<Worktree>, last: nat)
    requires Registered(rows)
    ensures Scanned(rows, p, found, last)
    ensures |found| <= limit + 1 && (|found| <= limit ==> last == |rows|)
  {
    found, last := [], 0;
    while last < |rows| && |found| <= limit
      invariant Scanned(rows, p, found, last) && |found| <= limit + 1
    {
      assert rows[..last + 1] == rows[..last] + [rows[last]];
      if Selected(rows[last], p) { found := found + [rows[last]]; }
      last := last + 1;
    }
  }

  ghost predicate RunsOf(found: seq<Worktree>, n: nat, runs: seq<Run>)
    requires n <= |found|
  {
    forall run :: run in runs <==> exists k :: 0 <= k < n && found[k].current == Some(run)
  }

  /** The cursor of a page that lists the first `n` of the found rows. */
  ghost predicate CutAt(rows: seq<Worktree>, found: seq<Worktree>, last: nat, n: nat, next: nat) {
    n <= |found| && if next == 0 then n == |found| && last == |rows| else n > 0 && next == found[n - 1].id
  }

  lemma {:induction false} ListedRunsBelong(rows: seq<Worktree>, p: Params, found: seq<Worktree>, last: nat, n: nat,
                                            next: nat, k: nat)
    requires Registered(rows) && Scanned(rows, p, found, last) && CutAt(rows, found, last, n, next)
    requires k < n && found[k].current.Some?
    ensures var run := found[k].current.value;
            run.worktree in Current(rows) && Current(rows)[run.worktree] == run
            && Belongs(run, Range(p.repo, p.after, next))
  {
    assert found[k] in found;
    var i :| 0 <= i < last && rows[..last][i] == found[k];
    assert Sound(rows[i]);
    CurrentHolds(rows, rows[i].id);
  }

  lemma {:induction false} BelongingRunsListed(rows: seq<Worktree>, p: Params, found: seq<Worktree>, last: nat, n: nat,
                                               next: nat, i: nat) returns (k: nat)
    requires Registered(rows) && Scanned(rows, p, found, last) && CutAt(rows, found, last, n, next)
    requires i < |rows| && Selected(rows[i], p) && (next == 0 || rows[i].id <= next)
    ensures k < n && found[k] == rows[i]
  {
    if next != 0 {
      assert forall j :: last <= j < |rows| ==> rows[j].id > found[n - 1].id;
    }
    assert rows[..last][i] == rows[i];
    assert rows[i] in found;
    k :| 0 <= k < |found| && found[k] == rows[i];
  }

  /** A scan cut after `n` of the found rows answers the request. */
  lemma {:induction false} CutAnswers(rows: seq<Worktree>, p: Params, found: seq<Worktree>, last: nat, n: nat,
                                      page: Page)
    requires Registered(rows) && Scanned(rows, p, found, last) && CutAt(rows, found, last, n, page.next)
    requires RunsOf(found, n, page.runs)
    requires page.next == 0 || page.next > p.after
    ensures Answers(Current(rows), p, page)
  {
    var db, q := Current(rows), Range(p.repo, p.after, page.next);
    forall run | run in page.runs ensures run.worktree in db && db[run.worktree] == run && Belongs(run, q) {
      var k :| 0 <= k < n && found[k].current == Some(run);
      ListedRunsBelong(rows, p, found, last, n, page.next, k);
    }
    forall run: Run | run.worktree in db && db[run.worktree] == run && Belongs(run, q) ensures run in page.runs {
      CurrentHolds(rows, run.worktree);
      var i :| 0 <= i < |rows| && rows[i].id == run.worktree && rows[i].current.Some?;
      assert Sound(rows[i]);
      var k := BelongingRunsListed(rows, p, found, last, n, page.next, i);
    }
  }

  /** The registered worktrees of a scope: the only cursors its pages name. */
  ghost function Cursors(rows: seq<Worktree>, repo: string): set<nat> {
    set i | 0 <= i < |rows| && (repo == "" || rows[i].repo == repo) :: rows[i].id
  }

  lemma {:induction false} FoundIsCursor(rows: seq<Worktree>, p: Params, found: seq<Worktree>, last: nat, k: nat)
    requires Scanned(rows, p, found, last) && k < |found|
    ensures found[k].id in Cursors(rows, p.repo)
  {
    assert found[k] in found;
    var i :| 0 <= i < last && rows[..last][i] == found[k];
    assert rows[i].id in Cursors(rows, p.repo);
  }

  /** The first `n` of the found rows that have a run, and their runs. */
  function Listed(found: seq<Worktree>, n: nat): seq<Worktree>
    requires n <= |found|
  {
    if n == 0 then [] else Listed(found, n - 1) + (if found[n - 1].current.Some? then [found[n - 1]] else [])
  }

  function RunsIn(found: seq<Worktree>, n: nat): seq<Run>
    requires n <= |found|
  {
    if n == 0 then []
    else RunsIn(found, n - 1) + (if found[n - 1].current.Some? then [found[n - 1].current.value] else [])
  }

  function Bytes(listed: seq<Worktree>): nat {
    if listed == [] then 0 else Bytes(listed[..|listed| - 1]) + listed[|listed| - 1].size
  }

  lemma {:induction false} BytesNext(listed: seq<Worktree>, row: Worktree)
    ensures Bytes(listed + [row]) == Bytes(listed) + row.size
  {
    assert (listed + [row])[..|listed|] == listed;
  }

  /** The worktrees whose runs a page lists, within 160 KiB unless it is one run alone. */
  ghost predicate Budgeted(rows: seq<Worktree>, runs: seq<Run>, listed: seq<Worktree>) {
    && |listed| == |runs| && (Bytes(listed) <= 163840 || |listed| <= 1)
    && forall i :: 0 <= i < |listed| ==> listed[i] in rows && listed[i].current == Some(runs[i])
  }

  lemma {:induction false} RunsInOf(found: seq<Worktree>, n: nat, runs: seq<Run>)
    requires n <= |found| && runs == RunsIn(found, n)
    ensures RunsOf(found, n, runs)
  {
    if n > 0 {
      var front := RunsIn(found, n - 1);
      RunsInOf(found, n - 1, front);
      forall run ensures run in runs <==> exists k :: 0 <= k < n && found[k].current == Some(run) {
        if run in front {
          var k :| 0 <= k < n - 1 && found[k].current == Some(run);
        }
      }
    }
  }

  lemma {:induction false} ListedRows(found: seq<Worktree>, n: nat)
    requires n <= |found|
    ensures |Listed(found, n)| == |RunsIn(found, n)| <= n
    ensures forall i :: 0 <= i < |Listed(found, n)| ==>
              Listed(found, n)[i] in found && Listed(found, n)[i].current == Some(RunsIn(found, n)[i])
  {
    if n > 0 { ListedRows(found, n - 1); }
  }

  lemma {:induction false} FoundIsRow(rows: seq<Worktree>, p: Params, found: seq<Worktree>, last: nat, row: Worktree)
    requires Scanned(rows, p, found, last) && row in found
    ensures row in rows && row.id > p.after
  {
    var i :| 0 <= i < last && rows[..last][i] == row;
    assert rows[i] == row;
  }

  lemma {:induction false} PageBudgeted(rows: seq<Worktree>, p: Params, found: seq<Worktree>, last: nat, n: nat,
                                        listed: seq<Worktree>)
    requires Scanned(rows, p, found, last) && n <= |found| && listed == Listed(found, n)
    requires Bytes(listed) <= 163840 || |listed| <= 1
    ensures Budgeted(rows, RunsIn(found, n), listed) && |listed| <= n
  {
    ListedRows(found, n);
    forall i | 0 <= i < |listed| ensures listed[i] in rows { FoundIsRow(rows, p, found, last, listed[i]); }
  }

  /** One page of `test.list` honours the paging contract, keeps the limit and the byte budget, and names no cursor but
      a worktree of its scope. */
  method ListPage(rows: seq<Worktree>, p: Params, limit: nat) returns (page: Page, ghost listed: seq<Worktree>)
    requires Registered(rows) && limit > 0
    ensures Keyed(Current(rows)) && Answers(Current(rows), p, page)
    ensures page.next == 0 || page.next in Cursors(rows, p.repo)
    ensures |page.runs| <= limit && Budgeted(rows, page.runs, listed)
  {
    CurrentKeyed(rows);
    var found, last := Query(rows, p, limit);
    forall k | 0 <= k < |found| ensures found[k].id > p.after { FoundIsRow(rows, p, found, last, found[k]); }
    var n;
    page, n := CutPage(found, limit, p.after);
    listed := Listed(found, n);
    RunsInOf(found, n, page.runs);
    CutAnswers(rows, p, found, last, n, page);
    PageBudgeted(rows, p, found, last, n, listed);
    if page.next != 0 { FoundIsCursor(rows, p, found, last, n - 1); }
  }

  /** The runs of the first `n` found rows, and their size. */
  ghost predicate Holds(found: seq<Worktree>, n: nat, runs: seq<Run>, bytes: nat)
    requires n <= |found|
  {
    runs == RunsIn(found, n) && |runs| == |Listed(found, n)| <= n && bytes == Bytes(Listed(found, n))
  }

  lemma {:induction false} Taken(found: seq<Worktree>, n: nat, row: Worktree, runs: seq<Run>, bytes: nat,
                                 runs': seq<Run>, bytes': nat)
    requires n < |found| && row == found[n] && Holds(found, n, runs, bytes)
    requires runs' == if row.current.Some? then runs + [row.current.value] else runs
    requires bytes' == if row.current.Some? then bytes + row.size else bytes
    ensures Holds(found, n + 1, runs', bytes')
  {
    BytesNext(Listed(found, n), row);
    assert Listed(found, n) + [] == Listed(found, n) && runs + [] == runs;
  }

  /** The first of the found rows, up to the limit and the byte budget. */
  method CutPage(found: seq<Worktree>, limit: nat, ghost after: nat) returns (page: Page, i: nat)
    requires limit > 0 && forall k :: 0 <= k < |found| ==> found[k].id > after
    ensures i <= |found| && i <= limit && page.runs == RunsIn(found, i)
    ensures Bytes(Listed(found, i)) <= 163840 || |Listed(found, i)| <= 1
    ensures if page.next == 0 then i == |found| <= limit else 0 < i && page.next == found[i - 1].id > after
  {
    var next := if |found| > limit then found[limit - 1].id else 0;
    var visited, runs := 0, [];
    var bytes: nat := 0;
    i := 0;
    while i < |found| && i < limit
      invariant i <= |found| && i <= limit && (i > 0 ==> visited == found[i - 1].id)
      invariant next == if |found| > limit then found[limit - 1].id else 0
      invariant Holds(found, i, runs, bytes) && (bytes <= 163840 || |runs| <= 1)
    {
      var row := found[i];
      ghost var wasRuns, wasBytes := runs, bytes;
      if row.current.Some? {
        if runs != [] && bytes + row.size > BYTE_BUDGET {
          next := visited;
          break;
        }
        bytes := bytes + row.size;
        runs := runs + [row.current.value];
      }
      Taken(found, i, row, wasRuns, wasBytes, runs, bytes);
      visited := row.id;
      i := i + 1;
    }
    page := Page(runs, next);
  }
}
