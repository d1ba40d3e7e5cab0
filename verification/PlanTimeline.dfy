/** The whole timeline: which tasks have a row, over all groups. */
module PlanTimeline {
  import opened Common
  import opened PlanModel
  import opened PlanLayout
  import opened PlanRows
  import opened PlanTiling

  ghost predicate DistinctRows(rows: seq<Row>) {
    forall i, j :: 0 <= i < j < |rows| ==> rows[i].task.id != rows[j].task.id
  }

  /** The rows are those of the rooted tasks in the first `n` groups, each once. */
  ghost predicate Covered(p: Plan, gids: seq<Option<Id>>, n: nat, rows: seq<Row>)
    requires n <= |gids|
  {
    && DistinctRows(rows)
    && (forall t :: HasRow(rows, t) <==> t in p.tasks && Rooted(p, t) && GroupOf(p, t) in gids[..n])
  }

  lemma {:induction false} HasRowConcat(a: seq<Row>, b: seq<Row>, t: Task)
    ensures HasRow(a + b, t) <==> HasRow(a, t) || HasRow(b, t)
  {
    if HasRow(a, t) {
      var i :| 0 <= i < |a| && a[i].task == t;
      assert (a + b)[i].task == t;
    }
    if HasRow(b, t) {
      var i :| 0 <= i < |b| && b[i].task == t;
      assert (a + b)[|a| + i].task == t;
    }
  }

  lemma {:induction false} CoveredAppend(p: Plan, gids: seq<Option<Id>>, n: nat, rows: seq<Row>, more: seq<Row>)
    requires WellFormed(p) && n < |gids| && Distinct(gids) && Covered(p, gids, n, rows) && DistinctRows(more)
    requires forall t :: HasRow(more, t) <==> t in p.tasks && GroupOf(p, t) == gids[n] && Rooted(p, t)
    ensures Covered(p, gids, n + 1, rows + more)
  {
    assert gids[..n + 1] == gids[..n] + [gids[n]];
    forall t ensures HasRow(rows + more, t) <==> t in p.tasks && Rooted(p, t) && GroupOf(p, t) in gids[..n + 1] {
      HasRowConcat(rows, more, t);
    }
    forall i, j | 0 <= i < |rows| && 0 <= j < |more| ensures rows[i].task.id != more[j].task.id {
      assert HasRow(rows, rows[i].task) && HasRow(more, more[j].task);
      assert GroupOf(p, rows[i].task) != GroupOf(p, more[j].task);
    }
  }

  lemma {:induction false} GroupCovered(p: Plan, gid: Option<Id>, start: nat, v: View, rows: seq<Row>)
    requires WellFormed(p) && rows == MakeGroup(p, gid, start, v).rows
    ensures DistinctRows(rows)
    ensures forall t :: HasRow(rows, t) <==> t in p.tasks && GroupOf(p, t) == gid && Rooted(p, t)
  {
    GroupRowsDistinct(p, gid, start, v);
    forall t ensures HasRow(rows, t) <==> t in p.tasks && GroupOf(p, t) == gid && Rooted(p, t) {
      GroupCoverage(p, gid, start, v, rows, t);
    }
  }

  lemma {:induction false} AllRowsAppend(gs: seq<Group>, g: Group, more: seq<Group>)
    requires more == gs + (if Kept(g) then [g] else [])
    ensures AllRows(more) == AllRows(gs) + g.rows
  {
    if Kept(g) { assert more[..|more| - 1] == gs; } else { assert more == gs && g.rows == []; }
  }

  lemma {:induction false} CoveredUpTo(p: Plan, gids: seq<Option<Id>>, n: nat, v: View, gs: seq<Group>, end: nat,
                                       unsized: nat)
    requires WellFormed(p) && n <= |gids| && Distinct(gids)
    requires gs == GroupsUpTo(p, gids, n, v) && end == CursorAt(p, gids, n) && unsized == UnsizedAt(p, gids, n)
    ensures Covered(p, gids, n, AllRows(gs))
    decreases n
  {
    if n > 0 {
      var gs', end', unsized', g := LastGroup(p, gids, n, v, gs, end, unsized);
      CoveredUpTo(p, gids, n - 1, v, gs', end', unsized');
      GroupCovered(p, gids[n - 1], end', v, g.rows);
      CoveredAppend(p, gids, n - 1, AllRows(gs'), g.rows);
      AllRowsAppend(gs', g, gs);
    }
  }

  lemma {:induction false} GroupIdsDistinct(p: Plan)
    requires WellFormed(p)
    ensures Distinct(GroupIds(p.releases))
    ensures forall t :: GroupOf(p, t) in GroupIds(p.releases)
  {
    var gids := GroupIds(p.releases);
    assert gids[|p.releases|] == None;
    forall t ensures GroupOf(p, t) in gids {
      if GroupOf(p, t).Some? {
        var i :| 0 <= i < |p.releases| && p.releases[i] == t.release.value;
        assert gids[i] == GroupOf(p, t);
      }
    }
  }

  /** For every parent relation, cycles included: a task has a row if and only if
      its in-group parent chain reaches a root, and no task has two. */
  lemma {:induction false} TimelineCoverage(p: Plan, v: View)
    requires WellFormed(p)
    ensures forall t :: HasRow(AllRows(Timeline(p, v)), t) <==> t in p.tasks && Rooted(p, t)
    ensures DistinctRows(AllRows(Timeline(p, v)))
  {
    var gids := GroupIds(p.releases);
    GroupIdsDistinct(p);
    CoveredUpTo(p, gids, |gids|, v, Timeline(p, v), Total(p), UnsizedTotal(p));
    assert gids[..|gids|] == gids;
  }

  // ----- tasks without a row -----

  /** A chain of in-group parent links down to task `t`, from anywhere. */
  ghost predicate ChainTo(p: Plan, t: Task, chain: seq<Task>) {
    && |chain| > 0 && Last(chain) == t
    && (forall i :: 0 <= i < |chain| ==> chain[i] in p.tasks)
    && (forall i :: 0 < i < |chain| ==> IsKid(p, chain[i - 1], chain[i]))
  }

  /** The chain starts with a task that occurs in it again. */
  ghost predicate Loops(chain: seq<Task>) {
    exists m :: 0 < m < |chain| && chain[m] == chain[0]
  }

  /** On a cycle of in-group parent links, or below one. */
  ghost predicate Cyclic(p: Plan, t: Task) {
    exists chain :: ChainTo(p, t, chain) && Loops(chain)
  }

  /** A chain is the end of the root path to the same task. */
  lemma {:induction false} ChainOnPath(p: Plan, t: Task, chain: seq<Task>, q: seq<Task>)
    requires WellFormed(p) && ChainTo(p, t, chain) && PathTo(p, t, q)
    ensures |chain| <= |q| && chain == q[|q| - |chain|..]
    decreases |chain|
  {
    var n, m := |chain| - 1, |q| - 1;
    if n > 0 {
      assert IsKid(p, chain[n - 1], chain[n]) && (m > 0 ==> IsKid(p, q[m - 1], q[m]));
      assert m > 0;
      SameIdSameTask(p, chain[n - 1], q[m - 1]);
      PathPrefix(p, q, m);
      ChainOnPath(p, chain[n - 1], chain[..n], q[..m]);
      assert chain == chain[..n] + [t] && q == q[..m] + [t];
    }
  }

  lemma {:induction false} CyclicUnrooted(p: Plan, t: Task, chain: seq<Task>, q: seq<Task>)
    requires WellFormed(p) && ChainTo(p, t, chain) && PathTo(p, t, q)
    ensures !Loops(chain)
  {
    ChainOnPath(p, t, chain, q);
    PathDistinct(p, q);
  }

  /** Climbing from a task without a root path comes back to a task passed before. */
  lemma {:induction false} UnrootedCyclic(p: Plan, t: Task, chain: seq<Task>)
    requires WellFormed(p) && !Rooted(p, t) && ChainTo(p, t, chain) && Distinct(chain)
    ensures Cyclic(p, t)
    decreases |p.tasks| - |chain|
  {
    assert InTree(p, chain[0]) by {
      if !InTree(p, chain[0]) { assert PathTo(p, t, chain); }
    }
    var above := Index(p.tasks)[chain[0].parent.value];
    IndexHolds(p.tasks, chain[0].parent.value);
    var longer := [above] + chain;
    assert ChainTo(p, t, longer);
    if above in chain {
      var m :| 0 <= m < |chain| && chain[m] == above;
      assert longer[m + 1] == longer[0];
    } else {
      DistinctBound(longer, p.tasks);
      UnrootedCyclic(p, t, longer);
    }
  }

  /** For every parent relation: a task has no row if and only if it is on a cycle of in-group parent links or below
      one. */
  lemma {:induction false} CycleHasNoRow(p: Plan, v: View, t: Task)
    requires WellFormed(p) && t in p.tasks
    ensures !HasRow(AllRows(Timeline(p, v)), t) <==> Cyclic(p, t)
  {
    TimelineCoverage(p, v);
    if Rooted(p, t) {
      var q :| PathTo(p, t, q);
      forall chain | ChainTo(p, t, chain) ensures !Loops(chain) { CyclicUnrooted(p, t, chain, q); }
    } else {
      UnrootedCyclic(p, t, [t]);
    }
  }
}
