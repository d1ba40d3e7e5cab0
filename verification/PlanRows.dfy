/** Coverage and order: the rows of a group are exactly its rooted tasks, each
    once, parents before children and siblings by (position, sequence). */
module PlanRows {
  import opened Common
  import opened PlanModel
  import opened PlanLayout

  ghost function Parent(path: seq<Task>): seq<Task>
    requires |path| > 0
  {
    path[..|path| - 1]
  }

  // ----- rows know whether their task has children -----

  ghost predicate KnowKids(p: Plan, rows: seq<Row>) {
    forall i :: 0 <= i < |rows| ==> rows[i].isParent == HasKids(p, rows[i].task)
  }

  lemma {:induction false} TreeKnowsKids(p: Plan, path: seq<Task>, t: Tree, rows: seq<Row>, depth: nat, hidden: bool,
                                         start: nat, v: View)
    requires WellFormed(p) && IsPath(p, path) && t == Grow(p, path) && rows == Rows(t, depth, hidden, start, v)
    ensures KnowKids(p, rows)
    decreases t
  {
    var ks := KidsAt(p, path, t);
    GrowAllStep(p, path, ks, t.kids);
    RowsStep(t, rows, depth, hidden, start, v);
    ForestKnowsKids(p, path, ks, t.kids, rows[1..], depth + 1, hidden || t.task.id in v.collapsed, start, v);
    assert rows == [rows[0]] + rows[1..];
  }

  lemma {:induction false} ForestKnowsKids(p: Plan, path: seq<Task>, ks: seq<Task>, ts: seq<Tree>, rows: seq<Row>,
                                           depth: nat, hidden: bool, start: nat, v: View)
    requires WellFormed(p) && |path| <= |p.tasks| && Grows(p, path, ks) && ts == GrowAll(p, path, ks)
    requires rows == RowsAll(ts, depth, hidden, start, v)
    ensures KnowKids(p, rows)
    decreases ts
  {
    GrowAllStep(p, path, ks, ts);
    if ks != [] {
      var n := RowsAllStep(ts, rows, depth, hidden, start, v);
      TreeKnowsKids(p, path + [ks[0]], ts[0], rows[..n], depth, hidden, start, v);
      ForestKnowsKids(p, path, ks[1..], ts[1..], rows[n..], depth, hidden, start + Loc(ts[0]), v);
      assert rows == rows[..n] + rows[n..];
    }
  }

  // ----- rows stand for root paths -----

  ghost predicate Through(p: Plan, path: seq<Task>, qs: seq<seq<Task>>) {
    forall i :: 0 <= i < |qs| ==> IsPath(p, qs[i]) && path <= qs[i]
  }

  ghost predicate ThroughAny(p: Plan, path: seq<Task>, ks: seq<Task>, qs: seq<seq<Task>>) {
    forall i :: 0 <= i < |qs| ==> IsPath(p, qs[i]) && path <= qs[i] && |path| < |qs[i]| && qs[i][|path|] in ks
  }

  /** Every row of a grown tree stands for a root path through the tree's root. */
  lemma {:induction false} TreeThrough(p: Plan, path: seq<Task>, t: Tree, qs: seq<seq<Task>>)
    requires WellFormed(p) && IsPath(p, path) && t == Grow(p, path) && qs == Paths(t, Parent(path))
    ensures Through(p, path, qs)
    decreases t
  {
    var ks := KidsAt(p, path, t);
    PathsStep(t, Parent(path), path, qs);
    ForestThrough(p, path, ks, t.kids, qs[1..]);
    assert qs == [path] + qs[1..];
  }

  lemma {:induction false} ForestThrough(p: Plan, path: seq<Task>, ks: seq<Task>, ts: seq<Tree>, qs: seq<seq<Task>>)
    requires WellFormed(p) && |path| <= |p.tasks| && Grows(p, path, ks) && ts == GrowAll(p, path, ks)
    requires qs == PathsAll(ts, path)
    ensures ThroughAny(p, path, ks, qs)
    decreases ts
  {
    GrowAllStep(p, path, ks, ts);
    if ks != [] {
      var n := PathsAllStep(ts, path, qs);
      assert Parent(path + [ks[0]]) == path;
      TreeThrough(p, path + [ks[0]], ts[0], qs[..n]);
      ForestThrough(p, path, ks[1..], ts[1..], qs[n..]);
      ThroughJoin(p, path, ks, qs, n);
    }
  }

  lemma {:induction false} ThroughJoin(p: Plan, path: seq<Task>, ks: seq<Task>, qs: seq<seq<Task>>, n: nat)
    requires ks != [] && n <= |qs| && Through(p, path + [ks[0]], qs[..n]) && ThroughAny(p, path, ks[1..], qs[n..])
    ensures ThroughAny(p, path, ks, qs)
  {
    forall i | 0 <= i < |qs|
      ensures IsPath(p, qs[i]) && path <= qs[i] && |path| < |qs[i]| && qs[i][|path|] in ks
    {
      if i < n {
        assert qs[i] == qs[..n][i];
        assert qs[i][|path|] == (path + [ks[0]])[|path|];
      } else {
        assert qs[i] == qs[n..][i - n];
      }
    }
  }

  /** Every root path through `path` has a row in the tree grown at `path`. */
  lemma {:induction false} TreeComplete(p: Plan, path: seq<Task>, t: Tree, qs: seq<seq<Task>>, q: seq<Task>)
    requires WellFormed(p) && IsPath(p, path) && t == Grow(p, path) && IsPath(p, q) && path <= q
    requires qs == Paths(t, Parent(path))
    ensures q in qs
    decreases t
  {
    var ks := KidsAt(p, path, t);
    PathsStep(t, Parent(path), path, qs);
    if |q| == |path| {
      assert qs[0] == q;
    } else {
      assert IsKid(p, q[|path| - 1], q[|path|]) && q[|path|] in ks;
      ForestComplete(p, path, ks, t.kids, qs[1..], q);
    }
  }

  lemma {:induction false} ForestComplete(p: Plan, path: seq<Task>, ks: seq<Task>, ts: seq<Tree>, qs: seq<seq<Task>>,
                                          q: seq<Task>)
    requires WellFormed(p) && |path| <= |p.tasks| && Grows(p, path, ks) && ts == GrowAll(p, path, ks)
    requires IsPath(p, q) && path <= q && |path| < |q| && q[|path|] in ks && qs == PathsAll(ts, path)
    ensures q in qs
    decreases ts
  {
    GrowAllStep(p, path, ks, ts);
    var n := PathsAllStep(ts, path, qs);
    if q[|path|] == ks[0] {
      var path' := path + [ks[0]];
      assert Parent(path') == path && path' <= q;
      TreeComplete(p, path', ts[0], qs[..n], q);
    } else {
      ForestComplete(p, path, ks[1..], ts[1..], qs[n..], q);
    }
  }

  // ----- order -----

  /** Depth-first order: an ancestor comes first, otherwise the branches order them. */
  ghost predicate Precedes(a: seq<Task>, b: seq<Task>) {
    || (|a| < |b| && a <= b)
    || (exists m :: SplitsAt(a, b, m))
  }

  ghost predicate SplitsAt(a: seq<Task>, b: seq<Task>, m: nat) {
    m < |a| && m < |b| && a[..m] == b[..m] && a[m] != b[m] && Ranked(a[m], b[m])
  }

  ghost predicate DepthFirst(qs: seq<seq<Task>>) {
    forall i, j :: 0 <= i < j < |qs| ==> Precedes(qs[i], qs[j])
  }

  lemma {:induction false} TreeOrder(p: Plan, path: seq<Task>, t: Tree, qs: seq<seq<Task>>)
    requires WellFormed(p) && IsPath(p, path) && t == Grow(p, path) && qs == Paths(t, Parent(path))
    ensures DepthFirst(qs)
    decreases t
  {
    var ks := KidsAt(p, path, t);
    PathsStep(t, Parent(path), path, qs);
    ForestOrder(p, path, ks, t.kids, qs[1..]);
    ForestThrough(p, path, ks, t.kids, qs[1..]);
    OrderAfterHead(p, path, ks, qs);
  }

  lemma {:induction false} ForestOrder(p: Plan, path: seq<Task>, ks: seq<Task>, ts: seq<Tree>, qs: seq<seq<Task>>)
    requires WellFormed(p) && |path| <= |p.tasks| && Grows(p, path, ks) && ts == GrowAll(p, path, ks)
    requires qs == PathsAll(ts, path) && Sorted(ks) && DistinctIds(ks)
    ensures DepthFirst(qs)
    decreases ts
  {
    GrowAllStep(p, path, ks, ts);
    if ks != [] {
      var n := PathsAllStep(ts, path, qs);
      assert Parent(path + [ks[0]]) == path;
      TreeOrder(p, path + [ks[0]], ts[0], qs[..n]);
      TreeThrough(p, path + [ks[0]], ts[0], qs[..n]);
      ForestOrder(p, path, ks[1..], ts[1..], qs[n..]);
      ForestThrough(p, path, ks[1..], ts[1..], qs[n..]);
      OrderAcross(p, path, ks, qs, n);
    }
  }

  lemma {:induction false} OrderAfterHead(p: Plan, path: seq<Task>, ks: seq<Task>, qs: seq<seq<Task>>)
    requires qs != [] && qs[0] == path && DepthFirst(qs[1..]) && ThroughAny(p, path, ks, qs[1..])
    ensures DepthFirst(qs)
  {
    forall i, j | 0 <= i < j < |qs| ensures Precedes(qs[i], qs[j]) {
      assert qs[j] == qs[1..][j - 1];
      if i > 0 { assert qs[i] == qs[1..][i - 1]; }
    }
  }

  lemma {:induction false} OrderAcross(p: Plan, path: seq<Task>, ks: seq<Task>, qs: seq<seq<Task>>, n: nat)
    requires ks != [] && Sorted(ks) && DistinctIds(ks) && n <= |qs|
    requires DepthFirst(qs[..n]) && Through(p, path + [ks[0]], qs[..n])
    requires DepthFirst(qs[n..]) && ThroughAny(p, path, ks[1..], qs[n..])
    ensures DepthFirst(qs)
  {
    forall i, j | 0 <= i < j < |qs| ensures Precedes(qs[i], qs[j]) {
      if j < n {
        assert qs[i] == qs[..n][i] && qs[j] == qs[..n][j];
      } else if i >= n {
        assert qs[i] == qs[n..][i - n] && qs[j] == qs[n..][j - n];
      } else {
        assert qs[i] == qs[..n][i] && qs[j] == qs[n..][j - n];
        BranchesSplit(path, ks, qs[i], qs[j]);
      }
    }
  }

  lemma {:induction false} BranchesSplit(path: seq<Task>, ks: seq<Task>, a: seq<Task>, b: seq<Task>)
    requires ks != [] && Sorted(ks) && DistinctIds(ks)
    requires path + [ks[0]] <= a && path <= b && |path| < |b| && b[|path|] in ks[1..]
    ensures Precedes(a, b)
  {
    assert a[|path|] == (path + [ks[0]])[|path|] == ks[0];
    assert SplitsAt(a, b, |path|);
  }

  lemma {:induction false} PrecedesDiffer(a: seq<Task>, b: seq<Task>)
    requires Precedes(a, b)
    ensures a != b
  {
  }

  /** Among children of one parent, order of rows is order by (position, sequence). */
  lemma {:induction false} SiblingsOrdered(a: seq<Task>, b: seq<Task>)
    requires |a| > 0 && |b| > 0 && Parent(a) == Parent(b) && Precedes(a, b)
    ensures Ranked(Last(a), Last(b))
  {
  }

  // ----- one group -----

  ghost function GroupPaths(p: Plan, gid: Option<Id>): seq<seq<Task>>
    requires WellFormed(p)
  {
    PathsAll(Forest(p, gid), [])
  }

  ghost predicate HasRow(rows: seq<Row>, t: Task) {
    exists i :: 0 <= i < |rows| && rows[i].task == t
  }

  lemma {:induction false} RowHasPath(p: Plan, gid: Option<Id>, v: View, q: seq<Task>, row: Row)
    requires RowOf(p, gid, v, q, row)
    ensures row.task in p.tasks && GroupOf(p, row.task) == gid && Rooted(p, row.task)
  {
    assert PathTo(p, row.task, q);
  }

  lemma {:induction false} PathHasRow(p: Plan, gid: Option<Id>, v: View, q: seq<Task>, qs: seq<seq<Task>>,
                                      rows: seq<Row>)
    requires |q| > 0 && |qs| == |rows| && q in qs && forall i :: 0 <= i < |qs| ==> RowOf(p, gid, v, qs[i], rows[i])
    ensures HasRow(rows, Last(q))
  {
    var i :| 0 <= i < |qs| && qs[i] == q;
    assert RowOf(p, gid, v, qs[i], rows[i]);
  }

  /** The paths are all root paths of the group, and the rows are theirs. */
  ghost predicate RowsOfAll(p: Plan, gid: Option<Id>, v: View, qs: seq<seq<Task>>, rows: seq<Row>) {
    && |qs| == |rows| && (forall i :: 0 <= i < |qs| ==> RowOf(p, gid, v, qs[i], rows[i]))
    && (forall q :: IsPath(p, q) && GroupOf(p, q[0]) == gid ==> q in qs)
  }

  lemma {:induction false} RowsCover(p: Plan, gid: Option<Id>, v: View, qs: seq<seq<Task>>, rows: seq<Row>, t: Task)
    requires WellFormed(p) && RowsOfAll(p, gid, v, qs, rows)
    ensures HasRow(rows, t) <==> t in p.tasks && GroupOf(p, t) == gid && Rooted(p, t)
  {
    if HasRow(rows, t) {
      var i :| 0 <= i < |rows| && rows[i].task == t;
      RowHasPath(p, gid, v, qs[i], rows[i]);
    }
    if t in p.tasks && GroupOf(p, t) == gid && Rooted(p, t) {
      var q :| PathTo(p, t, q);
      PathGroup(p, q, |q| - 1);
      PathHasRow(p, gid, v, q, qs, rows);
    }
  }

  lemma {:induction false} GroupRowsOfAll(p: Plan, gid: Option<Id>, start: nat, v: View, rows: seq<Row>)
    requires WellFormed(p) && rows == MakeGroup(p, gid, start, v).rows
    ensures RowsOfAll(p, gid, v, GroupPaths(p, gid), rows)
  {
    GroupFacts(p, gid, start, v);
    forall q | IsPath(p, q) && GroupOf(p, q[0]) == gid ensures q in GroupPaths(p, gid) { GroupComplete(p, gid, q); }
  }

  /** A task of group `gid` has a row in that group if and only if its in-group
      parent chain reaches a root. Holds whatever the parent links are. */
  lemma {:induction false} GroupCoverage(p: Plan, gid: Option<Id>, start: nat, v: View, rows: seq<Row>, t: Task)
    requires WellFormed(p) && rows == MakeGroup(p, gid, start, v).rows
    ensures HasRow(rows, t) <==> t in p.tasks && GroupOf(p, t) == gid && Rooted(p, t)
  {
    GroupRowsOfAll(p, gid, start, v, rows);
    RowsCover(p, gid, v, GroupPaths(p, gid), rows, t);
  }

  /** No task has two rows. */
  lemma {:induction false} GroupRowsDistinct(p: Plan, gid: Option<Id>, start: nat, v: View)
    requires WellFormed(p)
    ensures var rows := MakeGroup(p, gid, start, v).rows;
            forall i, j :: 0 <= i < j < |rows| ==> rows[i].task.id != rows[j].task.id
  {
    var rows := MakeGroup(p, gid, start, v).rows;
    var qs := GroupPaths(p, gid);
    GroupFacts(p, gid, start, v);
    forall i, j | 0 <= i < j < |rows| ensures rows[i].task.id != rows[j].task.id {
      PrecedesDiffer(qs[i], qs[j]);
      assert RowOf(p, gid, v, qs[i], rows[i]) && RowOf(p, gid, v, qs[j], rows[j]);
      if rows[i].task.id == rows[j].task.id {
        SameIdSameTask(p, rows[i].task, rows[j].task);
        PathsAgree(p, qs[i], qs[j]);
      }
    }
  }

  ghost predicate RowOf(p: Plan, gid: Option<Id>, v: View, q: seq<Task>, row: Row) {
    && IsPath(p, q) && GroupOf(p, Last(q)) == gid
    && row.task == Last(q) && row.depth == |q| - 1
    && row.isParent == HasKids(p, row.task)
    && row.hidden == (OwnHidden(v, row.task, row.depth, row.isParent) || AnyCollapsed(v, q, 0))
    && row.collapsed == (row.task.id in v.collapsed)
  }

  lemma {:induction false} RowOfPath(p: Plan, gid: Option<Id>, v: View, q: seq<Task>, row: Row)
    requires WellFormed(p) && IsPath(p, q) && GroupOf(p, q[0]) == gid
    requires Matches(row, q, [], 0, false, v) && row.isParent == HasKids(p, row.task)
    ensures RowOf(p, gid, v, q, row)
  {
    PathGroup(p, q, |q| - 1);
  }

  lemma {:induction false} GroupRows(p: Plan, gid: Option<Id>, start: nat, v: View, ks: seq<Task>, ts: seq<Tree>,
                                     rows: seq<Row>, qs: seq<seq<Task>>)
    requires WellFormed(p) && Grows(p, [], ks) && ts == GrowAll(p, [], ks)
    requires forall t :: t in ks ==> GroupOf(p, t) == gid
    requires rows == RowsAll(ts, 0, false, start, v) && qs == PathsAll(ts, [])
    ensures |qs| == |rows| && forall i :: 0 <= i < |qs| ==> RowOf(p, gid, v, qs[i], rows[i])
  {
    ForestKnowsKids(p, [], ks, ts, rows, 0, false, start, v);
    ForestThrough(p, [], ks, ts, qs);
    RowsAllMatch(ts, [], 0, false, start, v);
    forall i | 0 <= i < |qs| ensures RowOf(p, gid, v, qs[i], rows[i]) {
      RowOfPath(p, gid, v, qs[i], rows[i]);
    }
  }

  /** What each row of a group says, in terms of its root path alone. */
  lemma {:induction false} GroupFacts(p: Plan, gid: Option<Id>, start: nat, v: View)
    requires WellFormed(p)
    ensures |GroupPaths(p, gid)| == |MakeGroup(p, gid, start, v).rows|
    ensures forall i :: 0 <= i < |GroupPaths(p, gid)| ==>
                          RowOf(p, gid, v, GroupPaths(p, gid)[i], MakeGroup(p, gid, start, v).rows[i])
    ensures DepthFirst(GroupPaths(p, gid))
  {
    var ts := Forest(p, gid);
    var ks := RootsAt(p, gid, ts);
    GroupRows(p, gid, start, v, ks, ts, MakeGroup(p, gid, start, v).rows, GroupPaths(p, gid));
    ForestOrder(p, [], ks, ts, GroupPaths(p, gid));
  }

  lemma {:induction false} GroupComplete(p: Plan, gid: Option<Id>, q: seq<Task>)
    requires WellFormed(p) && IsPath(p, q) && GroupOf(p, q[0]) == gid
    ensures q in GroupPaths(p, gid)
  {
    var ks := RootsAt(p, gid, Forest(p, gid));
    ForestComplete(p, [], ks, Forest(p, gid), GroupPaths(p, gid), q);
  }

  /** Roots of a group, and children of one task, are listed by (position, sequence). */
  lemma {:induction false} GroupSiblingOrder(p: Plan, gid: Option<Id>, start: nat, v: View, i: nat, j: nat,
                                             a: seq<Task>, b: seq<Task>)
    requires WellFormed(p)
    requires var rows := MakeGroup(p, gid, start, v).rows;
             i < j < |rows| && PathTo(p, rows[i].task, a) && PathTo(p, rows[j].task, b)
    requires Parent(a) == Parent(b)
    ensures var x, y := MakeGroup(p, gid, start, v).rows[i].task, MakeGroup(p, gid, start, v).rows[j].task;
            x.position < y.position || (x.position == y.position && x.seqNo <= y.seqNo)
  {
    GroupFacts(p, gid, start, v);
    var qs := GroupPaths(p, gid);
    PathsAgree(p, a, qs[i]);
    PathsAgree(p, b, qs[j]);
    SiblingsOrdered(a, b);
  }
}
