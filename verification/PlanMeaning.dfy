/** What the timeline must show, written on the tasks' own fields and on nothing the
    layout computes: which group a task stands in, whose child it is, in which order
    rows come, and what each row says. The layout is proved to show exactly that. */
module PlanMeaning {
  import opened Common
  import opened PlanModel
  import opened PlanLayout
  import opened PlanRows
  import opened PlanTiling
  import opened PlanTimeline

  // ----- on the tasks alone -----

  /** The release a task names, if the plan lists it; otherwise the backlog. */
  ghost predicate Home(p: Plan, t: Task, gid: Option<Id>) {
    match gid
    case Some(r) => r != "" && r in p.releases && t.release == Some(r)
    case None => t.release.None? || t.release.value == "" || t.release.value !in p.releases
  }

  /** Both in the backlog, or both in the same listed release. */
  ghost predicate SameHome(p: Plan, a: Task, c: Task) {
    if Home(p, a, None) then Home(p, c, None) else a.release == c.release
  }

  /** The child names the parent, and both stand in the same group. */
  ghost predicate ParentOf(p: Plan, a: Task, c: Task) {
    a in p.tasks && c.parent == Some(a.id) && SameHome(p, a, c)
  }

  /** From a task without a parent down to a task. */
  ghost predicate Descent(p: Plan, q: seq<Task>) {
    && |q| > 0 && (forall i :: 0 <= i < |q| ==> q[i] in p.tasks)
    && (forall a :: !ParentOf(p, a, q[0]))
    && (forall i :: 0 < i < |q| ==> Linked(p, q, i))
  }

  ghost predicate Linked(p: Plan, q: seq<Task>, i: nat)
    requires 0 < i < |q|
  {
    ParentOf(p, q[i - 1], q[i])
  }

  /** Depth first: an ancestor before its descendants, and where two descents part, the earlier position, and of
      equal positions the lower sequence number. */
  ghost predicate Earlier(a: seq<Task>, b: seq<Task>) {
    || (|a| < |b| && a <= b)
    || (exists m :: PartsAt(a, b, m))
  }

  ghost predicate PartsAt(a: seq<Task>, b: seq<Task>, m: nat) {
    && m < |a| && m < |b| && a[..m] == b[..m] && a[m] != b[m]
    && (a[m].position < b[m].position || (a[m].position == b[m].position && a[m].seqNo <= b[m].seqNo))
  }

  // ----- on the rows -----

  /** A row of group `gid` for the last task of the descent `q`. */
  ghost predicate RowMeans(p: Plan, v: View, gid: Option<Id>, row: Row, q: seq<Task>) {
    && Descent(p, q) && row.task == q[|q| - 1] && Home(p, row.task, gid)
    && row.depth == |q| - 1
    && (row.isParent <==> exists c :: c in p.tasks && ParentOf(p, row.task, c))
    && (row.isUnsized <==> !row.isParent && row.task.loc.None?)
    && (row.collapsed <==> row.task.id in v.collapsed)
    && (row.hidden <==>
        || (row.task.done && row.task.id !in v.shown && (|q| == 1 || !row.isParent))
        || (exists k :: 0 <= k < |q| - 1 && q[k].id in v.collapsed))
  }

  /** One row for every task of the group that has a descent, and no other, in depth-first order. */
  ghost predicate GroupMeans(p: Plan, v: View, g: Group) {
    exists qs: seq<seq<Task>> :: RowsMean(p, v, g.release, g.rows, qs)
  }

  ghost predicate RowsMean(p: Plan, v: View, gid: Option<Id>, rows: seq<Row>, qs: seq<seq<Task>>) {
    && |qs| == |rows|
    && (forall i :: 0 <= i < |qs| ==> RowMeans(p, v, gid, rows[i], qs[i]))
    && (forall i, j :: 0 <= i < j < |qs| ==> Earlier(qs[i], qs[j]) && rows[i].task != rows[j].task)
    && (forall q :: Descent(p, q) && Home(p, q[|q| - 1], gid) ==> q in qs)
  }

  ghost predicate HasBacklog(p: Plan) {
    exists q :: Descent(p, q) && Home(p, q[|q| - 1], None)
  }

  /** The releases in order, then the backlog if it has a row. */
  ghost predicate TimelineMeans(p: Plan, v: View, groups: seq<Group>) {
    && |p.releases| <= |groups| <= |p.releases| + 1
    && (forall i :: 0 <= i < |p.releases| ==> groups[i].release == Some(p.releases[i]))
    && (|groups| > |p.releases| ==> groups[|p.releases|].release == None)
    && (|groups| > |p.releases| <==> HasBacklog(p))
    && AllMean(p, v, groups)
  }

  // ----- the layout's own notions agree -----

  lemma {:induction false} HomeIs(p: Plan, t: Task, gid: Option<Id>)
    ensures Home(p, t, gid) <==> GroupOf(p, t) == gid
  {
  }

  lemma {:induction false} ParentIs(p: Plan, a: Task, c: Task)
    requires WellFormed(p) && a in p.tasks
    ensures ParentOf(p, a, c) <==> IsKid(p, a, c)
  {
    if c.parent == Some(a.id) {
      var i :| 0 <= i < |p.tasks| && p.tasks[i] == a;
      IndexFinds(p.tasks, i);
    }
  }

  lemma {:induction false} RootIs(p: Plan, t: Task)
    requires WellFormed(p)
    ensures (forall a :: !ParentOf(p, a, t)) <==> !InTree(p, t)
  {
    forall a | ParentOf(p, a, t) ensures InTree(p, t) { ParentIs(p, a, t); }
    if InTree(p, t) {
      var id := t.parent.value;
      IndexHolds(p.tasks, id);
      ParentIs(p, Index(p.tasks)[id], t);
    }
  }

  lemma {:induction false} DescentIs(p: Plan, q: seq<Task>)
    requires WellFormed(p)
    ensures Descent(p, q) <==> IsPath(p, q)
  {
    if |q| > 0 && forall i :: 0 <= i < |q| ==> q[i] in p.tasks {
      RootIs(p, q[0]);
      forall i | 0 < i < |q| ensures Linked(p, q, i) <==> IsKid(p, q[i - 1], q[i]) {
        ParentIs(p, q[i - 1], q[i]);
      }
    }
  }

  lemma {:induction false} HasKidsIs(p: Plan, t: Task)
    requires WellFormed(p) && t in p.tasks
    ensures HasKids(p, t) <==> exists c :: c in p.tasks && ParentOf(p, t, c)
  {
    forall c | c in p.tasks ensures ParentOf(p, t, c) <==> IsKid(p, t, c) { ParentIs(p, t, c); }
  }

  lemma {:induction false} PrecedesIs(a: seq<Task>, b: seq<Task>)
    requires Precedes(a, b)
    ensures Earlier(a, b)
  {
    if !(|a| < |b| && a <= b) {
      var m :| SplitsAt(a, b, m);
      assert PartsAt(a, b, m);
    }
  }

  // ----- unsized leaves -----

  ghost predicate UnsizedOk(row: Row) {
    row.isUnsized <==> !row.isParent && row.task.loc.None?
  }

  lemma {:induction false} TreeUnsized(t: Tree, rows: seq<Row>, depth: nat, hidden: bool, start: nat, v: View)
    requires rows == Rows(t, depth, hidden, start, v)
    ensures forall i :: 0 <= i < |rows| ==> UnsizedOk(rows[i])
    decreases t
  {
    RowsStep(t, rows, depth, hidden, start, v);
    ForestUnsized(t.kids, rows[1..], depth + 1, hidden || t.task.id in v.collapsed, start, v);
    forall i | 0 <= i < |rows| ensures UnsizedOk(rows[i]) {
      if i > 0 { assert rows[i] == rows[1..][i - 1]; }
    }
  }

  lemma {:induction false} ForestUnsized(ts: seq<Tree>, rows: seq<Row>, depth: nat, hidden: bool, start: nat, v: View)
    requires rows == RowsAll(ts, depth, hidden, start, v)
    ensures forall i :: 0 <= i < |rows| ==> UnsizedOk(rows[i])
    decreases ts
  {
    if ts != [] {
      var n := RowsAllStep(ts, rows, depth, hidden, start, v);
      TreeUnsized(ts[0], rows[..n], depth, hidden, start, v);
      ForestUnsized(ts[1..], rows[n..], depth, hidden, start + Loc(ts[0]), v);
      forall i | 0 <= i < |rows| ensures UnsizedOk(rows[i]) {
        if i < n { assert rows[i] == rows[..n][i]; } else { assert rows[i] == rows[n..][i - n]; }
      }
    }
  }

  // ----- the theorems -----

  lemma {:induction false} RowIs(p: Plan, v: View, gid: Option<Id>, row: Row, q: seq<Task>)
    requires WellFormed(p) && RowOf(p, gid, v, q, row) && UnsizedOk(row)
    ensures RowMeans(p, v, gid, row, q)
  {
    DescentIs(p, q);
    HomeIs(p, row.task, gid);
    HasKidsIs(p, row.task);
  }

  lemma {:induction false} DescentDrawn(p: Plan, gid: Option<Id>, q: seq<Task>)
    requires WellFormed(p) && Descent(p, q) && Home(p, q[|q| - 1], gid)
    ensures q in GroupPaths(p, gid)
  {
    DescentIs(p, q);
    PathGroup(p, q, |q| - 1);
    GroupComplete(p, gid, q);
  }

  lemma {:induction false} GroupIs(p: Plan, v: View, gid: Option<Id>, start: nat, g: Group)
    requires WellFormed(p) && g == MakeGroup(p, gid, start, v)
    ensures GroupMeans(p, v, g)
  {
    var qs := GroupPaths(p, gid);
    GroupFacts(p, gid, start, v);
    GroupRowsDistinct(p, gid, start, v);
    ForestUnsized(Forest(p, gid), g.rows, 0, false, start, v);
    forall i | 0 <= i < |qs| ensures RowMeans(p, v, g.release, g.rows[i], qs[i]) {
      RowIs(p, v, gid, g.rows[i], qs[i]);
    }
    forall i, j | 0 <= i < j < |qs| ensures Earlier(qs[i], qs[j]) && g.rows[i].task != g.rows[j].task {
      PrecedesIs(qs[i], qs[j]);
    }
    forall q | Descent(p, q) && Home(p, q[|q| - 1], g.release) ensures q in qs { DescentDrawn(p, gid, q); }
    assert RowsMean(p, v, gid, g.rows, qs);
  }

  ghost predicate AllMean(p: Plan, v: View, gs: seq<Group>) {
    forall i :: 0 <= i < |gs| ==> GroupMeans(p, v, gs[i])
  }

  ghost predicate InReleaseOrder(p: Plan, n: nat, gs: seq<Group>) {
    |gs| == n <= |p.releases| && forall i :: 0 <= i < n ==> gs[i].release == Some(p.releases[i])
  }

  /** What holds of every group the plan can be cut into, and in release order. */
  ghost predicate Listing(p: Plan, n: nat, gs: seq<Group>, ok: Group -> bool) {
    InReleaseOrder(p, n, gs) && forall i :: 0 <= i < |gs| ==> ok(gs[i])
  }

  lemma {:induction false} ListingNext(p: Plan, n: nat, front: seq<Group>, g: Group, gs: seq<Group>, ok: Group -> bool)
    requires 0 < n <= |p.releases| && Listing(p, n - 1, front, ok) && ok(g) && g.release == Some(p.releases[n - 1])
    requires gs == front + (if Kept(g) then [g] else [])
    ensures Listing(p, n, gs, ok)
  {
  }

  ghost predicate OkOfEvery(p: Plan, v: View, ok: Group -> bool)
    requires WellFormed(p)
  {
    forall gid, start :: ok(MakeGroup(p, gid, start, v))
  }

  lemma {:induction false} GroupBefore(p: Plan, gids: seq<Option<Id>>, n: nat, v: View, gs: seq<Group>,
                                       ok: Group -> bool) returns (front: seq<Group>, g: Group)
    requires WellFormed(p) && 0 < n <= |gids| && gs == GroupsUpTo(p, gids, n, v)
    requires OkOfEvery(p, v, ok)
    ensures front == GroupsUpTo(p, gids, n - 1, v) && gs == front + (if Kept(g) then [g] else [])
    ensures g.release == gids[n - 1] && ok(g)
  {
    var start := CursorAt(p, gids, n - 1);
    front, g := GroupsUpTo(p, gids, n - 1, v), MakeGroup(p, gids[n - 1], start, v);
  }

  /** The groups drawn up to each release, as a function of how many releases those are. */
  ghost function UpTo(p: Plan, gids: seq<Option<Id>>, v: View): nat -> seq<Group>
    requires WellFormed(p)
  {
    (n: nat) => if n <= |gids| then GroupsUpTo(p, gids, n, v) else []
  }

  /** Going to release number `n`, a group that is fine joins the groups before it. */
  ghost predicate Joins(p: Plan, upTo: nat -> seq<Group>, ok: Group -> bool, n: nat) {
    0 < n <= |p.releases| ==>
      exists g :: ok(g) && g.release == Some(p.releases[n - 1]) && upTo(n) == upTo(n - 1) + if Kept(g) then [g] else []
  }

  lemma {:induction false} JoinedGroups(p: Plan, n: nat, upTo: nat -> seq<Group>, ok: Group -> bool)
    requires n <= |p.releases| && upTo(0) == [] && forall k: nat :: Joins(p, upTo, ok, k)
    ensures Listing(p, n, upTo(n), ok)
  {
    if n > 0 {
      JoinedGroups(p, n - 1, upTo, ok);
      assert Joins(p, upTo, ok, n);
      var g :| ok(g) && g.release == Some(p.releases[n - 1]) && upTo(n) == upTo(n - 1) + if Kept(g) then [g] else [];
      ListingNext(p, n, upTo(n - 1), g, upTo(n), ok);
    }
  }

  lemma {:induction false} ReleaseGroups(p: Plan, gids: seq<Option<Id>>, v: View, n: nat, gs: seq<Group>,
                                         ok: Group -> bool)
    requires WellFormed(p) && gids == GroupIds(p.releases) && n <= |p.releases| && gs == GroupsUpTo(p, gids, n, v)
    requires OkOfEvery(p, v, ok)
    ensures Listing(p, n, gs, ok)
  {
    var upTo := UpTo(p, gids, v);
    forall k: nat ensures Joins(p, upTo, ok, k) { GroupJoins(p, gids, v, k, upTo, ok); }
    JoinedGroups(p, n, upTo, ok);
  }

  lemma {:induction false} GroupJoins(p: Plan, gids: seq<Option<Id>>, v: View, n: nat, upTo: nat -> seq<Group>,
                                      ok: Group -> bool)
    requires WellFormed(p) && gids == GroupIds(p.releases) && upTo == UpTo(p, gids, v) && OkOfEvery(p, v, ok)
    ensures Joins(p, upTo, ok, n)
  {
    if 0 < n <= |p.releases| {
      var front, g := GroupBefore(p, gids, n, v, GroupsUpTo(p, gids, n, v), ok);
    }
  }

  /** The groups of a timeline: those of the releases, and the backlog if it has rows. */
  lemma {:induction false} TimelineParts(p: Plan, v: View, gs: seq<Group>, ok: Group -> bool)
    returns (front: seq<Group>, g: Group)
    requires WellFormed(p) && gs == Timeline(p, v)
    requires OkOfEvery(p, v, ok)
    ensures InReleaseOrder(p, |p.releases|, front) && (forall i :: 0 <= i < |front| ==> ok(front[i]))
    ensures g.release == None && ok(g) && gs == front + (if g.rows != [] then [g] else [])
  {
    var gids, n := GroupIds(p.releases), |p.releases|;
    front, g := GroupBefore(p, gids, n + 1, v, gs, ok);
    ReleaseGroups(p, gids, v, n, front, ok);
  }

  lemma {:induction false} RowsKept(p: Plan, v: View, rows: seq<Row>, qs: seq<seq<Task>>)
    requires RowsMean(p, v, None, rows, qs)
    ensures rows != [] <==> HasBacklog(p)
  {
    if rows != [] {
      assert RowMeans(p, v, None, rows[0], qs[0]);
    }
  }

  lemma {:induction false} BacklogKept(p: Plan, v: View, g: Group)
    requires GroupMeans(p, v, g) && g.release == None
    ensures g.rows != [] <==> HasBacklog(p)
  {
    var qs :| RowsMean(p, v, None, g.rows, qs);
    RowsKept(p, v, g.rows, qs);
  }

  lemma {:induction false} WithBacklog(p: Plan, v: View, front: seq<Group>, g: Group, gs: seq<Group>, ok: Group -> bool)
    requires InReleaseOrder(p, |p.releases|, front) && (forall i :: 0 <= i < |front| ==> ok(front[i]))
    requires g.release == None && ok(g) && gs == front + (if g.rows != [] then [g] else [])
    ensures |gs| == |p.releases| + if g.rows != [] then 1 else 0
    ensures forall i :: 0 <= i < |p.releases| ==> gs[i].release == Some(p.releases[i])
    ensures |gs| > |p.releases| ==> gs[|p.releases|].release == None
    ensures forall i :: 0 <= i < |gs| ==> ok(gs[i])
  {
  }

  ghost function Meaning(p: Plan, v: View): Group -> bool {
    (g: Group) => GroupMeans(p, v, g)
  }

  /** The timeline shows exactly what the tasks' fields say. */
  lemma {:induction false} TimelineIs(p: Plan, v: View, gs: seq<Group>)
    requires WellFormed(p) && gs == Timeline(p, v)
    ensures TimelineMeans(p, v, gs)
  {
    var ok := Meaning(p, v);
    forall gid, start ensures ok(MakeGroup(p, gid, start, v)) {
      GroupIs(p, v, gid, start, MakeGroup(p, gid, start, v));
    }
    var front, g := TimelineParts(p, v, gs, ok);
    WithBacklog(p, v, front, g, gs, ok);
    BacklogKept(p, v, g);
  }
}
