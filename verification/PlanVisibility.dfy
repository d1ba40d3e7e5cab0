/** `syncPlanCollapsedRows`: after a fold or unfold only the flags are refreshed,
    each row by climbing its parents. Proved equal to laying the plan out again. */
module PlanVisibility {
  import opened Common
  import opened PlanModel
  import opened PlanLayout
  import opened PlanRows
  import opened PlanGantt
  import opened PlanMeaning

  // ----- what does not depend on the view -----

  ghost predicate SameShape(a: seq<Row>, b: seq<Row>) {
    && |a| == |b|
    && (forall i :: 0 <= i < |a| ==> a[i] == b[i].(hidden := a[i].hidden, collapsed := a[i].collapsed))
  }

  lemma {:induction false} SameShapeConcat(a: seq<Row>, b: seq<Row>, n: nat, m: nat)
    requires n <= |a| && m <= |b| && SameShape(a[..n], b[..m]) && SameShape(a[n..], b[m..])
    ensures SameShape(a, b)
  {
    assert n == |a[..n]| == |b[..m]| == m;
    forall i | 0 <= i < |a| ensures a[i] == b[i].(hidden := a[i].hidden, collapsed := a[i].collapsed) {
      if i < n {
        assert a[i] == a[..n][i] && b[i] == b[..m][i];
      } else {
        assert a[i] == a[n..][i - n] && b[i] == b[m..][i - n];
      }
    }
  }

  lemma {:induction false} TreeShape(t: Tree, a: seq<Row>, b: seq<Row>, depth: nat, h0: bool, h1: bool, start: nat,
                                     v0: View, v1: View)
    requires a == Rows(t, depth, h0, start, v0) && b == Rows(t, depth, h1, start, v1)
    ensures SameShape(a, b)
    decreases t
  {
    RowsStep(t, a, depth, h0, start, v0);
    RowsStep(t, b, depth, h1, start, v1);
    ForestShape(t.kids, a[1..], b[1..], depth + 1, h0 || t.task.id in v0.collapsed,
                h1 || t.task.id in v1.collapsed, start, v0, v1);
    SameShapeConcat(a, b, 1, 1);
  }

  lemma {:induction false} ForestShape(ts: seq<Tree>, a: seq<Row>, b: seq<Row>, depth: nat, h0: bool, h1: bool,
                                       start: nat, v0: View, v1: View)
    requires a == RowsAll(ts, depth, h0, start, v0) && b == RowsAll(ts, depth, h1, start, v1)
    ensures SameShape(a, b)
    decreases ts
  {
    if ts != [] {
      var n := RowsAllStep(ts, a, depth, h0, start, v0);
      var m := RowsAllStep(ts, b, depth, h1, start, v1);
      TreeShape(ts[0], a[..n], b[..m], depth, h0, h1, start, v0, v1);
      ForestShape(ts[1..], a[n..], b[m..], depth, h0, h1, start + Loc(ts[0]), v0, v1);
      SameShapeConcat(a, b, n, m);
    }
  }

  // ----- one group -----

  /** The flags of a newly drawn row, except that the fold flag of a row
      without children is left as it was. */
  function Refreshed(drawn: Row, was: Row): Row {
    if drawn.isParent then drawn else drawn.(collapsed := was.collapsed)
  }

  function RowById(rows: seq<Row>): map<Id, Row> {
    if rows == [] then map[]
    else RowById(rows[..|rows| - 1])[rows[|rows| - 1].task.id := rows[|rows| - 1]]
  }

  lemma {:induction false} RowByIdHolds(rows: seq<Row>, id: Id)
    ensures id in RowById(rows) <==> exists i :: 0 <= i < |rows| && rows[i].task.id == id
    ensures id in RowById(rows) ==> RowById(rows)[id] in rows && RowById(rows)[id].task.id == id
  {
    if rows != [] {
      RowByIdHolds(rows[..|rows| - 1], id);
      assert rows == rows[..|rows| - 1] + [rows[|rows| - 1]];
    }
  }

  /** `rows` are the rows of the group's rooted tasks, drawn for `v`; `qs` are their root paths. */
  ghost predicate Drawing(p: Plan, gid: Option<Id>, v: View, qs: seq<seq<Task>>, rows: seq<Row>) {
    && |qs| == |rows|
    && (forall i :: 0 <= i < |qs| ==> RowOf(p, gid, v, qs[i], rows[i]))
    && (forall q :: IsPath(p, q) && GroupOf(p, Last(q)) == gid ==> q in qs)
  }

  lemma {:induction false} GroupIsDrawing(p: Plan, gid: Option<Id>, start: nat, v: View)
    requires WellFormed(p)
    ensures Drawing(p, gid, v, GroupPaths(p, gid), MakeGroup(p, gid, start, v).rows)
  {
    GroupFacts(p, gid, start, v);
    forall q | IsPath(p, q) && GroupOf(p, Last(q)) == gid ensures q in GroupPaths(p, gid) {
      PathGroup(p, q, |q| - 1);
      GroupComplete(p, gid, q);
    }
  }

  /** Looking up a row's parent id in its group climbs its root path, and stops at the root. */
  lemma {:induction false} ParentLookup(p: Plan, gid: Option<Id>, v: View, qs: seq<seq<Task>>, rows: seq<Row>,
                                        q: seq<Task>)
    requires WellFormed(p) && Drawing(p, gid, v, qs, rows) && IsPath(p, q) && GroupOf(p, Last(q)) == gid
    ensures var parent := LookupRow(RowById(rows), Last(q).parent);
            && (parent.Some? <==> |q| > 1)
            && (|q| > 1 ==> parent.value.task == q[|q| - 2])
  {
    if |q| > 1 {
      InnerLookup(p, gid, v, qs, rows, q);
    } else if Last(q).parent.Some? {
      RootLookup(p, gid, v, qs, rows, q);
    }
  }

  lemma {:induction false} InnerLookup(p: Plan, gid: Option<Id>, v: View, qs: seq<seq<Task>>, rows: seq<Row>,
                                       q: seq<Task>)
    requires WellFormed(p) && Drawing(p, gid, v, qs, rows) && IsPath(p, q) && GroupOf(p, Last(q)) == gid && |q| > 1
    ensures Last(q).parent.Some? && Last(q).parent.value in RowById(rows)
    ensures RowById(rows)[Last(q).parent.value].task == q[|q| - 2]
  {
    var q' := q[..|q| - 1];
    assert IsKid(p, Last(q'), Last(q));
    PathGroup(p, q, |q| - 1);
    PathGroup(p, q, |q| - 2);
    PathPrefix(p, q, |q| - 1);
    var i :| 0 <= i < |qs| && qs[i] == q';
    assert RowOf(p, gid, v, qs[i], rows[i]);
    RowByIdHolds(rows, Last(q').id);
    var r := RowById(rows)[Last(q').id];
    var j :| 0 <= j < |rows| && rows[j] == r;
    assert RowOf(p, gid, v, qs[j], rows[j]);
    SameIdSameTask(p, r.task, Last(q'));
  }

  lemma {:induction false} RootLookup(p: Plan, gid: Option<Id>, v: View, qs: seq<seq<Task>>, rows: seq<Row>,
                                      q: seq<Task>)
    requires WellFormed(p) && Drawing(p, gid, v, qs, rows) && IsPath(p, q) && GroupOf(p, Last(q)) == gid && |q| == 1
    requires Last(q).parent.Some?
    ensures Last(q).parent.value !in RowById(rows)
  {
    RowByIdHolds(rows, Last(q).parent.value);
    if Last(q).parent.value in RowById(rows) {
      var i :| 0 <= i < |rows| && rows[i].task.id == Last(q).parent.value;
      assert RowOf(p, gid, v, qs[i], rows[i]);
      var k :| 0 <= k < |p.tasks| && p.tasks[k] == rows[i].task;
      IndexFinds(p.tasks, k);
    }
  }

  method IndexRows(rows: seq<Row>) returns (byId: map<Id, Row>)
    ensures byId == RowById(rows)
  {
    byId := map[];
    for i := 0 to |rows|
      invariant byId == RowById(rows[..i])
    {
      assert rows[..i + 1][..i] == rows[..i];
      byId := byId[rows[i].task.id := rows[i]];
    }
    assert rows[..|rows|] == rows;
  }

  /** Whether some task above `row` is folded, by climbing parent ids among the
      rows of its group. Terminates although parent links may form cycles. */
  method FoldedAbove(row: Row, groupRows: map<Id, Row>, collapsed: set<Id>, ghost p: Plan, ghost gid: Option<Id>,
                     ghost v: View, ghost qs: seq<seq<Task>>, ghost rows: seq<Row>, ghost q: seq<Task>)
    returns (folded: bool)
    requires WellFormed(p) && Drawing(p, gid, v, qs, rows) && groupRows == RowById(rows)
    requires IsPath(p, q) && Last(q) == row.task && GroupOf(p, row.task) == gid
    ensures folded <==> exists k :: 0 <= k < |q| - 1 && q[k].id in collapsed
  {
    ghost var k := |q| - 1;
    folded := false;
    ParentLookup(p, gid, v, qs, rows, q);
    var parent := LookupRow(groupRows, row.task.parent);
    while parent.Some?
      invariant 0 <= k < |q| && !folded
      invariant parent.Some? <==> k > 0
      invariant parent.Some? ==> parent.value.task == q[k - 1]
      invariant forall m :: k <= m < |q| - 1 ==> q[m].id !in collapsed
      decreases k
    {
      if parent.value.task.id in collapsed {
        folded := true;
        break;
      }
      k := k - 1;
      PathPrefix(p, q, k + 1);
      PathGroup(p, q, k);
      PathGroup(p, q, |q| - 1);
      ParentLookup(p, gid, v, qs, rows, q[..k + 1]);
      parent := LookupRow(groupRows, parent.value.task.parent);
    }
  }

  function LookupRow(byId: map<Id, Row>, id: Option<Id>): Option<Row> {
    if id.Some? && id.value in byId then Some(byId[id.value]) else None
  }

  /** A row's flags, recomputed from its root path. */
  lemma {:induction false} RowRefreshed(p: Plan, gid: Option<Id>, v0: View, v: View, q: seq<Task>, row: Row, drawn: Row)
    requires RowOf(p, gid, v0, q, row) && RowOf(p, gid, v, q, drawn)
    requires drawn == row.(hidden := drawn.hidden, collapsed := drawn.collapsed)
    ensures Refreshed(drawn, row) == row.(
      hidden := OwnHidden(v, row.task, row.depth, row.isParent)
                || (exists k :: 0 <= k < |q| - 1 && q[k].id in v.collapsed),
      collapsed := if row.isParent then row.task.id in v.collapsed else row.collapsed)
  {
  }

  /** Refreshing one row gives the flags of the row drawn anew. */
  method SyncRow(was: Row, groupRows: map<Id, Row>, collapsed: set<Id>, shown: set<Id>, ghost p: Plan,
                 ghost gid: Option<Id>, ghost v: View, ghost qs: seq<seq<Task>>, ghost rows: seq<Row>,
                 ghost q: seq<Task>, ghost drawn: Row) returns (row: Row)
    requires WellFormed(p) && Drawing(p, gid, v, qs, rows) && groupRows == RowById(rows)
    requires RowOf(p, gid, v, q, was) && RowOf(p, gid, View(collapsed, shown), q, drawn)
    requires drawn == was.(hidden := drawn.hidden, collapsed := drawn.collapsed)
    ensures row == Refreshed(drawn, was)
  {
    row := was;
    var hidden := row.task.id !in shown && (row.depth == 0 || (!row.isParent && row.depth > 0)) && row.task.done;
    var folded := FoldedAbove(row, groupRows, collapsed, p, gid, v, qs, rows, q);
    if folded { hidden := true; }
    row := row.(hidden := hidden);
    if row.isParent {
      row := row.(collapsed := row.task.id in collapsed);
    }
    RowRefreshed(p, gid, v, View(collapsed, shown), q, was, drawn);
  }

  /** Refreshing one group's rows gives the flags of the group drawn anew. */
  method SyncRows(rows: seq<Row>, collapsed: set<Id>, shown: set<Id>, ghost p: Plan, ghost gid: Option<Id>,
                  ghost v: View, ghost qs: seq<seq<Task>>, ghost drawn: seq<Row>)
    returns (out: seq<Row>)
    requires WellFormed(p) && Drawing(p, gid, v, qs, rows) && Drawing(p, gid, View(collapsed, shown), qs, drawn)
    requires SameShape(drawn, rows)
    ensures |out| == |rows| == |drawn|
    ensures forall i :: 0 <= i < |out| ==> out[i] == Refreshed(drawn[i], rows[i])
  {
    var groupRows := IndexRows(rows);
    out := rows;
    for i := 0 to |rows|
      invariant |out| == |rows|
      invariant forall j :: 0 <= j < i ==> out[j] == Refreshed(drawn[j], rows[j])
      invariant forall j :: i <= j < |rows| ==> out[j] == rows[j]
    {
      var row := SyncRow(rows[i], groupRows, collapsed, shown, p, gid, v, qs, rows, qs[i], drawn[i]);
      out := out[i := row];
    }
  }

  // ----- the whole timeline -----

  /** `out` is `was` with its flags refreshed to those of `drawn`. */
  ghost predicate RefreshedGroups(out: seq<Group>, drawn: seq<Group>, was: seq<Group>) {
    && |out| == |drawn| == |was|
    && (forall g :: 0 <= g < |out| ==> RefreshedGroup(out[g], drawn[g], was[g]))
  }

  ghost predicate RefreshedGroup(out: Group, drawn: Group, was: Group) {
    && out == drawn.(rows := out.rows) && |out.rows| == |drawn.rows| == |was.rows|
    && (forall i :: 0 <= i < |out.rows| ==> out.rows[i] == Refreshed(drawn.rows[i], was.rows[i]))
  }

  /** `a` and `b` are one group drawn for the views `va` and `vb`. */
  ghost predicate SameGroup(p: Plan, a: Group, va: View, b: Group, vb: View)
    requires WellFormed(p)
  {
    a == MakeGroup(p, a.release, a.start, va) && b == MakeGroup(p, a.release, a.start, vb)
  }

  lemma {:induction false} SameGroupFacts(p: Plan, a: Group, va: View, b: Group, vb: View)
    requires WellFormed(p) && SameGroup(p, a, va, b, vb)
    ensures SameShape(b.rows, a.rows) && a == b.(rows := a.rows)
    ensures Drawing(p, a.release, va, GroupPaths(p, a.release), a.rows)
    ensures Drawing(p, a.release, vb, GroupPaths(p, a.release), b.rows)
  {
    ForestShape(Forest(p, a.release), b.rows, a.rows, 0, false, false, a.start, vb, va);
    GroupIsDrawing(p, a.release, a.start, va);
    GroupIsDrawing(p, a.release, a.start, vb);
    CountSameShape(b.rows, a.rows);
  }

  lemma {:induction false} CountSameShape(a: seq<Row>, b: seq<Row>)
    requires SameShape(a, b)
    ensures CountUnsized(a) == CountUnsized(b)
  {
    if a != [] {
      CountSameShape(a[..|a| - 1], b[..|b| - 1]);
    }
  }

  ghost predicate SameGroups(p: Plan, a: seq<Group>, va: View, b: seq<Group>, vb: View)
    requires WellFormed(p)
  {
    |a| == |b| && forall g :: 0 <= g < |a| ==> SameGroup(p, a[g], va, b[g], vb)
  }

  lemma {:induction false} GroupsCorrespond(p: Plan, gids: seq<Option<Id>>, n: nat, a: seq<Group>, va: View,
                                            b: seq<Group>, vb: View)
    requires WellFormed(p) && n <= |gids| && a == GroupsUpTo(p, gids, n, va) && b == GroupsUpTo(p, gids, n, vb)
    ensures SameGroups(p, a, va, b, vb)
    decreases n
  {
    if n > 0 {
      var a', b' := GroupsUpTo(p, gids, n - 1, va), GroupsUpTo(p, gids, n - 1, vb);
      GroupsCorrespond(p, gids, n - 1, a', va, b', vb);
      var ga, gb := MakeGroup(p, gids[n - 1], CursorAt(p, gids, n - 1), va),
                    MakeGroup(p, gids[n - 1], CursorAt(p, gids, n - 1), vb);
      SameGroupFacts(p, ga, va, gb, vb);
      assert Kept(ga) <==> Kept(gb);
    }
  }

  /** The button that folds a task exists on rows of tasks with children. */
  ghost predicate Foldable(p: Plan, id: Id) {
    exists t :: t in p.tasks && t.id == id && HasKids(p, t)
  }

  function Toggle(folds: set<Id>, id: Id): set<Id> {
    if id in folds then folds - {id} else folds + {id}
  }

  function ToggleAll(folds: set<Id>, ids: seq<Id>): set<Id> {
    if ids == [] then folds else Toggle(ToggleAll(folds, ids[..|ids| - 1]), ids[|ids| - 1])
  }

  function Clicks(ids: seq<Id>, id: Id): nat {
    if ids == [] then 0 else Clicks(ids[..|ids| - 1], id) + (if ids[|ids| - 1] == id then 1 else 0)
  }

  predicate Odd(n: nat) {
    if n == 0 then false else !Odd(n - 1)
  }

  /** Clicks fold and unfold: an odd number of clicks on a task changes its fold, an even number does not. */
  lemma {:induction false} ToggleAllMeans(folds: set<Id>, ids: seq<Id>, id: Id)
    ensures id in ToggleAll(folds, ids) <==> ((id in folds) != Odd(Clicks(ids, id)))
  {
    if ids != [] { ToggleAllMeans(folds, ids[..|ids| - 1], id); }
  }

  ghost predicate SameOnLeaves(p: Plan, v0: View, v: View) {
    forall t :: t in p.tasks && !HasKids(p, t) ==> (t.id in v.collapsed <==> t.id in v0.collapsed)
  }

  lemma {:induction false} RefreshedRowsDrawn(p: Plan, gid: Option<Id>, qs: seq<seq<Task>>, out: seq<Row>,
                                              drawn: seq<Row>, v: View, was: seq<Row>, v0: View)
    requires Drawing(p, gid, v0, qs, was) && Drawing(p, gid, v, qs, drawn) && SameOnLeaves(p, v0, v)
    requires |out| == |was| && forall i :: 0 <= i < |out| ==> out[i] == Refreshed(drawn[i], was[i])
    ensures out == drawn
  {
  }

  /** Where no leaf's fold changed nothing is left stale: refreshed is drawn anew. */
  lemma {:induction false} RefreshedIsDrawn(p: Plan, out: seq<Group>, drawn: seq<Group>, v: View, was: seq<Group>,
                                            v0: View)
    requires WellFormed(p) && SameGroups(p, was, v0, drawn, v) && RefreshedGroups(out, drawn, was)
    requires SameOnLeaves(p, v0, v)
    ensures out == drawn
  {
    forall g | 0 <= g < |out| ensures out[g] == drawn[g] {
      assert SameGroup(p, was[g], v0, drawn[g], v) && RefreshedGroup(out[g], drawn[g], was[g]);
      SameGroupFacts(p, was[g], v0, drawn[g], v);
      RefreshedRowsDrawn(p, was[g].release, GroupPaths(p, was[g].release), out[g].rows, drawn[g].rows,
                         v, was[g].rows, v0);
    }
  }

  lemma {:induction false} TimelineRefreshed(p: Plan, out: seq<Group>, drawn: seq<Group>, v: View, was: seq<Group>,
                                             v0: View, id: Id)
    requires WellFormed(p) && Foldable(p, id) && v == v0.(collapsed := Toggle(v0.collapsed, id))
    requires SameGroups(p, was, v0, drawn, v) && RefreshedGroups(out, drawn, was)
    ensures out == drawn
  {
    ToggleKeepsLeaves(p, v0, v, id);
    RefreshedIsDrawn(p, out, drawn, v, was, v0);
  }

  lemma {:induction false} ToggleKeepsLeaves(p: Plan, v0: View, v: View, id: Id)
    requires WellFormed(p) && Foldable(p, id) && v == v0.(collapsed := Toggle(v0.collapsed, id))
    ensures SameOnLeaves(p, v0, v)
  {
  }

  class Board {
    const plan: Plan
    const shown: set<Id>
    var collapsed: set<Id>
    var groups: seq<Group>

    /** The board shows what a layout from scratch would show. */
    ghost predicate UpToDate()
      reads this
    {
      WellFormed(plan) && groups == Timeline(plan, View(collapsed, shown))
    }

    constructor (p: Plan, folds: set<Id>, visible: set<Id>)
      requires WellFormed(p)
      ensures UpToDate() && plan == p && collapsed == folds && shown == visible
      ensures TimelineMeans(p, View(folds, visible), groups)
    {
      plan, collapsed, shown := p, folds, visible;
      var gs, _, _ := ComputeGantt(p, View(folds, visible));
      groups := gs;
    }

    /** Refreshes every row of every group for the current folds. */
    method Sync(ghost v0: View, ghost drawn: seq<Group>)
      requires WellFormed(plan) && SameGroups(plan, groups, v0, drawn, View(collapsed, shown))
      modifies this`groups
      ensures RefreshedGroups(groups, drawn, old(groups))
    {
      ghost var was := groups;
      for g := 0 to |groups|
        invariant |groups| == |was|
        invariant forall k :: 0 <= k < g ==> RefreshedGroup(groups[k], drawn[k], was[k])
        invariant forall k :: g <= k < |groups| ==> groups[k] == was[k]
      {
        assert SameGroup(plan, was[g], v0, drawn[g], View(collapsed, shown));
        SameGroupFacts(plan, was[g], v0, drawn[g], View(collapsed, shown));
        var rows := SyncRows(groups[g].rows, collapsed, shown, plan, was[g].release,
                             v0, GroupPaths(plan, was[g].release), drawn[g].rows);
        groups := groups[g := groups[g].(rows := rows)];
        assert RefreshedGroup(groups[g], drawn[g], was[g]);
      }
    }

    /** A click on a fold button. */
    method Click(id: Id)
      requires UpToDate() && Foldable(plan, id)
      modifies this
      ensures UpToDate() && collapsed == Toggle(old(collapsed), id)
    {
      ghost var v0, was := View(collapsed, shown), groups;
      if id in collapsed { collapsed := collapsed - {id}; } else { collapsed := collapsed + {id}; }
      ghost var v := View(collapsed, shown);
      ghost var drawn := Timeline(plan, v);
      GroupsCorrespond(plan, GroupIds(plan.releases), |plan.releases| + 1, was, v0, drawn, v);
      Sync(v0, drawn);
      TimelineRefreshed(plan, groups, drawn, v, was, v0, id);
    }

    /** Any sequence of clicks: the board stays what a fresh layout would show. */
    method ClickAll(ids: seq<Id>)
      requires UpToDate() && forall id :: id in ids ==> Foldable(plan, id)
      modifies this
      ensures UpToDate() && collapsed == ToggleAll(old(collapsed), ids)
      ensures TimelineMeans(plan, View(collapsed, shown), groups)
      ensures forall id :: id in collapsed <==> ((id in old(collapsed)) != Odd(Clicks(ids, id)))
    {
      ClickEach(ids);
      TimelineIs(plan, View(collapsed, shown), groups);
      forall id ensures id in collapsed <==> ((id in old(collapsed)) != Odd(Clicks(ids, id))) {
        ToggleAllMeans(old(collapsed), ids, id);
      }
    }

    method ClickEach(ids: seq<Id>)
      requires UpToDate() && forall id :: id in ids ==> Foldable(plan, id)
      modifies this
      ensures UpToDate() && collapsed == ToggleAll(old(collapsed), ids)
    {
      for n := 0 to |ids|
        invariant UpToDate() && collapsed == ToggleAll(old(collapsed), ids[..n])
      {
        assert ids[..n + 1][..n] == ids[..n];
        Click(ids[n]);
      }
      assert ids[..|ids|] == ids;
    }
  }
}
