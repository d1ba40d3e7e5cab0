/** `computeGantt`: the walk that advances one shared cursor and pushes rows,
    proved to compute the `Timeline` of `PlanLayout` for every parent relation. */
module PlanGantt {
  import opened Common
  import opened PlanModel
  import opened PlanLayout
  import opened PlanMeaning
  import opened PlanTiling

  // ----- appending one tree to a partly walked forest -----

  lemma {:induction false} SumsSnoc(ts: seq<Tree>, t: Tree)
    ensures LocAll(ts + [t]) == LocAll(ts) + Loc(t)
    ensures DoneLocAll(ts + [t]) == DoneLocAll(ts) + DoneLoc(t)
    ensures UnsizedAll(ts + [t]) == UnsizedAll(ts) + Unsized(t)
  {
    if ts == [] {
      assert ts + [t] == [t] && [t][1..] == [];
    } else {
      assert (ts + [t])[1..] == ts[1..] + [t];
      SumsSnoc(ts[1..], t);
    }
  }

  lemma {:induction false} RowsSnoc(ts: seq<Tree>, t: Tree, depth: nat, hidden: bool, start: nat, v: View)
    ensures RowsAll(ts + [t], depth, hidden, start, v)
         == RowsAll(ts, depth, hidden, start, v) + Rows(t, depth, hidden, start + LocAll(ts), v)
  {
    if ts == [] {
      assert ts + [t] == [t] && [t][1..] == [];
      assert RowsAll([], depth, hidden, start + Loc(t), v) == [];
    } else {
      assert (ts + [t])[0] == ts[0] && (ts + [t])[1..] == ts[1..] + [t];
      RowsSnoc(ts[1..], t, depth, hidden, start + Loc(ts[0]), v);
    }
  }

  lemma {:induction false} GrowAllAt(p: Plan, path: seq<Task>, ks: seq<Task>, ts: seq<Tree>, i: nat)
    requires WellFormed(p) && |path| <= |p.tasks| && Grows(p, path, ks) && ts == GrowAll(p, path, ks)
    ensures |ts| == |ks|
    ensures i < |ks| ==> IsPath(p, path + [ks[i]]) && ts[i] == Grow(p, path + [ks[i]])
    decreases ts
  {
    GrowAllStep(p, path, ks, ts);
    if ks != [] {
      GrowAllAt(p, path, ks[1..], ts[1..], if i == 0 then 0 else i - 1);
    }
  }

  /** The first `i` trees of `ts` have been appended after `before`. */
  ghost predicate Appended(ts: seq<Tree>, i: nat, depth: nat, hidden: bool, start: nat, v: View, before: seq<Row>,
                           rows: seq<Row>, cursor: nat, unsized: int) {
    && i <= |ts|
    && rows == before + RowsAll(ts[..i], depth, hidden, start, v)
    && cursor == start + LocAll(ts[..i])
    && unsized == UnsizedAll(ts[..i])
  }

  lemma {:induction false} AppendedNone(ts: seq<Tree>, depth: nat, hidden: bool, start: nat, v: View, before: seq<Row>)
    ensures Appended(ts, 0, depth, hidden, start, v, before, before, start, 0)
  {
  }

  lemma {:induction false} AppendedStep(ts: seq<Tree>, i: nat, depth: nat, hidden: bool, start: nat, v: View,
                                        before: seq<Row>, rows: seq<Row>, cursor: nat, unsized: int, rows': seq<Row>,
                                        cursor': nat, unsized': int)
    requires Appended(ts, i, depth, hidden, start, v, before, rows, cursor, unsized) && i < |ts|
    requires rows' == rows + Rows(ts[i], depth, hidden, cursor, v)
    requires cursor' == cursor + Loc(ts[i]) && unsized' == unsized + Unsized(ts[i])
    ensures Appended(ts, i + 1, depth, hidden, start, v, before, rows', cursor', unsized')
  {
    assert ts[..i + 1] == ts[..i] + [ts[i]];
    SumsSnoc(ts[..i], ts[i]);
    RowsSnoc(ts[..i], ts[i], depth, hidden, start, v);
  }

  lemma {:induction false} AppendedRestamp(ts: seq<Tree>, i: nat, depth: nat, hidden: bool, start: nat, v: View,
                                           before: seq<Row>, row: Row, row': Row, rows: seq<Row>, rows': seq<Row>,
                                           cursor: nat, unsized: int)
    requires Appended(ts, i, depth, hidden, start, v, before + [row], rows, cursor, unsized)
    requires |rows| > |before| && rows' == rows[|before| := row']
    ensures Appended(ts, i, depth, hidden, start, v, before + [row'], rows', cursor, unsized)
  {
  }

  lemma {:induction false} AppendedAll(ts: seq<Tree>, depth: nat, hidden: bool, start: nat, v: View, before: seq<Row>,
                                       rows: seq<Row>, cursor: nat, unsized: int)
    requires Appended(ts, |ts|, depth, hidden, start, v, before, rows, cursor, unsized)
    ensures rows == before + RowsAll(ts, depth, hidden, start, v)
    ensures cursor == start + LocAll(ts) && unsized == UnsizedAll(ts)
  {
    assert ts[..|ts|] == ts;
  }

  /** The fields a parent row has accumulated from its first `i` children. */
  ghost predicate Accumulated(ts: seq<Tree>, i: nat, first: Row, row: Row) {
    && i <= |ts|
    && row == first.(subtreeLoc := LocAll(ts[..i]), doneLoc := DoneLocAll(ts[..i]), unsizedCount := UnsizedAll(ts[..i]))
  }

  lemma {:induction false} AccumulatedStep(ts: seq<Tree>, i: nat, first: Row, row: Row, child: Row, row': Row,
                                           depth: nat, hidden: bool, start: nat, v: View)
    requires Accumulated(ts, i, first, row) && i < |ts| && child == Head(ts[i], depth, hidden, start, v)
    requires row' == row.(subtreeLoc := row.subtreeLoc + child.subtreeLoc, doneLoc := row.doneLoc + child.doneLoc,
                          unsizedCount := row.unsizedCount + child.unsizedCount)
    ensures Accumulated(ts, i + 1, first, row')
  {
    assert ts[..i + 1] == ts[..i] + [ts[i]];
    SumsSnoc(ts[..i], ts[i]);
  }

  /** One child walked and added to its parent row. */
  lemma {:induction false} ChildAdded(ts: seq<Tree>, i: nat, depth: nat, hidden: bool, start: nat, v: View,
                                      before: seq<Row>, first: Row, row: Row, rows: seq<Row>, cursor: nat, unsized: int,
                                      child: Row, walked: seq<Row>, cursor': nat, unsized': int, row': Row,
                                      rows': seq<Row>)
    requires i < |ts| && Accumulated(ts, i, first, row)
    requires Appended(ts, i, depth, hidden, start, v, before + [row], rows, cursor, unsized)
    requires walked == rows + Rows(ts[i], depth, hidden, cursor, v) && child == Head(ts[i], depth, hidden, cursor, v)
    requires cursor' == cursor + Loc(ts[i]) && unsized' == unsized + Unsized(ts[i])
    requires row' == row.(subtreeLoc := row.subtreeLoc + child.subtreeLoc, doneLoc := row.doneLoc + child.doneLoc,
                          unsizedCount := row.unsizedCount + child.unsizedCount)
    requires |walked| > |before| && rows' == walked[|before| := row']
    ensures Accumulated(ts, i + 1, first, row')
    ensures Appended(ts, i + 1, depth, hidden, start, v, before + [row'], rows', cursor', unsized')
  {
    AppendedStep(ts, i, depth, hidden, start, v, before + [row], rows, cursor, unsized, walked, cursor', unsized');
    AccumulatedStep(ts, i, first, row, child, row', depth, hidden, cursor, v);
    AppendedRestamp(ts, i + 1, depth, hidden, start, v, before, row, row', walked, rows', cursor', unsized');
  }

  function Lookup(kids: map<Id, seq<Task>>, id: Id): seq<Task> {
    if id in kids then kids[id] else []
  }

  class Walker {
    const plan: Plan
    const view: View
    const kids: map<Id, seq<Task>>
    var rows: seq<Row>
    var cursor: nat
    var unsizedCount: nat

    ghost predicate Ready() {
      WellFormed(plan) && KidLists(plan, kids)
    }

    constructor (p: Plan, v: View)
      requires WellFormed(p)
      ensures plan == p && view == v && rows == [] && cursor == 0 && unsizedCount == 0 && Ready()
    {
      plan, view := p, v;
      rows, cursor, unsizedCount := [], 0, 0;
      var lists := ChildLists(p);
      kids := lists;
    }

    /** Walks the subtree of `t`, whose root path is `path`: appends its rows in
        depth-first order, advances the cursor over its sized leaves and counts
        its unsized ones. */
    method Walk(t: Task, depth: nat, hidden: bool, ghost path: seq<Task>, ghost tree: Tree) returns (row: Row)
      requires Ready() && IsPath(plan, path) && Last(path) == t && tree == Grow(plan, path)
      modifies this`rows, this`cursor, this`unsizedCount
      ensures rows == old(rows) + Rows(tree, depth, hidden, old(cursor), view)
      ensures row == Head(tree, depth, hidden, old(cursor), view)
      ensures cursor == old(cursor) + Loc(tree)
      ensures unsizedCount == old(unsizedCount) + Unsized(tree)
      decreases tree, 2
    {
      var children := Lookup(kids, t.id);
      ChildrenGrow(plan, kids, path, tree);
      row := NewRow(t, depth, children != [], hidden, cursor, view);
      if children == [] {
        row := PlaceLeaf(row);
        LeafHead(tree, depth, hidden, old(cursor), view, row);
        LeafRows(tree, depth, hidden, old(cursor), view, old(rows), rows, row);
      } else {
        row := PlaceParent(row, children, hidden, path, tree.kids);
        ParentHead(tree, depth, hidden, old(cursor), view, row);
        ParentRows(tree, depth, hidden, old(cursor), view, old(rows), row, rows);
      }
    }

    /** A task without children: a sized one advances the cursor, an unsized one is counted. */
    method PlaceLeaf(first: Row) returns (row: Row)
      modifies this`rows, this`cursor, this`unsizedCount
      ensures row == LeafRow(first) && rows == old(rows) + [row]
      ensures cursor == old(cursor) + (if first.task.loc.Some? then first.task.loc.value else 0)
      ensures unsizedCount == old(unsizedCount) + (if first.task.loc.None? then 1 else 0)
    {
      var mark := |rows|;
      row := first;
      rows := rows + [row];
      if row.task.loc.None? {
        row := row.(isUnsized := true, unsizedCount := 1);
        unsizedCount := unsizedCount + 1;
      } else {
        var loc := row.task.loc.value;
        row := row.(width := loc, subtreeLoc := loc, doneLoc := if row.task.done then loc else 0);
        cursor := cursor + row.width;
      }
      rows := rows[mark := row];
    }

    /** A task with children: it spans what they advance the cursor by. */
    method PlaceParent(first: Row, children: seq<Task>, hidden: bool, ghost path: seq<Task>, ghost ts: seq<Tree>)
      returns (row: Row)
      requires Ready() && |path| <= |plan.tasks| && Grows(plan, path, children) && ts == GrowAll(plan, path, children)
      requires first.start == cursor && first.subtreeLoc == first.doneLoc == first.unsizedCount == 0
      modifies this`rows, this`cursor, this`unsizedCount
      ensures row == ParentRow(first, ts)
      ensures rows == old(rows) + [row] + RowsAll(ts, first.depth + 1, hidden || first.collapsed, old(cursor), view)
      ensures cursor == old(cursor) + LocAll(ts) && unsizedCount == old(unsizedCount) + UnsizedAll(ts)
      decreases ts, 1
    {
      var mark := |rows|;
      rows := rows + [first];
      ghost var before := rows[..mark];
      row := WalkChildren(first, mark, children, hidden, path, ts);
      AppendedAll(ts, first.depth + 1, hidden || first.collapsed, old(cursor), view, before + [row], rows, cursor,
                  unsizedCount - old(unsizedCount));
      assert ts[..|ts|] == ts && before == old(rows);
      ghost var narrow := row;
      row := row.(width := cursor - row.start);
      RowsStamped(before, narrow, row, rows,
                  RowsAll(ts, first.depth + 1, hidden || first.collapsed, old(cursor), view));
      rows := rows[mark := row];
    }

    /** The children in order, each added to the parent row at `mark`. */
    method WalkChildren(first: Row, mark: nat, children: seq<Task>, hidden: bool, ghost path: seq<Task>,
                        ghost ts: seq<Tree>) returns (row: Row)
      requires Ready() && |path| <= |plan.tasks| && Grows(plan, path, children) && ts == GrowAll(plan, path, children)
      requires |rows| == mark + 1 && rows[mark] == first && first.start == cursor
      requires first.subtreeLoc == first.doneLoc == first.unsizedCount == 0
      modifies this`rows, this`cursor, this`unsizedCount
      ensures Accumulated(ts, |ts|, first, row)
      ensures Appended(ts, |ts|, first.depth + 1, hidden || first.collapsed, old(cursor), view,
                       old(rows)[..mark] + [row], rows, cursor, unsizedCount - old(unsizedCount))
      decreases ts, 0
    {
      ghost var before, start, unsized := rows[..mark], cursor, unsizedCount;
      var depth, below := first.depth + 1, hidden || first.collapsed;
      GrowAllAt(plan, path, children, ts, 0);
      row := first;
      assert rows == before + [row] && ts[..0] == [];
      AppendedNone(ts, depth, below, start, view, before + [row]);
      for i := 0 to |children|
        invariant Accumulated(ts, i, first, row)
        invariant Appended(ts, i, depth, below, start, view, before + [row], rows, cursor, unsizedCount - unsized)
      {
        ghost var rows0, cursor0, unsized0 := rows, cursor, unsizedCount - unsized;
        GrowAllAt(plan, path, children, ts, i);
        var child := Walk(children[i], depth, below, path + [children[i]], ts[i]);
        ghost var walked, row0 := rows, row;
        row := row.(subtreeLoc := row.subtreeLoc + child.subtreeLoc, doneLoc := row.doneLoc + child.doneLoc,
                    unsizedCount := row.unsizedCount + child.unsizedCount);
        rows := rows[mark := row];
        ChildAdded(ts, i, depth, below, start, view, before, first, row0, rows0, cursor0, unsized0, child,
                   walked, cursor, unsizedCount - unsized, row, rows);
      }
    }
  }

  lemma {:induction false} ChildrenGrow(p: Plan, kids: map<Id, seq<Task>>, path: seq<Task>, tree: Tree)
    requires WellFormed(p) && KidLists(p, kids) && IsPath(p, path) && tree == Grow(p, path)
    ensures var children := Lookup(kids, tree.task.id);
            && tree.task == Last(path) && |path| <= |p.tasks| && Grows(p, path, children)
            && tree.kids == GrowAll(p, path, children) && (children == [] <==> tree.kids == [])
  {
    GrowStep(p, path, tree);
    assert KidList(p, kids, tree.task.id);
    GrowAllStep(p, path, Kids(p, tree.task), tree.kids);
  }

  /** The row of a task before its size is known. */
  function NewRow(t: Task, depth: nat, isParent: bool, hidden: bool, start: nat, view: View): Row {
    var rootDone := depth == 0 && t.done;
    var nestedDoneLeaf := depth > 0 && t.done && !isParent;
    var explicitlyVisible := t.id in view.shown;
    Row(t, depth, isParent, hidden || (!explicitlyVisible && (rootDone || nestedDoneLeaf)),
        start, 0, 0, 0, 0, false, t.id in view.collapsed)
  }

  ghost function LeafRow(first: Row): Row {
    if first.task.loc.None? then first.(isUnsized := true, unsizedCount := 1)
    else
      var loc := first.task.loc.value;
      first.(width := loc, subtreeLoc := loc, doneLoc := if first.task.done then loc else 0)
  }

  ghost function ParentRow(first: Row, ts: seq<Tree>): Row {
    first.(width := LocAll(ts), subtreeLoc := LocAll(ts), doneLoc := DoneLocAll(ts), unsizedCount := UnsizedAll(ts))
  }

  lemma {:induction false} LeafHead(t: Tree, depth: nat, hidden: bool, start: nat, v: View, row: Row)
    requires t.kids == [] && row == LeafRow(NewRow(t.task, depth, false, hidden, start, v))
    ensures row == Head(t, depth, hidden, start, v)
  {
  }

  lemma {:induction false} ParentHead(t: Tree, depth: nat, hidden: bool, start: nat, v: View, row: Row)
    requires t.kids != [] && row == ParentRow(NewRow(t.task, depth, true, hidden, start, v), t.kids)
    ensures row == Head(t, depth, hidden, start, v)
  {
  }

  lemma {:induction false} RowsStamped(before: seq<Row>, narrow: Row, row: Row, rows: seq<Row>, more: seq<Row>)
    requires rows == before + [narrow] + more
    ensures rows[|before| := row] == before + [row] + more
  {
  }

  lemma {:induction false} LeafRows(t: Tree, depth: nat, hidden: bool, start: nat, v: View, before: seq<Row>,
                                    rows: seq<Row>, row: Row)
    requires t.kids == [] && row == Head(t, depth, hidden, start, v) && rows == before + [row]
    ensures rows == before + Rows(t, depth, hidden, start, v)
  {
  }

  lemma {:induction false} ParentRows(t: Tree, depth: nat, hidden: bool, start: nat, v: View, before: seq<Row>,
                                      row: Row, rows: seq<Row>)
    requires row == Head(t, depth, hidden, start, v)
    requires rows == before + [row] + RowsAll(t.kids, depth + 1, hidden || row.collapsed, start, v)
    ensures rows == before + Rows(t, depth, hidden, start, v)
  {
    assert before + [row] + RowsAll(t.kids, depth + 1, hidden || row.collapsed, start, v)
        == before + ([row] + RowsAll(t.kids, depth + 1, hidden || row.collapsed, start, v));
  }

  ghost predicate KidList(p: Plan, kids: map<Id, seq<Task>>, id: Id) {
    Lookup(kids, id) == Sort(KidsOf(p, p.tasks, id))
  }

  ghost predicate KidLists(p: Plan, kids: map<Id, seq<Task>>) {
    forall id :: KidList(p, kids, id)
  }

  ghost predicate ListedAt(p: Plan, ts: seq<Task>, lists: map<Id, seq<Task>>, id: Id) {
    Lookup(lists, id) == KidsOf(p, ts, id)
  }

  ghost predicate Listed(p: Plan, ts: seq<Task>, lists: map<Id, seq<Task>>) {
    forall id :: ListedAt(p, ts, lists, id)
  }

  lemma {:induction false} ListedStep(p: Plan, ts: seq<Task>, t: Task, lists: map<Id, seq<Task>>,
                                      lists': map<Id, seq<Task>>)
    requires Listed(p, ts, lists)
    requires lists' == if InTree(p, t) then lists[t.parent.value := Lookup(lists, t.parent.value) + [t]] else lists
    ensures Listed(p, ts + [t], lists')
  {
    assert (ts + [t])[..|ts + [t]| - 1] == ts;
    assert InTree(p, t) ==> ListedAt(p, ts, lists, t.parent.value);
    forall id ensures ListedAt(p, ts + [t], lists', id) {
      assert ListedAt(p, ts, lists, id);
    }
  }

  /** The children of every task that has any, in input order. */
  method UnsortedLists(p: Plan) returns (lists: map<Id, seq<Task>>)
    ensures Listed(p, p.tasks, lists)
  {
    var byId := IndexTasks(p.tasks);
    lists := map[];
    assert Listed(p, p.tasks[..0], lists) by { assert forall id :: ListedAt(p, [], lists, id); }
    for i := 0 to |p.tasks|
      invariant Listed(p, p.tasks[..i], lists)
    {
      var t, before := p.tasks[i], lists;
      if t.parent.Some? && t.parent.value in byId && GroupOf(p, byId[t.parent.value]) == GroupOf(p, t) {
        lists := lists[t.parent.value := Lookup(lists, t.parent.value) + [t]];
      }
      ListedStep(p, p.tasks[..i], t, before, lists);
      assert p.tasks[..i + 1] == p.tasks[..i] + [t];
    }
    assert p.tasks[..|p.tasks|] == p.tasks;
  }

  method ChildLists(p: Plan) returns (kids: map<Id, seq<Task>>)
    ensures KidLists(p, kids)
  {
    var lists := UnsortedLists(p);
    kids := SortLists(lists);
    ListsSorted(p, lists);
  }

  function SortLists(lists: map<Id, seq<Task>>): map<Id, seq<Task>> {
    map id | id in lists :: Sort(lists[id])
  }

  lemma {:induction false} ListsSorted(p: Plan, lists: map<Id, seq<Task>>)
    requires Listed(p, p.tasks, lists)
    ensures KidLists(p, SortLists(lists))
  {
    forall id ensures KidList(p, SortLists(lists), id) {
      assert ListedAt(p, p.tasks, lists, id);
    }
  }

  method IndexTasks(ts: seq<Task>) returns (byId: map<Id, Task>)
    ensures byId == Index(ts)
  {
    byId := map[];
    for i := 0 to |ts|
      invariant byId == Index(ts[..i])
    {
      assert ts[..i + 1][..i] == ts[..i];
      byId := byId[ts[i].id := ts[i]];
    }
    assert ts[..|ts|] == ts;
  }

  method FilterRoots(p: Plan, byId: map<Id, Task>, gid: Option<Id>) returns (roots: seq<Task>)
    requires byId == Index(p.tasks)
    ensures roots == RootsOf(p, p.tasks, gid)
  {
    roots := [];
    for i := 0 to |p.tasks|
      invariant roots == RootsOf(p, p.tasks[..i], gid)
    {
      var t := p.tasks[i];
      assert p.tasks[..i + 1][..i] == p.tasks[..i];
      if GroupOf(p, t) == gid
         && !(t.parent.Some? && t.parent.value in byId && GroupOf(p, byId[t.parent.value]) == GroupOf(p, t)) {
        roots := roots + [t];
      }
    }
    assert p.tasks[..|p.tasks|] == p.tasks;
  }

  /** Walks the roots of one group and cuts its rows off the shared list. */
  method WalkGroup(w: Walker, gid: Option<Id>, roots: seq<Task>) returns (group: Group)
    requires w.Ready() && roots == Sort(RootsOf(w.plan, w.plan.tasks, gid))
    modifies w`rows, w`cursor, w`unsizedCount
    ensures group == MakeGroup(w.plan, gid, old(w.cursor), w.view)
    ensures w.rows == old(w.rows) + group.rows
    ensures w.cursor == old(w.cursor) + LocAll(Forest(w.plan, gid))
    ensures w.unsizedCount == old(w.unsizedCount) + UnsizedAll(Forest(w.plan, gid))
  {
    var start, mark := w.cursor, |w.rows|;
    RootsGrow(w.plan, gid);
    ghost var ts := Forest(w.plan, gid);
    WalkRoots(w, roots, ts);
    AppendedAll(ts, 0, false, start, w.view, old(w.rows), w.rows, w.cursor, w.unsizedCount - old(w.unsizedCount));
    var rows := w.rows[mark..];
    group := Group(gid, start, w.cursor, rows, CountUnsized(rows));
  }

  method WalkRoots(w: Walker, roots: seq<Task>, ghost ts: seq<Tree>)
    requires w.Ready() && Grows(w.plan, [], roots) && ts == GrowAll(w.plan, [], roots)
    modifies w`rows, w`cursor, w`unsizedCount
    ensures Appended(ts, |ts|, 0, false, old(w.cursor), w.view, old(w.rows), w.rows,
                     w.cursor, w.unsizedCount - old(w.unsizedCount))
  {
    ghost var start, before, unsized := w.cursor, w.rows, w.unsizedCount;
    GrowAllAt(w.plan, [], roots, ts, 0);
    AppendedNone(ts, 0, false, start, w.view, before);
    for i := 0 to |roots|
      invariant Appended(ts, i, 0, false, start, w.view, before, w.rows, w.cursor, w.unsizedCount - unsized)
    {
      ghost var rows0, cursor0, unsized0 := w.rows, w.cursor, w.unsizedCount - unsized;
      GrowAllAt(w.plan, [], roots, ts, i);
      var _ := w.Walk(roots[i], 0, false, [] + [roots[i]], ts[i]);
      AppendedStep(ts, i, 0, false, start, w.view, before, rows0, cursor0, unsized0,
                   w.rows, w.cursor, w.unsizedCount - unsized);
    }
  }

  ghost predicate Drawn(p: Plan, gids: seq<Option<Id>>, n: nat, v: View, groups: seq<Group>, cursor: nat, unsized: nat)
    requires WellFormed(p)
  {
    && n <= |gids| && groups == GroupsUpTo(p, gids, n, v)
    && cursor == CursorAt(p, gids, n) && unsized == UnsizedAt(p, gids, n)
  }

  lemma {:induction false} DrawnStep(p: Plan, gids: seq<Option<Id>>, n: nat, v: View, groups: seq<Group>, cursor: nat,
                                     unsized: nat, g: Group, groups': seq<Group>, cursor': nat, unsized': nat)
    requires WellFormed(p) && n < |gids| && Drawn(p, gids, n, v, groups, cursor, unsized)
    requires g == MakeGroup(p, gids[n], cursor, v) && groups' == if Kept(g) then groups + [g] else groups
    requires cursor' == cursor + LocAll(Forest(p, gids[n])) && unsized' == unsized + UnsizedAll(Forest(p, gids[n]))
    ensures Drawn(p, gids, n + 1, v, groups', cursor', unsized')
  {
  }

  /** The release groups in order, the backlog last, over one running cursor. */
  method ComputeGantt(p: Plan, v: View) returns (groups: seq<Group>, total: nat, unsized: nat)
    requires WellFormed(p)
    ensures groups == Timeline(p, v) && total == Total(p) && unsized == UnsizedTotal(p)
    ensures TimelineMeans(p, v, groups) && Line(groups, total, unsized)
  {
    groups, total, unsized := WalkAll(p, v);
    TimelineIs(p, v, groups);
    TimelineTiles(p, v);
  }

  method WalkAll(p: Plan, v: View) returns (groups: seq<Group>, total: nat, unsized: nat)
    requires WellFormed(p)
    ensures groups == Timeline(p, v) && total == Total(p) && unsized == UnsizedTotal(p)
  {
    var byId := IndexTasks(p.tasks);
    var w := new Walker(p, v);
    var gids := GroupIds(p.releases);
    groups := [];
    for n := 0 to |gids|
      invariant Drawn(p, gids, n, v, groups, w.cursor, w.unsizedCount)
    {
      var roots := FilterRoots(p, byId, gids[n]);
      ghost var cursor, counted := w.cursor, w.unsizedCount;
      var group := WalkGroup(w, gids[n], Sort(roots));
      ghost var drawn := groups;
      if group.release.Some? || group.rows != [] {
        groups := groups + [group];
      }
      DrawnStep(p, gids, n, v, drawn, cursor, counted, group, groups, w.cursor, w.unsizedCount);
    }
    total, unsized := w.cursor, w.unsizedCount;
  }
}
