/** Geometry: sized leaves tile the line, every row covers exactly its
    descendants, and the line and unsized counts are conserved upwards. */
module PlanTiling {
  import opened Common
  import opened PlanModel
  import opened PlanLayout
  import opened PlanRows

  predicate SizedLeaf(r: Row) {
    !r.isParent && !r.isUnsized
  }

  /** The sized leaves among `rows`, in order, lie end to end from `a` to `b`. */
  ghost predicate Tiles(rows: seq<Row>, a: int, b: int) {
    if rows == [] then a == b
    else if SizedLeaf(rows[0]) then rows[0].start == a && Tiles(rows[1..], a + rows[0].width, b)
    else Tiles(rows[1..], a, b)
  }

  lemma {:induction false} TilesConcat(x: seq<Row>, y: seq<Row>, a: int, b: int, c: int)
    requires Tiles(x, a, b) && Tiles(y, b, c)
    ensures Tiles(x + y, a, c)
  {
    if x == [] {
      assert x + y == y;
    } else {
      assert (x + y)[1..] == x[1..] + y;
      TilesConcat(x[1..], y, if SizedLeaf(x[0]) then a + x[0].width else a, b, c);
    }
  }

  ghost predicate Covers(r: Row, x: int) {
    SizedLeaf(r) && r.start <= x < r.start + r.width
  }

  ghost predicate Under(rows: seq<Row>, x: int) {
    exists i :: 0 <= i < |rows| && Covers(rows[i], x)
  }

  /** Tiling in terms of points: between `a` and `b` every point is under exactly
      one sized leaf, and outside it under none. */
  lemma {:induction false} TilesCover(rows: seq<Row>, a: int, b: int)
    requires Tiles(rows, a, b)
    ensures a <= b
    ensures forall x :: Under(rows, x) <==> a <= x < b
    ensures forall i, j, x :: 0 <= i < j < |rows| && Covers(rows[i], x) ==> !Covers(rows[j], x)
    ensures forall i, j :: 0 <= i < j < |rows| && SizedLeaf(rows[i]) && SizedLeaf(rows[j]) ==>
              rows[i].start + rows[i].width <= rows[j].start
    ensures forall i :: 0 <= i < |rows| && SizedLeaf(rows[i]) ==> a <= rows[i].start
  {
    if rows != [] {
      var a' := if SizedLeaf(rows[0]) then a + rows[0].width else a;
      TilesCover(rows[1..], a', b);
      forall x ensures Under(rows, x) <==> a <= x < b {
        UnderCons(rows, x);
      }
    }
  }

  lemma {:induction false} UnderCons(rows: seq<Row>, x: int)
    requires rows != []
    ensures Under(rows, x) <==> Covers(rows[0], x) || Under(rows[1..], x)
  {
    if Under(rows[1..], x) {
      var i :| 0 <= i < |rows[1..]| && Covers(rows[1..][i], x);
      assert Covers(rows[i + 1], x);
    }
    assert forall i :: 0 < i < |rows| ==> rows[i] == rows[1..][i - 1];
  }

  // ----- sums over leaves, from the tasks' own estimates -----

  ghost function LeafLoc(r: Row): nat {
    if !r.isParent && r.task.loc.Some? then r.task.loc.value else 0
  }

  ghost function SumLoc(rows: seq<Row>): nat {
    if rows == [] then 0 else SumLoc(rows[..|rows| - 1]) + LeafLoc(rows[|rows| - 1])
  }

  ghost function SumDone(rows: seq<Row>): nat {
    if rows == [] then 0
    else SumDone(rows[..|rows| - 1]) + (if rows[|rows| - 1].task.done then LeafLoc(rows[|rows| - 1]) else 0)
  }

  ghost function LeavesWithoutEstimate(rows: seq<Row>): nat {
    if rows == [] then 0
    else LeavesWithoutEstimate(rows[..|rows| - 1]) +
         (if !rows[|rows| - 1].isParent && rows[|rows| - 1].task.loc.None? then 1 else 0)
  }

  lemma {:induction false} SumsConcat(x: seq<Row>, y: seq<Row>)
    ensures SumLoc(x + y) == SumLoc(x) + SumLoc(y)
    ensures SumDone(x + y) == SumDone(x) + SumDone(y)
    ensures LeavesWithoutEstimate(x + y) == LeavesWithoutEstimate(x) + LeavesWithoutEstimate(y)
    ensures CountUnsized(x + y) == CountUnsized(x) + CountUnsized(y)
  {
    if y == [] {
      assert x + y == x;
    } else {
      assert (x + y)[..|x + y| - 1] == x + y[..|y| - 1];
      SumsConcat(x, y[..|y| - 1]);
    }
  }

  lemma {:induction false} DoneWithinTotal(rows: seq<Row>)
    ensures SumDone(rows) <= SumLoc(rows)
  {
    if rows != [] {
      DoneWithinTotal(rows[..|rows| - 1]);
    }
  }

  // ----- one tree -----

  /** The numbers a row carries for the rows `block` it heads. */
  ghost predicate Accounts(r: Row, block: seq<Row>) {
    && Tiles(block, r.start, r.start + r.width)
    && r.width == r.subtreeLoc == SumLoc(block)
    && r.doneLoc == SumDone(block)
    && r.unsizedCount == LeavesWithoutEstimate(block)
  }

  lemma {:induction false} TreeAccounts(t: Tree, rows: seq<Row>, depth: nat, hidden: bool, start: nat, v: View)
    requires rows == Rows(t, depth, hidden, start, v)
    ensures rows != [] && Accounts(rows[0], rows)
    ensures rows[0].start == start && rows[0].width == Loc(t) && rows[0].doneLoc == DoneLoc(t)
    ensures rows[0].unsizedCount == CountUnsized(rows) == Unsized(t)
    decreases t
  {
    RowsStep(t, rows, depth, hidden, start, v);
    ForestAccounts(t.kids, rows[1..], depth + 1, hidden || t.task.id in v.collapsed, start, v);
    HeadAccounts(t, rows, depth, hidden, start, v);
  }

  lemma {:induction false} HeadAccounts(t: Tree, rows: seq<Row>, depth: nat, hidden: bool, start: nat, v: View)
    requires rows != [] && rows[0] == Head(t, depth, hidden, start, v) && ForestSound(t.kids, rows[1..], start)
    requires t.kids == [] ==> rows[1..] == []
    ensures Accounts(rows[0], rows) && rows[0].unsizedCount == CountUnsized(rows)
  {
    var head, rest := rows[0], rows[1..];
    assert rows == [head] + rest;
    SumsConcat([head], rest);
    SumsOfOne(head);
    if t.kids == [] {
      assert rows == [head];
      assert Tiles([], start + head.width, start + head.width);
    } else {
      assert Tiles([head], start, start) by { assert Tiles([], start, start) && [head][1..] == []; }
      TilesConcat([head], rest, start, start, start + LocAll(t.kids));
    }
  }

  lemma {:induction false} SumsOfOne(r: Row)
    ensures SumLoc([r]) == LeafLoc(r)
    ensures SumDone([r]) == if r.task.done then LeafLoc(r) else 0
    ensures LeavesWithoutEstimate([r]) == if !r.isParent && r.task.loc.None? then 1 else 0
    ensures CountUnsized([r]) == if !r.isParent && r.isUnsized then 1 else 0
  {
  }

  ghost predicate ForestSound(ts: seq<Tree>, rows: seq<Row>, start: nat) {
    && Tiles(rows, start, start + LocAll(ts))
    && SumLoc(rows) == LocAll(ts)
    && SumDone(rows) == DoneLocAll(ts)
    && LeavesWithoutEstimate(rows) == UnsizedAll(ts)
    && CountUnsized(rows) == UnsizedAll(ts)
  }

  /** A tree's rows followed by a forest's. */
  lemma {:induction false} SoundJoin(ts: seq<Tree>, a: seq<Row>, b: seq<Row>, start: nat)
    requires ts != [] && a != [] && Accounts(a[0], a) && a[0].start == start && a[0].width == Loc(ts[0])
    requires a[0].doneLoc == DoneLoc(ts[0]) && a[0].unsizedCount == CountUnsized(a) == Unsized(ts[0])
    requires ForestSound(ts[1..], b, start + Loc(ts[0]))
    ensures ForestSound(ts, a + b, start)
  {
    SumsConcat(a, b);
    TilesConcat(a, b, start, start + Loc(ts[0]), start + LocAll(ts));
  }

  lemma {:induction false} ForestAccounts(ts: seq<Tree>, rows: seq<Row>, depth: nat, hidden: bool, start: nat, v: View)
    requires rows == RowsAll(ts, depth, hidden, start, v)
    ensures ForestSound(ts, rows, start) && (ts == [] ==> rows == [])
    decreases ts
  {
    if ts != [] {
      var n := RowsAllStep(ts, rows, depth, hidden, start, v);
      var a, b := rows[..n], rows[n..];
      TreeAccounts(ts[0], a, depth, hidden, start, v);
      ForestAccounts(ts[1..], b, depth, hidden, start + Loc(ts[0]), v);
      assert rows == a + b;
      SoundJoin(ts, a, b, start);
    }
  }

  // ----- the block of rows a row heads -----

  /** Where the block of a row ends, and how its tree was laid out. */
  datatype Block = Block(end: nat, depth: nat, hidden: bool, start: nat)

  ghost predicate IsTree(t: Tree, above: seq<Task>, rows: seq<Row>, qs: seq<seq<Task>>, b: Block, v: View) {
    rows == Rows(t, b.depth, b.hidden, b.start, v) && qs == Paths(t, above)
  }

  /** Rows `i` to `b.end`, at paths `qs`, are the whole tree grown at path `qs[i]`. */
  ghost predicate HeadsAt(p: Plan, rows: seq<Row>, qs: seq<seq<Task>>, i: nat, b: Block, v: View)
    requires WellFormed(p)
  {
    && |rows| == |qs| && i < b.end <= |rows| && IsPath(p, qs[i])
    && IsTree(Grow(p, qs[i]), Parent(qs[i]), rows[i..b.end], qs[i..b.end], b, v)
  }

  lemma {:induction false} HeadsAfter(p: Plan, rows: seq<Row>, qs: seq<seq<Task>>, rows': seq<Row>,
                                      qs': seq<seq<Task>>, n: nat, k: Block, i: nat, b: Block, v: View)
    requires WellFormed(p) && |rows| == |qs| && n <= |rows| && n <= i && b == k.(end := n + k.end)
    requires rows' == rows[n..] && qs' == qs[n..] && HeadsAt(p, rows', qs', i - n, k, v)
    ensures HeadsAt(p, rows, qs, i, b, v)
  {
    assert rows'[i - n..k.end] == rows[i..b.end] && qs'[i - n..k.end] == qs[i..b.end];
  }

  lemma {:induction false} HeadsBefore(p: Plan, rows: seq<Row>, qs: seq<seq<Task>>, rows': seq<Row>,
                                       qs': seq<seq<Task>>, i: nat, b: Block, v: View)
    requires WellFormed(p) && |rows| == |qs| && rows' <= rows && qs' <= qs && HeadsAt(p, rows', qs', i, b, v)
    ensures HeadsAt(p, rows, qs, i, b, v)
  {
    assert rows'[i..b.end] == rows[i..b.end] && qs'[i..b.end] == qs[i..b.end];
  }

  /** The first row of a tree heads all of it. */
  lemma {:induction false} HeadsAll(p: Plan, path: seq<Task>, t: Tree, rows: seq<Row>, qs: seq<seq<Task>>, depth: nat,
                                    hidden: bool, start: nat, v: View) returns (b: Block)
    requires WellFormed(p) && IsPath(p, path) && t == Grow(p, path)
    requires rows == Rows(t, depth, hidden, start, v) && qs == Paths(t, Parent(path)) && |rows| == |qs|
    ensures HeadsAt(p, rows, qs, 0, b, v)
  {
    b := Block(|rows|, depth, hidden, start);
    var ks := KidsAt(p, path, t);
    PathsStep(t, Parent(path), path, qs);
    assert rows[0..b.end] == rows && qs[0..b.end] == qs;
  }

  /** The rows and paths of a tree: its head, and those of the trees below it. */
  lemma {:induction false} TreeParts(p: Plan, path: seq<Task>, t: Tree, rows: seq<Row>, qs: seq<seq<Task>>, depth: nat,
                                     hidden: bool, start: nat, v: View)
    returns (ks: seq<Task>, below: seq<Row>, paths: seq<seq<Task>>, folded: bool)
    requires WellFormed(p) && IsPath(p, path) && t == Grow(p, path)
    requires rows == Rows(t, depth, hidden, start, v) && qs == Paths(t, Parent(path)) && |rows| == |qs|
    ensures |path| <= |p.tasks| && Grows(p, path, ks) && t.kids == GrowAll(p, path, ks)
    ensures |rows| > 0 && qs[0] == path && below == rows[1..] && paths == qs[1..]
    ensures below == RowsAll(t.kids, depth + 1, folded, start, v) && paths == PathsAll(t.kids, path)
  {
    ks := KidsAt(p, path, t);
    PathsStep(t, Parent(path), path, qs);
    RowsStep(t, rows, depth, hidden, start, v);
    below, paths, folded := rows[1..], qs[1..], hidden || t.task.id in v.collapsed;
  }

  lemma {:induction false} BlockInTree(p: Plan, path: seq<Task>, t: Tree, rows: seq<Row>, qs: seq<seq<Task>>,
                                       depth: nat, hidden: bool, start: nat, v: View, i: nat) returns (b: Block)
    requires WellFormed(p) && IsPath(p, path) && t == Grow(p, path)
    requires rows == Rows(t, depth, hidden, start, v) && qs == Paths(t, Parent(path)) && i < |rows| == |qs|
    ensures HeadsAt(p, rows, qs, i, b, v)
    decreases t
  {
    if i == 0 {
      b := HeadsAll(p, path, t, rows, qs, depth, hidden, start, v);
    } else {
      var ks, below, paths, folded := TreeParts(p, path, t, rows, qs, depth, hidden, start, v);
      var n := BlockInForest(p, path, ks, t.kids, below, paths, depth + 1, folded, start, v, i - 1);
      b := n.(end := 1 + n.end);
      HeadsAfter(p, rows, qs, below, paths, 1, n, i, b, v);
    }
  }

  /** The rows and paths of a forest: those of its first tree, grown at `first`, and those of the others. */
  datatype Parts = Parts(first: seq<Task>, tree: Tree, rows: seq<Row>, qs: seq<seq<Task>>,
                         ks: seq<Task>, ts: seq<Tree>, moreRows: seq<Row>, moreQs: seq<seq<Task>>, start: nat)

  lemma {:induction false} ForestParts(p: Plan, path: seq<Task>, ks: seq<Task>, ts: seq<Tree>, rows: seq<Row>,
                                       qs: seq<seq<Task>>, depth: nat, hidden: bool, start: nat, v: View)
    returns (a: Parts)
    requires WellFormed(p) && |path| <= |p.tasks| && Grows(p, path, ks) && ts == GrowAll(p, path, ks) && rows != []
    requires rows == RowsAll(ts, depth, hidden, start, v) && qs == PathsAll(ts, path) && |rows| == |qs|
    ensures IsPath(p, a.first) && Parent(a.first) == path && a.tree == Grow(p, a.first)
    ensures a.rows == Rows(a.tree, depth, hidden, start, v) && a.qs == Paths(a.tree, path) && |a.rows| == |a.qs|
    ensures Grows(p, path, a.ks) && a.ts == GrowAll(p, path, a.ks)
    ensures a.moreRows == RowsAll(a.ts, depth, hidden, a.start, v) && a.moreQs == PathsAll(a.ts, path)
    ensures rows == a.rows + a.moreRows && qs == a.qs + a.moreQs && ts == [a.tree] + a.ts
  {
    GrowAllStep(p, path, ks, ts);
    var n := RowsAllStep(ts, rows, depth, hidden, start, v);
    var m := PathsAllStep(ts, path, qs);
    SameLength(ts[0], path, rows[..n], qs[..m], depth, hidden, start, v);
    a := Parts(path + [ks[0]], ts[0], rows[..n], qs[..n], ks[1..], ts[1..], rows[n..], qs[n..], start + Loc(ts[0]));
  }

  lemma {:induction false} BlockInForest(p: Plan, path: seq<Task>, ks: seq<Task>, ts: seq<Tree>, rows: seq<Row>,
                                         qs: seq<seq<Task>>, depth: nat, hidden: bool, start: nat, v: View, i: nat)
    returns (b: Block)
    requires WellFormed(p) && |path| <= |p.tasks| && Grows(p, path, ks) && ts == GrowAll(p, path, ks)
    requires rows == RowsAll(ts, depth, hidden, start, v) && qs == PathsAll(ts, path) && i < |rows| == |qs|
    ensures HeadsAt(p, rows, qs, i, b, v)
    decreases ts
  {
    var a := ForestParts(p, path, ks, ts, rows, qs, depth, hidden, start, v);
    var n := |a.rows|;
    if i < n {
      b := BlockInTree(p, a.first, a.tree, a.rows, a.qs, depth, hidden, start, v, i);
      HeadsBefore(p, rows, qs, a.rows, a.qs, i, b, v);
    } else {
      var k := BlockInForest(p, path, a.ks, a.ts, a.moreRows, a.moreQs, depth, hidden, a.start, v, i - n);
      b := k.(end := n + k.end);
      HeadsAfter(p, rows, qs, a.moreRows, a.moreQs, n, k, i, b, v);
    }
  }

  lemma {:induction false} SameLength(t: Tree, above: seq<Task>, rows: seq<Row>, qs: seq<seq<Task>>, depth: nat,
                                      hidden: bool, start: nat, v: View)
    requires rows == Rows(t, depth, hidden, start, v) && qs == Paths(t, above)
    ensures |rows| == |qs|
  {
    RowsMatch(t, above, depth, hidden, start, v);
  }

  // ----- main statements -----

  /** `t` is `a` or lies below it along in-group parent links. */
  ghost predicate Descends(p: Plan, t: Task, a: Task) {
    exists q :: PathTo(p, t, q) && a in q
  }

  /** Rows `i` to `e` are exactly row `i` and its descendants, and row `i` accounts for them. */
  ghost predicate Spans(p: Plan, rows: seq<Row>, i: nat, e: nat) {
    && i < e <= |rows|
    && (forall j :: 0 <= j < |rows| ==> (i <= j < e <==> Descends(p, rows[j].task, rows[i].task)))
    && Accounts(rows[i], rows[i..e])
    && rows[i].doneLoc <= rows[i].subtreeLoc
  }

  /** Every bar covers exactly the bars of its descendants, wide as their
      estimates together, with done and unsized counts conserved. */
  lemma {:induction false} EveryRowSpans(p: Plan, gid: Option<Id>, start: nat, v: View, i: nat) returns (e: nat)
    requires WellFormed(p) && i < |MakeGroup(p, gid, start, v).rows|
    ensures Spans(p, MakeGroup(p, gid, start, v).rows, i, e)
  {
    var rows, qs := MakeGroup(p, gid, start, v).rows, GroupPaths(p, gid);
    GroupFacts(p, gid, start, v);
    var ks := RootsAt(p, gid, Forest(p, gid));
    var b := BlockInForest(p, [], ks, Forest(p, gid), rows, qs, 0, false, start, v, i);
    e := b.end;
    TreeAccounts(Grow(p, qs[i]), rows[i..e], b.depth, b.hidden, b.start, v);
    assert rows[i] == rows[i..e][0];
    DoneWithinTotal(rows[i..e]);
    forall j | 0 <= j < |rows| ensures i <= j < e <==> Descends(p, rows[j].task, rows[i].task) {
      assert RowOf(p, gid, v, qs[j], rows[j]) && RowOf(p, gid, v, qs[i], rows[i]);
      BlockExact(p, rows, qs, i, b, v, qs[j]);
      DescendsByPath(p, qs[j], qs[i]);
      SliceMember(qs, i, e, j);
    }
  }

  lemma {:induction false} SliceMember(qs: seq<seq<Task>>, i: nat, e: nat, j: nat)
    requires DepthFirst(qs) && i < e <= |qs| && j < |qs|
    ensures qs[j] in qs[i..e] <==> i <= j < e
  {
    if i <= j < e { assert qs[i..e][j - i] == qs[j]; }
    if qs[j] in qs[i..e] {
      var k :| 0 <= k < |qs[i..e]| && qs[i..e][k] == qs[j];
      if i + k < j { PrecedesDiffer(qs[i + k], qs[j]); }
      if j < i + k { PrecedesDiffer(qs[j], qs[i + k]); }
    }
  }

  /** The paths of a block are the root paths through its head. */
  lemma {:induction false} BlockExact(p: Plan, rows: seq<Row>, qs: seq<seq<Task>>, i: nat, b: Block, v: View,
                                      q: seq<Task>)
    requires WellFormed(p) && IsPath(p, q) && HeadsAt(p, rows, qs, i, b, v)
    ensures q in qs[i..b.end] <==> qs[i] <= q
  {
    var t := Grow(p, qs[i]);
    TreeThrough(p, qs[i], t, qs[i..b.end]);
    if qs[i] <= q {
      TreeComplete(p, qs[i], t, qs[i..b.end], q);
    }
  }

  lemma {:induction false} DescendsByPath(p: Plan, b: seq<Task>, a: seq<Task>)
    requires WellFormed(p) && IsPath(p, a) && IsPath(p, b)
    ensures Descends(p, Last(b), Last(a)) <==> a <= b
  {
    if a <= b {
      assert b[|a| - 1] == Last(a);
      assert PathTo(p, Last(b), b);
    }
    if Descends(p, Last(b), Last(a)) {
      var q :| PathTo(p, Last(b), q) && Last(a) in q;
      PathsAgree(p, q, b);
      var k :| 0 <= k < |q| && q[k] == Last(a);
      PathPrefix(p, b, k + 1);
      PathsAgree(p, b[..k + 1], a);
    }
  }

  // ----- the whole line -----

  ghost function AllRows(gs: seq<Group>): seq<Row> {
    if gs == [] then [] else AllRows(gs[..|gs| - 1]) + gs[|gs| - 1].rows
  }

  ghost function SumUnsized(gs: seq<Group>): nat {
    if gs == [] then 0 else SumUnsized(gs[..|gs| - 1]) + gs[|gs| - 1].unsizedCount
  }

  /** Groups follow one another from 0 to `end` without gap or overlap. */
  ghost predicate Chained(gs: seq<Group>, end: int) {
    if gs == [] then end == 0
    else gs[|gs| - 1].start <= gs[|gs| - 1].end == end && Chained(gs[..|gs| - 1], gs[|gs| - 1].start)
  }

  ghost predicate GroupSound(g: Group) {
    && g.start <= g.end && Tiles(g.rows, g.start, g.end) && SumLoc(g.rows) == g.end - g.start
    && g.unsizedCount == LeavesWithoutEstimate(g.rows)
  }

  /** The groups drawn so far account for the line up to `end`. */
  ghost predicate Line(gs: seq<Group>, end: nat, unsized: nat) {
    && Chained(gs, end)
    && Tiles(AllRows(gs), 0, end)
    && SumLoc(AllRows(gs)) == end
    && LeavesWithoutEstimate(AllRows(gs)) == SumUnsized(gs) == unsized
    && (forall k :: 0 <= k < |gs| ==> GroupSound(gs[k]))
  }

  lemma {:induction false} LineAppend(gs: seq<Group>, end: nat, unsized: nat, g: Group)
    requires Line(gs, end, unsized) && GroupSound(g) && g.start == end
    ensures Line(gs + (if Kept(g) then [g] else []), g.end, unsized + g.unsizedCount)
  {
    if Kept(g) {
      assert (gs + [g])[..|gs|] == gs;
      TilesConcat(AllRows(gs), g.rows, 0, end, g.end);
      SumsConcat(AllRows(gs), g.rows);
    } else {
      assert gs + [] == gs;
    }
  }

  lemma {:induction false} GroupIsSound(p: Plan, gid: Option<Id>, start: nat, v: View)
    requires WellFormed(p)
    ensures GroupSound(MakeGroup(p, gid, start, v))
    ensures MakeGroup(p, gid, start, v).unsizedCount == UnsizedAll(Forest(p, gid))
  {
    ForestAccounts(Forest(p, gid), MakeGroup(p, gid, start, v).rows, 0, false, start, v);
  }

  /** The last group walked, and the line before it. */
  lemma {:induction false} LastGroup(p: Plan, gids: seq<Option<Id>>, n: nat, v: View, gs: seq<Group>, end: nat,
                                     unsized: nat)
    returns (gs': seq<Group>, end': nat, unsized': nat, g: Group)
    requires WellFormed(p) && 0 < n <= |gids|
    requires gs == GroupsUpTo(p, gids, n, v) && end == CursorAt(p, gids, n) && unsized == UnsizedAt(p, gids, n)
    ensures gs' == GroupsUpTo(p, gids, n - 1, v) && end' == CursorAt(p, gids, n - 1)
    ensures unsized' == UnsizedAt(p, gids, n - 1)
    ensures g == MakeGroup(p, gids[n - 1], end', v) && gs == gs' + (if Kept(g) then [g] else [])
    ensures GroupSound(g) && g.start == end' && g.end == end && unsized == unsized' + g.unsizedCount
  {
    gs', end', unsized' := GroupsUpTo(p, gids, n - 1, v), CursorAt(p, gids, n - 1), UnsizedAt(p, gids, n - 1);
    g := MakeGroup(p, gids[n - 1], end', v);
    GroupIsSound(p, gids[n - 1], end', v);
  }

  lemma {:induction false} LineUpTo(p: Plan, gids: seq<Option<Id>>, n: nat, v: View, gs: seq<Group>, end: nat,
                                    unsized: nat)
    requires WellFormed(p) && n <= |gids|
    requires gs == GroupsUpTo(p, gids, n, v) && end == CursorAt(p, gids, n) && unsized == UnsizedAt(p, gids, n)
    ensures Line(gs, end, unsized)
    decreases n
  {
    if n > 0 {
      var gs', end', unsized', g := LastGroup(p, gids, n, v, gs, end, unsized);
      LineUpTo(p, gids, n - 1, v, gs', end', unsized');
      LineAppend(gs', end', unsized', g);
    }
  }

  /** The line: sized leaves tile [0, total), groups chain along it, the total is
      the sum of the leaf estimates and unsized leaves are counted once each. */
  lemma {:induction false} TimelineTiles(p: Plan, v: View)
    requires WellFormed(p)
    ensures var gs := Timeline(p, v);
            && Line(gs, Total(p), UnsizedTotal(p))
            && (forall x :: Under(AllRows(gs), x) <==> 0 <= x < Total(p))
  {
    LineUpTo(p, GroupIds(p.releases), |p.releases| + 1, v, Timeline(p, v), Total(p), UnsizedTotal(p));
    TilesCover(AllRows(Timeline(p, v)), 0, Total(p));
  }
}
