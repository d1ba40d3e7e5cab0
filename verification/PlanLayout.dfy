/** The timeline as a value: which rows the plan has, where each bar starts and
    how wide it is. `Timeline` is the reference that the mutating walk in
    `PlanGantt` is proved to compute; the theorems here say what it means. */
module PlanLayout {
  import opened Common
  import opened PlanModel

  datatype Row = Row(task: Task, depth: nat, isParent: bool, hidden: bool, start: nat, width: nat,
                     subtreeLoc: nat, doneLoc: nat, unsizedCount: nat, isUnsized: bool, collapsed: bool)

  datatype Group = Group(release: Option<Id>, start: nat, end: nat, rows: seq<Row>, unsizedCount: nat)

  /** What the viewer folded away and what a link asked to keep visible. */
  datatype View = View(collapsed: set<Id>, shown: set<Id>)

  // ----- the forest below a root path -----

  datatype Tree = Node(task: Task, kids: seq<Tree>)

  ghost function Kids(p: Plan, t: Task): seq<Task> {
    Sort(KidsOf(p, p.tasks, t.id))
  }

  ghost predicate Grows(p: Plan, path: seq<Task>, ks: seq<Task>) {
    forall k :: k in ks ==> IsPath(p, path + [k])
  }

  lemma {:induction false} KidsGrow(p: Plan, path: seq<Task>)
    requires WellFormed(p) && IsPath(p, path)
    ensures Grows(p, path, Kids(p, Last(path)))
  {
    KidsOfMembers(p, p.tasks, Last(path).id);
    SortFacts(KidsOf(p, p.tasks, Last(path).id));
    forall k | k in Kids(p, Last(path)) ensures IsPath(p, path + [k]) {
      PathExtend(p, path, k);
    }
  }

  lemma {:induction false} RootsGrow(p: Plan, gid: Option<Id>)
    ensures Grows(p, [], Sort(RootsOf(p, p.tasks, gid)))
  {
    RootsOfMembers(p, p.tasks, gid);
    SortFacts(RootsOf(p, p.tasks, gid));
  }

  ghost function Grow(p: Plan, path: seq<Task>): Tree
    requires WellFormed(p) && IsPath(p, path)
    decreases |p.tasks| - |path|, 1, 0
  {
    PathBound(p, path);
    KidsGrow(p, path);
    Node(Last(path), GrowAll(p, path, Kids(p, Last(path))))
  }

  ghost function GrowAll(p: Plan, path: seq<Task>, ks: seq<Task>): seq<Tree>
    requires WellFormed(p) && |path| <= |p.tasks| && Grows(p, path, ks)
    decreases |p.tasks| - |path|, 0, |ks|
  {
    if ks == [] then []
    else
      PathBound(p, path + [ks[0]]);
      [Grow(p, path + [ks[0]])] + GrowAll(p, path, ks[1..])
  }

  ghost function Forest(p: Plan, gid: Option<Id>): seq<Tree>
    requires WellFormed(p)
  {
    RootsGrow(p, gid);
    GrowAll(p, [], Sort(RootsOf(p, p.tasks, gid)))
  }

  // ----- sizes -----

  ghost function Loc(t: Tree): nat {
    if t.kids != [] then LocAll(t.kids) else if t.task.loc.Some? then t.task.loc.value else 0
  }

  ghost function LocAll(ts: seq<Tree>): nat {
    if ts == [] then 0 else Loc(ts[0]) + LocAll(ts[1..])
  }

  ghost function DoneLoc(t: Tree): nat {
    if t.kids != [] then DoneLocAll(t.kids)
    else if t.task.loc.Some? && t.task.done then t.task.loc.value else 0
  }

  ghost function DoneLocAll(ts: seq<Tree>): nat {
    if ts == [] then 0 else DoneLoc(ts[0]) + DoneLocAll(ts[1..])
  }

  ghost function Unsized(t: Tree): nat {
    if t.kids != [] then UnsizedAll(t.kids) else if t.task.loc.None? then 1 else 0
  }

  ghost function UnsizedAll(ts: seq<Tree>): nat {
    if ts == [] then 0 else Unsized(ts[0]) + UnsizedAll(ts[1..])
  }

  // ----- rows -----

  predicate OwnHidden(v: View, t: Task, depth: nat, isParent: bool) {
    t.id !in v.shown && t.done && (depth == 0 || !isParent)
  }

  ghost function Head(t: Tree, depth: nat, hidden: bool, start: nat, v: View): Row {
    var isParent := t.kids != [];
    Row(t.task, depth, isParent, hidden || OwnHidden(v, t.task, depth, isParent), start, Loc(t),
        Loc(t), DoneLoc(t), Unsized(t), !isParent && t.task.loc.None?, t.task.id in v.collapsed)
  }

  ghost function Rows(t: Tree, depth: nat, hidden: bool, start: nat, v: View): seq<Row>
    decreases t
  {
    [Head(t, depth, hidden, start, v)] + RowsAll(t.kids, depth + 1, hidden || t.task.id in v.collapsed, start, v)
  }

  ghost function RowsAll(ts: seq<Tree>, depth: nat, hidden: bool, start: nat, v: View): seq<Row>
    decreases ts
  {
    if ts == [] then []
    else Rows(ts[0], depth, hidden, start, v) + RowsAll(ts[1..], depth, hidden, start + Loc(ts[0]), v)
  }

  function CountUnsized(rows: seq<Row>): nat {
    if rows == [] then 0
    else CountUnsized(rows[..|rows| - 1]) + (if !rows[|rows| - 1].isParent && rows[|rows| - 1].isUnsized then 1 else 0)
  }

  // ----- groups -----

  function GroupIds(releases: seq<Id>): seq<Option<Id>> {
    seq(|releases|, i requires 0 <= i < |releases| => Some(releases[i])) + [None]
  }

  ghost function MakeGroup(p: Plan, gid: Option<Id>, start: nat, v: View): Group
    requires WellFormed(p)
  {
    var f := Forest(p, gid);
    var rows := RowsAll(f, 0, false, start, v);
    Group(gid, start, start + LocAll(f), rows, CountUnsized(rows))
  }

  predicate Kept(g: Group) {
    g.release.Some? || g.rows != []
  }

  /** The groups drawn after walking the first `n` of `gids`. */
  ghost function GroupsUpTo(p: Plan, gids: seq<Option<Id>>, n: nat, v: View): seq<Group>
    requires WellFormed(p) && n <= |gids|
  {
    if n == 0 then []
    else
      var g := MakeGroup(p, gids[n - 1], CursorAt(p, gids, n - 1), v);
      GroupsUpTo(p, gids, n - 1, v) + (if Kept(g) then [g] else [])
  }

  ghost function CursorAt(p: Plan, gids: seq<Option<Id>>, n: nat): nat
    requires WellFormed(p) && n <= |gids|
  {
    if n == 0 then 0 else CursorAt(p, gids, n - 1) + LocAll(Forest(p, gids[n - 1]))
  }

  ghost function UnsizedAt(p: Plan, gids: seq<Option<Id>>, n: nat): nat
    requires WellFormed(p) && n <= |gids|
  {
    if n == 0 then 0 else UnsizedAt(p, gids, n - 1) + UnsizedAll(Forest(p, gids[n - 1]))
  }

  ghost function Timeline(p: Plan, v: View): seq<Group>
    requires WellFormed(p)
  {
    GroupsUpTo(p, GroupIds(p.releases), |p.releases| + 1, v)
  }

  ghost function Total(p: Plan): nat
    requires WellFormed(p)
  {
    CursorAt(p, GroupIds(p.releases), |p.releases| + 1)
  }

  ghost function UnsizedTotal(p: Plan): nat
    requires WellFormed(p)
  {
    UnsizedAt(p, GroupIds(p.releases), |p.releases| + 1)
  }

  // ----- root paths of the rows -----

  ghost function Paths(t: Tree, above: seq<Task>): seq<seq<Task>>
    decreases t
  {
    [above + [t.task]] + PathsAll(t.kids, above + [t.task])
  }

  ghost function PathsAll(ts: seq<Tree>, above: seq<Task>): seq<seq<Task>>
    decreases ts
  {
    if ts == [] then [] else Paths(ts[0], above) + PathsAll(ts[1..], above)
  }

  ghost predicate AnyCollapsed(v: View, q: seq<Task>, from: nat) {
    exists k :: from <= k < |q| - 1 && q[k].id in v.collapsed
  }

  /** The row drawn for path `q` below `above`. */
  ghost predicate Matches(row: Row, q: seq<Task>, above: seq<Task>, depth: nat, hidden: bool, v: View) {
    && |above| < |q| && above <= q
    && row.task == Last(q)
    && row.depth == depth + |q| - |above| - 1
    && row.hidden == (hidden || OwnHidden(v, row.task, row.depth, row.isParent) || AnyCollapsed(v, q, |above|))
    && row.collapsed == (row.task.id in v.collapsed)
  }

  lemma {:induction false} RowsMatch(t: Tree, above: seq<Task>, depth: nat, hidden: bool, start: nat, v: View)
    ensures |Rows(t, depth, hidden, start, v)| == |Paths(t, above)|
    ensures forall i :: 0 <= i < |Paths(t, above)| ==>
                          Matches(Rows(t, depth, hidden, start, v)[i], Paths(t, above)[i], above, depth, hidden, v)
    decreases t
  {
    var above' := above + [t.task];
    var hidden' := hidden || t.task.id in v.collapsed;
    RowsAllMatch(t.kids, above', depth + 1, hidden', start, v);
    var qs := PathsAll(t.kids, above');
    var rows := RowsAll(t.kids, depth + 1, hidden', start, v);
    forall i | 0 <= i < |Paths(t, above)|
      ensures Matches(Rows(t, depth, hidden, start, v)[i], Paths(t, above)[i], above, depth, hidden, v)
    {
      if i > 0 {
        var q := qs[i - 1];
        assert Matches(rows[i - 1], q, above', depth + 1, hidden', v);
        assert q[|above|] == above'[|above|] == t.task;
      }
    }
  }

  lemma {:induction false} RowsAllMatch(ts: seq<Tree>, above: seq<Task>, depth: nat, hidden: bool, start: nat, v: View)
    ensures |RowsAll(ts, depth, hidden, start, v)| == |PathsAll(ts, above)|
    ensures forall i :: 0 <= i < |PathsAll(ts, above)| ==>
              Matches(RowsAll(ts, depth, hidden, start, v)[i], PathsAll(ts, above)[i], above, depth, hidden, v)
    decreases ts
  {
    if ts != [] {
      RowsMatch(ts[0], above, depth, hidden, start, v);
      RowsAllMatch(ts[1..], above, depth, hidden, start + Loc(ts[0]), v);
    }
  }

  // ----- unfolding, one step at a time -----

  lemma {:induction false} GrowStep(p: Plan, path: seq<Task>, t: Tree)
    requires WellFormed(p) && IsPath(p, path) && t == Grow(p, path)
    ensures |path| <= |p.tasks| && t.task == Last(path) && Grows(p, path, Kids(p, Last(path)))
    ensures t.kids == GrowAll(p, path, Kids(p, Last(path)))
  {
    PathBound(p, path);
    KidsGrow(p, path);
  }

  /** The children a tree was grown from: in order, each once, and all of them. */
  lemma {:induction false} KidsAt(p: Plan, path: seq<Task>, t: Tree) returns (ks: seq<Task>)
    requires WellFormed(p) && IsPath(p, path) && t == Grow(p, path)
    ensures |path| <= |p.tasks| && t.task == Last(path) && Grows(p, path, ks) && t.kids == GrowAll(p, path, ks)
    ensures Sorted(ks) && DistinctIds(ks) && forall c :: c in ks <==> c in p.tasks && IsKid(p, Last(path), c)
    ensures ks != [] <==> HasKids(p, Last(path))
  {
    GrowStep(p, path, t);
    var all := KidsOf(p, p.tasks, Last(path).id);
    KidsOfMembers(p, p.tasks, Last(path).id);
    SortDistinct(all);
    SortFacts(all);
    ks := Kids(p, Last(path));
    if ks != [] { assert ks[0] in ks; }
  }

  /** The roots a group's forest was grown from. */
  lemma {:induction false} RootsAt(p: Plan, gid: Option<Id>, ts: seq<Tree>) returns (ks: seq<Task>)
    requires WellFormed(p) && ts == Forest(p, gid)
    ensures Grows(p, [], ks) && ts == GrowAll(p, [], ks) && Sorted(ks) && DistinctIds(ks)
    ensures forall t :: t in ks <==> t in p.tasks && GroupOf(p, t) == gid && !InTree(p, t)
  {
    var all := RootsOf(p, p.tasks, gid);
    RootsGrow(p, gid);
    RootsOfMembers(p, p.tasks, gid);
    SortDistinct(all);
    SortFacts(all);
    ks := Sort(all);
  }

  lemma {:induction false} GrowAllStep(p: Plan, path: seq<Task>, ks: seq<Task>, ts: seq<Tree>)
    requires WellFormed(p) && |path| <= |p.tasks| && Grows(p, path, ks) && ts == GrowAll(p, path, ks)
    ensures (ks == []) == (ts == [])
    ensures ks != [] ==> IsPath(p, path + [ks[0]]) && ts[0] == Grow(p, path + [ks[0]])
    ensures ks != [] ==> ts[1..] == GrowAll(p, path, ks[1..])
  {
  }

  lemma {:induction false} RowsStep(t: Tree, rows: seq<Row>, depth: nat, hidden: bool, start: nat, v: View)
    requires rows == Rows(t, depth, hidden, start, v)
    ensures rows != [] && rows[0] == Head(t, depth, hidden, start, v)
    ensures rows[1..] == RowsAll(t.kids, depth + 1, hidden || t.task.id in v.collapsed, start, v)
  {
  }

  lemma {:induction false} RowsAllStep(ts: seq<Tree>, rows: seq<Row>, depth: nat, hidden: bool, start: nat, v: View)
    returns (n: nat)
    requires ts != [] && rows == RowsAll(ts, depth, hidden, start, v)
    ensures n <= |rows| && rows[..n] == Rows(ts[0], depth, hidden, start, v)
    ensures rows[n..] == RowsAll(ts[1..], depth, hidden, start + Loc(ts[0]), v)
  {
    n := |Rows(ts[0], depth, hidden, start, v)|;
  }

  lemma {:induction false} PathsStep(t: Tree, above: seq<Task>, path: seq<Task>, qs: seq<seq<Task>>)
    requires qs == Paths(t, above) && path == above + [t.task]
    ensures qs != [] && qs[0] == path && qs[1..] == PathsAll(t.kids, path)
  {
  }

  lemma {:induction false} PathsAllStep(ts: seq<Tree>, above: seq<Task>, qs: seq<seq<Task>>) returns (n: nat)
    requires ts != [] && qs == PathsAll(ts, above)
    ensures n <= |qs| && qs[..n] == Paths(ts[0], above) && qs[n..] == PathsAll(ts[1..], above)
  {
    n := |Paths(ts[0], above)|;
  }
}
