/** `seedPlanCollapsedDoneParents`: which parents start folded. A depth-first
    pass records levels in a map, then finished parents below a root are added. */
module PlanSeed {
  import opened Common
  import opened PlanModel
  import opened PlanLayout
  import opened PlanGantt
  import opened PlanMeaning

  /** Every recorded level is the length of a root path. */
  ghost predicate TrueLevels(p: Plan, depth: map<Id, nat>) {
    forall id :: id in depth ==> exists q :: LevelPath(p, q, id, depth[id])
  }

  ghost predicate LevelPath(p: Plan, q: seq<Task>, id: Id, level: nat) {
    IsPath(p, q) && Last(q).id == id && level == |q| - 1
  }

  ghost predicate Seen(p: Plan, q: seq<Task>, depth: map<Id, nat>) {
    IsPath(p, q) && Last(q).id in depth
  }

  /** `after` has seen what `before` had, and everything through `path`. */
  ghost predicate Visited(p: Plan, before: map<Id, nat>, after: map<Id, nat>, path: seq<Task>) {
    && TrueLevels(p, after)
    && (forall q :: IsPath(p, q) ==> (Seen(p, q, after) <==> Seen(p, q, before) || path <= q))
  }

  ghost predicate Untouched(p: Plan, depth: map<Id, nat>, path: seq<Task>) {
    forall q :: Seen(p, q, depth) ==> !(path <= q)
  }

  ghost predicate Finished(p: Plan, depth: map<Id, nat>, path: seq<Task>) {
    forall q :: IsPath(p, q) && path <= q ==> Seen(p, q, depth)
  }

  /** The state inside the loop over children: `path` itself and the first `n` subtrees are done. */
  ghost predicate PartlyVisited(p: Plan, before: map<Id, nat>, now: map<Id, nat>, path: seq<Task>, ks: seq<Task>,
                                n: nat)
    requires n <= |ks|
  {
    && TrueLevels(p, now)
    && (forall q :: IsPath(p, q) ==> (Seen(p, q, now) <==> Seen(p, q, before) || q == path || Below(path, q, ks[..n])))
  }

  ghost predicate Below(path: seq<Task>, q: seq<Task>, ks: seq<Task>) {
    path <= q && |path| < |q| && q[|path|] in ks
  }

  lemma {:induction false} SeenOnce(p: Plan, q: seq<Task>, r: seq<Task>)
    requires WellFormed(p) && IsPath(p, q) && IsPath(p, r) && Last(q).id == Last(r).id
    ensures q == r
  {
    SameIdSameTask(p, Last(q), Last(r));
    PathsAgree(p, q, r);
  }

  lemma {:induction false} MarkSelf(p: Plan, before: map<Id, nat>, now: map<Id, nat>, path: seq<Task>, ks: seq<Task>)
    requires WellFormed(p) && IsPath(p, path) && TrueLevels(p, before) && now == before[Last(path).id := |path| - 1]
    ensures PartlyVisited(p, before, now, path, ks, 0)
  {
    forall id | id in now ensures exists q :: LevelPath(p, q, id, now[id]) {
      if id == Last(path).id {
        assert LevelPath(p, path, id, now[id]);
      } else {
        var q :| LevelPath(p, q, id, before[id]);
        assert LevelPath(p, q, id, now[id]);
      }
    }
    forall q | IsPath(p, q) ensures Seen(p, q, now) <==> Seen(p, q, before) || q == path || Below(path, q, ks[..0]) {
      if Last(q).id == Last(path).id {
        SeenOnce(p, q, path);
      }
    }
  }

  lemma {:induction false} ChildUntouched(p: Plan, before: map<Id, nat>, now: map<Id, nat>, path: seq<Task>,
                                          ks: seq<Task>, n: nat)
    requires n < |ks| && DistinctIds(ks) && Untouched(p, before, path) && PartlyVisited(p, before, now, path, ks, n)
    ensures Untouched(p, now, path + [ks[n]])
  {
  }

  lemma {:induction false} ChildVisited(p: Plan, before: map<Id, nat>, now: map<Id, nat>, next: map<Id, nat>,
                                        path: seq<Task>, ks: seq<Task>, n: nat)
    requires n < |ks| && PartlyVisited(p, before, now, path, ks, n) && Visited(p, now, next, path + [ks[n]])
    ensures PartlyVisited(p, before, next, path, ks, n + 1)
  {
  }

  lemma {:induction false} AllChildrenVisited(p: Plan, before: map<Id, nat>, now: map<Id, nat>, path: seq<Task>,
                                              ks: seq<Task>)
    requires WellFormed(p) && IsPath(p, path) && ks == KidsOf(p, p.tasks, Last(path).id)
    requires PartlyVisited(p, before, now, path, ks, |ks|)
    ensures Visited(p, before, now, path)
  {
    assert ks[..|ks|] == ks;
    KidsOfMembers(p, p.tasks, Last(path).id);
    forall q | IsPath(p, q) ensures Seen(p, q, now) <==> Seen(p, q, before) || path <= q {
      if path <= q && |path| < |q| {
        assert IsKid(p, q[|path| - 1], q[|path|]);
        assert Below(path, q, ks);
      }
    }
  }

  method Visit(t: Task, level: nat, depth: map<Id, nat>, children: map<Id, seq<Task>>, ghost p: Plan,
               ghost path: seq<Task>) returns (out: map<Id, nat>)
    requires WellFormed(p) && Listed(p, p.tasks, children)
    requires IsPath(p, path) && Last(path) == t && level == |path| - 1
    requires TrueLevels(p, depth) && (Untouched(p, depth, path) || Finished(p, depth, path))
    ensures Visited(p, depth, out, path)
    decreases |p.tasks| - |path|
  {
    PathBound(p, path);
    if t.id in depth && depth[t.id] <= level {
      assert Seen(p, path, depth);
      return depth;
    }
    assert Untouched(p, depth, path) by { LevelIfSeen(p, depth, path); }
    var ks := Lookup(children, t.id);
    assert ListedAt(p, p.tasks, children, t.id);
    KidsOfMembers(p, p.tasks, t.id);
    out := depth[t.id := level];
    MarkSelf(p, depth, out, path, ks);
    for n := 0 to |ks|
      invariant PartlyVisited(p, depth, out, path, ks, n)
    {
      ghost var now := out;
      ChildUntouched(p, depth, out, path, ks, n);
      PathExtend(p, path, ks[n]);
      PathBound(p, path + [ks[n]]);
      out := Visit(ks[n], level + 1, out, children, p, path + [ks[n]]);
      ChildVisited(p, depth, now, out, path, ks, n);
    }
    AllChildrenVisited(p, depth, out, path, ks);
  }

  lemma {:induction false} LevelIfSeen(p: Plan, depth: map<Id, nat>, path: seq<Task>)
    requires WellFormed(p) && TrueLevels(p, depth) && IsPath(p, path)
    ensures Seen(p, path, depth) ==> depth[Last(path).id] == |path| - 1
    ensures Finished(p, depth, path) ==> Seen(p, path, depth)
  {
    if Seen(p, path, depth) {
      var q :| LevelPath(p, q, Last(path).id, depth[Last(path).id]);
      SeenOnce(p, q, path);
    }
  }

  // ----- the whole pass -----

  /** A finished task with children, below the root level of its group. */
  ghost predicate StartsFolded(p: Plan, t: Task) {
    && t.done && KidsOf(p, p.tasks, t.id) != []
    && (exists q :: PathTo(p, t, q) && |q| > 1)
  }

  ghost predicate AllLevels(p: Plan, depth: map<Id, nat>) {
    TrueLevels(p, depth) && forall q :: IsPath(p, q) ==> Seen(p, q, depth)
  }

  lemma {:induction false} FoldDecision(p: Plan, depth: map<Id, nat>, children: map<Id, seq<Task>>, t: Task)
    requires WellFormed(p) && AllLevels(p, depth) && Listed(p, p.tasks, children) && t in p.tasks
    ensures (t.done && t.id in depth && depth[t.id] > 0 && Lookup(children, t.id) != []) <==> StartsFolded(p, t)
  {
    assert ListedAt(p, p.tasks, children, t.id);
    assert forall r :: PathTo(p, t, r) ==> Seen(p, r, depth);
    if t.id in depth {
      var q :| LevelPath(p, q, t.id, depth[t.id]);
      SameIdSameTask(p, Last(q), t);
      assert PathTo(p, t, q);
      if depth[t.id] == 0 && StartsFolded(p, t) {
        var r :| PathTo(p, t, r) && |r| > 1;
        PathsAgree(p, q, r);
      }
    }
  }

  ghost predicate RootsVisited(p: Plan, depth: map<Id, nat>, n: nat)
    requires n <= |p.tasks|
  {
    TrueLevels(p, depth) && forall q :: IsPath(p, q) ==> (Seen(p, q, depth) <==> q[0] in p.tasks[..n])
  }

  lemma {:induction false} RootStep(p: Plan, depth: map<Id, nat>, out: map<Id, nat>, n: nat)
    requires WellFormed(p) && n < |p.tasks| && RootsVisited(p, depth, n)
    requires if InTree(p, p.tasks[n]) then out == depth else Visited(p, depth, out, [p.tasks[n]])
    ensures RootsVisited(p, out, n + 1)
  {
  }

  lemma {:induction false} RootUntouched(p: Plan, depth: map<Id, nat>, n: nat)
    requires WellFormed(p) && n < |p.tasks| && RootsVisited(p, depth, n)
    ensures Untouched(p, depth, [p.tasks[n]])
  {
  }

  method Levels(p: Plan, byId: map<Id, Task>, children: map<Id, seq<Task>>) returns (depth: map<Id, nat>)
    requires WellFormed(p) && byId == Index(p.tasks) && Listed(p, p.tasks, children)
    ensures AllLevels(p, depth)
  {
    depth := map[];
    for n := 0 to |p.tasks|
      invariant RootsVisited(p, depth, n)
    {
      var t := p.tasks[n];
      ghost var before := depth;
      if !(t.parent.Some? && t.parent.value in byId && GroupOf(p, byId[t.parent.value]) == GroupOf(p, t)) {
        RootUntouched(p, depth, n);
        depth := Visit(t, 0, depth, children, p, [t]);
      }
      RootStep(p, before, depth, n);
    }
    assert p.tasks[..|p.tasks|] == p.tasks;
  }

  ghost function FoldedIds(p: Plan, ts: seq<Task>): set<Id> {
    set t | t in ts && StartsFolded(p, t) :: t.id
  }

  lemma {:induction false} FoldedStep(p: Plan, ts: seq<Task>, t: Task, folded: set<Id>)
    requires folded == FoldedIds(p, ts)
    ensures FoldedIds(p, ts + [t]) == if StartsFolded(p, t) then folded + {t.id} else folded
  {
  }

  /** On the fields alone: a finished task with a child, below a task without a parent. */
  ghost predicate FoldsAtStart(p: Plan, t: Task) {
    && t in p.tasks && t.done && (exists c :: c in p.tasks && ParentOf(p, t, c))
    && (exists q :: Descent(p, q) && |q| > 1 && q[|q| - 1] == t)
  }

  lemma {:induction false} StartsFoldedIs(p: Plan, t: Task)
    requires WellFormed(p) && t in p.tasks
    ensures StartsFolded(p, t) <==> FoldsAtStart(p, t)
  {
    HasKidsIs(p, t);
    KidsOfMembers(p, p.tasks, t.id);
    if KidsOf(p, p.tasks, t.id) != [] { assert KidsOf(p, p.tasks, t.id)[0] in KidsOf(p, p.tasks, t.id); }
    forall q ensures Descent(p, q) <==> IsPath(p, q) { DescentIs(p, q); }
  }

  /** The seeding pass adds exactly the finished parents that sit below the root
      level and are reachable from a root, for every parent relation. */
  method Seed(p: Plan, collapsed: set<Id>) returns (out: set<Id>)
    requires WellFormed(p)
    ensures out == collapsed + FoldedIds(p, p.tasks)
    ensures forall id :: id in out <==> id in collapsed || exists t: Task :: FoldsAtStart(p, t) && t.id == id
  {
    out := SeedFolds(p, collapsed);
    forall t | t in p.tasks ensures StartsFolded(p, t) <==> FoldsAtStart(p, t) { StartsFoldedIs(p, t); }
  }

  method SeedFolds(p: Plan, collapsed: set<Id>) returns (out: set<Id>)
    requires WellFormed(p)
    ensures out == collapsed + FoldedIds(p, p.tasks)
  {
    var byId := IndexTasks(p.tasks);
    var children := UnsortedLists(p);
    var depth := Levels(p, byId, children);
    out := collapsed;
    ghost var added: set<Id> := {};
    for i := 0 to |p.tasks|
      invariant added == FoldedIds(p, p.tasks[..i]) && out == collapsed + added
    {
      var t := p.tasks[i];
      FoldDecision(p, depth, children, t);
      FoldedStep(p, p.tasks[..i], t, added);
      assert p.tasks[..i + 1] == p.tasks[..i] + [t];
      if t.done && t.id in depth && depth[t.id] > 0 && Lookup(children, t.id) != [] {
        out := out + {t.id};
        added := added + {t.id};
      }
    }
    assert p.tasks[..|p.tasks|] == p.tasks;
  }
}
