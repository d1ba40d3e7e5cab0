/** The plan the timeline is drawn from: releases, tasks and the parent links
    between tasks. Parent links come from the server unchecked, so they may name
    missing tasks, tasks of another release, themselves or form cycles.
    Everything about termination and coverage rests on `IsPath`: a chain of
    in-group parent links that starts at a root. */
module PlanModel {
  import opened Common

  type Id = string

  datatype Task = Task(id: Id, parent: Option<Id>, release: Option<Id>,
                       position: int, seqNo: nat, done: bool, loc: Option<nat>)

  datatype Plan = Plan(releases: seq<Id>, tasks: seq<Task>)

  ghost predicate DistinctIds(ts: seq<Task>) {
    forall i, j :: 0 <= i < j < |ts| ==> ts[i].id != ts[j].id
  }

  ghost predicate Distinct<T>(s: seq<T>) {
    forall i, j :: 0 <= i < j < |s| ==> s[i] != s[j]
  }

  /** Task and release ids are primary keys. */
  ghost predicate WellFormed(p: Plan) {
    DistinctIds(p.tasks) && Distinct(p.releases)
  }

  /** `new Map(tasks.map(t => [t.task_id, t]))`: a later entry replaces an earlier one. */
  function Index(ts: seq<Task>): map<Id, Task> {
    if ts == [] then map[]
    else Index(ts[..|ts| - 1])[ts[|ts| - 1].id := ts[|ts| - 1]]
  }

  lemma {:induction false} IndexFinds(ts: seq<Task>, i: nat)
    requires DistinctIds(ts) && i < |ts|
    ensures ts[i].id in Index(ts) && Index(ts)[ts[i].id] == ts[i]
  {
    if i < |ts| - 1 {
      IndexFinds(ts[..|ts| - 1], i);
    }
  }

  lemma {:induction false} IndexHolds(ts: seq<Task>, id: Id)
    requires id in Index(ts)
    ensures Index(ts)[id] in ts && Index(ts)[id].id == id
  {
    if ts[|ts| - 1].id != id {
      IndexHolds(ts[..|ts| - 1], id);
    }
  }

  function GroupOf(p: Plan, t: Task): Option<Id> {
    if t.release.Some? && t.release.value != "" && t.release.value in p.releases then t.release else None
  }

  /** Hangs below another task of its own group. */
  predicate InTree(p: Plan, t: Task) {
    var byId := Index(p.tasks);
    t.parent.Some? && t.parent.value in byId && GroupOf(p, byId[t.parent.value]) == GroupOf(p, t)
  }

  predicate IsKid(p: Plan, a: Task, c: Task) {
    InTree(p, c) && c.parent == Some(a.id)
  }

  ghost predicate HasKids(p: Plan, t: Task) {
    exists c :: c in p.tasks && IsKid(p, t, c)
  }

  /** Tasks among `ts` hanging below task `id`, in the given order. */
  function KidsOf(p: Plan, ts: seq<Task>, id: Id): seq<Task> {
    if ts == [] then []
    else KidsOf(p, ts[..|ts| - 1], id) +
         (if InTree(p, ts[|ts| - 1]) && ts[|ts| - 1].parent == Some(id) then [ts[|ts| - 1]] else [])
  }

  /** Tasks among `ts` of group `gid` that are not below another task of the group. */
  function RootsOf(p: Plan, ts: seq<Task>, gid: Option<Id>): seq<Task> {
    if ts == [] then []
    else RootsOf(p, ts[..|ts| - 1], gid) +
         (if GroupOf(p, ts[|ts| - 1]) == gid && !InTree(p, ts[|ts| - 1]) then [ts[|ts| - 1]] else [])
  }

  lemma {:induction false} DistinctAppend(r: seq<Task>, t: Task, ts: seq<Task>)
    requires DistinctIds(r) && DistinctIds(ts + [t]) && forall x :: x in r ==> x in ts
    ensures DistinctIds(r + [t])
  {
    forall i | 0 <= i < |r| ensures r[i].id != t.id {
      assert r[i] in r;
      var k :| 0 <= k < |ts| && ts[k] == r[i];
      assert (ts + [t])[k] == r[i] && (ts + [t])[|ts|] == t;
    }
  }

  lemma {:induction false} KidsOfMembers(p: Plan, ts: seq<Task>, id: Id)
    ensures forall t :: t in KidsOf(p, ts, id) <==> t in ts && InTree(p, t) && t.parent == Some(id)
    ensures DistinctIds(ts) ==> DistinctIds(KidsOf(p, ts, id))
  {
    if ts != [] {
      var front, t := ts[..|ts| - 1], ts[|ts| - 1];
      KidsOfMembers(p, front, id);
      assert ts == front + [t];
      if DistinctIds(ts) { DistinctAppend(KidsOf(p, front, id), t, front); }
    }
  }

  lemma {:induction false} RootsOfMembers(p: Plan, ts: seq<Task>, gid: Option<Id>)
    ensures forall t :: t in RootsOf(p, ts, gid) <==> t in ts && GroupOf(p, t) == gid && !InTree(p, t)
    ensures DistinctIds(ts) ==> DistinctIds(RootsOf(p, ts, gid))
  {
    if ts != [] {
      RootsOfMembers(p, ts[..|ts| - 1], gid);
      var r := RootsOf(p, ts[..|ts| - 1], gid);
      assert forall i :: 0 <= i < |r| ==> r[i] in r;
      assert ts == ts[..|ts| - 1] + [ts[|ts| - 1]];
    }
  }

  // ----- sibling order -----

  predicate Before(a: Task, b: Task) {
    a.position < b.position || (a.position == b.position && a.seqNo <= b.seqNo)
  }

  /** Earlier position first, and of equal positions the lower sequence number. */
  ghost predicate Ranked(a: Task, b: Task) {
    a.position < b.position || (a.position == b.position && a.seqNo <= b.seqNo)
  }

  ghost predicate Sorted(s: seq<Task>) {
    forall i, j :: 0 <= i < j < |s| ==> Ranked(s[i], s[j])
  }

  function Insert(t: Task, s: seq<Task>): seq<Task> {
    if s == [] || Before(t, s[0]) then [t] + s else [s[0]] + Insert(t, s[1..])
  }

  /** `list.sort(order)`: a stable sort by (position, sequence number). */
  function Sort(s: seq<Task>): seq<Task> {
    if s == [] then [] else Insert(s[0], Sort(s[1..]))
  }

  lemma {:induction false} InsertMembers(t: Task, s: seq<Task>, x: Task)
    ensures x in Insert(t, s) <==> x == t || x in s
  {
    if !(s == [] || Before(t, s[0])) {
      InsertMembers(t, s[1..], x);
    }
  }

  lemma {:induction false} InsertSorted(t: Task, s: seq<Task>, r: seq<Task>)
    requires Sorted(s) && r == Insert(t, s)
    ensures Sorted(r)
  {
    if !(s == [] || Before(t, s[0])) {
      var rest := Insert(t, s[1..]);
      InsertSorted(t, s[1..], rest);
      forall i | 0 <= i < |rest| ensures Ranked(s[0], rest[i]) {
        InsertMembers(t, s[1..], rest[i]);
        assert rest[i] in rest;
      }
    }
  }

  /** The sorted list holds the same tasks, in order. */
  lemma {:induction false} SortFacts(s: seq<Task>)
    ensures Sorted(Sort(s)) && forall x :: x in Sort(s) <==> x in s
  {
    if s != [] {
      SortFacts(s[1..]);
      InsertSorted(s[0], Sort(s[1..]), Sort(s));
      forall x ensures x in Sort(s) <==> x in s { InsertMembers(s[0], Sort(s[1..]), x); }
    }
  }

  lemma {:induction false} InsertMultiset(t: Task, s: seq<Task>)
    ensures multiset(Insert(t, s)) == multiset{t} + multiset(s)
  {
    if s == [] || Before(t, s[0]) {
      assert Insert(t, s) == [t] + s;
    } else {
      InsertMultiset(t, s[1..]);
      assert s == [s[0]] + s[1..];
      assert Insert(t, s) == [s[0]] + Insert(t, s[1..]);
    }
  }

  /** Sorting permutes: no sibling is lost or repeated. */
  lemma {:induction false} SortMultiset(s: seq<Task>)
    ensures multiset(Sort(s)) == multiset(s)
  {
    if s != [] {
      SortMultiset(s[1..]);
      InsertMultiset(s[0], Sort(s[1..]));
      assert s == [s[0]] + s[1..];
    }
  }

  function WithKey(s: seq<Task>, position: int, seqNo: nat): seq<Task> {
    if s == [] then [] else OneWithKey(s[0], position, seqNo) + WithKey(s[1..], position, seqNo)
  }

  function OneWithKey(t: Task, position: int, seqNo: nat): seq<Task> {
    if t.position == position && t.seqNo == seqNo then [t] else []
  }

  lemma {:induction false} InsertStable(t: Task, s: seq<Task>, position: int, seqNo: nat, r: seq<Task>)
    requires Sorted(s) && r == Insert(t, s)
    ensures WithKey(r, position, seqNo) == OneWithKey(t, position, seqNo) + WithKey(s, position, seqNo)
  {
    if s == [] || Before(t, s[0]) {
      assert r[1..] == s;
    } else {
      var rest := Insert(t, s[1..]);
      InsertStable(t, s[1..], position, seqNo, rest);
      assert r[1..] == rest;
      Swap(OneWithKey(s[0], position, seqNo), OneWithKey(t, position, seqNo), WithKey(s[1..], position, seqNo));
    }
  }

  lemma {:induction false} Swap(a: seq<Task>, b: seq<Task>, c: seq<Task>)
    requires a == [] || b == []
    ensures a + (b + c) == b + (a + c)
  {
  }

  /** Tasks with equal keys keep their order, as a JavaScript sort promises. */
  lemma {:induction false} SortStable(s: seq<Task>, position: int, seqNo: nat, r: seq<Task>)
    requires r == Sort(s)
    ensures WithKey(r, position, seqNo) == WithKey(s, position, seqNo)
  {
    if s != [] {
      SortStable(s[1..], position, seqNo, Sort(s[1..]));
      SortFacts(s[1..]);
      InsertStable(s[0], Sort(s[1..]), position, seqNo, r);
    }
  }

  lemma {:induction false} SortDistinct(s: seq<Task>)
    requires DistinctIds(s)
    ensures DistinctIds(Sort(s))
  {
    if s != [] {
      SortDistinct(s[1..]);
      SortFacts(s[1..]);
      InsertDistinct(s[0], Sort(s[1..]));
    }
  }

  lemma {:induction false} InsertDistinct(t: Task, s: seq<Task>)
    requires DistinctIds(s) && forall x :: x in s ==> x.id != t.id
    ensures DistinctIds(Insert(t, s))
  {
    if s != [] && !Before(t, s[0]) {
      InsertDistinct(t, s[1..]);
      var r := Insert(t, s[1..]);
      forall j | 0 <= j < |r| ensures s[0].id != r[j].id {
        InsertMembers(t, s[1..], r[j]);
        assert r[j] in r;
      }
    }
  }

  // ----- root paths -----

  /** A chain of tasks from a root of its group down in-group parent links. */
  ghost predicate IsPath(p: Plan, path: seq<Task>) {
    && |path| > 0
    && (forall i :: 0 <= i < |path| ==> path[i] in p.tasks)
    && !InTree(p, path[0])
    && (forall i :: 0 < i < |path| ==> IsKid(p, path[i - 1], path[i]))
  }

  ghost function Last<T>(s: seq<T>): T
    requires |s| > 0
  {
    s[|s| - 1]
  }

  ghost predicate PathTo(p: Plan, t: Task, path: seq<Task>) {
    IsPath(p, path) && Last(path) == t
  }

  /** Reached from a root of its group by parent links. */
  ghost predicate Rooted(p: Plan, t: Task) {
    exists path :: PathTo(p, t, path)
  }

  lemma {:induction false} SameIdSameTask(p: Plan, a: Task, b: Task)
    requires WellFormed(p) && a in p.tasks && b in p.tasks && a.id == b.id
    ensures a == b
  {
  }

  /** A task has at most one root path. */
  lemma {:induction false} PathsAgree(p: Plan, a: seq<Task>, b: seq<Task>)
    requires WellFormed(p) && IsPath(p, a) && IsPath(p, b) && Last(a) == Last(b)
    ensures a == b
    decreases |a|
  {
    assert |a| > 1 ==> IsKid(p, a[|a| - 2], a[|a| - 1]);
    assert |b| > 1 ==> IsKid(p, b[|b| - 2], b[|b| - 1]);
    if |a| > 1 && |b| > 1 {
      var a', b' := a[..|a| - 1], b[..|b| - 1];
      SameIdSameTask(p, Last(a'), Last(b'));
      PathsAgree(p, a', b');
      assert a == a' + [Last(a)] && b == b' + [Last(b)];
    }
  }

  lemma {:induction false} PathPrefix(p: Plan, path: seq<Task>, n: nat)
    requires IsPath(p, path) && 0 < n <= |path|
    ensures IsPath(p, path[..n])
  {
  }

  lemma {:induction false} PathExtend(p: Plan, path: seq<Task>, c: Task)
    requires IsPath(p, path) && c in p.tasks && IsKid(p, Last(path), c)
    ensures IsPath(p, path + [c])
  {
  }

  /** No task occurs twice on a root path, so cycles are never reached from a root. */
  lemma {:induction false} PathDistinct(p: Plan, path: seq<Task>)
    requires WellFormed(p) && IsPath(p, path)
    ensures Distinct(path)
  {
    forall i, j | 0 <= i < j < |path| ensures path[i] != path[j] {
      assert |path[..i + 1]| != |path[..j + 1]|;
      if path[i] == path[j] {
        PathsAgree(p, path[..i + 1], path[..j + 1]);
      }
    }
  }

  lemma {:induction false} DistinctBound<T>(s: seq<T>, all: seq<T>)
    requires Distinct(s) && forall x :: x in s ==> x in all
    ensures |s| <= |all|
  {
    if s != [] {
      var x := s[|s| - 1];
      assert x in s;
      var i :| 0 <= i < |all| && all[i] == x;
      var rest := all[..i] + all[i + 1..];
      var s' := s[..|s| - 1];
      forall y | y in s' ensures y in rest {
        var k :| 0 <= k < |s'| && s'[k] == y;
        assert s[k] != s[|s| - 1];
        assert y in s && y in all;
        var j :| 0 <= j < |all| && all[j] == y;
        assert j != i;
        if j < i { assert rest[j] == y; } else { assert rest[j - 1] == y; }
      }
      DistinctBound(s', rest);
    }
  }

  /** The recursion of the walk is bounded by the number of tasks. */
  lemma {:induction false} PathBound(p: Plan, path: seq<Task>)
    requires WellFormed(p) && IsPath(p, path)
    ensures |path| <= |p.tasks|
  {
    PathDistinct(p, path);
    DistinctBound(path, p.tasks);
  }

  /** Every task on a root path belongs to the group of its root. */
  lemma {:induction false} PathGroup(p: Plan, path: seq<Task>, i: nat)
    requires WellFormed(p) && IsPath(p, path) && i < |path|
    ensures GroupOf(p, path[i]) == GroupOf(p, path[0])
    decreases i
  {
    if i > 0 {
      assert IsKid(p, path[i - 1], path[i]);
      IndexHolds(p.tasks, path[i].parent.value);
      SameIdSameTask(p, Index(p.tasks)[path[i].parent.value], path[i - 1]);
      PathGroup(p, path, i - 1);
    }
  }
}
