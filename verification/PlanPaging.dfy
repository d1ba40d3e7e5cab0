/** Loading a whole plan: tasks and releases are paged by two cursors that advance
    together. The server lists each in increasing sequence order, a nonempty
    stretch at a time, and names the last sequence number while more is left. */
module PlanPaging {
  import opened Common

  /** A task or a release. */
  datatype Item = Item(order: nat, id: string)

  /** A cursor of 0 stands for none. */
  datatype Page = Page(tasks: seq<Item>, releases: seq<Item>, nextTask: nat, nextRelease: nat)

  datatype Cursors = Cursors(task: nat, release: nat)

  ghost predicate Sorted(items: seq<Item>) {
    && (forall i :: 0 <= i < |items| ==> items[i].order >= 1)
    && (forall i, j :: 0 <= i < j < |items| ==> items[i].order < items[j].order)
  }

  /** How many items come at or before the cursor. */
  ghost function Passed(items: seq<Item>, after: nat): (k: nat)
    ensures k <= |items|
  {
    if items == [] || items[0].order > after then 0 else 1 + Passed(items[1..], after)
  }

  lemma {:induction false} PassedIs(items: seq<Item>, after: nat, k: nat)
    requires Sorted(items) && k <= |items|
    requires forall i :: 0 <= i < k ==> items[i].order <= after
    requires k < |items| ==> items[k].order > after
    ensures Passed(items, after) == k
  {
    if k > 0 { PassedIs(items[1..], after, k - 1); }
  }

  lemma {:induction false} PassedAt(items: seq<Item>, j: nat)
    requires Sorted(items) && j < |items|
    ensures Passed(items, items[j].order) == j + 1
  {
    PassedIs(items, items[j].order, j + 1);
  }

  lemma {:induction false} PassedMeans(items: seq<Item>, after: nat)
    requires Sorted(items)
    ensures forall i :: 0 <= i < Passed(items, after) ==> items[i].order <= after
    ensures forall i :: Passed(items, after) <= i < |items| ==> items[i].order > after
  {
    if items != [] && items[0].order <= after { PassedMeans(items[1..], after); }
  }

  /** A page of what is left: a prefix of it, nonempty unless nothing is left, and a cursor exactly while
      more is left. */
  ghost predicate Lists(page: seq<Item>, next: nat, left: seq<Item>) {
    && page <= left && (left != [] ==> page != [])
    && next == if page == left then 0 else page[|page| - 1].order
  }

  /** What the server promises for every pair of cursors. */
  ghost predicate Answers(server: (nat, nat) -> Page, tasks: seq<Item>, releases: seq<Item>) {
    forall a: nat, b: nat ::
      && Lists(server(a, b).tasks, server(a, b).nextTask, tasks[Passed(tasks, a)..])
      && Lists(server(a, b).releases, server(a, b).nextRelease, releases[Passed(releases, b)..])
  }

  function MaxOrder(least: nat, items: seq<Item>): nat {
    if items == [] then least
    else
      var rest := MaxOrder(least, items[..|items| - 1]);
      var last := items[|items| - 1].order;
      if last > rest then last else rest
  }

  function Advanced(cursor: nat, page: seq<Item>, next: nat): nat {
    if next != 0 then next else MaxOrder(cursor, page)
  }

  lemma {:induction false} MaxOrderLast(least: nat, items: seq<Item>)
    requires Sorted(items)
    ensures MaxOrder(least, items)
            == if items == [] || items[|items| - 1].order < least then least else items[|items| - 1].order
  {
    if items != [] { MaxOrderLast(least, items[..|items| - 1]); }
  }

  /** How far one list has come: `found` is everything up to the cursor, and no cursor is left exactly at the end. */
  ghost predicate Reached(items: seq<Item>, cursor: nat, next: nat, found: seq<Item>) {
    found == items[..Passed(items, cursor)] && (next == 0 <==> found == items)
  }

  lemma {:induction false} PageWithin(items: seq<Item>, k: nat, page: seq<Item>)
    requires Sorted(items) && k <= |items| && page <= items[k..] && page != []
    ensures k + |page| <= |items| && page[|page| - 1] == items[k + |page| - 1] && Sorted(page)
  {
    assert forall i :: 0 <= i < |page| ==> page[i] == items[k..][i] == items[k + i];
  }

  /** The last item a page lists is where its cursor goes. */
  lemma {:induction false} CursorMoves(items: seq<Item>, cursor: nat, k: nat, page: seq<Item>, next: nat, cursor': nat)
    requires Sorted(items) && k == Passed(items, cursor) && Lists(page, next, items[k..]) && page != []
    requires cursor' == Advanced(cursor, page, next)
    ensures k + |page| <= |items| && cursor' == items[k + |page| - 1].order > cursor
    ensures Passed(items, cursor') == k + |page|
  {
    PageWithin(items, k, page);
    assert items[k + |page| - 1].order > cursor by { PassedMeans(items, cursor); }
    MaxOrderLast(cursor, page);
    PassedAt(items, k + |page| - 1);
  }

  lemma {:induction false} PageFull(items: seq<Item>, cursor: nat, k: nat, page: seq<Item>, next: nat, cursor': nat)
    requires Sorted(items) && k == Passed(items, cursor) && Lists(page, next, items[k..]) && page != []
    requires cursor' == Advanced(cursor, page, next)
    ensures Passed(items, cursor') == k + |page| && cursor' > cursor && k + |page| <= |items|
    ensures items[..k] + page == items[..k + |page|] && (next == 0 <==> k + |page| == |items|)
  {
    CursorMoves(items, cursor, k, page, next, cursor');
    var left := items[k..];
    assert page == left[..|page|] == items[k..k + |page|];
    assert page == left <==> |page| == |left|;
    assert page[|page| - 1].order >= 1 by { PageWithin(items, k, page); }
  }

  lemma {:induction false} PageEmpty(items: seq<Item>, cursor: nat, k: nat, page: seq<Item>, next: nat, cursor': nat)
    requires k == Passed(items, cursor) && Lists(page, next, items[k..]) && page == []
    requires cursor' == Advanced(cursor, page, next)
    ensures k == |items| && cursor' == cursor && next == 0
  {
    assert items[k..] == [];
  }

  /** One page moves the cursor past exactly what it lists. */
  lemma {:induction false} PageAdvances(items: seq<Item>, cursor: nat, found: seq<Item>, page: seq<Item>, next: nat,
                                        cursor': nat)
    requires Sorted(items) && found == items[..Passed(items, cursor)]
    requires Lists(page, next, items[Passed(items, cursor)..]) && cursor' == Advanced(cursor, page, next)
    ensures Reached(items, cursor', next, found + page)
    ensures Passed(items, cursor') == Passed(items, cursor) + |page| && cursor' >= cursor
    ensures found != items ==> page != [] && cursor' > cursor
  {
    var k := Passed(items, cursor);
    if page == [] {
      PageEmpty(items, cursor, k, page, next, cursor');
      assert found + page == found == items;
    } else {
      PageFull(items, cursor, k, page, next, cursor');
      assert items[..|items|] == items;
    }
  }

  /** The dual-cursor loop of `api`. Every task and every release is returned exactly once and in order, and the
      repeated-cursor guard (`None`) is never tripped. */
  method LoadPlan(server: (nat, nat) -> Page, ghost tasks: seq<Item>, ghost releases: seq<Item>)
    returns (r: Option<(seq<Item>, seq<Item>)>)
    requires Sorted(tasks) && Sorted(releases) && Answers(server, tasks, releases)
    ensures r == Some((tasks, releases))
  {
    var page := server(0, 0);
    var tasksAfter := Advanced(0, page.tasks, page.nextTask);
    var releasesAfter := Advanced(0, page.releases, page.nextRelease);
    PassedIs(tasks, 0, 0);
    PassedIs(releases, 0, 0);
    PageAdvances(tasks, 0, [], page.tasks, page.nextTask, tasksAfter);
    PageAdvances(releases, 0, [], page.releases, page.nextRelease, releasesAfter);
    var result := page;
    var seen: set<Cursors> := {};
    while result.nextTask != 0 || result.nextRelease != 0
      invariant Reached(tasks, tasksAfter, result.nextTask, result.tasks)
      invariant Reached(releases, releasesAfter, result.nextRelease, result.releases)
      invariant forall p :: p in seen ==> p.task + p.release < tasksAfter + releasesAfter
      decreases |tasks| + |releases| - Passed(tasks, tasksAfter) - Passed(releases, releasesAfter)
    {
      if Cursors(tasksAfter, releasesAfter) in seen { return None; }
      seen := seen + {Cursors(tasksAfter, releasesAfter)};
      page := server(tasksAfter, releasesAfter);
      var t := Advanced(tasksAfter, page.tasks, page.nextTask);
      var u := Advanced(releasesAfter, page.releases, page.nextRelease);
      PageAdvances(tasks, tasksAfter, result.tasks, page.tasks, page.nextTask, t);
      PageAdvances(releases, releasesAfter, result.releases, page.releases, page.nextRelease, u);
      result := Page(result.tasks + page.tasks, result.releases + page.releases, page.nextTask, page.nextRelease);
      tasksAfter, releasesAfter := t, u;
    }
    return Some((result.tasks, result.releases));
  }

  // ----- the server -----

  /** What comes after a cursor. */
  method Rest(items: seq<Item>, after: nat) returns (left: seq<Item>)
    requires Sorted(items)
    ensures left == items[Passed(items, after)..]
  {
    var k := 0;
    while k < |items| && items[k].order <= after
      invariant k <= |items| && forall i :: 0 <= i < k ==> items[i].order <= after
    {
      k := k + 1;
    }
    PassedIs(items, after, k);
    left := items[k..];
  }

  lemma {:induction false} Shortened(page: seq<Item>, next: nat, left: seq<Item>)
    requires Lists(page, next, left) && |page| > 1
    ensures Lists(page[..|page| - 1], page[|page| - 2].order, left)
  {
  }

  /** The first entries of a list, and the cursor after them. */
  method FirstEntries(left: seq<Item>, limit: nat) returns (items: seq<Item>, next: nat)
    requires (forall i :: 0 <= i < |left| ==> left[i].order >= 1) && limit >= 1
    ensures Lists(items, next, left) && |items| <= limit
  {
    if |left| <= limit { return left, 0; }
    return left[..limit], left[limit - 1].order;
  }

  /** One entry less. */
  method DropLast(items: seq<Item>, next: nat, ghost left: seq<Item>) returns (fewer: seq<Item>, next': nat)
    requires Lists(items, next, left) && |items| > 1
    ensures Lists(fewer, next', left) && |fewer| == |items| - 1
  {
    var n := |items| - 1;
    Shortened(items, next, left);
    return items[..n], items[n - 1].order;
  }

  /** A page is shortened, tasks first, until the response fits. */
  method FitPage(first: Page, fits: Page -> bool, ghost leftTasks: seq<Item>, ghost leftReleases: seq<Item>)
    returns (r: Option<Page>)
    requires Lists(first.tasks, first.nextTask, leftTasks) && Lists(first.releases, first.nextRelease, leftReleases)
    ensures r.Some? ==>
      && fits(r.value) && |r.value.tasks| <= |first.tasks| && |r.value.releases| <= |first.releases|
      && Lists(r.value.tasks, r.value.nextTask, leftTasks) && Lists(r.value.releases, r.value.nextRelease, leftReleases)
    ensures r.None? ==> exists page :: !fits(page) && |page.tasks| <= 1 && |page.releases| <= 1
  {
    var page := first;
    while !fits(page)
      invariant Lists(page.tasks, page.nextTask, leftTasks) && Lists(page.releases, page.nextRelease, leftReleases)
      invariant |page.tasks| <= |first.tasks| && |page.releases| <= |first.releases|
      decreases |page.tasks| + |page.releases|
    {
      if |page.tasks| > 1 {
        var fewer, next := DropLast(page.tasks, page.nextTask, leftTasks);
        page := page.(tasks := fewer, nextTask := next);
      } else if |page.releases| > 1 {
        var fewer, next := DropLast(page.releases, page.nextRelease, leftReleases);
        page := page.(releases := fewer, nextRelease := next);
      } else {
        return None;
      }
    }
    return Some(page);
  }

  /** The server's page: at most `limit` of each list, then shortened, tasks first, until the response fits; it
      fails only when a page of at most one task and one release does not. */
  method ServePlan(tasks: seq<Item>, releases: seq<Item>, a: nat, b: nat, limit: nat, fits: Page -> bool)
    returns (r: Option<Page>)
    requires Sorted(tasks) && Sorted(releases) && limit >= 1
    ensures r.Some? ==>
      && fits(r.value) && |r.value.tasks| <= limit && |r.value.releases| <= limit
      && Lists(r.value.tasks, r.value.nextTask, tasks[Passed(tasks, a)..])
      && Lists(r.value.releases, r.value.nextRelease, releases[Passed(releases, b)..])
    ensures r.None? ==> exists page :: !fits(page) && |page.tasks| <= 1 && |page.releases| <= 1
  {
    var leftTasks := Rest(tasks, a);
    var leftReleases := Rest(releases, b);
    var firstTasks, nextTask := FirstEntries(leftTasks, limit);
    var firstReleases, nextRelease := FirstEntries(leftReleases, limit);
    r := FitPage(Page(firstTasks, firstReleases, nextTask, nextRelease), fits, leftTasks, leftReleases);
  }
}
