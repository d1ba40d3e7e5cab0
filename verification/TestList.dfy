/** The list as the page holds it: an ordered collection of runs and the scope
    records that each response updates in place. Its methods are proved to take
    the steps of `TestCache`. */
module TestList {
  import opened Common
  import opened TestCache
  import opened TestCacheRuns
  import opened TestProgress

  // ----- an ordered map from worktree to run, as a sequence -----

  ghost predicate Unique(s: seq<Run>) {
    forall i, j :: 0 <= i < j < |s| ==> s[i].worktree != s[j].worktree
  }

  ghost function ToMap(s: seq<Run>): map<nat, Run> {
    if s == [] then map[] else ToMap(s[..|s| - 1])[s[|s| - 1].worktree := s[|s| - 1]]
  }

  function IndexOf(s: seq<Run>, w: nat): (i: nat)
    ensures i <= |s| && (i < |s| ==> s[i].worktree == w)
    ensures forall j :: 0 <= j < i ==> s[j].worktree != w
  {
    if s == [] || s[0].worktree == w then 0 else 1 + IndexOf(s[1..], w)
  }

  /** `Map.set`: an existing entry keeps its place. */
  function Put(s: seq<Run>, r: Run): seq<Run> {
    var i := IndexOf(s, r.worktree);
    if i < |s| then s[i := r] else s + [r]
  }

  lemma {:induction false} ToMapHolds(s: seq<Run>, w: nat)
    requires Unique(s)
    ensures w in ToMap(s) <==> IndexOf(s, w) < |s|
    ensures w in ToMap(s) ==> ToMap(s)[w] == s[IndexOf(s, w)]
  {
    if s != [] {
      ToMapHolds(s[..|s| - 1], w);
      var i, j := IndexOf(s, w), IndexOf(s[..|s| - 1], w);
      assert forall k :: 0 <= k < |s| - 1 ==> s[..|s| - 1][k] == s[k];
    }
  }

  lemma {:induction false} PutIsUpdate(s: seq<Run>, r: Run)
    requires Unique(s)
    ensures Unique(Put(s, r)) && ToMap(Put(s, r)) == ToMap(s)[r.worktree := r]
  {
    var out := Put(s, r);
    assert Unique(out);
    forall w ensures w in ToMap(out) <==> w in ToMap(s)[r.worktree := r] {
      ToMapHolds(s, w);
      ToMapHolds(out, w);
      PutIndex(s, r, w);
    }
    forall w | w in ToMap(out) ensures ToMap(out)[w] == ToMap(s)[r.worktree := r][w] {
      ToMapHolds(s, w);
      ToMapHolds(out, w);
      PutIndex(s, r, w);
    }
  }

  lemma {:induction false} PutIndex(s: seq<Run>, r: Run, w: nat)
    requires Unique(s)
    ensures var out := Put(s, r);
            && (IndexOf(out, w) < |out| <==> IndexOf(s, w) < |s| || w == r.worktree)
            && (IndexOf(out, w) < |out| ==> out[IndexOf(out, w)] == if w == r.worktree then r else s[IndexOf(s, w)])
  {
    var out, i, j := Put(s, r), IndexOf(s, w), IndexOf(Put(s, r), w);
    if w == r.worktree {
      assert out[i] == r;
    } else {
      assert forall k :: 0 <= k < |s| && s[k].worktree == w ==> out[k] == s[k];
      if i < |s| { assert out[i].worktree == w; }
      if j < |out| { assert out[j].worktree == w && out[j] != r; }
    }
  }

  lemma {:induction false} KeptStep(local: map<nat, Run>, r: Run, page: map<nat, Run>, q: Range)
    requires r.worktree !in local
    ensures Kept(local[r.worktree := r], page, q)
         == if !Belongs(r, q) || r.worktree in page then Kept(local, page, q)[r.worktree := r] else Kept(local, page, q)
  {
  }

  /** The runs outside the range, and those about to be replaced. */
  method KeepRuns(runs: seq<Run>, returned: seq<Run>, q: Range) returns (out: seq<Run>)
    requires Unique(runs) && Unique(returned)
    ensures Unique(out) && ToMap(out) == Kept(ToMap(runs), ToMap(returned), q)
  {
    out := [];
    for i := 0 to |runs|
      invariant Unique(out) && ToMap(out) == Kept(ToMap(runs[..i]), ToMap(returned), q)
    {
      assert runs[..i + 1][..i] == runs[..i];
      NewKey(runs, i);
      KeptStep(ToMap(runs[..i]), runs[i], ToMap(returned), q);
      ToMapHolds(returned, runs[i].worktree);
      PutIsUpdate(out, runs[i]);
      if !Belongs(runs[i], q) || IndexOf(returned, runs[i].worktree) < |returned| {
        out := Put(out, runs[i]);
      }
    }
    assert runs[..|runs|] == runs;
  }

  /** `mergePage`: one run per worktree, and as a map exactly the merge. */
  lemma {:induction false} PutNext(kept: map<nat, Run>, out: seq<Run>, returned: seq<Run>, i: nat)
    requires i < |returned| && Unique(out) && ToMap(out) == kept + ToMap(returned[..i])
    ensures var next := Put(out, returned[i]); Unique(next) && ToMap(next) == kept + ToMap(returned[..i + 1])
  {
    assert returned[..i + 1][..i] == returned[..i];
    PutIsUpdate(out, returned[i]);
    SumUpdate(kept, ToMap(returned[..i]), returned[i]);
  }

  method MergeRuns(runs: seq<Run>, page: Page, q: Range) returns (out: seq<Run>)
    requires Unique(runs)
    ensures Unique(out) && ToMap(out) == Merge(ToMap(runs), Incoming(page.runs, q), q)
  {
    var returned := Returned(page.runs, q);
    out := KeepRuns(runs, returned, q);
    ghost var kept := ToMap(out);
    for i := 0 to |returned|
      invariant Unique(out) && ToMap(out) == kept + ToMap(returned[..i])
    {
      PutNext(kept, out, returned, i);
      out := Put(out, returned[i]);
    }
    assert returned[..|returned|] == returned;
  }

  lemma {:induction false} SumUpdate(a: map<nat, Run>, b: map<nat, Run>, r: Run)
    ensures (a + b)[r.worktree := r] == a + b[r.worktree := r]
  {
  }

  lemma {:induction false} NewKey(runs: seq<Run>, i: nat)
    requires Unique(runs) && i < |runs|
    ensures Unique(runs[..i]) && runs[i].worktree !in ToMap(runs[..i])
  {
    ToMapHolds(runs[..i], runs[i].worktree);
  }

  method Returned(rs: seq<Run>, q: Range) returns (returned: seq<Run>)
    ensures Unique(returned) && ToMap(returned) == Incoming(rs, q)
    ensures Unique(rs) && (forall i :: 0 <= i < |rs| ==> Belongs(rs[i], q)) ==> returned == rs
  {
    returned := [];
    for i := 0 to |rs|
      invariant Unique(returned) && ToMap(returned) == Incoming(rs[..i], q)
      invariant Unique(rs) && (forall j :: 0 <= j < |rs| ==> Belongs(rs[j], q)) ==> returned == rs[..i]
    {
      assert rs[..i + 1][..i] == rs[..i];
      PutIsUpdate(returned, rs[i]);
      if Belongs(rs[i], q) {
        returned := Put(returned, rs[i]);
      }
    }
    assert rs[..|rs|] == rs;
  }

  // ----- the page's state -----

  class List {
    var runs: seq<Run>
    var inspected: map<string, Scope>
    var order: seq<string>
    var pending: seq<Params>
    var scopes: set<string>
    var position: nat
    var loading: Option<Params>
    var refreshing: Option<Params>
    var failed: bool

    ghost function View(): State
      reads this
    {
      State(ToMap(runs), inspected, order, pending, scopes, position, loading, refreshing, failed)
    }

    /** One run per worktree; the scopes taken in turn, and the one being refreshed, have been inspected. */
    ghost predicate Valid()
      reads this
    {
      && Unique(runs) && order != [] && (forall i :: 0 <= i < |order| ==> order[i] in inspected)
      && (refreshing.Some? ==> refreshing.value.repo in inspected)
    }

    /** The page as it opens, with the first page of the first scope. */
    constructor (first: Page, repos: seq<string>)
      requires repos != []
      ensures Valid() && View() == Start(first, repos)
      ensures Unique(first.runs) && (forall i :: 0 <= i < |first.runs| ==> first.runs[i].worktree > 0)
              ==> runs == first.runs
    {
      var returned := Returned(first.runs, Range("", 0, 0));
      var waiting := seq(|repos| - 1, i requires 0 <= i < |repos| - 1 => Params(repos[i + 1], 0));
      runs := returned;
      inspected := map[repos[0] := Scope(first.next, first.next == 0, 0)];
      order := [repos[0]];
      pending := (if first.next != 0 then [Params(repos[0], first.next)] else []) + waiting;
      scopes := set r | r in repos;
      position, loading, refreshing, failed := 0, None, None, false;
    }

    method RecordInspection(p: Params, next: nat)
      modifies this`inspected, this`order
      ensures inspected == Record(old(inspected), p.repo, next)
      ensures order == if p.repo in old(inspected) then old(order) else old(order) + [p.repo]
    {
      var scope := Scope(0, false, 0);
      if p.repo in inspected { scope := inspected[p.repo]; } else { order := order + [p.repo]; }
      scope := scope.(complete := scope.complete || next == 0);
      if next > scope.frontier { scope := scope.(frontier := next); }
      inspected := inspected[p.repo := scope];
    }

    method LoadMore()
      requires Valid()
      modifies this
      ensures Valid() && View() == Step(old(View()), Event.LoadMore)
    {
      if loading.Some? || failed || pending == [] { return; }
      loading, pending := Some(pending[0]), pending[1..];
    }

    method LoadReply(page: Page)
      requires Valid() && loading.Some?
      modifies this
      ensures Valid()
      ensures View() == if Stalls(page, old(loading.value.after)) then LoadFailed(old(View()))
              else LoadDone(old(View()), page)
    {
      var p := loading.value;
      if page.next != 0 && page.next <= p.after {
        pending, failed, loading := [p] + pending, true, None;
        return;
      }
      var merged := MergeRuns(runs, page, Range(p.repo, p.after, page.next));
      RecordInspection(p, page.next);
      pending := (if page.next != 0 then [Params(p.repo, page.next)] else []) + pending;
      loading, runs := None, merged;
    }

    method LoadError()
      requires Valid() && loading.Some?
      modifies this
      ensures Valid() && View() == Step(old(View()), Event.LoadError)
    {
      pending, failed := [loading.value] + pending, true;
      loading := None;
    }

    method Refresh()
      requires Valid()
      modifies this
      ensures Valid() && View() == Step(old(View()), Event.Refresh)
    {
      if refreshing.Some? { return; }
      var key := order[position % |order|];
      position := position + 1;
      refreshing := Some(Params(key, inspected[key].after));
    }

    method RefreshReply(page: Page)
      requires Valid() && refreshing.Some?
      modifies this
      ensures Valid() && View() == Step(old(View()), Event.RefreshReply(page))
    {
      var p := refreshing.value;
      refreshing := None;
      if page.next != 0 && page.next <= p.after { return; }
      var scope := inspected[p.repo];
      var end := if !scope.complete && (page.next == 0 || page.next > scope.frontier) then scope.frontier
                 else page.next;
      runs := MergeRuns(runs, page, Range(p.repo, p.after, end));
      var after := if page.next != 0 && (scope.complete || page.next < scope.frontier) then page.next else 0;
      inspected := inspected[p.repo := scope.(after := after)];
    }

    method RefreshError()
      requires Valid()
      modifies this
      ensures Valid() && View() == Step(old(View()), Event.RefreshError)
    {
      refreshing := None;
    }

    method Subscribe(ids: seq<string>)
      requires Valid()
      modifies this
      ensures Valid() && View() == Step(old(View()), Event.Subscribe(ids))
    {
      ghost var s := View();
      for i := 0 to |ids|
        invariant Valid() && View() == Subscribed(s, ids[..i])
      {
        assert ids[..i + 1][..i] == ids[..i];
        if ids[i] !in scopes {
          scopes := scopes + {ids[i]};
          pending := pending + [Params(ids[i], 0)];
        }
      }
      assert ids[..|ids|] == ids;
    }

    /** Every event takes the list exactly where it takes the state machine. */
    method Handle(e: Event)
      requires Valid()
      modifies this
      ensures Valid() && View() == Step(old(View()), e)
    {
      match e
      case LoadMore => LoadMore();
      case LoadReply(page) => if loading.Some? { LoadReply(page); }
      case LoadError => if loading.Some? { LoadError(); }
      case Refresh => Refresh();
      case RefreshReply(page) => if refreshing.Some? { RefreshReply(page); }
      case RefreshError => RefreshError();
      case Subscribe(ids) => Subscribe(ids);
    }
  }

  // ----- whole runs -----

  method Run(first: Page, repos: seq<string>, es: seq<Event>) returns (list: List)
    requires repos != []
    ensures fresh(list) && list.Valid() && list.View() == Play(Start(first, repos), es)
  {
    list := new List(first, repos);
    for i := 0 to |es|
      invariant fresh(list) && list.Valid() && list.View() == Play(Start(first, repos), es[..i])
    {
      assert es[..i + 1][..i] == es[..i];
      list.Handle(es[i]);
    }
    assert es[..|es|] == es;
  }

  /** After every interleaving over a fixed server the page's list holds one run per worktree, exactly the server's
      runs on the inspected ranges, and once nothing is queued every run of every scope. */
  method RunFixed(ghost db: Database, first: Page, repos: seq<string>, es: seq<Event>) returns (list: List)
    requires repos != [] && (forall i, j :: 0 <= i < j < |repos| ==> repos[i] != repos[j])
    requires Keyed(db) && Answers(db, Params(repos[0], 0), first) && Served(db, Start(first, repos), es)
    ensures fresh(list) && Unique(list.runs) && Mirrors(db, list.View())
    ensures Queue(list.View()) == [] ==> Complete(db, list.View())
  {
    list := Run(first, repos, es);
    FixedServer(db, first, repos, es);
  }

  /** The same list, going on. */
  method Continue(list: List, es: seq<Event>)
    requires list.Valid()
    modifies list
    ensures list.Valid() && list.View() == Play(old(list.View()), es)
  {
    ghost var s := list.View();
    for i := 0 to |es|
      invariant list.Valid() && list.View() == Play(s, es[..i])
    {
      assert es[..i + 1][..i] == es[..i];
      list.Handle(es[i]);
    }
    assert es[..|es|] == es;
  }

  /** Over a fixed server, after any run and enough turns of loading, with refreshes interleaved, the page's list holds
      every run of every scope. */
  method RunComplete(ghost db: Database, first: Page, repos: seq<string>, before: seq<Event>, es: seq<Event>,
                     ghost cursors: set<nat>) returns (list: List)
    requires repos != [] && (forall i, j :: 0 <= i < j < |repos| ==> repos[i] != repos[j])
    requires Keyed(db) && Answers(db, Params(repos[0], 0), first) && Served(db, Start(first, repos), before)
    requires var s := Play(Start(first, repos), before);
             && Served(db, s, es) && LoadCursors(s, es, cursors) && NoSubscribe(es) && !Play(s, es).failed
             && Turns(s, es) > |s.scopes| * (|cursors| + 1)
    ensures fresh(list) && Unique(list.runs) && list.pending == [] && Complete(db, list.View())
    ensures list.scopes == (set r | r in repos) + Subscriptions(before)
  {
    list := Run(first, repos, before);
    Continue(list, es);
    LoadsComplete(db, first, repos, before, es, cursors);
    ScopesAre(first, repos, before);
  }

  /** After any run, and enough answered refreshes of a scope over a server that stopped changing, the page's list shows
      what the server has in that scope, on everything inspected. */
  method RunSettled(ghost db: Database, first: Page, repos: seq<string>, before: seq<Event>, es: seq<Event>,
                    ghost key: string, ghost cursors: set<nat>) returns (list: List)
    requires repos != [] && (forall i, j :: 0 <= i < j < |repos| ==> repos[i] != repos[j]) && Keyed(db)
    requires var s := Play(Start(first, repos), before);
             && key in s.inspected && Served(db, s, es) && NamesCursors(s, es, key, cursors)
             && Answered(s, es, key) >= 2 * |cursors| + 2
    ensures fresh(list) && Unique(list.runs) && Settled(db, list.View(), key)
  {
    list := Run(first, repos, before);
    Continue(list, es);
    RefreshesSettle(db, first, repos, before, es, key, cursors);
  }
}
