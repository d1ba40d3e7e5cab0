/** Safety of the test list over whole runs: every interleaving of load-more and
    refresh responses, against a fixed server and against one that had changed. */
module TestCacheRuns {
  import opened Common
  import opened TestCache

  // ----- the queue of load-more requests -----

  /** The request in flight, then the requests waiting. */
  ghost function Queue(s: State): seq<Params> {
    (if s.loading.Some? then [s.loading.value] else []) + s.pending
  }

  /** A queued request continues its scope exactly where inspection stopped. */
  ghost predicate Continues(inspected: map<string, Scope>, p: Params) {
    if p.repo in inspected then !inspected[p.repo].complete && p.after == inspected[p.repo].frontier else p.after == 0
  }

  ghost predicate Queued(queue: seq<Params>, key: string) {
    exists i :: 0 <= i < |queue| && queue[i].repo == key
  }

  ghost predicate DistinctRepos(queue: seq<Params>) {
    forall i, j :: 0 <= i < j < |queue| ==> queue[i].repo != queue[j].repo
  }

  /** Every scope is inspected to the end or has its one continuation queued. */
  ghost predicate QueueOk(scopes: set<string>, inspected: map<string, Scope>, queue: seq<Params>) {
    && DistinctRepos(queue)
    && (forall i :: 0 <= i < |queue| ==> queue[i].repo in scopes && Continues(inspected, queue[i]))
    && (forall k :: k in scopes && !Queued(queue, k) ==> k in inspected && inspected[k].complete)
    && inspected.Keys <= scopes
  }

  ghost predicate ScopesOk(s: State) {
    && s.order != [] && (forall k :: k in s.order <==> k in s.inspected)
    && (forall k :: k in s.inspected ==> s.inspected[k].complete || s.inspected[k].frontier > 0)
    && (s.refreshing.Some? ==> s.refreshing.value.repo in s.inspected
                               && s.refreshing.value.after == s.inspected[s.refreshing.value.repo].after)
  }

  ghost predicate Wired(s: State) {
    Keyed(s.local) && ScopesOk(s) && QueueOk(s.scopes, s.inspected, Queue(s))
  }

  lemma {:induction false} QueueAdvance(scopes: set<string>, inspected: map<string, Scope>, p: Params,
                                        rest: seq<Params>, next: nat)
    requires QueueOk(scopes, inspected, [p] + rest) && (next == 0 || next > p.after)
    ensures QueueOk(scopes, Record(inspected, p.repo, next), (if next != 0 then [Params(p.repo, next)] else []) + rest)
  {
    var was := [p] + rest;
    var queue := (if next != 0 then [Params(p.repo, next)] else []) + rest;
    var ins := Record(inspected, p.repo, next);
    var d := if next != 0 then 0 else 1;
    assert was[0] == p && Continues(inspected, was[0]);
    assert |queue| + d == |was| && forall i :: 0 <= i < |queue| ==> queue[i].repo == was[i + d].repo;
    forall i | 0 <= i < |queue| ensures queue[i].repo in scopes && Continues(ins, queue[i]) {
      if i + d > 0 {
        assert queue[i] == was[i + d] && was[0].repo != was[i + d].repo;
      }
    }
    forall k | Queued(was, k) && (k != p.repo || next != 0) ensures Queued(queue, k) {
      var i :| 0 <= i < |was| && was[i].repo == k;
      assert queue[i - d].repo == k;
    }
  }

  lemma {:induction false} QueueAppend(scopes: set<string>, inspected: map<string, Scope>, queue: seq<Params>,
                                       id: string)
    requires QueueOk(scopes, inspected, queue) && id !in scopes
    ensures QueueOk(scopes + {id}, inspected, queue + [Params(id, 0)])
  {
    var q' := queue + [Params(id, 0)];
    assert q'[|queue|].repo == id;
    forall k | Queued(queue, k) ensures Queued(q', k) {
      var i :| 0 <= i < |queue| && queue[i].repo == k;
      assert q'[i].repo == k;
    }
  }

  lemma {:induction false} SubscribedWired(s: State, ids: seq<string>)
    requires Wired(s)
    ensures Wired(Subscribed(s, ids))
    ensures Subscribed(s, ids) == s.(scopes := Subscribed(s, ids).scopes, pending := Subscribed(s, ids).pending)
  {
    if ids != [] {
      SubscribedWired(s, ids[..|ids| - 1]);
      var s', id := Subscribed(s, ids[..|ids| - 1]), ids[|ids| - 1];
      if id !in s'.scopes {
        QueueAppend(s'.scopes, s'.inspected, Queue(s'), id);
        assert Queue(Subscribed(s, ids)) == Queue(s') + [Params(id, 0)];
      }
    }
  }

  lemma {:induction false} LoadDoneWired(s: State, page: Page)
    requires Wired(s) && s.loading.Some? && !Stalls(page, s.loading.value.after)
    ensures Wired(LoadDone(s, page))
  {
    var p, s' := s.loading.value, LoadDone(s, page);
    assert Queue(s) == [p] + s.pending && Queue(s)[0] == p;
    QueueAdvance(s.scopes, s.inspected, p, s.pending, page.next);
    assert Queue(s') == (if page.next != 0 then [Params(p.repo, page.next)] else []) + s.pending;
    MergeKeyed(s.local, page.runs, Range(p.repo, p.after, page.next));
  }

  lemma {:induction false} RefreshDoneWired(s: State, page: Page)
    requires Wired(s) && s.refreshing.Some?
    ensures Wired(RefreshDone(s, page))
  {
    var p := s.refreshing.value;
    MergeKeyed(s.local, page.runs, Range(p.repo, p.after, RefreshEnd(s.inspected[p.repo], page.next)));
    var s' := RefreshDone(s, page);
    assert Queue(s') == Queue(s);
    forall i | 0 <= i < |Queue(s')| ensures Continues(s'.inspected, Queue(s')[i]) {
      assert Continues(s.inspected, Queue(s)[i]);
    }
  }

  /** Every step, with any response at all, keeps the list wired up. */
  lemma {:induction false} StepWired(s: State, e: Event)
    requires Wired(s)
    ensures Wired(Step(s, e))
  {
    match e
    case LoadReply(page) =>
      if s.loading.Some? && !Stalls(page, s.loading.value.after) {
        LoadDoneWired(s, page);
      } else if s.loading.Some? {
        assert Queue(Step(s, e)) == Queue(s);
      }
    case RefreshReply(page) =>
      if s.refreshing.Some? && !Stalls(page, s.refreshing.value.after) { RefreshDoneWired(s, page); }
    case Subscribe(ids) => SubscribedWired(s, ids);
    case LoadMore => assert Queue(Step(s, e)) == Queue(s);
    case LoadError => assert Queue(Step(s, e)) == Queue(s);
    case Refresh =>
    case RefreshError =>
  }

  lemma {:induction false} StartWired(first: Page, repos: seq<string>)
    requires repos != [] && (forall i, j :: 0 <= i < j < |repos| ==> repos[i] != repos[j])
    ensures Wired(Start(first, repos))
  {
    var s := Start(first, repos);
    var d := if first.next != 0 then 0 else 1;
    forall w | w in s.local ensures s.local[w].worktree == w && w > 0 {
      IncomingMember(first.runs, Range("", 0, 0), w);
    }
    var queue := Queue(s);
    assert forall i :: 0 <= i < |queue| ==> queue[i].repo == repos[i + d];
    forall k | k in repos && (k != repos[0] || d == 0) ensures Queued(queue, k) {
      var i :| 0 <= i < |repos| && repos[i] == k;
      assert queue[i - d].repo == k;
    }
  }

  // ----- a fixed server -----

  predicate Covered(scope: Scope, w: nat) {
    scope.complete || w <= scope.frontier
  }

  ghost predicate Inspected(inspected: map<string, Scope>, run: Run) {
    exists k :: k in inspected && InScope(k, run) && Covered(inspected[k], run.worktree)
  }

  /** The local runs are exactly the server's runs in the inspected ranges. */
  ghost predicate Mirrors(db: Database, s: State) {
    forall w :: Mirrored(db, s.local, s.inspected, w)
  }

  ghost predicate Mirrored(db: Database, local: map<nat, Run>, inspected: map<string, Scope>, w: nat) {
    && (w in local <==> w in db && Inspected(inspected, db[w]))
    && (w in local ==> local[w] == db[w])
  }

  lemma {:induction false} LoadDoneMirrors(db: Database, s: State, page: Page)
    requires Keyed(db) && Wired(s) && Mirrors(db, s) && s.loading.Some? && Answers(db, s.loading.value, page)
    ensures Mirrors(db, LoadDone(s, page))
  {
    var p, s' := s.loading.value, LoadDone(s, page);
    var q := Range(p.repo, p.after, page.next);
    assert Queue(s)[0] == p && Continues(s.inspected, p);
    forall w ensures Mirrored(db, s'.local, s'.inspected, w) {
      assert Mirrored(db, s.local, s.inspected, w);
      IncomingOfAnswer(db, p, page, q, w);
      if w in db {
        LoadWidens(s.inspected, p, page.next, db[w]);
      }
    }
  }

  /** A load widens what is inspected by exactly the range of its page. */
  lemma {:induction false} LoadWidens(inspected: map<string, Scope>, p: Params, next: nat, run: Run)
    requires Continues(inspected, p) && (next == 0 || next > p.after) && run.worktree > 0
    ensures Inspected(Record(inspected, p.repo, next), run)
            <==> Inspected(inspected, run) || Belongs(run, Range(p.repo, p.after, next))
  {
    var ins := Record(inspected, p.repo, next);
    assert p.repo in ins;
    if Inspected(inspected, run) {
      var k :| k in inspected && InScope(k, run) && Covered(inspected[k], run.worktree);
      assert k in ins && Covered(ins[k], run.worktree);
    }
    if Inspected(ins, run) {
      var k :| k in ins && InScope(k, run) && Covered(ins[k], run.worktree);
      if k in inspected && Covered(inspected[k], run.worktree) {
        assert Inspected(inspected, run);
      }
    }
  }

  lemma {:induction false} RefreshDoneMirrors(db: Database, s: State, page: Page)
    requires Keyed(db) && Wired(s) && Mirrors(db, s) && s.refreshing.Some? && Answers(db, s.refreshing.value, page)
    ensures Mirrors(db, RefreshDone(s, page))
  {
    var p, s' := s.refreshing.value, RefreshDone(s, page);
    var scope := s.inspected[p.repo];
    var q := Range(p.repo, p.after, RefreshEnd(scope, page.next));
    forall w ensures Mirrored(db, s'.local, s'.inspected, w) {
      assert Mirrored(db, s.local, s.inspected, w);
      IncomingOfAnswer(db, p, page, q, w);
      if w in db {
        SameInspection(s.inspected, s'.inspected, db[w]);
        if Belongs(db[w], q) {
          assert InScope(p.repo, db[w]) && Covered(scope, db[w].worktree);
        }
      }
    }
  }

  lemma {:induction false} SameInspection(a: map<string, Scope>, b: map<string, Scope>, run: Run)
    requires a.Keys == b.Keys && forall k :: k in a ==> b[k] == a[k].(after := b[k].after)
    ensures Inspected(a, run) <==> Inspected(b, run)
  {
  }

  lemma {:induction false} StepMirrors(db: Database, s: State, e: Event)
    requires Keyed(db) && Wired(s) && Mirrors(db, s) && ServedStep(db, s, e)
    ensures Mirrors(db, Step(s, e))
  {
    match e
    case LoadReply(page) => if s.loading.Some? { LoadDoneMirrors(db, s, page); }
    case RefreshReply(page) => if s.refreshing.Some? { RefreshDoneMirrors(db, s, page); }
    case Subscribe(ids) => SubscribedWired(s, ids);
      var s' := Subscribed(s, ids);
      forall w ensures Mirrored(db, s'.local, s'.inspected, w) { assert Mirrored(db, s.local, s.inspected, w); }
    case LoadMore => KeepsMirror(db, s, Step(s, e));
    case LoadError => KeepsMirror(db, s, Step(s, e));
    case Refresh => KeepsMirror(db, s, Step(s, e));
    case RefreshError => KeepsMirror(db, s, Step(s, e));
  }

  lemma {:induction false} KeepsMirror(db: Database, s: State, s': State)
    requires Mirrors(db, s) && s'.local == s.local && s'.inspected == s.inspected
    ensures Mirrors(db, s')
  {
  }

  lemma {:induction false} StartMirrors(db: Database, first: Page, repos: seq<string>)
    requires repos != [] && Keyed(db) && Answers(db, Params(repos[0], 0), first)
    ensures Mirrors(db, Start(first, repos))
  {
    var s := Start(first, repos);
    var all := Range("", 0, 0);
    forall w ensures Mirrored(db, s.local, s.inspected, w) {
      IncomingMember(first.runs, all, w);
      if w in db {
        assert Inspected(s.inspected, db[w]) <==> InScope(repos[0], db[w]) && Covered(s.inspected[repos[0]], w);
        if Inspected(s.inspected, db[w]) { assert db[w] in first.runs; }
      }
    }
  }

  lemma {:induction false} PlayMirrors(db: Database, s: State, es: seq<Event>)
    requires Keyed(db) && Wired(s) && Mirrors(db, s) && Served(db, s, es)
    ensures Wired(Play(s, es)) && Mirrors(db, Play(s, es))
  {
    if es != [] {
      var s', e := Play(s, es[..|es| - 1]), es[|es| - 1];
      PlayMirrors(db, s, es[..|es| - 1]);
      StepWired(s', e);
      StepMirrors(db, s', e);
    }
  }

  /** Every scope is complete, and every run of every scope is shown. */
  ghost predicate Complete(db: Database, s: State) {
    forall k :: k in s.scopes ==>
      && k in s.inspected && s.inspected[k].complete
      && (forall w :: w in db && InScope(k, db[w]) ==> w in s.local && s.local[w] == db[w])
  }

  lemma {:induction false} QuietIsComplete(db: Database, s: State)
    requires Wired(s) && Mirrors(db, s) && Queue(s) == []
    ensures Complete(db, s)
  {
    assert forall k :: !Queued(Queue(s), k);
    forall w, k | k in s.scopes && w in db && InScope(k, db[w]) ensures w in s.local && s.local[w] == db[w] {
      assert Mirrored(db, s.local, s.inspected, w);
      assert k in s.inspected && Covered(s.inspected[k], db[w].worktree);
    }
  }

  /** Against a fixed server, after every interleaving of load-more and refresh
      responses the local runs are exactly the server's runs in the inspected
      ranges; once nothing is queued that is every run of every scope. */
  lemma {:induction false} FixedServer(db: Database, first: Page, repos: seq<string>, es: seq<Event>)
    requires repos != [] && (forall i, j :: 0 <= i < j < |repos| ==> repos[i] != repos[j])
    requires Keyed(db) && Answers(db, Params(repos[0], 0), first) && Served(db, Start(first, repos), es)
    ensures var s := Play(Start(first, repos), es);
            Mirrors(db, s) && (Queue(s) == [] ==> Complete(db, s))
  {
    var s0 := Start(first, repos);
    StartWired(first, repos);
    StartMirrors(db, first, repos);
    PlayMirrors(db, s0, es);
    if Queue(Play(s0, es)) == [] {
      QuietIsComplete(db, Play(s0, es));
    }
  }

  // ----- a server that had changed -----

  /** The keys of scope `key` passed by its refresh cursor agree with the server. */
  ghost predicate Sweeping(db: Database, s: State, key: string) {
    key in s.inspected && forall w :: 0 < w <= s.inspected[key].after ==> Agree(db, s.local, key, w)
  }

  /** Scope `key` shows what the server has, on all that was inspected of it. */
  ghost predicate Settled(db: Database, s: State, key: string) {
    key in s.inspected && forall w :: w > 0 && Covered(s.inspected[key], w) ==> Agree(db, s.local, key, w)
  }

  /** No response of the server spoils a key that already agrees. */
  lemma {:induction false} StepKeepsAgreement(db: Database, s: State, e: Event, key: string, w: nat)
    requires Keyed(db) && Wired(s) && ServedStep(db, s, e) && Agree(db, s.local, key, w)
    ensures Agree(db, Step(s, e).local, key, w)
  {
    match e
    case LoadReply(page) =>
      if s.loading.Some? {
        var p := s.loading.value;
        MergeAgrees(db, s.local, p, page, Range(p.repo, p.after, page.next), key, w);
      }
    case RefreshReply(page) =>
      if s.refreshing.Some? {
        var p := s.refreshing.value;
        MergeAgrees(db, s.local, p, page, Range(p.repo, p.after, RefreshEnd(s.inspected[p.repo], page.next)), key, w);
      }
    case Subscribe(ids) => SubscribedWired(s, ids);
    case LoadMore =>
    case LoadError =>
    case Refresh =>
    case RefreshError =>
  }

  /** The event is a reply to a refresh of scope `key`. */
  predicate RepliesTo(s: State, e: Event, key: string) {
    e.RefreshReply? && s.refreshing.Some? && s.refreshing.value.repo == key
  }

  lemma {:induction false} ReplyAgrees(db: Database, s: State, e: Event, key: string, w: nat)
    requires Keyed(db) && Wired(s) && ServedStep(db, s, e) && RepliesTo(s, e, key)
    requires var scope := s.inspected[key]; var end := RefreshEnd(scope, e.page.next);
             w > scope.after && (end == 0 || w <= end)
    ensures Agree(db, Step(s, e).local, key, w)
  {
    var p := s.refreshing.value;
    MergeAgrees(db, s.local, p, e.page, Range(p.repo, p.after, RefreshEnd(s.inspected[key], e.page.next)), key, w);
  }

  lemma {:induction false} AfterUnchanged(s: State, e: Event, key: string)
    requires Wired(s) && key in s.inspected && !RepliesTo(s, e, key)
    ensures key in Step(s, e).inspected && Step(s, e).inspected[key].after == s.inspected[key].after
  {
    if e.Subscribe? {
      SubscribedWired(s, e.ids);
    }
  }

  lemma {:induction false} StepSweeps(db: Database, s: State, e: Event, key: string)
    requires Keyed(db) && Wired(s) && ServedStep(db, s, e) && Sweeping(db, s, key)
    ensures Sweeping(db, Step(s, e), key)
    ensures RepliesTo(s, e, key) && Step(s, e).inspected[key].after == 0 ==> Settled(db, Step(s, e), key)
  {
    var s' := Step(s, e);
    forall w | w > 0 && Agree(db, s.local, key, w) ensures Agree(db, s'.local, key, w) {
      StepKeepsAgreement(db, s, e, key, w);
    }
    if RepliesTo(s, e, key) {
      var scope := s.inspected[key];
      var end := RefreshEnd(scope, e.page.next);
      forall w | w > scope.after && (end == 0 || w <= end) ensures Agree(db, s'.local, key, w) {
        ReplyAgrees(db, s, e, key, w);
      }
    } else {
      AfterUnchanged(s, e, key);
    }
  }

  lemma {:induction false} PlaySweeps(db: Database, s: State, es: seq<Event>, key: string)
    requires Keyed(db) && Wired(s) && Served(db, s, es) && Sweeping(db, s, key)
    ensures Wired(Play(s, es)) && Sweeping(db, Play(s, es), key)
  {
    if es != [] {
      var s', e := Play(s, es[..|es| - 1]), es[|es| - 1];
      PlaySweeps(db, s, es[..|es| - 1], key);
      StepWired(s', e);
      StepSweeps(db, s', e, key);
    }
  }

  lemma {:induction false} PlayWired(s: State, es: seq<Event>)
    requires Wired(s)
    ensures Wired(Play(s, es))
  {
    if es != [] {
      PlayWired(s, es[..|es| - 1]);
      StepWired(Play(s, es[..|es| - 1]), es[|es| - 1]);
    }
  }

  lemma {:induction false} SweepSettles(db: Database, s: State, es: seq<Event>, e: Event, key: string)
    requires Keyed(db) && Wired(s) && key in s.inspected && s.inspected[key].after == 0
    requires Served(db, s, es) && ServedStep(db, Play(s, es), e) && RepliesTo(Play(s, es), e, key)
    requires key in Step(Play(s, es), e).inspected && Step(Play(s, es), e).inspected[key].after == 0
    ensures Settled(db, Step(Play(s, es), e), key)
  {
    PlaySweeps(db, s, es, key);
    StepSweeps(db, Play(s, es), e, key);
  }

  /** The list opened with any first page and took any steps with any replies: the server may have changed at will.
      If it then stops changing while the refresh of scope `key` stands at its start, the reply that brings the
      refresh round to the start again leaves the scope showing what the server has, on everything inspected,
      with any other steps interleaved. */
  lemma {:induction false} FullSweepSettles(db: Database, first: Page, repos: seq<string>, before: seq<Event>,
                                            es: seq<Event>, e: Event, key: string)
    requires repos != [] && (forall i, j :: 0 <= i < j < |repos| ==> repos[i] != repos[j]) && Keyed(db)
    requires var s := Play(Start(first, repos), before);
             && key in s.inspected && s.inspected[key].after == 0
             && Served(db, s, es) && ServedStep(db, Play(s, es), e) && RepliesTo(Play(s, es), e, key)
             && key in Step(Play(s, es), e).inspected && Step(Play(s, es), e).inspected[key].after == 0
    ensures Settled(db, Step(Play(Play(Start(first, repos), before), es), e), key)
  {
    StartWired(first, repos);
    PlayWired(Start(first, repos), before);
    SweepSettles(db, Play(Start(first, repos), before), es, e, key);
  }

  /** A settled scope stays settled while the server does not change. */
  lemma {:induction false} SettledLasts(db: Database, s: State, e: Event, key: string)
    requires Keyed(db) && Wired(s) && ServedStep(db, s, e) && Settled(db, s, key)
    ensures Settled(db, Step(s, e), key)
  {
    var s' := Step(s, e);
    forall w | w > 0 && Agree(db, s.local, key, w) ensures Agree(db, s'.local, key, w) {
      StepKeepsAgreement(db, s, e, key, w);
    }
    if e.Subscribe? {
      SubscribedWired(s, e.ids);
    }
    if e.LoadReply? && s.loading.Some? && s.loading.value.repo == key {
      var p := s.loading.value;
      assert Queue(s)[0] == p && Continues(s.inspected, p);
      forall w | w > p.after && (e.page.next == 0 || w <= e.page.next) ensures Agree(db, s'.local, key, w) {
        MergeAgrees(db, s.local, p, e.page, Range(p.repo, p.after, e.page.next), key, w);
      }
    }
  }

  // ----- how many refreshes settle a scope -----

  /** How many refreshes of scope `key` were answered. */
  ghost function Answered(s: State, es: seq<Event>, key: string): nat {
    if es == [] then 0
    else
      var front, e := es[..|es| - 1], es[|es| - 1];
      Answered(s, front, key) + (if RepliesTo(Play(s, front), e, key) then 1 else 0)
  }

  /** Every cursor in an answer to a refresh of scope `key` is one of `cursors`. */
  ghost predicate NamesCursors(s: State, es: seq<Event>, key: string, cursors: set<nat>) {
    es != [] ==>
      var front, e := es[..|es| - 1], es[|es| - 1];
      NamesCursors(s, front, key, cursors) && NamesCursor(Play(s, front), e, key, cursors)
  }

  ghost predicate NamesCursor(s: State, e: Event, key: string, cursors: set<nat>) {
    RepliesTo(s, e, key) ==> e.page.next == 0 || e.page.next in cursors
  }

  /** Each accepted reply moves the refresh cursor forward or brings it round. */
  lemma {:induction false} ReplyAdvances(s: State, e: Event, key: string)
    requires Wired(s) && RepliesTo(s, e, key) && !Stalls(e.page, s.refreshing.value.after)
    ensures key in Step(s, e).inspected
    ensures var after := Step(s, e).inspected[key].after;
            after == 0 || (after == e.page.next && after > s.inspected[key].after)
  {
  }

  /** The cursors a refresh that stands at `after` can still stop at. */
  ghost function Ahead(cursors: set<nat>, after: nat): set<nat> {
    set c | c in cursors && c > after
  }

  lemma {:induction false} FewerIn(a: set<nat>, b: set<nat>)
    requires a <= b
    ensures |a| <= |b|
  {
    assert b == a + (b - a);
  }

  lemma {:induction false} AheadShrinks(cursors: set<nat>, after: nat, after': nat)
    requires after' in cursors && after' > after
    ensures |Ahead(cursors, after')| < |Ahead(cursors, after)|
  {
    var a := Ahead(cursors, after);
    assert after' in a;
    FewerIn(Ahead(cursors, after'), a - {after'});
  }

  /** With `n` answers so far: the scope is settled, or its second round is under way, or its first. */
  ghost predicate OnTrack(db: Database, s: State, key: string, cursors: set<nat>, n: nat) {
    && key in s.inspected
    && var ahead := |Ahead(cursors, s.inspected[key].after)|;
       || Settled(db, s, key)
       || (Sweeping(db, s, key) && n + ahead <= 2 * |cursors| + 1)
       || n + ahead <= |cursors|
  }

  lemma {:induction false} OtherOnTrack(db: Database, s: State, e: Event, key: string, cursors: set<nat>, n: nat)
    requires Keyed(db) && Wired(s) && ServedStep(db, s, e) && OnTrack(db, s, key, cursors, n) && !RepliesTo(s, e, key)
    ensures OnTrack(db, Step(s, e), key, cursors, n)
  {
    AfterUnchanged(s, e, key);
    if Settled(db, s, key) { SettledLasts(db, s, e, key); }
    if Sweeping(db, s, key) { StepSweeps(db, s, e, key); }
  }

  lemma {:induction false} ReplyOnTrack(db: Database, s: State, e: Event, key: string, cursors: set<nat>, n: nat)
    requires Keyed(db) && Wired(s) && ServedStep(db, s, e) && OnTrack(db, s, key, cursors, n) && RepliesTo(s, e, key)
    requires NamesCursor(s, e, key, cursors)
    ensures OnTrack(db, Step(s, e), key, cursors, n + 1)
  {
    var after, after' := s.inspected[key].after, Step(s, e).inspected[key].after;
    ReplyAdvances(s, e, key);
    if after' == 0 { FewerIn(Ahead(cursors, 0), cursors); } else { AheadShrinks(cursors, after, after'); }
    if Settled(db, s, key) {
      SettledLasts(db, s, e, key);
    } else if Sweeping(db, s, key) {
      StepSweeps(db, s, e, key);
    }
  }

  lemma {:induction false} PlayOnTrack(db: Database, s: State, es: seq<Event>, key: string, cursors: set<nat>)
    requires Keyed(db) && Wired(s) && Served(db, s, es) && key in s.inspected && NamesCursors(s, es, key, cursors)
    ensures OnTrack(db, Play(s, es), key, cursors, Answered(s, es, key))
  {
    if es == [] {
      FewerIn(Ahead(cursors, s.inspected[key].after), cursors);
    } else {
      var front, e := es[..|es| - 1], es[|es| - 1];
      PlayOnTrack(db, s, front, key, cursors);
      PlayWired(s, front);
      if RepliesTo(Play(s, front), e, key) {
        ReplyOnTrack(db, Play(s, front), e, key, cursors, Answered(s, front, key));
      } else {
        OtherOnTrack(db, Play(s, front), e, key, cursors, Answered(s, front, key));
      }
    }
  }

  /** The list opened and took any steps with any replies, and then the server stops changing. Wherever the refresh of
      scope `key` stands, two answered refreshes for each possible cursor and two more settle the scope, with any other
      steps interleaved: from then on it shows what the server has, on everything inspected. */
  lemma {:induction false} RefreshesSettle(db: Database, first: Page, repos: seq<string>, before: seq<Event>,
                                           es: seq<Event>, key: string, cursors: set<nat>)
    requires repos != [] && (forall i, j :: 0 <= i < j < |repos| ==> repos[i] != repos[j]) && Keyed(db)
    requires var s := Play(Start(first, repos), before);
             && key in s.inspected && Served(db, s, es) && NamesCursors(s, es, key, cursors)
             && Answered(s, es, key) >= 2 * |cursors| + 2
    ensures Settled(db, Play(Play(Start(first, repos), before), es), key)
  {
    StartWired(first, repos);
    PlayWired(Start(first, repos), before);
    PlayOnTrack(db, Play(Start(first, repos), before), es, key, cursors);
  }
}
