/** The test list makes progress: loads end with everything shown, refreshes reach
    every scope in turn, and the scopes are exactly those asked for. */
module TestProgress {
  import opened Common
  import opened TestCache
  import opened TestCacheRuns

  // ----- scopes -----

  /** Every repository the page was told about. */
  ghost function Subscriptions(es: seq<Event>): set<string> {
    if es == [] then {}
    else
      var e := es[|es| - 1];
      Subscriptions(es[..|es| - 1]) + (if e.Subscribe? then (set id | id in e.ids) else {})
  }

  lemma {:induction false} SubscribedScopes(s: State, ids: seq<string>)
    ensures Subscribed(s, ids).scopes == s.scopes + (set id | id in ids)
  {
    if ids != [] {
      var front := ids[..|ids| - 1];
      SubscribedScopes(s, front);
      assert (set id | id in ids) == (set id | id in front) + {ids[|ids| - 1]};
    }
  }

  /** The scopes are those of the opening page and those subscribed to, and no others. */
  lemma {:induction false} ScopesAre(first: Page, repos: seq<string>, es: seq<Event>)
    requires repos != []
    ensures Play(Start(first, repos), es).scopes == (set r | r in repos) + Subscriptions(es)
  {
    if es != [] {
      var front, e := es[..|es| - 1], es[|es| - 1];
      ScopesAre(first, repos, front);
      if e.Subscribe? { SubscribedScopes(Play(Start(first, repos), front), e.ids); }
    }
  }

  // ----- loading ends -----

  /** The page asks for more while nothing is being loaded and nothing went wrong. */
  predicate Turn(s: State, e: Event) {
    e.LoadMore? && s.loading.None? && !s.failed
  }

  ghost function Turns(s: State, es: seq<Event>): nat {
    if es == [] then 0
    else Turns(s, es[..|es| - 1]) + (if Turn(Play(s, es[..|es| - 1]), es[|es| - 1]) then 1 else 0)
  }

  /** A turn takes the first queued request and changes nothing else. */
  lemma {:induction false} TurnLoads(s: State)
    requires s.loading.None? && !s.failed && s.pending != []
    ensures var t := Step(s, LoadMore);
            && t.loading == Some(s.pending[0]) && Queue(t) == Queue(s)
            && t == s.(loading := t.loading, pending := t.pending)
  {
    assert s.pending == [s.pending[0]] + s.pending[1..];
  }

  /** A failed load is put back and stops further loading; local runs and scopes are left alone. */
  lemma {:induction false} FailureStops(s: State, e: Event)
    requires s.loading.Some? && (e.LoadError? || (e.LoadReply? && Stalls(e.page, s.loading.value.after)))
    ensures var t := Step(s, e);
            && t.failed && Queue(t) == Queue(s) && Step(t, LoadMore) == t
            && t == s.(loading := None, pending := Queue(s), failed := true)
  {
  }

  /** How many answers the queued requests can still need. */
  ghost function Owed(queue: seq<Params>, cursors: set<nat>): nat {
    if queue == [] then 0 else 1 + |Ahead(cursors, queue[0].after)| + Owed(queue[1..], cursors)
  }

  lemma {:induction false} OwedBound(queue: seq<Params>, cursors: set<nat>)
    ensures Owed(queue, cursors) <= |queue| * (|cursors| + 1)
    ensures queue != [] ==> Owed(queue, cursors) >= 1
  {
    if queue != [] {
      OwedBound(queue[1..], cursors);
      FewerIn(Ahead(cursors, queue[0].after), cursors);
    }
  }

  lemma {:induction false} DistinctQueue(queue: seq<Params>, scopes: set<string>)
    requires DistinctRepos(queue) && forall i :: 0 <= i < |queue| ==> queue[i].repo in scopes
    ensures |queue| <= |scopes|
  {
    if queue != [] {
      var rest, left := queue[1..], scopes - {queue[0].repo};
      forall i | 0 <= i < |rest| ensures rest[i].repo in left { assert rest[i] == queue[i + 1]; }
      DistinctQueue(rest, left);
    }
  }

  /** Every cursor in the answer to a load is one of `cursors`. */
  ghost predicate LoadCursor(s: State, e: Event, cursors: set<nat>) {
    e.LoadReply? && s.loading.Some? ==> e.page.next == 0 || e.page.next in cursors
  }

  ghost predicate LoadCursors(s: State, es: seq<Event>, cursors: set<nat>) {
    es != [] ==> LoadCursors(s, es[..|es| - 1], cursors) && LoadCursor(Play(s, es[..|es| - 1]), es[|es| - 1], cursors)
  }

  /** After `n` turns from a queue that owed `total`: the queue is empty, or what it owes has gone down with them. */
  ghost predicate Advancing(s: State, cursors: set<nat>, n: nat, total: nat) {
    Queue(s) == [] || n + Owed(Queue(s), cursors) <= total + (if s.loading.Some? then 1 else 0)
  }

  lemma {:induction false} AnswerAdvances(s: State, page: Page, cursors: set<nat>, n: nat, total: nat)
    requires s.loading.Some? && !Stalls(page, s.loading.value.after) && (page.next == 0 || page.next in cursors)
    requires Advancing(s, cursors, n, total)
    ensures Advancing(LoadDone(s, page), cursors, n, total)
  {
    var p, t := s.loading.value, LoadDone(s, page);
    assert Queue(s)[0] == p && Queue(s)[1..] == s.pending;
    if page.next == 0 {
      assert Queue(t) == s.pending;
    } else {
      assert Queue(t)[0] == Params(p.repo, page.next) && Queue(t)[1..] == s.pending;
      AheadShrinks(cursors, p.after, page.next);
    }
  }

  /** Steps that leave the queue of load-more requests alone. */
  lemma {:induction false} QueueKept(s: State, e: Event)
    requires !e.LoadReply? && !e.LoadError? && !e.Subscribe? && !Turn(s, e)
    ensures var t := Step(s, e); Queue(t) == Queue(s) && t.loading == s.loading && t.failed == s.failed
  {
  }

  lemma {:induction false} StepAdvances(db: Database, s: State, e: Event, cursors: set<nat>, n: nat, total: nat)
    requires ServedStep(db, s, e) && LoadCursor(s, e, cursors) && !e.Subscribe? && !Step(s, e).failed
    requires Advancing(s, cursors, n, total)
    ensures Advancing(Step(s, e), cursors, if Turn(s, e) then n + 1 else n, total) && !s.failed
  {
    if Turn(s, e) {
      if s.pending != [] { TurnLoads(s); }
    } else if e.LoadReply? {
      if s.loading.Some? { AnswerAdvances(s, e.page, cursors, n, total); }
    } else if e.LoadError? {
      assert Step(s, e) == s;
    } else {
      QueueKept(s, e);
    }
  }

  ghost predicate NoSubscribe(es: seq<Event>) {
    forall i :: 0 <= i < |es| ==> !es[i].Subscribe?
  }

  lemma {:induction false} FailedStays(s: State, e: Event)
    requires s.failed
    ensures Step(s, e).failed
  {
    if e.Subscribe? { FailedSubscribed(s, e.ids); }
  }

  lemma {:induction false} FailedSubscribed(s: State, ids: seq<string>)
    ensures Subscribed(s, ids).failed == s.failed
  {
    if ids != [] { FailedSubscribed(s, ids[..|ids| - 1]); }
  }

  lemma {:induction false} PlayAdvances(db: Database, s: State, es: seq<Event>, cursors: set<nat>)
    requires Served(db, s, es) && LoadCursors(s, es, cursors) && NoSubscribe(es) && !Play(s, es).failed
    ensures Advancing(Play(s, es), cursors, Turns(s, es), Owed(Queue(s), cursors))
  {
    if es != [] {
      var front, e := es[..|es| - 1], es[|es| - 1];
      if Play(s, front).failed { FailedStays(Play(s, front), e); }
      PlayAdvances(db, s, front, cursors);
      StepAdvances(db, Play(s, front), e, cursors, Turns(s, front), Owed(Queue(s), cursors));
    }
  }

  lemma {:induction false} PlayScopes(s: State, es: seq<Event>)
    requires NoSubscribe(es)
    ensures Play(s, es).scopes == s.scopes
  {
    if es != [] { PlayScopes(s, es[..|es| - 1]); }
  }

  /** Over a fixed server, with any refreshes interleaved: once no scope is added any more and no load fails, one more
      turn than scopes times cursors and scopes leaves nothing to load, and the page shows every run of every scope. */
  lemma {:induction false} LoadsComplete(db: Database, first: Page, repos: seq<string>, before: seq<Event>,
                                         es: seq<Event>, cursors: set<nat>)
    requires repos != [] && (forall i, j :: 0 <= i < j < |repos| ==> repos[i] != repos[j])
    requires Keyed(db) && Answers(db, Params(repos[0], 0), first) && Served(db, Start(first, repos), before)
    requires var s := Play(Start(first, repos), before);
             && Served(db, s, es) && LoadCursors(s, es, cursors) && NoSubscribe(es) && !Play(s, es).failed
             && Turns(s, es) > |s.scopes| * (|cursors| + 1)
    ensures var s := Play(Start(first, repos), before);
            Queue(Play(s, es)) == [] && Complete(db, Play(s, es)) && Play(s, es).scopes == s.scopes
  {
    var s0 := Start(first, repos);
    StartWired(first, repos);
    StartMirrors(db, first, repos);
    PlayMirrors(db, s0, before);
    var s := Play(s0, before);
    PlayMirrors(db, s, es);
    PlayAdvances(db, s, es, cursors);
    QueueBound(s, cursors);
    OwedBound(Queue(Play(s, es)), cursors);
    QuietIsComplete(db, Play(s, es));
    PlayScopes(s, es);
  }

  lemma {:induction false} QueueBound(s: State, cursors: set<nat>)
    requires Wired(s)
    ensures Owed(Queue(s), cursors) <= |s.scopes| * (|cursors| + 1)
  {
    OwedBound(Queue(s), cursors);
    DistinctQueue(Queue(s), s.scopes);
    MulGrows(|Queue(s)|, |s.scopes|, |cursors| + 1);
  }

  lemma {:induction false} MulGrows(a: nat, b: nat, k: nat)
    requires a <= b
    ensures a * k <= b * k
  {
  }

  // ----- every scope is refreshed in turn -----

  /** A refresh begins. */
  predicate Begins(s: State, e: Event) {
    e.Refresh? && s.refreshing.None?
  }

  ghost function Begun(s: State, es: seq<Event>): nat {
    if es == [] then 0
    else Begun(s, es[..|es| - 1]) + (if Begins(Play(s, es[..|es| - 1]), es[|es| - 1]) then 1 else 0)
  }

  /** A refresh of scope `key` begins. */
  ghost predicate BeginsWith(s: State, e: Event, key: string) {
    Begins(s, e) && Step(s, e).refreshing.Some? && Step(s, e).refreshing.value.repo == key
  }

  ghost function BegunWith(s: State, es: seq<Event>, key: string): nat {
    if es == [] then 0
    else BegunWith(s, es[..|es| - 1], key) + (if BeginsWith(Play(s, es[..|es| - 1]), es[|es| - 1], key) then 1 else 0)
  }

  /** How many of the `n` numbers from `from` on leave the remainder `i`. */
  ghost function Hits(from: nat, n: nat, m: nat, i: nat): nat
    requires m > 0
  {
    if n == 0 then 0 else Hits(from, n - 1, m, i) + (if (from + n - 1) % m == i then 1 else 0)
  }

  lemma {:induction false} HitsJoin(from: nat, a: nat, b: nat, m: nat, i: nat)
    requires m > 0
    ensures Hits(from, a + b, m, i) == Hits(from, a, m, i) + Hits(from + a, b, m, i)
  {
    if b > 0 { HitsJoin(from, a, b - 1, m, i); }
  }

  lemma {:induction false} HitAt(from: nat, n: nat, m: nat, i: nat, k: nat)
    requires m > 0 && k < n && (from + k) % m == i
    ensures Hits(from, n, m, i) >= 1
  {
    if k < n - 1 { HitAt(from, n - 1, m, i, k); }
  }

  /** Some number among `m` consecutive ones leaves any given remainder. */
  lemma {:induction false} RoundHits(from: nat, m: nat, i: nat)
    requires i < m
    ensures Hits(from, m, m, i) >= 1
  {
    var r := from % m;
    var k := if i >= r then i - r else i + m - r;
    RemainderAt(from, m, r, k, i);
    HitAt(from, m, m, i, k);
  }

  lemma {:induction false} RemainderAt(from: nat, m: nat, r: nat, k: nat, i: nat)
    requires m > 0 && r == from % m && i < m && k == if i >= r then i - r else i + m - r
    ensures (from + k) % m == i && k < m
  {
    var q := from / m;
    assert from == q * m + r;
    Distribute(q + 1, q, m);
    Remainder(if i >= r then q else q + 1, m, i, from + k);
  }

  lemma {:induction false} Distribute(a: int, b: int, m: nat)
    ensures (a - b) * m == a * m - b * m
  {
  }

  lemma {:induction false} AtLeast(d: nat, m: nat)
    requires d >= 1
    ensures d * m >= m
  {
    if d > 1 {
      AtLeast(d - 1, m);
      Distribute(d, 1, m);
    }
  }

  lemma {:induction false} Remainder(q: nat, m: nat, i: nat, x: nat)
    requires m > 0 && i < m && x == q * m + i
    ensures x % m == i
  {
    SameRemainder(q, i, x / m, x % m, m);
  }

  lemma {:induction false} SameRemainder(q: nat, i: nat, q': nat, r: nat, m: nat)
    requires i < m && r < m && q * m + i == q' * m + r
    ensures i == r
  {
    if q' > q {
      Distribute(q', q, m);
      AtLeast(q' - q, m);
    } else if q' < q {
      Distribute(q, q', m);
      AtLeast(q - q', m);
    }
  }

  lemma {:induction false} RoundsHit(from: nat, rounds: nat, n: nat, m: nat, i: nat)
    requires i < m && n >= rounds * m
    ensures Hits(from, n, m, i) >= rounds
    decreases rounds
  {
    if rounds > 0 {
      assert n - m >= (rounds - 1) * m;
      HitsJoin(from, m, n - m, m, i);
      RoundHits(from, m, i);
      RoundsHit(from + m, rounds - 1, n - m, m, i);
    }
  }

  lemma {:induction false} OrderGrows(s: State, e: Event)
    ensures s.order <= Step(s, e).order
  {
    if e.Subscribe? { SubscribedOrder(s, e.ids); }
  }

  lemma {:induction false} SubscribedOrder(s: State, ids: seq<string>)
    ensures var t := Subscribed(s, ids); t.order == s.order && t.position == s.position && t.refreshing == s.refreshing
  {
    if ids != [] { SubscribedOrder(s, ids[..|ids| - 1]); }
  }

  lemma {:induction false} PlayOrder(s: State, es: seq<Event>)
    ensures s.order <= Play(s, es).order
  {
    if es != [] {
      PlayOrder(s, es[..|es| - 1]);
      OrderGrows(Play(s, es[..|es| - 1]), es[|es| - 1]);
    }
  }

  lemma {:induction false} StepPosition(s: State, e: Event)
    requires Wired(s)
    ensures Step(s, e).position == s.position + if Begins(s, e) then 1 else 0
    ensures Begins(s, e) ==> BeginsWith(s, e, s.order[s.position % |s.order|])
  {
    assert s.order[s.position % |s.order|] in s.order;
    if e.Subscribe? { SubscribedOrder(s, e.ids); }
  }

  /** The scopes taken in turn have been inspected. */
  ghost predicate InTurn(s: State) {
    s.order != [] && forall i :: 0 <= i < |s.order| ==> s.order[i] in s.inspected
  }

  lemma {:induction false} TurnHits(s: State, e: Event, at: nat, i: nat, key: string)
    requires InTurn(s) && Begins(s, e) && at == s.position && i < |s.order| && key == s.order[i]
    ensures at % |s.order| == i ==> BeginsWith(s, e, key)
  {
  }

  lemma {:induction false} PlayInTurn(s: State, es: seq<Event>)
    requires Wired(s)
    ensures InTurn(Play(s, es))
  {
    PlayWired(s, es);
    var t := Play(s, es);
    forall i | 0 <= i < |t.order| ensures t.order[i] in t.inspected { assert t.order[i] in t.order; }
  }

  lemma {:induction false} PlayPosition(s: State, es: seq<Event>)
    requires Wired(s)
    ensures Play(s, es).position == s.position + Begun(s, es)
  {
    if es != [] {
      var front, e := es[..|es| - 1], es[|es| - 1];
      PlayPosition(s, front);
      PlayWired(s, front);
      StepPosition(Play(s, front), e);
    }
  }

  lemma {:induction false} OrderBefore(s: State, es: seq<Event>)
    requires es != [] && Play(s, es).order == s.order
    ensures Play(s, es[..|es| - 1]).order == s.order
  {
    var front, e := es[..|es| - 1], es[|es| - 1];
    PlayOrder(s, front);
    OrderGrows(Play(s, front), e);
  }

  /** One step of the count: `t` is the state so far, in which `n` refreshes were begun. */
  lemma {:induction false} CountsTurn(from: nat, n: nat, t: State, e: Event, i: nat, key: string, m: nat, count: nat)
    requires InTurn(t) && i < |t.order| == m && key == t.order[i] && t.position == from + n
    requires count >= Hits(from, n, m, i)
    ensures count + (if BeginsWith(t, e, key) then 1 else 0) >= Hits(from, n + if Begins(t, e) then 1 else 0, m, i)
  {
    if Begins(t, e) { TurnHits(t, e, from + n, i, key); }
  }

  /** Scope number `i` is begun at every position that leaves the remainder `i`. */
  lemma {:induction false} BegunByTurns(s: State, es: seq<Event>, i: nat, key: string, m: nat)
    requires Wired(s) && Play(s, es).order == s.order && i < |s.order| == m && key == s.order[i]
    ensures BegunWith(s, es, key) >= Hits(s.position, Begun(s, es), m, i)
  {
    if es != [] {
      var front, e := es[..|es| - 1], es[|es| - 1];
      OrderBefore(s, es);
      BegunByTurns(s, front, i, key, m);
      PlayPosition(s, front);
      PlayInTurn(s, front);
      CountsTurn(s.position, Begun(s, front), Play(s, front), e, i, key, m, BegunWith(s, front, key));
    }
  }

  /** While no scope is inspected for the first time, each scope gets its turn: out of any number of refreshes begun,
      each scope has as many as there were whole rounds. */
  lemma {:induction false} EveryScopeHasItsTurn(s: State, es: seq<Event>, key: string, rounds: nat)
    requires Wired(s) && Play(s, es).order == s.order && key in s.inspected && Begun(s, es) >= rounds * |s.order|
    ensures BegunWith(s, es, key) >= rounds
  {
    var i :| 0 <= i < |s.order| && s.order[i] == key;
    BegunByTurns(s, es, i, key, |s.order|);
    RoundsHit(s.position, rounds, Begun(s, es), |s.order|, i);
  }

  // ----- and so every scope settles -----

  ghost predicate InFlight(s: State, key: string) {
    s.refreshing.Some? && s.refreshing.value.repo == key
  }

  /** The event is the failure of a refresh of scope `key`. */
  ghost predicate Fails(s: State, e: Event, key: string) {
    e.RefreshError? && InFlight(s, key)
  }

  ghost function Failures(s: State, es: seq<Event>, key: string): nat {
    if es == [] then 0
    else Failures(s, es[..|es| - 1], key) + (if Fails(Play(s, es[..|es| - 1]), es[|es| - 1], key) then 1 else 0)
  }

  lemma {:induction false} StepAnswered(s: State, e: Event, key: string)
    requires Wired(s)
    ensures (if BeginsWith(s, e, key) then 1 else 0) + (if InFlight(s, key) then 1 else 0)
         == (if RepliesTo(s, e, key) then 1 else 0) + (if Fails(s, e, key) then 1 else 0)
          + (if InFlight(Step(s, e), key) then 1 else 0)
  {
    if e.Subscribe? { SubscribedOrder(s, e.ids); }
  }

  /** Every refresh begun is answered, has failed or is still in flight. */
  lemma {:induction false} BegunAnswered(s: State, es: seq<Event>, key: string)
    requires Wired(s)
    ensures BegunWith(s, es, key) + (if InFlight(s, key) then 1 else 0)
         == Answered(s, es, key) + Failures(s, es, key) + (if InFlight(Play(s, es), key) then 1 else 0)
  {
    if es != [] {
      var front, e := es[..|es| - 1], es[|es| - 1];
      BegunAnswered(s, front, key);
      PlayWired(s, front);
      StepAnswered(Play(s, front), e, key);
    }
  }

  /** The list opened and took any steps with any replies, and then the server stops changing. Refreshes take the next
      scope in turn. After enough of them, a round more for each that failed, every inspected scope shows what the
      server has. */
  lemma {:induction false} EverythingSettles(db: Database, first: Page, repos: seq<string>, before: seq<Event>,
                                             es: seq<Event>, key: string, cursors: set<nat>)
    requires repos != [] && (forall i, j :: 0 <= i < j < |repos| ==> repos[i] != repos[j]) && Keyed(db)
    requires var s := Play(Start(first, repos), before);
             && key in s.inspected && Served(db, s, es) && NamesCursors(s, es, key, cursors)
             && Play(s, es).order == s.order
             && Begun(s, es) >= (2 * |cursors| + 3 + Failures(s, es, key)) * |s.order|
    ensures Settled(db, Play(Play(Start(first, repos), before), es), key)
  {
    StartWired(first, repos);
    PlayWired(Start(first, repos), before);
    var s := Play(Start(first, repos), before);
    EveryScopeHasItsTurn(s, es, key, 2 * |cursors| + 3 + Failures(s, es, key));
    BegunAnswered(s, es, key);
    RefreshesSettle(db, first, repos, before, es, key, cursors);
  }
}
