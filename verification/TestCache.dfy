/** The live test list: one local collection of runs filled by two interleaved
    cursor protocols, load-more and round-robin refresh. Each response applied is
    one atomic step. Worktree ids are compared only by order and emptiness, so
    they are natural numbers here with 0 for the empty string. */
module TestCache {
  import opened Common

  datatype Run = Run(worktree: nat, repo: string, body: string)

  datatype Page = Page(runs: seq<Run>, next: nat)

  /** A request: the repository it is limited to ("" for all), and the cursor. */
  datatype Params = Params(repo: string, after: nat)

  /** What has been inspected of one scope, and where its refresh stands. */
  datatype Scope = Scope(frontier: nat, complete: bool, after: nat)

  datatype Range = Range(repo: string, after: nat, end: nat)

  datatype State = State(local: map<nat, Run>, inspected: map<string, Scope>, order: seq<string>,
                         pending: seq<Params>, scopes: set<string>, position: nat,
                         loading: Option<Params>, refreshing: Option<Params>, failed: bool)

  predicate InScope(repo: string, run: Run) {
    repo == "" || run.repo == repo
  }

  predicate Belongs(run: Run, q: Range) {
    InScope(q.repo, run) && run.worktree > q.after && (q.end == 0 || run.worktree <= q.end)
  }

  // ----- merging one page -----

  /** The page's runs inside the range; a later entry replaces an earlier one. */
  function Incoming(rs: seq<Run>, q: Range): map<nat, Run> {
    if rs == [] then map[]
    else
      var m := Incoming(rs[..|rs| - 1], q);
      var last := rs[|rs| - 1];
      if Belongs(last, q) then m[last.worktree := last] else m
  }

  /** The local runs outside the range, and those the page replaces. */
  function Kept(local: map<nat, Run>, page: map<nat, Run>, q: Range): map<nat, Run> {
    map w | w in local && (!Belongs(local[w], q) || w in page) :: local[w]
  }

  function Merge(local: map<nat, Run>, page: map<nat, Run>, q: Range): map<nat, Run> {
    Kept(local, page, q) + page
  }

  function Record(inspected: map<string, Scope>, key: string, next: nat): map<string, Scope> {
    var scope := if key in inspected then inspected[key] else Scope(0, false, 0);
    inspected[key := Scope(if next > scope.frontier then next else scope.frontier,
                           scope.complete || next == 0, scope.after)]
  }

  // ----- steps -----

  datatype Event =
    | LoadMore
    | LoadReply(page: Page)
    | LoadError
    | Refresh
    | RefreshReply(page: Page)
    | RefreshError
    | Subscribe(ids: seq<string>)

  predicate Stalls(page: Page, after: nat) {
    page.next != 0 && page.next <= after
  }

  function LoadFailed(s: State): State
    requires s.loading.Some?
  {
    s.(pending := [s.loading.value] + s.pending, loading := None, failed := true)
  }

  function LoadDone(s: State, page: Page): State
    requires s.loading.Some?
  {
    var p := s.loading.value;
    var q := Range(p.repo, p.after, page.next);
    s.(pending := (if page.next != 0 then [Params(p.repo, page.next)] else []) + s.pending,
       order := if p.repo in s.inspected then s.order else s.order + [p.repo],
       inspected := Record(s.inspected, p.repo, page.next),
       local := Merge(s.local, Incoming(page.runs, q), q),
       loading := None)
  }

  function RefreshEnd(scope: Scope, next: nat): nat {
    if !scope.complete && (next == 0 || next > scope.frontier) then scope.frontier else next
  }

  function RefreshAfter(scope: Scope, next: nat): nat {
    if next != 0 && (scope.complete || next < scope.frontier) then next else 0
  }

  function RefreshDone(s: State, page: Page): State
    requires s.refreshing.Some? && s.refreshing.value.repo in s.inspected
  {
    var p := s.refreshing.value;
    var scope := s.inspected[p.repo];
    var q := Range(p.repo, p.after, RefreshEnd(scope, page.next));
    s.(local := Merge(s.local, Incoming(page.runs, q), q),
       inspected := s.inspected[p.repo := scope.(after := RefreshAfter(scope, page.next))],
       refreshing := None)
  }

  function Subscribed(s: State, ids: seq<string>): State {
    if ids == [] then s
    else
      var s' := Subscribed(s, ids[..|ids| - 1]);
      var id := ids[|ids| - 1];
      if id in s'.scopes then s' else s'.(scopes := s'.scopes + {id}, pending := s'.pending + [Params(id, 0)])
  }

  /** One atomic step. A step whose guard does not hold changes nothing. */
  function Step(s: State, e: Event): State {
    match e
    case LoadMore =>
      if s.loading.Some? || s.failed || s.pending == [] then s
      else s.(loading := Some(s.pending[0]), pending := s.pending[1..])
    case LoadReply(page) =>
      if s.loading.None? then s
      else if Stalls(page, s.loading.value.after) then LoadFailed(s) else LoadDone(s, page)
    case LoadError => if s.loading.None? then s else LoadFailed(s)
    case Refresh =>
      if s.refreshing.Some? || s.order == [] || s.order[s.position % |s.order|] !in s.inspected then s
      else
        var key := s.order[s.position % |s.order|];
        s.(refreshing := Some(Params(key, s.inspected[key].after)), position := s.position + 1)
    case RefreshReply(page) =>
      if s.refreshing.None? || s.refreshing.value.repo !in s.inspected then s
      else if Stalls(page, s.refreshing.value.after) then s.(refreshing := None) else RefreshDone(s, page)
    case RefreshError => s.(refreshing := None)
    case Subscribe(ids) => Subscribed(s, ids)
  }

  /** The state after a whole run of steps. */
  function Play(s: State, es: seq<Event>): State {
    if es == [] then s else Step(Play(s, es[..|es| - 1]), es[|es| - 1])
  }

  /** The state after the first page of the first scope arrived. */
  function Start(first: Page, repos: seq<string>): State
    requires repos != []
  {
    var pending := seq(|repos| - 1, i requires 0 <= i < |repos| - 1 => Params(repos[i + 1], 0));
    State(Incoming(first.runs, Range("", 0, 0)), Record(map[], repos[0], first.next), [repos[0]],
          (if first.next != 0 then [Params(repos[0], first.next)] else []) + pending,
          (set r | r in repos), 0, None, None, false)
  }

  // ----- the server -----

  type Database = map<nat, Run>

  ghost predicate Keyed(m: map<nat, Run>) {
    forall w :: w in m ==> m[w].worktree == w && w > 0
  }

  /** The page lists exactly the scoped runs after the cursor, up to the next cursor. */
  ghost predicate Answers(db: Database, p: Params, page: Page) {
    && !Stalls(page, p.after)
    && (forall run :: run in page.runs <==>
          run.worktree in db && db[run.worktree] == run && Belongs(run, Range(p.repo, p.after, page.next)))
  }

  /** Every response in `es`, applied from `s` on, was produced from `db`. */
  ghost predicate Served(db: Database, s: State, es: seq<Event>) {
    es != [] ==> Served(db, s, es[..|es| - 1]) && ServedStep(db, Play(s, es[..|es| - 1]), es[|es| - 1])
  }

  ghost predicate ServedStep(db: Database, s: State, e: Event) {
    && (e.LoadReply? && s.loading.Some? ==> Answers(db, s.loading.value, e.page))
    && (e.RefreshReply? && s.refreshing.Some? ==> Answers(db, s.refreshing.value, e.page))
  }

  // ----- what a merge does -----

  lemma {:induction false} IncomingMember(rs: seq<Run>, q: Range, w: nat)
    ensures w in Incoming(rs, q) ==> Incoming(rs, q)[w] in rs && Incoming(rs, q)[w].worktree == w
    ensures w in Incoming(rs, q) ==> Belongs(Incoming(rs, q)[w], q)
    ensures w !in Incoming(rs, q) ==> forall run :: run in rs && run.worktree == w ==> !Belongs(run, q)
  {
    if rs != [] {
      IncomingMember(rs[..|rs| - 1], q, w);
      assert rs == rs[..|rs| - 1] + [rs[|rs| - 1]];
    }
  }

  /** A range clipped within the answered page. */
  ghost predicate Within(end: nat, next: nat) {
    next == 0 || (end != 0 && end <= next)
  }

  lemma {:induction false} IncomingOfAnswer(db: Database, p: Params, page: Page, q: Range, w: nat)
    requires Keyed(db) && Answers(db, p, page) && q.repo == p.repo && q.after == p.after && Within(q.end, page.next)
    ensures w in Incoming(page.runs, q) <==> w in db && Belongs(db[w], q)
    ensures w in Incoming(page.runs, q) ==> Incoming(page.runs, q)[w] == db[w]
  {
    IncomingMember(page.runs, q, w);
    if w in db && Belongs(db[w], q) {
      assert db[w] in page.runs;
    }
  }

  /** Merging any page at all leaves everything outside the range as it was:
      a key outside it is neither deleted nor admitted. */
  lemma {:induction false} MergeOutside(local: map<nat, Run>, rs: seq<Run>, q: Range, w: nat)
    requires Keyed(local) && (w <= q.after || (q.end != 0 && w > q.end))
    ensures var out := Merge(local, Incoming(rs, q), q);
            (w in out <==> w in local) && (w in local ==> out[w] == local[w])
  {
    IncomingMember(rs, q, w);
  }

  /** Refreshing an incomplete scope never touches a key beyond its frontier,
      whatever the server answers. */
  lemma {:induction false} RefreshClips(s: State, page: Page, w: nat)
    requires s.refreshing.Some? && s.refreshing.value.repo in s.inspected && Keyed(s.local)
    requires var scope := s.inspected[s.refreshing.value.repo]; !scope.complete && 0 < scope.frontier < w
    ensures var out := RefreshDone(s, page).local;
            (w in out <==> w in s.local) && (w in s.local ==> out[w] == s.local[w])
  {
    var p := s.refreshing.value;
    MergeOutside(s.local, page.runs, Range(p.repo, p.after, RefreshEnd(s.inspected[p.repo], page.next)), w);
  }

  /** What scope `repo` sees at key `w`. */
  function At(m: map<nat, Run>, repo: string, w: nat): Option<Run> {
    if w in m && InScope(repo, m[w]) then Some(m[w]) else None
  }

  ghost predicate Agree(db: Database, local: map<nat, Run>, repo: string, w: nat) {
    At(local, repo, w) == At(db, repo, w)
  }

  /** Merging an answer makes its range agree with the server, and disturbs no
      agreement elsewhere, in any scope. */
  lemma {:induction false} MergeAgrees(db: Database, local: map<nat, Run>, p: Params, page: Page, q: Range,
                                       repo: string, w: nat)
    requires Keyed(db) && Keyed(local) && Answers(db, p, page)
    requires q.repo == p.repo && q.after == p.after && Within(q.end, page.next)
    requires Agree(db, local, repo, w) || (repo == p.repo && w > q.after && (q.end == 0 || w <= q.end))
    ensures Agree(db, Merge(local, Incoming(page.runs, q), q), repo, w)
  {
    IncomingOfAnswer(db, p, page, q, w);
  }

  lemma {:induction false} MergeKeyed(local: map<nat, Run>, rs: seq<Run>, q: Range)
    requires Keyed(local)
    ensures Keyed(Merge(local, Incoming(rs, q), q))
  {
    forall w | w in Merge(local, Incoming(rs, q), q)
      ensures Merge(local, Incoming(rs, q), q)[w].worktree == w && w > 0
    {
      IncomingMember(rs, q, w);
    }
  }
}
