/** Which plan the storage page holds and which answers it still hears, over whole
    runs. */
module StoragePlans {
  import opened Common
  import opened Storage
  import opened StorageRuns
  import opened StorageChoices

  // ----- why a plan is on the page -----

  /** The event answers a request still in flight, and the page takes the answer. */
  ghost predicate Hears(s: State, e: Event) {
    && e.PlanReply? && e.request in s.waiting && e.request < |s.requests|
    && (s.requests[e.request].clean || s.requests[e.request].ticket == s.planRead)
  }

  /** The event puts the plan on the page as the answer to request `k`. A ready plan for cleaning is started at once. */
  ghost predicate Puts(s: State, e: Event, plan: Plan, k: nat) {
    Hears(s, e) && e.plan == plan && e.request == k && !(s.requests[k].clean && plan.ready)
  }

  /** The event takes whatever plan there is off the page. */
  ghost predicate Takes(s: State, e: Event) {
    Asks(e) || e.Filter? || e.JobFinished? || e.ProtectionReply? || (e.Remove? && Starts(s)) || Hears(s, e)
  }

  /** The plan is on the page as the answer to request `k`. */
  ghost predicate Holds(s: State, plan: Plan, k: nat) {
    s.plan == Some(plan) && s.source == k
  }

  lemma {:induction false} StepHolds(s: State, e: Event, plan: Plan, k: nat)
    ensures Holds(Step(s, e), plan, k) <==> Puts(s, e, plan, k) || (Holds(s, plan, k) && !Takes(s, e))
  {
  }

  ghost predicate PutAt(es: seq<Event>, i: nat, plan: Plan, k: nat)
    requires i < |es|
  {
    Puts(Play(START, es[..i]), es[i], plan, k)
  }

  ghost predicate TakenAt(es: seq<Event>, i: nat)
    requires i < |es|
  {
    Takes(Play(START, es[..i]), es[i])
  }

  /** Event `i` put the plan on the page and none after it took it off. */
  ghost predicate HeldSince(es: seq<Event>, i: nat, plan: Plan, k: nat) {
    i < |es| && PutAt(es, i, plan, k) && forall j :: i < j < |es| ==> !TakenAt(es, j)
  }

  ghost function PutsOf(es: seq<Event>, plan: Plan, k: nat): nat -> bool {
    (i: nat) => i < |es| && PutAt(es, i, plan, k)
  }

  ghost function TakesOf(es: seq<Event>): nat -> bool {
    (i: nat) => i < |es| && TakenAt(es, i)
  }

  lemma {:induction false} HeldAt(es: seq<Event>, n: nat, plan: Plan, k: nat, puts: nat -> bool, takes: nat -> bool)
    requires n <= |es| && puts == PutsOf(es, plan, k) && takes == TakesOf(es)
    ensures Holds(Play(START, es[..n]), plan, k) <==> Standing(n, puts, takes)
  {
    if n > 0 {
      HeldAt(es, n - 1, plan, k, puts, takes);
      assert es[..n][..n - 1] == es[..n - 1];
      StepHolds(Play(START, es[..n - 1]), es[n - 1], plan, k);
      StandingNext(n - 1, puts, takes);
    }
  }

  lemma {:induction false} HeldSinceIs(es: seq<Event>, i: nat, plan: Plan, k: nat)
    ensures Since(|es|, PutsOf(es, plan, k), TakesOf(es), i) <==> HeldSince(es, i, plan, k)
  {
    forall j: nat | j < |es| ensures TakesOf(es)(j) <==> TakenAt(es, j) { }
  }

  /** After any run, a plan is on the page if and only if an answer put it there and since then nothing was chosen,
      filtered, protected, finished or removed and no other answer was taken. */
  lemma {:induction false} HeldBecause(es: seq<Event>, plan: Plan, k: nat)
    ensures Holds(Play(START, es), plan, k) <==> exists i: nat :: HeldSince(es, i, plan, k)
  {
    assert es[..|es|] == es;
    HeldAt(es, |es|, plan, k, PutsOf(es, plan, k), TakesOf(es));
    forall i: nat ensures Since(|es|, PutsOf(es, plan, k), TakesOf(es), i) <==> HeldSince(es, i, plan, k) {
      HeldSinceIs(es, i, plan, k);
    }
  }

  // ----- answers that are no longer heard -----

  /** Request `k` was sent, and its answer can no longer come. */
  ghost predicate Closed(s: State, k: nat) {
    k < |s.requests| && k !in s.waiting
  }

  ghost predicate LoadClosed(s: State, k: nat) {
    k < |s.loads| && k !in s.loading
  }

  lemma {:induction false} StepCloses(s: State, e: Event, k: nat)
    ensures Closed(s, k) || (k < |s.requests| && (e.Leave? || (e.PlanReply? && e.request == k))) ==>
              Closed(Step(s, e), k)
    ensures LoadClosed(s, k) || (k < |s.loads| && (e.Leave? || (e.LoadReply? && e.load == k))) ==>
              LoadClosed(Step(s, e), k)
  {
  }

  lemma {:induction false} StaysClosed(s: State, es: seq<Event>, k: nat)
    ensures Closed(s, k) ==> Closed(Play(s, es), k)
    ensures LoadClosed(s, k) ==> LoadClosed(Play(s, es), k)
  {
    if es != [] {
      StaysClosed(s, es[..|es| - 1], k);
      StepCloses(Play(s, es[..|es| - 1]), es[|es| - 1], k);
    }
  }

  /** Whatever happens afterwards, once the page was left, or the answer came, no answer to that request and no response
      to that load changes anything, also when the page is shown again. */
  lemma {:induction false} UnheardAfter(s: State, e: Event, es: seq<Event>, k: nat, plan: Plan, artifacts: seq<Row>)
    ensures k < |s.requests| && (e.Leave? || (e.PlanReply? && e.request == k)) ==>
              var t := Play(Step(s, e), es); Step(t, PlanReply(k, plan)) == t
    ensures k < |s.loads| && (e.Leave? || (e.LoadReply? && e.load == k)) ==>
              var t := Play(Step(s, e), es); Step(t, LoadReply(k, artifacts)) == t
  {
    StepCloses(s, e, k);
    StaysClosed(Step(s, e), es, k);
  }

  // ----- loads that are heard -----

  /** Every load begun while the page is shown brings its rows in when its response comes next, and a later load shuts
      it out. */
  lemma {:induction false} LoadHeard(s: State, e: Event, artifacts: seq<Row>)
    requires (e.Reload? || e.Filter? || e.JobFinished?) && !s.aborted
    ensures var t := Step(s, e); var k := |s.loads|;
            && Step(t, LoadReply(k, artifacts)).rows == (if e == Reload(true) then s.rows + artifacts else artifacts)
            && (forall more :: var u := Step(t, Reload(more));
                  Step(u, LoadReply(k, artifacts)) == u.(loading := u.loading - {k}))
  {
  }
}
