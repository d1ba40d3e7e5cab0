/** Why a row is selected, over whole runs of the storage page: what chose it, that
    nothing dropped it since, and that a prepared plan can be started once. */
module StorageChoices {
  import opened Common
  import opened Storage
  import opened StorageRuns

  // ----- what an event does to one choice, on the rows alone -----

  /** The first row with the id. */
  ghost predicate FirstRow(rows: seq<Row>, id: string, row: Row) {
    exists k :: 0 <= k < |rows| && rows[k] == row && row.id == id && forall j :: 0 <= j < k ==> rows[j].id != id
  }

  /** The event chooses the id: a checked box of a deletable row, or a command that takes its row in. */
  ghost predicate Picks(s: State, e: Event, id: string) {
    match e
    case Toggle(target, checked) => checked && target == id && exists row :: FirstRow(s.rows, id, row) && row.deletable
    case SelectAll(checked) => checked && exists row :: row in s.rows && row.id == id && row.deletable
    case SelectEligible => exists row :: row in s.rows && row.id == id && row.eligible
    case CleanEligible => exists row :: row in s.rows && row.id == id && row.eligible && row.deletable
    case _ => false
  }

  /** A load response that is neither stale nor aborted. */
  ghost predicate Heard(s: State, k: nat) {
    k in s.loading && k < |s.loads| && s.loads[k].read == s.read && s.loads[k].epoch == s.epoch && !s.aborted
  }

  ghost function Listed(s: State, k: nat, artifacts: seq<Row>): seq<Row>
    requires Heard(s, k)
  {
    if s.loads[k].more then s.rows + artifacts else artifacts
  }

  /** The event drops a choice of the id. */
  ghost predicate Drops(s: State, e: Event, id: string) {
    match e
    case Toggle(target, _) => target == id
    case SelectAll(checked) => !checked && exists row :: row in s.rows && row.id == id && row.deletable
    case Filter => true
    case JobFinished => true
    case CleanEligible => exists row :: row in s.rows && row.eligible && row.deletable
    case ProtectionReply(target, _) => target == id
    case LoadReply(k, artifacts) =>
      && Heard(s, k) && id in s.selected
      && forall row :: FirstRow(Listed(s, k, artifacts), id, row) ==> !row.deletable || row.revision != s.selected[id]
    case _ => false
  }

  // ----- the steps do exactly that -----

  lemma {:induction false} FindIsFirst(rows: seq<Row>, id: string, row: Row)
    ensures FirstRow(rows, id, row) <==> Find(rows, id) == Some(row)
  {
    if rows != [] && rows[0].id != id {
      FindIsFirst(rows[1..], id, row);
      if FirstRow(rows, id, row) {
        var k :| 0 <= k < |rows| && rows[k] == row && row.id == id && forall j :: 0 <= j < k ==> rows[j].id != id;
        assert rows[1..][k - 1] == row && forall j :: 0 <= j < k - 1 ==> rows[1..][j] == rows[j + 1];
      }
      if FirstRow(rows[1..], id, row) {
        var k :| 0 <= k < |rows[1..]| && rows[1..][k] == row && row.id == id
                 && forall j :: 0 <= j < k ==> rows[1..][j].id != id;
        assert rows[k + 1] == row;
        forall j | 0 <= j < k + 1 ensures rows[j].id != id { if j > 0 { assert rows[j] == rows[1..][j - 1]; } }
      }
    } else if rows != [] {
      assert row == rows[0] ==> rows[0] == row && row.id == id;
    }
  }

  lemma {:induction false} MarkedPicks(rows: seq<Row>, selected: map<string, string>, pick: Row -> bool, on: bool,
                                       id: string)
    ensures var r, picked := Marked(rows, selected, pick, on), exists row :: row in rows && row.id == id && pick(row);
            id in r <==> if picked then on else id in selected
    ensures var r := Marked(rows, selected, pick, on);
            id in r ==> (exists row :: row in rows && row.id == id && pick(row) && row.revision == r[id])
                        || (id in selected && r[id] == selected[id])
  {
    var i := LastPicked(rows, pick, id);
    MarkedMeans(rows, selected, pick, on, id);
    if i < |rows| { assert rows[i] in rows; }
  }

  lemma {:induction false} LoadSelects(s: State, k: nat, artifacts: seq<Row>, id: string)
    requires Heard(s, k)
    ensures id in Loaded(s, k, artifacts).selected <==> id in s.selected && !Drops(s, LoadReply(k, artifacts), id)
  {
    var rows := Listed(s, k, artifacts);
    forall row ensures FirstRow(rows, id, row) <==> Find(rows, id) == Some(row) { FindIsFirst(rows, id, row); }
  }

  lemma {:induction false} ToggleSelects(s: State, target: string, checked: bool, id: string)
    ensures id in Toggled(s.rows, s.selected, target, checked) <==>
            Picks(s, Toggle(target, checked), id) || (id in s.selected && target != id)
  {
    forall row ensures FirstRow(s.rows, id, row) <==> Find(s.rows, id) == Some(row) { FindIsFirst(s.rows, id, row); }
    FindMember(s.rows, target);
  }

  /** For every event and every id: the id is chosen afterwards if and only if the event chooses it, or it was chosen
      and the event does not drop it. */
  lemma {:induction false} StepSelects(s: State, e: Event, id: string)
    ensures id in Step(s, e).selected <==> Picks(s, e, id) || (id in s.selected && !Drops(s, e, id))
  {
    match e
    case Toggle(target, checked) => ToggleSelects(s, target, checked, id);
    case SelectAll(checked) => MarkedPicks(s.rows, s.selected, DELETABLE, checked, id);
    case SelectEligible => MarkedPicks(s.rows, s.selected, ELIGIBLE, true, id);
    case CleanEligible => CleanSelects(s, id);
    case LoadReply(k, artifacts) => if Heard(s, k) { LoadSelects(s, k, artifacts, id); }
    case _ =>
  }

  lemma {:induction false} CleanSelects(s: State, id: string)
    ensures id in Cleaning(s).selected <==>
            Picks(s, CleanEligible, id) || (id in s.selected && !Drops(s, CleanEligible, id))
  {
    var picked := Picked(s.rows, CLEANABLE);
    MarkedPicks(s.rows, map[], CLEANABLE, true, id);
    IdsMembers(picked);
    if picked != [] { PickedMembers(s.rows, CLEANABLE, picked[0]); }
    forall row | row in s.rows && row.eligible && row.deletable ensures picked != [] {
      PickedMembers(s.rows, CLEANABLE, row);
    }
  }

  // ----- over runs -----

  ghost predicate PickedAt(es: seq<Event>, k: nat, id: string)
    requires k < |es|
  {
    Picks(Play(START, es[..k]), es[k], id)
  }

  ghost predicate DroppedAt(es: seq<Event>, k: nat, id: string)
    requires k < |es|
  {
    Drops(Play(START, es[..k]), es[k], id) && !Picks(Play(START, es[..k]), es[k], id)
  }

  ghost function PicksOf(es: seq<Event>, id: string): nat -> bool {
    (k: nat) => k < |es| && PickedAt(es, k, id)
  }

  ghost function DropsOf(es: seq<Event>, id: string): nat -> bool {
    (k: nat) => k < |es| && DroppedAt(es, k, id)
  }

  /** Number `k` picked and none after it, below `n`, dropped. */
  ghost predicate Since(n: nat, picks: nat -> bool, drops: nat -> bool, k: nat) {
    k < n && picks(k) && forall j: nat :: k < j < n ==> !drops(j)
  }

  ghost predicate Standing(n: nat, picks: nat -> bool, drops: nat -> bool) {
    exists k: nat :: Since(n, picks, drops, k)
  }

  lemma {:induction false} StandingNext(n: nat, picks: nat -> bool, drops: nat -> bool)
    ensures Standing(n + 1, picks, drops) <==> picks(n) || (Standing(n, picks, drops) && !drops(n))
  {
    if picks(n) { assert Since(n + 1, picks, drops, n); }
    if Standing(n, picks, drops) && !drops(n) {
      var k: nat :| Since(n, picks, drops, k);
      assert Since(n + 1, picks, drops, k);
    }
    if Standing(n + 1, picks, drops) && !picks(n) {
      var k: nat :| Since(n + 1, picks, drops, k);
      assert Since(n, picks, drops, k);
    }
  }

  lemma {:induction false} StepAt(es: seq<Event>, n: nat, id: string)
    requires n < |es|
    ensures id in Play(START, es[..n + 1]).selected <==>
            PicksOf(es, id)(n) || (id in Play(START, es[..n]).selected && !DropsOf(es, id)(n))
  {
    assert es[..n + 1][..n] == es[..n];
    StepSelects(Play(START, es[..n]), es[n], id);
  }

  lemma {:induction false} SelectedAt(es: seq<Event>, n: nat, id: string, picks: nat -> bool, drops: nat -> bool)
    requires n <= |es| && picks == PicksOf(es, id) && drops == DropsOf(es, id)
    ensures id in Play(START, es[..n]).selected <==> Standing(n, picks, drops)
  {
    if n > 0 {
      SelectedAt(es, n - 1, id, picks, drops);
      StepAt(es, n - 1, id);
      StandingNext(n - 1, picks, drops);
    }
  }

  /** Event `k` chose the id and none after it dropped it. */
  ghost predicate ChosenSince(es: seq<Event>, k: nat, id: string) {
    k < |es| && PickedAt(es, k, id) && forall j :: k < j < |es| ==> !DroppedAt(es, j, id)
  }

  lemma {:induction false} SinceIs(es: seq<Event>, k: nat, id: string)
    ensures Since(|es|, PicksOf(es, id), DropsOf(es, id), k) <==> ChosenSince(es, k, id)
  {
    forall j: nat | j < |es| ensures DropsOf(es, id)(j) <==> DroppedAt(es, j, id) { }
  }

  /** After any run an id is chosen if and only if some event chose it and none dropped it since. */
  lemma {:induction false} SelectedBecause(es: seq<Event>, id: string)
    ensures id in Play(START, es).selected <==> exists k: nat :: ChosenSince(es, k, id)
  {
    assert es[..|es|] == es;
    SelectedAt(es, |es|, id, PicksOf(es, id), DropsOf(es, id));
    forall k: nat ensures Since(|es|, PicksOf(es, id), DropsOf(es, id), k) <==> ChosenSince(es, k, id) {
      SinceIs(es, k, id);
    }
  }

  /** Event `u` unchecked the box of the id, and nothing chose it afterwards. */
  ghost predicate Unchecked(es: seq<Event>, u: nat, id: string) {
    u < |es| && es[u] == Toggle(id, false) && forall j :: u < j < |es| ==> !PickedAt(es, j, id)
  }

  /** An id whose box was unchecked, and which nothing chose afterwards, is not selected; for ids without commas no plan
      that names it can be started. */
  lemma {:induction false} UncheckedIsSafe(es: seq<Event>, u: nat, id: string)
    requires Unchecked(es, u, id)
    ensures var s := Play(START, es);
            && id !in s.selected && id !in Selection(s)
            && ((forall i :: 0 <= i < |es| ==> PlainRows(Brings(es[i]))) && Starts(s) ==>
                  s.source < |s.requests| && id !in s.requests[s.source].ids)
  {
    var s := Play(START, es);
    SelectedBecause(es, id);
    assert DroppedAt(es, u, id) && !PickedAt(es, u, id);
    assert forall k: nat :: !ChosenSince(es, k, id);
    if id in Selection(s) {
      ChosenBehind(s.rows, s.selected);
      assert false;
    }
    if forall i :: 0 <= i < |es| ==> PlainRows(Brings(es[i])) { RemovePlain(es); }
  }

  // ----- the rows -----

  /** Rows change only by loads and by a protection response. */
  lemma {:induction false} RowsAre(s: State, e: Event)
    ensures !e.LoadReply? && !e.ProtectionReply? ==> Step(s, e).rows == s.rows
    ensures e.LoadReply? ==>
              Step(s, e).rows == if Heard(s, e.load) then Listed(s, e.load, e.artifacts) else s.rows
    ensures e.ProtectionReply? && (forall row :: row in s.rows ==> row.id != e.updated.id) ==>
              Step(s, e).rows == [e.updated] + s.rows
    ensures e.ProtectionReply? ==> forall k :: 0 <= k < |s.rows| && FirstAt(s.rows, k, e.updated.id) ==>
              Step(s, e).rows == s.rows[k := e.updated]
  {
    if e.ProtectionReply? {
      FindMember(s.rows, e.updated.id);
      forall k | 0 <= k < |s.rows| && FirstAt(s.rows, k, e.updated.id)
        ensures Step(s, e).rows == s.rows[k := e.updated]
      {
        assert s.rows[k] in s.rows;
        ReplacedFirst(s.rows, e.updated, k);
      }
    }
  }

  ghost predicate FirstAt(rows: seq<Row>, k: nat, id: string)
    requires k < |rows|
  {
    rows[k].id == id && forall j :: 0 <= j < k ==> rows[j].id != id
  }

  lemma {:induction false} ReplacedFirst(rows: seq<Row>, row: Row, k: nat)
    requires k < |rows| && FirstAt(rows, k, row.id)
    ensures Replaced(rows, row) == rows[k := row]
  {
    if k > 0 { ReplacedFirst(rows[1..], row, k - 1); }
  }

  // ----- the handshake goes through -----

  /** The three user actions that ask for a plan. */
  predicate Asks(e: Event) {
    e.Toggle? || e.SelectAll? || e.SelectEligible?
  }

  /** A selection of one to 200 rows is asked for at once, under its own request, and no older plan is kept; any other
      selection asks for nothing. */
  lemma {:induction false} AskSends(s: State, e: Event)
    requires Asks(e)
    ensures var t := Step(s, e); Sends(s, t, Selection(t))
  {
    var chosen := s.(selected := Step(s, e).selected);
    AskedSends(s, chosen, Selection(chosen));
  }

  /** From `s` to `t` the ids were asked for, if there are one to 200 of them, and any plan was dropped. */
  ghost predicate Sends(s: State, t: State, ids: seq<string>) {
    && t.plan == None && t.rows == s.rows
    && (1 <= |ids| <= 200 ==>
          && |t.requests| == |s.requests| + 1 && t.requests[..|s.requests|] == s.requests
          && t.requests[|s.requests|].ids == ids && !t.requests[|s.requests|].clean
          && |s.requests| in t.waiting && t.latest == Some(|s.requests|))
    && (!(1 <= |ids| <= 200) ==> t.requests == s.requests && t.waiting == s.waiting && t.latest == None)
  }

  lemma {:induction false} AskedSends(s: State, chosen: State, ids: seq<string>)
    requires chosen == s.(selected := chosen.selected)
    ensures Sends(s, Asked(chosen, ids), ids)
  {
  }

  /** When the answer to that request comes next and is ready, `remove` starts it, once. */
  lemma {:induction false} AskedThenStarted(s: State, e: Event, plan: Plan)
    requires Asks(e) && 1 <= |Selection(Step(s, e))| <= 200
    ensures var t := Step(s, e); var u := Step(t, PlanReply(|s.requests|, plan));
            && u.plan == Some(plan) && u.source == |s.requests| && Selection(u) == Selection(t)
            && (Starts(u) <==> plan.ready) && !Starts(Step(u, Remove)) && (plan.ready ==> Step(u, Remove).plan == None)
  {
    var t := Step(s, e);
    AskSends(s, e);
    HeardNext(t, |s.requests|, plan);
  }

  lemma {:induction false} HeardNext(t: State, k: nat, plan: Plan)
    requires k < |t.requests| && k in t.waiting && !t.requests[k].clean && t.requests[k].ticket == t.planRead
    requires t.requests[k].ids == Selection(t)
    ensures var u := Step(t, PlanReply(k, plan));
            && u.plan == Some(plan) && u.source == k && Selection(u) == Selection(t)
            && (Starts(u) <==> plan.ready) && !Starts(Step(u, Remove)) && (plan.ready ==> Step(u, Remove).plan == None)
  {
  }

  /** Cleaning asks for the eligible deletable rows whenever there is one, and its answer is always heard: a ready plan
      is started at once and not kept. */
  lemma {:induction false} CleaningHeard(s: State, plan: Plan)
    requires exists row :: row in s.rows && row.eligible && row.deletable
    ensures var t := Step(s, CleanEligible); var k := |s.requests|; var u := Step(t, PlanReply(k, plan));
            && |t.requests| == k + 1 && t.requests[k].clean && t.requests[k].ids == Ids(Picked(s.rows, CLEANABLE))
            && k in t.waiting && u.plan == if plan.ready then None else Some(plan)
  {
    var row :| row in s.rows && row.eligible && row.deletable;
    PickedMembers(s.rows, CLEANABLE, row);
    IdsMembers(Picked(s.rows, CLEANABLE));
  }
}
