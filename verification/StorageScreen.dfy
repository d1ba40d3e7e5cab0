/** The storage page's one mutable record. Every handler and every response takes
    the record exactly where it takes the state machine of `StorageRuns`. */
module StorageScreen {
  import opened Common
  import opened Storage
  import opened StorageChoices
  import opened StorageRuns

  /** What the page waits for: every plan request and load it sent, and which are still in flight. */
  datatype Network = Network(requests: seq<Request>, waiting: set<nat>, loads: seq<Load>, loading: set<nat>)

  datatype Trace = Trace(source: nat, latest: Option<nat>, prepared: seq<string>)

  class Screen {
    var rows: seq<Row>
    var selected: map<string, string>
    var plan: Option<Plan>
    var planSelection: string
    var planRead: nat
    var read: nat
    var epoch: nat
    var aborted: bool
    var net: Network
    ghost var trace: Trace

    ghost function View(): State
      reads this
    {
      State(rows, selected, plan, planSelection, planRead, read, epoch, aborted,
            net.requests, net.waiting, net.loads, net.loading, trace.source, trace.latest, trace.prepared)
    }

    constructor ()
      ensures View() == START
    {
      rows, selected, plan, planSelection := [], map[], None, "";
      planRead, read, epoch, aborted := 0, 0, 0, false;
      net, trace := Network([], {}, [], {}), Trace(0, None, []);
    }

    method Send(request: Request)
      modifies `net
      ensures net == old(net).(requests := old(net).requests + [request],
                               waiting := old(net).waiting + {|old(net).requests|})
    {
      net := net.(requests := net.requests + [request], waiting := net.waiting + {|net.requests|});
    }

    /** `prepare`. */
    method Prepare()
      modifies `planRead, `plan, `net, `trace
      ensures View() == Prepared(old(View()))
    {
      var ids := Ids(SelectedRows(rows, selected));
      Ask(ids);
    }

    method Ask(ids: seq<string>)
      modifies `planRead, `plan, `net, `trace
      ensures View() == Asked(old(View()), ids)
    {
      planRead, plan := planRead + 1, None;
      if ids == [] || |ids| > MAX_SELECTION {
        trace := trace.(latest := None, prepared := ids);
      } else {
        trace := trace.(latest := Some(|net.requests|), prepared := ids);
        Send(Request(ids, false, planRead, epoch));
      }
    }

    /** A row's checkbox. */
    method Toggle(id: string, checked: bool)
      modifies this
      ensures View() == Prepared(old(View()).(selected := Toggled(rows, old(selected), id, checked)))
    {
      var row := Find(rows, id);
      if checked && row.Some? && row.value.deletable {
        selected := selected[row.value.id := row.value.revision];
      } else {
        selected := selected - {id};
      }
      Prepare();
    }

    method Mark(pick: Row -> bool, on: bool)
      modifies `selected
      ensures selected == Marked(rows, old(selected), pick, on)
    {
      for i := 0 to |rows|
        invariant selected == Marked(rows[..i], old(selected), pick, on)
      {
        MarkedNext(rows[..i], rows[i], old(selected), pick, on);
        assert rows[..i + 1] == rows[..i] + [rows[i]];
        if pick(rows[i]) {
          selected := if on then selected[rows[i].id := rows[i].revision] else selected - {rows[i].id};
        }
      }
      assert rows[..|rows|] == rows;
    }

    /** The checkbox over all rows. */
    method SelectAll(checked: bool)
      modifies this
      ensures View() == Prepared(old(View()).(selected := Marked(rows, old(selected), DELETABLE, checked)))
    {
      Mark(DELETABLE, checked);
      Prepare();
    }

    method SelectEligible()
      modifies this
      ensures View() == Prepared(old(View()).(selected := Marked(rows, old(selected), ELIGIBLE, true)))
    {
      Mark(ELIGIBLE, true);
      Prepare();
    }

    /** `load` up to its request. */
    method Reload(more: bool)
      modifies `read, `net
      ensures View() == Loading(old(View()), more)
    {
      read := read + 1;
      net := net.(loads := net.loads + [Load(read, epoch, more)], loading := net.loading + {|net.loads|});
    }

    /** A changed filter, or a finished job: selection and plan are dropped and the page reloads. */
    method Filter()
      modifies this
      ensures View() == Loading(old(View()).(selected := map[], plan := None), false)
    {
      selected, plan := map[], None;
      Reload(false);
    }

    /** The choices that survive the rows now listed. */
    method Prune()
      modifies `selected
      ensures selected == Surviving(rows, old(selected))
    {
      var left := selected.Keys;
      while left != {}
        invariant left <= selected.Keys <= old(selected).Keys
        invariant forall id :: id in selected ==> selected[id] == old(selected)[id]
        invariant forall id :: id in old(selected) && id !in left ==>
                                 (id in selected <==> Survives(rows, id, old(selected)[id]))
        decreases left
      {
        var id :| id in left;
        left := left - {id};
        if !Survives(rows, id, selected[id]) { selected := selected - {id}; }
      }
    }

    /** A load response; stale ones are dropped. */
    method LoadReply(k: nat, artifacts: seq<Row>)
      modifies this
      ensures View() == if k in old(net).loading && k < |old(net).loads| then Loaded(old(View()), k, artifacts)
              else old(View())
    {
      if k !in net.loading || k >= |net.loads| { return; }
      net := net.(loading := net.loading - {k});
      var load := net.loads[k];
      if load.read != read || load.epoch != epoch || aborted { return; }
      rows := if load.more then rows + artifacts else artifacts;
      Prune();
    }

    /** `cleanEligible` up to its request. */
    method CleanEligible()
      modifies this
      ensures View() == Cleaning(old(View()))
    {
      var ids := Ids(Picked(rows, CLEANABLE));
      if ids == [] { return; }
      selected := map[];
      Mark(CLEANABLE, true);
      Send(Request(ids, true, planRead, epoch));
    }

    /** A plan response; `started` is the plan `cleanEligible` starts at once. */
    method PlanReply(k: nat, answer: Plan) returns (started: Option<Plan>)
      modifies this
      ensures View() == if k in old(net).waiting && k < |old(net).requests| then Planned(old(View()), k, answer)
              else old(View())
      ensures started ==
              var net := old(net);
              if k in net.waiting && k < |net.requests| && net.requests[k].clean && answer.ready then Some(answer)
              else None
    {
      started := None;
      if k !in net.waiting || k >= |net.requests| { return; }
      net := net.(waiting := net.waiting - {k});
      var r := net.requests[k];
      if !r.clean && r.ticket != planRead { return; }
      plan, planSelection, trace := Some(answer), Join(r.ids), trace.(source := k);
      if r.clean && answer.ready { started, plan := plan, None; }
    }

    /** The protection response: the row is replaced or put first, its choice and the plan are dropped. */
    method ProtectionReply(target: string, updated: Row)
      modifies this
      ensures View() == Protected(old(View()), target, updated)
    {
      selected, plan := selected - {target}, None;
      var i := 0;
      while i < |rows| && rows[i].id != updated.id
        invariant i <= |rows| && forall j :: 0 <= j < i ==> rows[j].id != updated.id
      {
        i := i + 1;
      }
      FindFirst(rows, updated.id, i);
      ReplacedAt(rows, updated, i);
      rows := if i == |rows| then [updated] + rows else rows[i := updated];
    }

    /** Leaving the page aborts what is in flight. */
    method Leave()
      modifies `aborted, `net
      ensures View() == old(View()).(aborted := true, waiting := {}, loading := {})
    {
      aborted, net := true, net.(waiting := {}, loading := {});
    }

    /** Opening the page again; tickets start over while the plan and the selection stay. */
    method Show()
      modifies `aborted, `epoch, `planRead
      ensures View() == old(View()).(aborted := false, epoch := old(epoch) + 1, planRead := 0)
    {
      aborted, epoch, planRead := false, epoch + 1, 0;
    }

    /** `remove`: `started` is the plan whose cleanup is started. */
    method Remove() returns (started: Option<Plan>)
      modifies `plan
      ensures View() == if Starts(old(View())) then old(View()).(plan := None) else old(View())
      ensures started == if Starts(old(View())) then old(plan) else None
    {
      if plan.None? || !plan.value.ready || Join(Ids(SelectedRows(rows, selected))) != planSelection { return None; }
      started, plan := plan, None;
    }

    method Handle(e: Event)
      modifies this
      ensures View() == Step(old(View()), e)
    {
      match e {
        case Toggle(id, checked) => Toggle(id, checked);
        case SelectAll(checked) => SelectAll(checked);
        case SelectEligible => SelectEligible();
        case Filter => Filter();
        case Reload(more) => Reload(more);
        case LoadReply(k, artifacts) => LoadReply(k, artifacts);
        case CleanEligible => CleanEligible();
        case PlanReply(k, answer) => var _ := PlanReply(k, answer);
        case ProtectionReply(target, updated) => ProtectionReply(target, updated);
        case JobFinished => Filter();
        case Leave => Leave();
        case Show => Show();
        case Remove => var _ := Remove();
      }
    }
  }

  lemma {:induction false} ReplacedAt(rows: seq<Row>, row: Row, i: nat)
    requires i <= |rows| && (forall j :: 0 <= j < i ==> rows[j].id != row.id) && (i < |rows| ==> rows[i].id == row.id)
    ensures Replaced(rows, row) == if i < |rows| then rows[i := row] else rows
  {
    if i > 0 { ReplacedAt(rows[1..], row, i - 1); }
  }

  /** Any run of events takes a new record where it takes the state machine. */
  method Run(es: seq<Event>) returns (screen: Screen)
    ensures fresh(screen) && screen.View() == Play(START, es)
  {
    screen := new Screen();
    for i := 0 to |es|
      invariant fresh(screen) && screen.View() == Play(START, es[..i])
    {
      assert es[..i + 1][..i] == es[..i];
      screen.Handle(es[i]);
    }
    assert es[..|es|] == es;
  }

  /** Any run of the page, and then a click on delete: a cleanup starts if and only if the page holds a ready plan
      whose request named ids with the same pieces between commas as the rows selected now; for ids without commas,
      the ids of exactly those rows. */
  method RunAndRemove(es: seq<Event>) returns (started: Option<Plan>)
    ensures var s := Play(START, es);
            && (s.plan.Some? ==> s.source < |s.requests|)
            && (started.Some? <==>
                s.plan.Some? && s.plan.value.ready && Pieces(s.requests[s.source].ids) == Pieces(Selection(s)))
            && (started.Some? ==> started == s.plan && forall id :: id in Selection(s) ==> Backed(s, id))
    ensures var s := Play(START, es);
            (forall i :: 0 <= i < |es| ==> PlainRows(Brings(es[i]))) ==>
              (started.Some? <==> s.plan.Some? && s.plan.value.ready && s.requests[s.source].ids == Selection(s))
    ensures var s := Play(START, es);
            started.Some? && (forall i :: 0 <= i < |es| ==> PlainRows(Brings(es[i]))) ==>
              forall u: nat, id :: Unchecked(es, u, id) ==> id !in s.requests[s.source].ids
  {
    var screen := Run(es);
    RemoveExact(es);
    if forall i :: 0 <= i < |es| ==> PlainRows(Brings(es[i])) {
      RemovePlain(es);
      forall u: nat, id | Unchecked(es, u, id) ensures id !in Selection(Play(START, es)) { UncheckedIsSafe(es, u, id); }
    }
    started := screen.Remove();
  }
}
