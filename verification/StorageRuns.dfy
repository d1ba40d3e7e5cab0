/** The storage page as a state machine. User actions, loads and plan requests
    interleave freely: any request still in flight may be answered next. Over all
    runs, deleting starts a cleanup exactly when the page holds a ready plan that
    was requested for the rows selected now. */
module StorageRuns {
  import opened Common
  import opened Storage

  /** A plan request: the ids asked for, and whether `cleanEligible` or `prepare` (with its ticket) sent it. */
  datatype Request = Request(ids: seq<string>, clean: bool, ticket: nat, epoch: nat)

  datatype Load = Load(read: nat, epoch: nat, more: bool)

  /** The page's record, every request sent, those in flight, which request the plan answers, the latest request
      of `prepare` if it sent one, and the selection that `prepare` saw. */
  datatype State = State(rows: seq<Row>, selected: map<string, string>, plan: Option<Plan>, planSelection: string,
                         planRead: nat, read: nat, epoch: nat, aborted: bool,
                         requests: seq<Request>, waiting: set<nat>, loads: seq<Load>, loading: set<nat>,
                         source: nat, latest: Option<nat>, prepared: seq<string>)

  const START := State([], map[], None, "", 0, 0, 0, false, [], {}, [], {}, 0, None, [])

  datatype Event =
    | Toggle(id: string, checked: bool)
    | SelectAll(checked: bool)
    | SelectEligible
    | Filter
    | Reload(more: bool)
    | LoadReply(load: nat, artifacts: seq<Row>)
    | CleanEligible
    | PlanReply(request: nat, plan: Plan)
    | ProtectionReply(target: string, updated: Row)
    | JobFinished
    | Leave
    | Show
    | Remove

  function Selection(s: State): seq<string> {
    Ids(SelectedRows(s.rows, s.selected))
  }

  // ----- steps -----

  function Sent(s: State, ids: seq<string>, clean: bool): State {
    s.(requests := s.requests + [Request(ids, clean, s.planRead, s.epoch)], waiting := s.waiting + {|s.requests|})
  }

  /** `prepare`: drops the plan and asks for one for the present selection. */
  function Prepared(s: State): State {
    Asked(s, Selection(s))
  }

  function Asked(s: State, ids: seq<string>): State {
    var t := s.(planRead := s.planRead + 1, plan := None, prepared := ids, latest := None);
    if ids == [] || |ids| > MAX_SELECTION then t else Sent(t, ids, false).(latest := Some(|s.requests|))
  }

  function Toggled(rows: seq<Row>, selected: map<string, string>, id: string, checked: bool): map<string, string> {
    var row := Find(rows, id);
    if checked && row.Some? && row.value.deletable then selected[row.value.id := row.value.revision]
    else selected - {id}
  }

  function Loading(s: State, more: bool): State {
    s.(read := s.read + 1, loads := s.loads + [Load(s.read + 1, s.epoch, more)], loading := s.loading + {|s.loads|})
  }

  function Surviving(rows: seq<Row>, selected: map<string, string>): map<string, string> {
    map id | id in selected && Survives(rows, id, selected[id]) :: selected[id]
  }

  function Loaded(s: State, k: nat, artifacts: seq<Row>): State
    requires k < |s.loads|
  {
    var load, t := s.loads[k], s.(loading := s.loading - {k});
    if load.read != s.read || load.epoch != s.epoch || s.aborted then t
    else
      var rows := if load.more then s.rows + artifacts else artifacts;
      t.(rows := rows, selected := Surviving(rows, s.selected))
  }

  /** `cleanEligible` up to its request. */
  function Cleaning(s: State): State {
    var ids := Ids(Picked(s.rows, CLEANABLE));
    if ids == [] then s else Sent(s.(selected := Marked(s.rows, map[], CLEANABLE, true)), ids, true)
  }

  /** A plan arrives. `prepare` hears only its latest ticket; `cleanEligible` hears every answer and starts a ready
      plan at once. */
  function Planned(s: State, k: nat, plan: Plan): State
    requires k < |s.requests|
  {
    var r, t := s.requests[k], s.(waiting := s.waiting - {k});
    if !r.clean && r.ticket != s.planRead then t
    else t.(plan := if r.clean && plan.ready then None else Some(plan), planSelection := Join(r.ids), source := k)
  }

  function Replaced(rows: seq<Row>, row: Row): seq<Row> {
    if rows == [] then [] else if rows[0].id == row.id then [row] + rows[1..] else [rows[0]] + Replaced(rows[1..], row)
  }

  function Protected(s: State, target: string, updated: Row): State {
    s.(rows := if Find(s.rows, updated.id).None? then [updated] + s.rows else Replaced(s.rows, updated),
       selected := s.selected - {target}, plan := None)
  }

  /** The test of `remove`. */
  predicate Starts(s: State) {
    s.plan.Some? && s.plan.value.ready && Join(Selection(s)) == s.planSelection
  }

  function Step(s: State, e: Event): State {
    match e
    case Toggle(id, checked) => Prepared(s.(selected := Toggled(s.rows, s.selected, id, checked)))
    case SelectAll(checked) => Prepared(s.(selected := Marked(s.rows, s.selected, DELETABLE, checked)))
    case SelectEligible => Prepared(s.(selected := Marked(s.rows, s.selected, ELIGIBLE, true)))
    case Filter => Loading(s.(selected := map[], plan := None), false)
    case Reload(more) => Loading(s, more)
    case LoadReply(k, artifacts) => if k in s.loading && k < |s.loads| then Loaded(s, k, artifacts) else s
    case CleanEligible => Cleaning(s)
    case PlanReply(k, plan) => if k in s.waiting && k < |s.requests| then Planned(s, k, plan) else s
    case ProtectionReply(target, updated) => Protected(s, target, updated)
    case JobFinished => Loading(s.(selected := map[], plan := None), false)
    case Leave => s.(aborted := true, waiting := {}, loading := {})
    case Show => s.(aborted := false, epoch := s.epoch + 1, planRead := 0)
    case Remove => if Starts(s) then s.(plan := None) else s
  }

  function Play(s: State, es: seq<Event>): State {
    if es == [] then s else Step(Play(s, es[..|es| - 1]), es[|es| - 1])
  }

  // ----- what every run keeps -----

  /** A plan on the page answers a request, and the recorded join is of the ids that request named. */
  ghost predicate Answered(s: State) {
    s.plan.Some? ==> s.source < |s.requests| && s.planSelection == Join(s.requests[s.source].ids)
  }

  /** A request of `prepare` sent since the page was shown carries an earlier ticket, unless it is the latest. */
  ghost predicate Ticketed(s: State, i: nat)
    requires i < |s.requests|
  {
    var r := s.requests[i];
    && r.epoch <= s.epoch && (!r.clean ==> r.ticket > 0)
    && (!r.clean && r.epoch == s.epoch ==> r.ticket <= s.planRead && (r.ticket == s.planRead ==> s.latest == Some(i)))
  }

  ghost predicate LatestOk(s: State) {
    s.latest.Some? ==>
      && s.latest.value < |s.requests| && s.requests[s.latest.value].ids == s.prepared
      && (s.requests[s.latest.value].epoch == s.epoch || s.planRead == 0)
  }

  ghost predicate Sound(s: State) {
    && Answered(s) && LatestOk(s) && (forall i :: 0 <= i < |s.requests| ==> Ticketed(s, i))
  }

  /** Nothing about requests changes, and the plan is kept or dropped. */
  ghost predicate SameRequests(s: State, t: State) {
    && t == s.(rows := t.rows, selected := t.selected, plan := t.plan, read := t.read, aborted := t.aborted,
               waiting := t.waiting, loads := t.loads, loading := t.loading)
    && (t.plan == s.plan || t.plan == None)
  }

  lemma {:induction false} SameSound(s: State, t: State)
    requires Sound(s) && SameRequests(s, t)
    ensures Sound(t)
  {
    forall i | 0 <= i < |t.requests| ensures Ticketed(t, i) { assert Ticketed(s, i); }
  }

  lemma {:induction false} PreparedSound(s: State)
    requires Sound(s)
    ensures Sound(Prepared(s))
  {
    var t := Prepared(s);
    forall i | 0 <= i < |t.requests| ensures Ticketed(t, i) {
      if i < |s.requests| { assert Ticketed(s, i) && t.requests[i] == s.requests[i]; }
    }
  }

  lemma {:induction false} CleaningSound(s: State)
    requires Sound(s)
    ensures Sound(Cleaning(s))
  {
    var t := Cleaning(s);
    forall i | 0 <= i < |t.requests| ensures Ticketed(t, i) {
      if i < |s.requests| { assert Ticketed(s, i) && t.requests[i] == s.requests[i]; }
    }
  }

  lemma {:induction false} PlannedSound(s: State, k: nat, plan: Plan)
    requires Sound(s) && k < |s.requests|
    ensures Sound(Planned(s, k, plan))
  {
    var t := Planned(s, k, plan);
    forall i | 0 <= i < |t.requests| ensures Ticketed(t, i) { assert Ticketed(s, i); }
  }

  lemma {:induction false} ShowSound(s: State)
    requires Sound(s)
    ensures Sound(Step(s, Show))
  {
    var t := Step(s, Show);
    forall i | 0 <= i < |t.requests| ensures Ticketed(t, i) { assert Ticketed(s, i); }
  }

  lemma {:induction false} StepSound(s: State, e: Event)
    requires Sound(s)
    ensures Sound(Step(s, e))
  {
    match e
    case Toggle(id, checked) =>
      var t := s.(selected := Toggled(s.rows, s.selected, id, checked));
      SameSound(s, t);
      PreparedSound(t);
    case SelectAll(checked) =>
      var t := s.(selected := Marked(s.rows, s.selected, DELETABLE, checked));
      SameSound(s, t);
      PreparedSound(t);
    case SelectEligible =>
      var t := s.(selected := Marked(s.rows, s.selected, ELIGIBLE, true));
      SameSound(s, t);
      PreparedSound(t);
    case CleanEligible => CleaningSound(s);
    case PlanReply(k, plan) => if k < |s.requests| { PlannedSound(s, k, plan); }
    case Show => ShowSound(s);
    case _ => SameSound(s, Step(s, e));
  }

  lemma {:induction false} PlaySound(es: seq<Event>)
    ensures Sound(Play(START, es))
  {
    if es != [] {
      PlaySound(es[..|es| - 1]);
      StepSound(Play(START, es[..|es| - 1]), es[|es| - 1]);
    }
  }

  // ----- ids without commas -----

  predicate PlainRows(rows: seq<Row>) {
    forall i :: 0 <= i < |rows| ==> rows[i].id != "" && ',' !in rows[i].id
  }

  /** The rows an event brings in. */
  function Brings(e: Event): seq<Row> {
    match e
    case LoadReply(_, artifacts) => artifacts
    case ProtectionReply(_, updated) => [updated]
    case _ => []
  }

  ghost predicate PlainState(s: State) {
    PlainRows(s.rows) && forall i :: 0 <= i < |s.requests| ==> Plain(s.requests[i].ids)
  }

  lemma {:induction false} PlainSelection(rows: seq<Row>, selected: map<string, string>)
    requires PlainRows(rows)
    ensures Plain(Ids(SelectedRows(rows, selected)))
  {
    var chosen := SelectedRows(rows, selected);
    IdsMembers(chosen);
    forall i | 0 <= i < |chosen| ensures chosen[i] in rows { SelectedRowsMembers(rows, selected, chosen[i]); }
  }

  lemma {:induction false} PlainPicked(rows: seq<Row>, pick: Row -> bool)
    requires PlainRows(rows)
    ensures Plain(Ids(Picked(rows, pick)))
  {
    var chosen := Picked(rows, pick);
    IdsMembers(chosen);
    forall i | 0 <= i < |chosen| ensures chosen[i] in rows { PickedMembers(rows, pick, chosen[i]); }
  }

  lemma {:induction false} PlainReplaced(rows: seq<Row>, row: Row)
    requires PlainRows(rows) && PlainRows([row])
    ensures PlainRows(Replaced(rows, row))
  {
    if rows != [] && rows[0].id != row.id { PlainReplaced(rows[1..], row); }
  }

  lemma {:induction false} SentPlain(s: State, ids: seq<string>, clean: bool)
    requires PlainState(s) && Plain(ids)
    ensures PlainState(Sent(s, ids, clean))
  {
  }

  lemma {:induction false} PreparedPlain(s: State)
    requires PlainState(s)
    ensures PlainState(Prepared(s))
  {
    PlainSelection(s.rows, s.selected);
    var t := s.(planRead := s.planRead + 1, plan := None, prepared := Selection(s), latest := None);
    SentPlain(t, Selection(s), false);
  }

  lemma {:induction false} CleaningPlain(s: State)
    requires PlainState(s)
    ensures PlainState(Cleaning(s))
  {
    PlainPicked(s.rows, CLEANABLE);
    SentPlain(s.(selected := Marked(s.rows, map[], CLEANABLE, true)), Ids(Picked(s.rows, CLEANABLE)), true);
  }

  lemma {:induction false} StepPlain(s: State, e: Event)
    requires PlainState(s) && PlainRows(Brings(e))
    ensures PlainState(Step(s, e))
  {
    match e
    case Toggle(id, checked) => PreparedPlain(s.(selected := Toggled(s.rows, s.selected, id, checked)));
    case SelectAll(checked) => PreparedPlain(s.(selected := Marked(s.rows, s.selected, DELETABLE, checked)));
    case SelectEligible => PreparedPlain(s.(selected := Marked(s.rows, s.selected, ELIGIBLE, true)));
    case CleanEligible => CleaningPlain(s);
    case ProtectionReply(_, updated) => PlainReplaced(s.rows, updated);
    case _ =>
  }

  lemma {:induction false} PlayPlain(es: seq<Event>)
    requires forall i :: 0 <= i < |es| ==> PlainRows(Brings(es[i]))
    ensures PlainState(Play(START, es))
  {
    if es != [] {
      PlayPlain(es[..|es| - 1]);
      StepPlain(Play(START, es[..|es| - 1]), es[|es| - 1]);
    }
  }

  // ----- the theorems -----

  /** After every interleaving, whatever the ids: `remove` starts a cleanup if and only if the page holds a ready plan
      and the request it answers named ids with the same pieces between commas as the rows selected now. Those rows are
      listed, deletable and at the revision they were selected with. */
  lemma {:induction false} RemoveExact(es: seq<Event>)
    ensures var s := Play(START, es);
            && (s.plan.Some? ==> s.source < |s.requests|)
            && (Starts(s) <==>
                s.plan.Some? && s.plan.value.ready && Pieces(s.requests[s.source].ids) == Pieces(Selection(s)))
            && forall id :: id in Selection(s) ==> Backed(s, id)
  {
    var s := Play(START, es);
    PlaySound(es);
    if s.plan.Some? { JoinExact(s.requests[s.source].ids, Selection(s)); }
    ChosenBehind(s.rows, s.selected);
  }

  /** When ids are nonempty and hold no comma, that is a request for exactly the ids selected now. */
  lemma {:induction false} RemovePlain(es: seq<Event>)
    requires forall i :: 0 <= i < |es| ==> PlainRows(Brings(es[i]))
    ensures var s := Play(START, es);
            && (s.plan.Some? ==> s.source < |s.requests|)
            && (Starts(s) <==> s.plan.Some? && s.plan.value.ready && s.requests[s.source].ids == Selection(s))
  {
    var s := Play(START, es);
    PlaySound(es);
    PlayPlain(es);
    PlainSelection(s.rows, s.selected);
    if s.plan.Some? { JoinInjective(s.requests[s.source].ids, Selection(s)); }
  }

  /** A listed, deletable row stands behind the id, at the revision recorded when it was selected. */
  ghost predicate Backed(s: State, id: string) {
    exists row :: row in s.rows && row.id == id && Chosen(row, s.selected)
  }

  /** When an answer to `prepare` is heard, it is the answer to the latest `prepare` if and only if the request was
      sent since the page was last shown; it then names the selection that `prepare` saw. */
  lemma {:induction false} HeardExact(es: seq<Event>, k: nat, plan: Plan)
    requires var s := Play(START, es);
             k in s.waiting && k < |s.requests| && !s.requests[k].clean && s.requests[k].ticket == s.planRead
    ensures var s := Play(START, es);
            && (s.latest == Some(k) <==> s.requests[k].epoch == s.epoch)
            && (s.latest == Some(k) ==> s.requests[k].ids == s.prepared)
            && Step(s, PlanReply(k, plan)).source == k
  {
    PlaySound(es);
    assert Ticketed(Play(START, es), k);
  }

  /** `cleanEligible` asks for the eligible deletable rows, and these are exactly the rows it leaves selected if and
      only if rows that share an id agree. */
  lemma {:induction false} CleaningAsksSelection(s: State)
    ensures var t := Cleaning(s);
            t != s ==>
              && t.requests == s.requests + [Request(Ids(Picked(s.rows, CLEANABLE)), true, s.planRead, s.epoch)]
              && (SelectedRows(t.rows, t.selected) == Picked(s.rows, CLEANABLE) <==> Agreeing(s.rows, CLEANABLE))
  {
    var selected := Marked(s.rows, map[], CLEANABLE, true);
    FreshSelection(s.rows, selected, CLEANABLE);
  }

  // ----- a page opened again -----

  lemma {:induction false} PlayThen(es: seq<Event>, e: Event)
    ensures Play(START, es + [e]) == Step(Play(START, es), e)
  {
    assert (es + [e])[..|es|] == es;
  }

  const A := Row("a", "1", true, false)
  const B := Row("b", "1", true, false)

  /** The page shown, loaded with two rows and being left again. */
  const OPENING := [Show, Reload(false), LoadReply(0, [A, B]), Leave]
  const LEFT := State([A, B], map[], None, "", 0, 1, 1, true, [], {}, [Load(1, 1, false)], {}, 0, None, [])

  lemma {:induction false} OpeningLeaves()
    ensures Play(START, OPENING) == LEFT
  {
    var none: seq<Event> := [];
    PlayThen(none, Show);
    PlayThen([Show], Reload(false));
    PlayThen([Show, Reload(false)], LoadReply(0, [A, B]));
    PlayThen([Show, Reload(false), LoadReply(0, [A, B])], Leave);
    assert none + [Show] == [Show] && [Show] + [Reload(false)] == [Show, Reload(false)];
    assert [Show, Reload(false)] + [LoadReply(0, [A, B])] == [Show, Reload(false), LoadReply(0, [A, B])];
    assert [Show, Reload(false), LoadReply(0, [A, B])] + [Leave] == OPENING;
    assert Surviving([A, B], map[]) == map[];
  }

  /** Choosing one more row asks for the selection that results. */
  lemma {:induction false} ToggleAsks(s: State, row: Row, selected: map<string, string>, ids: seq<string>)
    requires Find(s.rows, row.id) == Some(row) && row.deletable && selected == s.selected[row.id := row.revision]
    requires ids == Ids(SelectedRows(s.rows, selected)) && 0 < |ids| <= MAX_SELECTION
    ensures Step(s, Toggle(row.id, true)) ==
            s.(selected := selected, planRead := s.planRead + 1, plan := None, prepared := ids,
               latest := Some(|s.requests|),
               requests := s.requests + [Request(ids, false, s.planRead + 1, s.epoch)],
               waiting := s.waiting + {|s.requests|})
  {
  }

  const CHOSE_A := LEFT.(selected := map["a" := "1"], planRead := 1, prepared := ["a"], latest := Some(0),
                         requests := [Request(["a"], false, 1, 1)], waiting := {0})
  const CHOSE_B := CHOSE_A.(selected := map["a" := "1", "b" := "1"], prepared := ["a", "b"], latest := Some(1),
                            aborted := false, epoch := 2, waiting := {0, 1},
                            requests := [Request(["a"], false, 1, 1), Request(["a", "b"], false, 1, 2)])

  lemma {:induction false} ChoosesA()
    ensures Step(LEFT, Toggle("a", true)) == CHOSE_A
  {
    var one := map["a" := "1"];
    SelectedPair(A, B, one);
    ToggleAsks(LEFT, A, one, ["a"]);
    assert LEFT.waiting + {0} == {0};
  }

  lemma {:induction false} ChoosesB()
    ensures Step(Step(CHOSE_A, Show), Toggle("b", true)) == CHOSE_B
  {
    var s, two := Step(CHOSE_A, Show), map["a" := "1", "b" := "1"];
    SelectedPair(A, B, two);
    assert s.selected["b" := "1"] == two;
    ToggleAsks(s, B, two, ["a", "b"]);
    assert {0} + {1} == {0, 1};
  }

  lemma {:induction false} OldAnswerHeard(s: State)
    requires s == Step(CHOSE_B, PlanReply(0, Plan("p", true)))
    ensures s.plan == Some(Plan("p", true)) && s.source == 0 && |s.requests| == 2 && s.requests[0].ids == ["a"]
    ensures s.prepared == Selection(s) == ["a", "b"] && !Starts(s)
  {
    SelectedPair(A, B, map["a" := "1", "b" := "1"]);
    assert s == Planned(CHOSE_B, 0, Plan("p", true));
    JoinInjective(["a"], ["a", "b"]);
  }

  /** A row toggled while the page is being left, before it is shown again: the request survives, tickets start over,
      and its answer is heard although a later selection was prepared. The plan is not for what is selected, and
      `remove` refuses it. */
  lemma {:induction false} ReopenedHearsOld()
    ensures exists es :: HearsOld(es)
  {
    OpeningLeaves();
    ChoosesA();
    ChoosesB();
    var es1 := OPENING + [Toggle("a", true)];
    var es2 := es1 + [Show];
    var es3 := es2 + [Toggle("b", true)];
    var es4 := es3 + [PlanReply(0, Plan("p", true))];
    PlayThen(OPENING, Toggle("a", true));
    PlayThen(es1, Show);
    PlayThen(es2, Toggle("b", true));
    PlayThen(es3, PlanReply(0, Plan("p", true)));
    OldAnswerHeard(Play(START, es4));
    assert HearsOld(es4);
  }

  ghost predicate HearsOld(es: seq<Event>) {
    var s := Play(START, es);
    && s.plan.Some? && s.plan.value.ready && s.source < |s.requests|
    && s.requests[s.source].ids != s.prepared == Selection(s) && !Starts(s)
  }

  lemma {:induction false} SelectedPair(a: Row, b: Row, selected: map<string, string>)
    requires a.deletable && b.deletable && a.id != b.id && a.id in selected && selected[a.id] == a.revision
    requires b.id in selected ==> selected[b.id] == b.revision
    ensures Ids(SelectedRows([a, b], selected)) == if b.id in selected then [a.id, b.id] else [a.id]
    ensures Find([a, b], a.id) == Some(a) && Find([a, b], b.id) == Some(b)
  {
    assert [a, b][1..] == [b] && [b][1..] == [];
    assert SelectedRows([b], selected) == if b.id in selected then [b] else [];
    assert Ids([b]) == [b.id] && Ids([a]) == [a.id];
  }

  // ----- a comma in an id -----

  /** The ready plan of the page was requested for other ids than those selected, and `remove` starts it. */
  ghost predicate StartsOther(es: seq<Event>) {
    var s := Play(START, es);
    Starts(s) && s.source < |s.requests| && s.requests[s.source].ids != Selection(s)
  }

  const AB := Row("a,b", "1", true, false)
  const LOCKED_A := Row("a", "1", false, true)
  const LOCKED_B := Row("b", "1", false, true)

  const LISTED := START.(rows := [AB, LOCKED_A, LOCKED_B], read := 1, loads := [Load(1, 0, false)])
  const CHOSE_AB := LISTED.(selected := map["a,b" := "1"], planRead := 1, prepared := ["a,b"], latest := Some(0),
                            requests := [Request(["a,b"], false, 1, 0)], waiting := {0})
  const CHOSE_ALL := CHOSE_AB.(selected := map["a,b" := "1", "a" := "1", "b" := "1"], planRead := 2,
                               latest := Some(1), waiting := {0, 1},
                               requests := [Request(["a,b"], false, 1, 0), Request(["a,b"], false, 2, 0)])
  const UNLOCKED := CHOSE_ALL.(rows := [A, B], selected := map["a" := "1", "b" := "1"], read := 2,
                               loads := [Load(1, 0, false), Load(2, 0, false)], waiting := {0},
                               plan := Some(Plan("p", true)), planSelection := "a,b", source := 1)

  lemma {:induction false} ListsThree()
    ensures Step(Step(START, Reload(false)), LoadReply(0, [AB, LOCKED_A, LOCKED_B])) == LISTED
  {
    assert Surviving([AB, LOCKED_A, LOCKED_B], map[]) == map[];
  }

  lemma {:induction false} OnlyFirst(selected: map<string, string>)
    requires "a,b" in selected && selected["a,b"] == "1"
    ensures Ids(SelectedRows([AB, LOCKED_A, LOCKED_B], selected)) == ["a,b"]
  {
    assert [AB, LOCKED_A, LOCKED_B][1..] == [LOCKED_A, LOCKED_B] && [LOCKED_A, LOCKED_B][1..] == [LOCKED_B];
    assert SelectedRows([LOCKED_B], selected) == [] && SelectedRows([LOCKED_A, LOCKED_B], selected) == [];
    assert Ids([AB]) == ["a,b"];
  }

  lemma {:induction false} ChoosesThree()
    ensures Step(LISTED, Toggle("a,b", true)) == CHOSE_AB && Step(CHOSE_AB, SelectEligible) == CHOSE_ALL
  {
    OnlyFirst(CHOSE_AB.selected);
    OnlyFirst(CHOSE_ALL.selected);
    ToggleAsks(LISTED, AB, map["a,b" := "1"], ["a,b"]);
    var none: seq<Row> := [];
    MarkedNext(none, AB, CHOSE_AB.selected, ELIGIBLE, true);
    MarkedNext([AB], LOCKED_A, CHOSE_AB.selected, ELIGIBLE, true);
    MarkedNext([AB, LOCKED_A], LOCKED_B, CHOSE_AB.selected, ELIGIBLE, true);
    assert none + [AB] == [AB] && [AB] + [LOCKED_A] == [AB, LOCKED_A];
    assert [AB, LOCKED_A] + [LOCKED_B] == [AB, LOCKED_A, LOCKED_B];
    assert Marked(LISTED.rows, CHOSE_AB.selected, ELIGIBLE, true) == CHOSE_ALL.selected;
    assert {0} + {1} == {0, 1};
  }

  lemma {:induction false} SurvivingPair()
    ensures Surviving([A, B], CHOSE_ALL.selected) == UNLOCKED.selected
  {
    SelectedPair(A, B, UNLOCKED.selected);
    FindMember([A, B], "a,b");
  }

  lemma {:induction false} Unlocks(s: State, t: State)
    requires s == Step(CHOSE_ALL, PlanReply(1, Plan("p", true)))
    requires t == Step(Step(s, Reload(false)), LoadReply(1, [A, B]))
    ensures t == UNLOCKED
  {
    assert {0, 1} - {1} == {0} && Join(["a,b"]) == "a,b";
    SurvivingPair();
  }

  lemma {:induction false} PlayTwo(es: seq<Event>, e: Event, e': Event)
    ensures Play(START, es + [e] + [e']) == Step(Step(Play(START, es), e), e')
  {
    PlayThen(es, e);
    PlayThen(es + [e], e');
  }

  lemma {:induction false} UnlockedStarts()
    ensures Starts(UNLOCKED) && Selection(UNLOCKED) == ["a", "b"]
  {
    SelectedPair(A, B, UNLOCKED.selected);
    assert Join(["a", "b"]) == "a,b";
  }

  /** Three rows are listed, of which only "a,b" may be deleted; all are chosen, and the plan is for "a,b" alone. Then
      that row is gone and "a" and "b" may be deleted: `remove` starts the plan for "a,b" while "a" and "b" are
      selected. */
  lemma {:induction false} CommaStartsOther()
    ensures exists es :: StartsOther(es)
  {
    var none: seq<Event> := [];
    var es2 := none + [Reload(false)] + [LoadReply(0, [AB, LOCKED_A, LOCKED_B])];
    var es4 := es2 + [Toggle("a,b", true)] + [SelectEligible];
    var es5 := es4 + [PlanReply(1, Plan("p", true))];
    var es7 := es5 + [Reload(false)] + [LoadReply(1, [A, B])];
    PlayTwo(none, Reload(false), LoadReply(0, [AB, LOCKED_A, LOCKED_B]));
    PlayTwo(es2, Toggle("a,b", true), SelectEligible);
    PlayThen(es4, PlanReply(1, Plan("p", true)));
    PlayTwo(es5, Reload(false), LoadReply(1, [A, B]));
    ListsThree();
    ChoosesThree();
    Unlocks(Play(START, es5), Play(START, es7));
    UnlockedStarts();
    assert StartsOther(es7);
  }

  // ----- two rows with one id -----

  const OLDER := Row("a", "1", true, true)
  const NEWER := Row("a", "2", true, true)
  const TWICE := START.(rows := [OLDER, NEWER], read := 1, loads := [Load(1, 0, false)])

  /** The latest request came from `cleanEligible` and named other ids than those it selected. */
  ghost predicate AsksOther(es: seq<Event>) {
    var s := Play(START, es + [CleanEligible]);
    s.requests != [] && s.requests[|s.requests| - 1].clean && s.requests[|s.requests| - 1].ids != Selection(s)
  }

  lemma {:induction false} ListsTwice()
    ensures Step(Step(START, Reload(false)), LoadReply(0, [OLDER, NEWER])) == TWICE
  {
    assert Surviving([OLDER, NEWER], map[]) == map[];
  }

  lemma {:induction false} MarksTwice(rows: seq<Row>)
    requires rows == [OLDER, NEWER]
    ensures Marked(rows, map[], CLEANABLE, true) == map["a" := "2"]
  {
    var none: seq<Row> := [];
    MarkedNext(none, OLDER, map[], CLEANABLE, true);
    MarkedNext([OLDER], NEWER, map[], CLEANABLE, true);
    assert none + [OLDER] == [OLDER] && [OLDER] + [NEWER] == rows;
    assert Marked([OLDER], map[], CLEANABLE, true) == map["a" := "1"];
    assert map["a" := "1"]["a" := "2"] == map["a" := "2"];
  }

  lemma {:induction false} PicksPair(a: Row, b: Row, selected: map<string, string>, pick: Row -> bool)
    requires pick(a) && pick(b) && !Chosen(a, selected) && Chosen(b, selected)
    ensures Ids(Picked([a, b], pick)) == [a.id, b.id] && Ids(SelectedRows([a, b], selected)) == [b.id]
  {
    assert [a, b][1..] == [b] && [b][1..] == [];
    assert Picked([b], pick) == [b] && SelectedRows([b], selected) == [b];
    assert Picked([a, b], pick) == [a, b] && SelectedRows([a, b], selected) == [b];
    assert Ids([b]) == [b.id] && Ids([a, b]) == [a.id, b.id];
  }

  lemma {:induction false} AsksTwice(s: State)
    requires s == Cleaning(TWICE)
    ensures s.requests == [Request(["a", "a"], true, 0, 0)] && Selection(s) == ["a"]
  {
    MarksTwice(TWICE.rows);
    assert OLDER.revision[0] == '1' && NEWER.revision[0] == '2';
    PicksPair(OLDER, NEWER, map["a" := "2"], CLEANABLE);
  }

  /** A list with two eligible rows under one id: cleaning asks for both and leaves one selected. */
  lemma {:induction false} SharedIdAsksOther()
    ensures exists es :: AsksOther(es)
  {
    var none: seq<Event> := [];
    var es := none + [Reload(false)] + [LoadReply(0, [OLDER, NEWER])];
    PlayTwo(none, Reload(false), LoadReply(0, [OLDER, NEWER]));
    ListsTwice();
    PlayThen(es, CleanEligible);
    AsksTwice(Play(START, es + [CleanEligible]));
    assert AsksOther(es);
  }
}
