/** The storage page's rows and choices: which rows are selected, what marking and
    loading do to the choices, and when joined ids identify a selection. */
module Storage {
  import opened Common

  datatype Row = Row(id: string, revision: string, deletable: bool, eligible: bool)

  /** A cleanup plan as the server returns it. */
  datatype Plan = Plan(planId: string, ready: bool)

  const MAX_SELECTION := 200

  // ----- the selection -----

  function Find(rows: seq<Row>, id: string): Option<Row> {
    if rows == [] then None else if rows[0].id == id then Some(rows[0]) else Find(rows[1..], id)
  }

  predicate Chosen(row: Row, selected: map<string, string>) {
    row.id in selected && selected[row.id] == row.revision && row.deletable
  }

  function SelectedRows(rows: seq<Row>, selected: map<string, string>): seq<Row> {
    if rows == [] then []
    else (if Chosen(rows[0], selected) then [rows[0]] else []) + SelectedRows(rows[1..], selected)
  }

  function Ids(rows: seq<Row>): seq<string> {
    if rows == [] then [] else [rows[0].id] + Ids(rows[1..])
  }

  /** `ids.join(',')`. */
  function Join(ids: seq<string>): string {
    if ids == [] then "" else if |ids| == 1 then ids[0] else ids[0] + "," + Join(ids[1..])
  }

  /** A choice survives a load when its row is still listed, deletable and at the recorded revision. */
  predicate Survives(rows: seq<Row>, id: string, revision: string) {
    var row := Find(rows, id);
    row.Some? && row.value.deletable && row.value.revision == revision
  }

  /** The choices after every picked row was added at its revision, or removed. */
  function Marked(rows: seq<Row>, selected: map<string, string>, pick: Row -> bool, on: bool): map<string, string> {
    if rows == [] then selected
    else
      var n := |rows| - 1;
      var before, row := Marked(rows[..n], selected, pick, on), rows[n];
      if !pick(row) then before else if on then before[row.id := row.revision] else before - {row.id}
  }

  function Picked(rows: seq<Row>, pick: Row -> bool): seq<Row> {
    if rows == [] then [] else (if pick(rows[0]) then [rows[0]] else []) + Picked(rows[1..], pick)
  }

  const DELETABLE: Row -> bool := (row: Row) => row.deletable
  const ELIGIBLE: Row -> bool := (row: Row) => row.eligible
  const CLEANABLE: Row -> bool := (row: Row) => row.eligible && row.deletable

  // ----- what a join identifies -----

  function Head(s: string): (i: nat)
    ensures i <= |s| && (i < |s| ==> s[i] == ',') && forall j :: 0 <= j < i ==> s[j] != ','
  {
    if s == "" || s[0] == ',' then 0 else 1 + Head(s[1..])
  }

  /** `s.split(',')`. */
  function Split(s: string): (r: seq<string>)
    ensures r != []
    decreases |s|
  {
    var i := Head(s);
    if i == |s| then [s] else [s[..i]] + Split(s[i + 1..])
  }

  /** The ids cut at every comma, in order; no ids at all read as one empty piece. */
  function Pieces(ids: seq<string>): (r: seq<string>)
    ensures r != []
  {
    if ids == [] then [""] else if |ids| == 1 then Split(ids[0]) else Split(ids[0]) + Pieces(ids[1..])
  }

  /** `a`, a comma and `b`. */
  function Comma(a: string, b: string): (s: string)
    ensures |s| == |a| + 1 + |b| && s[|a|] == ','
  {
    a + "," + b
  }

  lemma {:induction false} HeadAt(s: string, i: nat)
    requires i <= |s| && (i < |s| ==> s[i] == ',') && forall j :: 0 <= j < i ==> s[j] != ','
    ensures Head(s) == i
  {
  }

  lemma {:induction false} SplitFirst(first: string, rest: string, s: string)
    requires s == Comma(first, rest) && ',' !in first
    ensures Split(s) == [first] + Split(rest)
  {
    var i := |first|;
    assert forall j :: 0 <= j < i ==> s[j] == first[j];
    HeadAt(s, i);
    assert s[..i] == first && s[i + 1..] == rest;
  }

  /** The text up to its first comma, and the text behind it. */
  lemma {:induction false} Cut(s: string) returns (first: string, rest: string)
    requires ',' in s
    ensures s == Comma(first, rest) && ',' !in first && |rest| < |s|
  {
    var i := Head(s);
    first, rest := s[..i], s[i + 1..];
  }

  lemma {:induction false} Commas(a: string, b: string, c: string)
    ensures Comma(a, Comma(b, c)) == Comma(Comma(a, b), c)
  {
  }

  lemma {:induction false} SplitJoin(a: string, b: string)
    ensures Split(Comma(a, b)) == Split(a) + Split(b)
    decreases |a|
  {
    if ',' in a {
      var first, rest := Cut(a);
      SplitFirst(first, rest, a);
      Commas(first, rest, b);
      SplitFirst(first, Comma(rest, b), Comma(a, b));
      SplitJoin(rest, b);
      Associative([first], Split(rest), Split(b));
    } else {
      HeadAt(a, |a|);
      SplitFirst(a, b, Comma(a, b));
    }
  }

  lemma {:induction false} JoinFirst(first: string, rest: seq<string>)
    requires rest != []
    ensures Join([first] + rest) == Comma(first, Join(rest))
  {
    assert ([first] + rest)[1..] == rest;
  }

  lemma {:induction false} JoinSplit(s: string)
    ensures Join(Split(s)) == s
    decreases |s|
  {
    if ',' in s {
      var first, rest := Cut(s);
      SplitFirst(first, rest, s);
      JoinSplit(rest);
      JoinFirst(first, Split(rest));
    } else {
      HeadAt(s, |s|);
    }
  }

  lemma {:induction false} SplitOfJoin(ids: seq<string>)
    ensures Split(Join(ids)) == Pieces(ids)
  {
    if |ids| > 1 {
      SplitOfJoin(ids[1..]);
      SplitJoin(ids[0], Join(ids[1..]));
    }
  }

  /** For all lists: the joins are equal if and only if the pieces between commas are. */
  lemma {:induction false} JoinExact(a: seq<string>, b: seq<string>)
    ensures Join(a) == Join(b) <==> Pieces(a) == Pieces(b)
  {
    SplitOfJoin(a);
    SplitOfJoin(b);
    JoinSplit(Join(a));
    JoinSplit(Join(b));
  }

  predicate Plain(ids: seq<string>) {
    forall i :: 0 <= i < |ids| ==> ids[i] != "" && ',' !in ids[i]
  }

  lemma {:induction false} PlainPieces(ids: seq<string>)
    requires Plain(ids)
    ensures Pieces(ids) == if ids == [] then [""] else ids
  {
    if ids != [] {
      HeadAt(ids[0], |ids[0]|);
      if |ids| > 1 { PlainPieces(ids[1..]); }
    }
  }

  /** Lists of nonempty ids without commas are equal exactly when their joins are. */
  lemma {:induction false} JoinInjective(a: seq<string>, b: seq<string>)
    requires Plain(a) && Plain(b)
    ensures Join(a) == Join(b) <==> a == b
  {
    JoinExact(a, b);
    PlainPieces(a);
    PlainPieces(b);
  }

  // ----- what the selection filter keeps -----

  lemma {:induction false} SelectedRowsMembers(rows: seq<Row>, selected: map<string, string>, row: Row)
    ensures row in SelectedRows(rows, selected) <==> row in rows && Chosen(row, selected)
  {
    if rows != [] { SelectedRowsMembers(rows[1..], selected, row); }
  }

  lemma {:induction false} PickedMembers(rows: seq<Row>, pick: Row -> bool, row: Row)
    ensures row in Picked(rows, pick) <==> row in rows && pick(row)
  {
    if rows != [] { PickedMembers(rows[1..], pick, row); }
  }

  lemma {:induction false} IdsMembers(rows: seq<Row>)
    ensures |Ids(rows)| == |rows| && forall i :: 0 <= i < |rows| ==> Ids(rows)[i] == rows[i].id
  {
    if rows != [] { IdsMembers(rows[1..]); }
  }

  lemma {:induction false} MarkedNext(rows: seq<Row>, row: Row, selected: map<string, string>, pick: Row -> bool,
                                      on: bool)
    ensures var before := Marked(rows, selected, pick, on);
            Marked(rows + [row], selected, pick, on) ==
            if !pick(row) then before else if on then before[row.id := row.revision] else before - {row.id}
  {
    assert (rows + [row])[..|rows|] == rows;
  }

  /** The last picked row with the id, or the number of rows. */
  function LastPicked(rows: seq<Row>, pick: Row -> bool, id: string): (i: nat)
    ensures i <= |rows| && (i < |rows| ==> rows[i].id == id && pick(rows[i]))
    ensures forall j :: 0 <= j < |rows| && (i == |rows| || j > i) && rows[j].id == id ==> !pick(rows[j])
  {
    if rows == [] then 0
    else
      var n := |rows| - 1;
      var i := LastPicked(rows[..n], pick, id);
      if rows[n].id == id && pick(rows[n]) then n else if i == n then |rows| else i
  }

  /** What is chosen after marking: the last picked row with an id decides, and an id no picked row has is left as it
      was. */
  lemma {:induction false} MarkedMeans(rows: seq<Row>, selected: map<string, string>, pick: Row -> bool, on: bool,
                                       id: string)
    ensures var r, i := Marked(rows, selected, pick, on), LastPicked(rows, pick, id);
            if i == |rows| then (id in r <==> id in selected) && (id in r ==> r[id] == selected[id])
            else if on then id in r && r[id] == rows[i].revision
            else id !in r
  {
    if rows != [] {
      var n := |rows| - 1;
      MarkedMeans(rows[..n], selected, pick, on, id);
      var i := LastPicked(rows[..n], pick, id);
      if i < n { assert rows[..n][i] == rows[i]; }
    }
  }

  /** Among the deletable rows that share their id with a picked one, exactly the picked ones are at the revision of
      the last picked one. */
  ghost predicate Agreeing(rows: seq<Row>, pick: Row -> bool) {
    forall row :: row in rows ==> Agrees(rows, pick, row)
  }

  ghost predicate Agrees(rows: seq<Row>, pick: Row -> bool, row: Row) {
    var i := LastPicked(rows, pick, row.id);
    row.deletable && i < |rows| ==> (pick(row) <==> row.revision == rows[i].revision)
  }

  lemma {:induction false} AgreesMeans(rows: seq<Row>, pick: Row -> bool, selected: map<string, string>, row: Row)
    requires row in rows && selected == Marked(rows, map[], pick, true) && (pick(row) ==> row.deletable)
    ensures Agrees(rows, pick, row) <==> (Chosen(row, selected) <==> pick(row))
  {
    MarkedMeans(rows, map[], pick, true, row.id);
    var j :| 0 <= j < |rows| && rows[j] == row;
  }

  lemma {:induction false} SameFilter(rows: seq<Row>, pick: Row -> bool, selected: map<string, string>)
    requires forall row :: row in rows ==> (Chosen(row, selected) <==> pick(row))
    ensures SelectedRows(rows, selected) == Picked(rows, pick)
  {
    if rows != [] {
      assert rows[0] in rows;
      SameFilter(rows[1..], pick, selected);
    }
  }

  /** Picking deletable rows from nothing selects exactly the picked rows if and only if rows that share an id
      agree. */
  lemma {:induction false} FreshSelection(rows: seq<Row>, selected: map<string, string>, pick: Row -> bool)
    requires selected == Marked(rows, map[], pick, true) && forall row :: row in rows && pick(row) ==> row.deletable
    ensures SelectedRows(rows, selected) == Picked(rows, pick) <==> Agreeing(rows, pick)
  {
    forall row | row in rows ensures Agrees(rows, pick, row) <==> (Chosen(row, selected) <==> pick(row)) {
      AgreesMeans(rows, pick, selected, row);
    }
    if Agreeing(rows, pick) {
      SameFilter(rows, pick, selected);
    } else {
      var row :| row in rows && !Agrees(rows, pick, row);
      SelectedRowsMembers(rows, selected, row);
      PickedMembers(rows, pick, row);
    }
  }

  ghost predicate UniqueIds(rows: seq<Row>) {
    forall i, j :: 0 <= i < j < |rows| ==> rows[i].id != rows[j].id
  }

  /** Rows agree when no two share an id. */
  lemma {:induction false} UniqueAgree(rows: seq<Row>, pick: Row -> bool)
    requires UniqueIds(rows)
    ensures Agreeing(rows, pick)
  {
    forall row | row in rows ensures Agrees(rows, pick, row) {
      var j :| 0 <= j < |rows| && rows[j] == row;
      var i := LastPicked(rows, pick, row.id);
      assert i < |rows| ==> i == j;
    }
  }

  lemma {:induction false} FindMember(rows: seq<Row>, id: string)
    ensures Find(rows, id).Some? ==> Find(rows, id).value in rows && Find(rows, id).value.id == id
    ensures Find(rows, id).None? ==> forall row :: row in rows ==> row.id != id
  {
    if rows != [] { FindMember(rows[1..], id); }
  }

  // ----- rows and ids -----

  lemma {:induction false} FindFirst(rows: seq<Row>, id: string, i: nat)
    requires i <= |rows| && (forall j :: 0 <= j < i ==> rows[j].id != id) && (i < |rows| ==> rows[i].id == id)
    ensures Find(rows, id) == if i < |rows| then Some(rows[i]) else None
  {
    if i > 0 { FindFirst(rows[1..], id, i - 1); }
  }

  lemma {:induction false} ChosenBehind(rows: seq<Row>, selected: map<string, string>)
    ensures forall id :: id in Ids(SelectedRows(rows, selected)) ==>
              exists row :: row in rows && row.id == id && Chosen(row, selected)
  {
    var chosen := SelectedRows(rows, selected);
    IdsMembers(chosen);
    forall id | id in Ids(chosen)
      ensures exists row :: row in rows && row.id == id && Chosen(row, selected)
    {
      var i :| 0 <= i < |chosen| && Ids(chosen)[i] == id;
      SelectedRowsMembers(rows, selected, chosen[i]);
      assert chosen[i] in rows;
    }
  }
}
