/** Visual evidence arrives in pages and is merged into one record. Bundles hold
    cells, feedback holds comments; both are merged the same way, by key and then
    by id. */
module Evidence {
  import opened Common

  datatype Cell<C> = Cell(id: string, body: C)

  /** A bundle of cells, or a feedback thread of comments. */
  datatype Group<K, M, C> = Group(key: K, info: M, cells: seq<Cell<C>>)

  /** One cell with the bundle it belongs to. */
  datatype Entry<K, M, C> = Entry(key: K, info: M, cell: Cell<C>)

  predicate HasCell<C>(cells: seq<Cell<C>>, id: string) {
    exists i :: 0 <= i < |cells| && cells[i].id == id
  }

  function Find<K(==), M, C>(groups: seq<Group<K, M, C>>, key: K): (i: nat)
    ensures i <= |groups| && (i < |groups| ==> groups[i].key == key)
    ensures forall j :: 0 <= j < i ==> groups[j].key != key
  {
    if groups == [] || groups[0].key == key then 0 else 1 + Find(groups[1..], key)
  }

  // ----- merging, as the page is read -----

  function AddCells<C>(cells: seq<Cell<C>>, more: seq<Cell<C>>): seq<Cell<C>> {
    if more == [] then cells
    else
      var before, cell := AddCells(cells, more[..|more| - 1]), more[|more| - 1];
      if HasCell(before, cell.id) then before else before + [cell]
  }

  function MergeGroup<K(==), M, C>(target: seq<Group<K, M, C>>, g: Group<K, M, C>): seq<Group<K, M, C>> {
    var i := Find(target, g.key);
    if i == |target| then target + [g] else target[i := target[i].(cells := AddCells(target[i].cells, g.cells))]
  }

  function MergePage<K(==), M, C>(target: seq<Group<K, M, C>>, page: seq<Group<K, M, C>>): seq<Group<K, M, C>> {
    if page == [] then target else MergeGroup(MergePage(target, page[..|page| - 1]), page[|page| - 1])
  }

  /** `mergeEvidencePage` on the bundles, or on the feedback. */
  method Merge<K(==), M, C>(target: seq<Group<K, M, C>>, page: seq<Group<K, M, C>>) returns (r: seq<Group<K, M, C>>)
    ensures r == MergePage(target, page)
  {
    r := target;
    for k := 0 to |page|
      invariant r == MergePage(target, page[..k])
    {
      assert page[..k + 1][..k] == page[..k];
      var g := page[k];
      var i := Find(r, g.key);
      if i == |r| {
        r := r + [g];
      } else {
        var cells := r[i].cells;
        for c := 0 to |g.cells|
          invariant cells == AddCells(r[i].cells, g.cells[..c])
        {
          assert g.cells[..c + 1][..c] == g.cells[..c];
          var known := false;
          for j := 0 to |cells|
            invariant known <==> exists i :: 0 <= i < j && cells[i].id == g.cells[c].id
          {
            if cells[j].id == g.cells[c].id { known := true; }
          }
          if !known { cells := cells + [g.cells[c]]; }
        }
        assert g.cells[..|g.cells|] == g.cells;
        r := r[i := r[i].(cells := cells)];
      }
    }
    assert page[..|page|] == page;
  }

  // ----- merging again changes nothing -----

  lemma {:induction false} AddCellsHolds<C>(cells: seq<Cell<C>>, more: seq<Cell<C>>, id: string)
    ensures HasCell(AddCells(cells, more), id) <==> HasCell(cells, id) || HasCell(more, id)
  {
    if more != [] {
      var front, last := more[..|more| - 1], more[|more| - 1];
      AddCellsHolds(cells, front, id);
      assert more == front + [last];
      HasCellAppend(front, last, id);
      HasCellAppend(AddCells(cells, front), last, id);
    }
  }

  lemma {:induction false} HasCellAppend<C>(cells: seq<Cell<C>>, cell: Cell<C>, id: string)
    ensures HasCell(cells + [cell], id) <==> HasCell(cells, id) || cell.id == id
  {
    assert (cells + [cell])[|cells|] == cell;
    if HasCell(cells, id) {
      var i :| 0 <= i < |cells| && cells[i].id == id;
      assert (cells + [cell])[i].id == id;
    }
  }

  lemma {:induction false} AddKnown<C>(cells: seq<Cell<C>>, more: seq<Cell<C>>)
    requires forall i :: 0 <= i < |more| ==> HasCell(cells, more[i].id)
    ensures AddCells(cells, more) == cells
  {
    if more != [] { AddKnown(cells, more[..|more| - 1]); }
  }

  /** Everything the group would add is there already. */
  ghost predicate Contains<K, M, C>(target: seq<Group<K, M, C>>, g: Group<K, M, C>) {
    var i := Find(target, g.key);
    i < |target| && forall j :: 0 <= j < |g.cells| ==> HasCell(target[i].cells, g.cells[j].id)
  }

  lemma {:induction false} FindUnchanged<K, M, C>(target: seq<Group<K, M, C>>, g: Group<K, M, C>, key: K)
    ensures var r, i := MergeGroup(target, g), Find(target, key);
            if i < |target| then Find(r, key) == i else key != g.key ==> Find(r, key) == |r|
    ensures Find(MergeGroup(target, g), g.key) < |MergeGroup(target, g)|
  {
    var r := MergeGroup(target, g);
    assert forall j :: 0 <= j < |target| ==> r[j].key == target[j].key;
    if Find(target, g.key) == |target| { assert r[|target|].key == g.key; }
  }

  lemma {:induction false} MergeGroupContains<K, M, C>(target: seq<Group<K, M, C>>, g: Group<K, M, C>)
    ensures Contains(MergeGroup(target, g), g)
  {
    var i, r := Find(target, g.key), MergeGroup(target, g);
    FindUnchanged(target, g, g.key);
    if i == |target| {
      assert Find(r, g.key) == i;
      assert r[i] == g;
      assert forall j :: 0 <= j < |g.cells| ==> HasCell(g.cells, g.cells[j].id);
    } else {
      forall j | 0 <= j < |g.cells| ensures HasCell(r[i].cells, g.cells[j].id) {
        AddCellsHolds(target[i].cells, g.cells, g.cells[j].id);
      }
    }
  }

  lemma {:induction false} MergeGroupKeeps<K, M, C>(target: seq<Group<K, M, C>>, g: Group<K, M, C>, h: Group<K, M, C>)
    requires Contains(target, h)
    ensures Contains(MergeGroup(target, g), h)
  {
    var i, r := Find(target, h.key), MergeGroup(target, g);
    FindUnchanged(target, g, h.key);
    forall j | 0 <= j < |h.cells| ensures HasCell(r[i].cells, h.cells[j].id) {
      if Find(target, g.key) == i { AddCellsHolds(target[i].cells, g.cells, h.cells[j].id); }
    }
  }

  lemma {:induction false} MergePageContains<K, M, C>(target: seq<Group<K, M, C>>, page: seq<Group<K, M, C>>, k: nat)
    requires k < |page|
    ensures Contains(MergePage(target, page), page[k])
  {
    var front, last := page[..|page| - 1], page[|page| - 1];
    if k < |front| {
      MergePageContains(target, front, k);
      MergeGroupKeeps(MergePage(target, front), last, page[k]);
    } else {
      MergeGroupContains(MergePage(target, front), last);
    }
  }

  lemma {:induction false} MergeContained<K, M, C>(target: seq<Group<K, M, C>>, page: seq<Group<K, M, C>>)
    requires forall k :: 0 <= k < |page| ==> Contains(target, page[k])
    ensures MergePage(target, page) == target
  {
    if page != [] {
      var n := |page| - 1;
      MergeContained(target, page[..n]);
      var i := Find(target, page[n].key);
      assert Contains(target, page[n]);
      AddKnown(target[i].cells, page[n].cells);
      assert target[i := target[i]] == target;
    }
  }

  /** Merging the same page twice is merging it once. */
  lemma {:induction false} MergeIdempotent<K, M, C>(target: seq<Group<K, M, C>>, page: seq<Group<K, M, C>>)
    ensures MergePage(MergePage(target, page), page) == MergePage(target, page)
  {
    forall k | 0 <= k < |page| ensures Contains(MergePage(target, page), page[k]) {
      MergePageContains(target, page, k);
    }
    MergeContained(MergePage(target, page), page);
  }

  // ----- how the server cuts its pages does not matter -----

  function Single<K, M, C>(e: Entry<K, M, C>): Group<K, M, C> {
    Group(e.key, e.info, [e.cell])
  }

  /** The reference: one cell at a time. */
  ghost function AddAll<K, M, C>(target: seq<Group<K, M, C>>, es: seq<Entry<K, M, C>>): seq<Group<K, M, C>> {
    if es == [] then target else MergeGroup(AddAll(target, es[..|es| - 1]), Single(es[|es| - 1]))
  }

  ghost function Flat<K, M, C>(g: Group<K, M, C>): (es: seq<Entry<K, M, C>>)
    ensures |es| == |g.cells| && forall i :: 0 <= i < |es| ==> es[i] == Entry(g.key, g.info, g.cells[i])
  {
    seq(|g.cells|, i requires 0 <= i < |g.cells| => Entry(g.key, g.info, g.cells[i]))
  }

  ghost function FlatPage<K, M, C>(page: seq<Group<K, M, C>>): seq<Entry<K, M, C>> {
    if page == [] then [] else FlatPage(page[..|page| - 1]) + Flat(page[|page| - 1])
  }

  ghost predicate Distinct<C>(cells: seq<Cell<C>>) {
    forall i, j :: 0 <= i < j < |cells| ==> cells[i].id != cells[j].id
  }

  lemma {:induction false} AddAllJoin<K, M, C>(target: seq<Group<K, M, C>>, a: seq<Entry<K, M, C>>,
                                               b: seq<Entry<K, M, C>>)
    ensures AddAll(target, a + b) == AddAll(AddAll(target, a), b)
  {
    if b == [] {
      assert a + b == a;
    } else {
      var n, whole := |b| - 1, a + b;
      var front := b[..n];
      AddAllJoin(target, a, front);
      assert whole[..|whole| - 1] == a + front && whole[|whole| - 1] == b[n];
    }
  }

  lemma {:induction false} AddLast<C>(cells: seq<Cell<C>>, front: seq<Cell<C>>, last: Cell<C>)
    requires cells == front + [last]
    ensures AddCells([], cells) == AddCells([], front) + (if HasCell(front, last.id) then [] else [last])
  {
    assert cells[..|cells| - 1] == front && cells[|cells| - 1] == last;
    AddCellsHolds([], front, last.id);
    assert AddCells([], front) + [] == AddCells([], front);
  }

  lemma {:induction false} DistinctLast<C>(cells: seq<Cell<C>>, front: seq<Cell<C>>, last: Cell<C>)
    requires cells == front + [last]
    ensures Distinct(cells) <==> Distinct(front) && !HasCell(front, last.id)
  {
    assert forall i :: 0 <= i < |front| ==> cells[i] == front[i];
    assert cells[|front|] == last;
  }

  /** Adding cells to nothing keeps all of them exactly when no id repeats. */
  lemma {:induction false} AddNothing<C>(cells: seq<Cell<C>>, r: seq<Cell<C>>)
    requires r == AddCells([], cells)
    ensures |r| <= |cells| && (|r| == |cells| <==> Distinct(cells)) && (Distinct(cells) ==> r == cells)
  {
    if cells != [] {
      var front, last := cells[..|cells| - 1], cells[|cells| - 1];
      assert cells == front + [last];
      AddNothing(front, AddCells([], front));
      AddLast(cells, front, last);
      DistinctLast(cells, front, last);
    }
  }

  lemma {:induction false} AddOne<C>(cells: seq<Cell<C>>, cell: Cell<C>)
    ensures AddCells(cells, [cell]) == if HasCell(cells, cell.id) then cells else cells + [cell]
  {
  }

  lemma {:induction false} FindIs<K, M, C>(groups: seq<Group<K, M, C>>, key: K, i: nat)
    requires i < |groups| && groups[i].key == key && forall j :: 0 <= j < i ==> groups[j].key != key
    ensures Find(groups, key) == i
  {
  }

  /** A known bundle gains what merging adds; a new one keeps the first cell of every id. */
  ghost function Gathered<K, M, C>(target: seq<Group<K, M, C>>, g: Group<K, M, C>): seq<Group<K, M, C>> {
    if Find(target, g.key) < |target| then MergeGroup(target, g) else target + [g.(cells := AddCells([], g.cells))]
  }

  lemma {:induction false} GatheredNext<K, M, C>(target: seq<Group<K, M, C>>, g: Group<K, M, C>, front: Group<K, M, C>,
                                                 last: Cell<C>)
    requires |g.cells| > 1 && last == g.cells[|g.cells| - 1] && front == g.(cells := g.cells[..|g.cells| - 1])
    ensures MergeGroup(Gathered(target, front), Group(g.key, g.info, [last])) == Gathered(target, g)
  {
    var i, x := Find(target, g.key), Gathered(target, front);
    assert forall j :: 0 <= j < i ==> x[j] == target[j];
    FindIs(x, g.key, i);
    AddOne(x[i].cells, last);
    var base := if i < |target| then target[i].cells else [];
    assert AddCells(x[i].cells, [last]) == AddCells(base, g.cells);
  }

  lemma {:induction false} GatheredOne<K, M, C>(target: seq<Group<K, M, C>>, g: Group<K, M, C>)
    requires |g.cells| == 1
    ensures MergeGroup(target, g) == Gathered(target, g)
  {
    var none: seq<Cell<C>> := [];
    assert g.cells == none + [g.cells[0]] == [g.cells[0]];
    AddOne(none, g.cells[0]);
    assert AddCells(none, g.cells) == g.cells;
    assert g.(cells := g.cells) == g;
  }

  lemma {:induction false} CellByCell<K, M, C>(target: seq<Group<K, M, C>>, g: Group<K, M, C>)
    requires g.cells != []
    ensures AddAll(target, Flat(g)) == Gathered(target, g)
    decreases |g.cells|
  {
    var n, es := |g.cells| - 1, Flat(g);
    var front := g.(cells := g.cells[..n]);
    assert es[..n] == Flat(front) && Single(es[n]) == Group(g.key, g.info, [g.cells[n]]);
    if n == 0 {
      assert es[..n] == [] && g == Single(es[n]);
      GatheredOne(target, g);
    } else {
      CellByCell(target, front);
      GatheredNext(target, g, front, g.cells[n]);
    }
  }

  /** Merging a bundle at once is merging it cell by cell exactly when it is known already or its cell
      ids are distinct. */
  lemma {:induction false} BundleCut<K, M, C>(target: seq<Group<K, M, C>>, g: Group<K, M, C>)
    requires g.cells != []
    ensures MergeGroup(target, g) == AddAll(target, Flat(g)) <==> Find(target, g.key) < |target| || Distinct(g.cells)
  {
    var i, r := Find(target, g.key), AddAll(target, Flat(g));
    CellByCell(target, g);
    AddNothing(g.cells, AddCells([], g.cells));
    if i == |target| {
      assert r[i].cells == AddCells([], g.cells) && MergeGroup(target, g)[i].cells == g.cells;
    }
  }

  /** With a repeated cell id the cut does show: the bundle whole keeps both cells, cut in two it keeps one. */
  lemma {:induction false} RepeatedCellShows()
    ensures var c := Cell("a", 0);
            |MergePage<int, int, int>([], [Group(0, 0, [c, c])])[0].cells| == 2
            && |MergePage<int, int, int>(MergePage([], [Group(0, 0, [c])]), [Group(0, 0, [c])])[0].cells| == 1
  {
    var c := Cell("a", 0);
    var whole, half: Group<int, int, int> := Group(0, 0, [c, c]), Group(0, 0, [c]);
    assert MergePage([], [whole][..0]) == [] && MergePage([], [half][..0]) == [];
    assert MergePage([half], [half][..0]) == [half];
    AddOne([c], c);
  }

  /** Bundles with cells, none repeated. */
  ghost predicate Clean<K, M, C>(page: seq<Group<K, M, C>>) {
    forall i :: 0 <= i < |page| ==> page[i].cells != [] && Distinct(page[i].cells)
  }

  lemma {:induction false} PageCut<K, M, C>(target: seq<Group<K, M, C>>, page: seq<Group<K, M, C>>)
    requires Clean(page)
    ensures MergePage(target, page) == AddAll(target, FlatPage(page))
  {
    if page != [] {
      var n := |page| - 1;
      PageCut(target, page[..n]);
      BundleCut(MergePage(target, page[..n]), page[n]);
      AddAllJoin(target, FlatPage(page[..n]), Flat(page[n]));
    }
  }

  ghost function MergePages<K, M, C>(target: seq<Group<K, M, C>>, pages: seq<seq<Group<K, M, C>>>)
    : seq<Group<K, M, C>>
  {
    if pages == [] then target else MergePage(MergePages(target, pages[..|pages| - 1]), pages[|pages| - 1])
  }

  ghost function FlatPages<K, M, C>(pages: seq<seq<Group<K, M, C>>>): seq<Entry<K, M, C>> {
    if pages == [] then [] else FlatPages(pages[..|pages| - 1]) + FlatPage(pages[|pages| - 1])
  }

  lemma {:induction false} PagesCut<K, M, C>(target: seq<Group<K, M, C>>, pages: seq<seq<Group<K, M, C>>>)
    requires forall i :: 0 <= i < |pages| ==> Clean(pages[i])
    ensures MergePages(target, pages) == AddAll(target, FlatPages(pages))
  {
    if pages != [] {
      var n := |pages| - 1;
      PagesCut(target, pages[..n]);
      PageCut(MergePages(target, pages[..n]), pages[n]);
      AddAllJoin(target, FlatPages(pages[..n]), FlatPage(pages[n]));
    }
  }

  /** Any two ways of cutting the same ordered cells into pages merge to the same bundles, cells and order. */
  lemma {:induction false} CutIndependent<K, M, C>(target: seq<Group<K, M, C>>, a: seq<seq<Group<K, M, C>>>,
                                                   b: seq<seq<Group<K, M, C>>>)
    requires (forall i :: 0 <= i < |a| ==> Clean(a[i])) && (forall i :: 0 <= i < |b| ==> Clean(b[i]))
    requires FlatPages(a) == FlatPages(b)
    ensures MergePages(target, a) == MergePages(target, b)
  {
    PagesCut(target, a);
    PagesCut(target, b);
  }

  // ----- loading all pages -----

  datatype Response<K, M, C> = Response(page: seq<Group<K, M, C>>, next: Option<int>)

  /** The server lists the cells from the offset on, some at a time, and names the next offset while cells are left. */
  ghost predicate Pages<K, M, C>(server: nat -> Response<K, M, C>, all: seq<Entry<K, M, C>>) {
    forall o: nat :: o <= |all| ==> Stretch(server(o), all, o)
  }

  ghost predicate Stretch<K, M, C>(r: Response<K, M, C>, all: seq<Entry<K, M, C>>, o: nat) {
    var end := match r.next case None => |all| case Some(n) => n;
    Clean(r.page) && (r.next.Some? ==> o < end < |all|) && o <= end && FlatPage(r.page) == all[o..end]
  }

  lemma {:induction false} StretchMerged<K, M, C>(page: seq<Group<K, M, C>>, all: seq<Entry<K, M, C>>, o: nat, end: nat)
    requires o <= end <= |all| && Clean(page) && FlatPage(page) == all[o..end]
    ensures MergePage(AddAll([], all[..o]), page) == AddAll([], all[..end])
  {
    PageCut(AddAll([], all[..o]), page);
    AddAllJoin([], all[..o], all[o..end]);
    assert all[..o] + all[o..end] == all[..end];
  }

  /** The pages read from offset `o` on, or nothing when a response does not advance. */
  ghost function Read<K, M, C>(server: nat -> Response<K, M, C>, o: nat, total: nat): Option<seq<seq<Group<K, M, C>>>>
    decreases total - o
  {
    var r := server(o);
    if r.next.None? then Some([r.page])
    else if r.next.value <= o || r.next.value > total then None
    else Joined([r.page], Read(server, r.next.value, total))
  }

  /** `loadAllTestEvidence` against any server whose offsets do not run past a total: the pages merged in order, or
      a refusal if and only if some response does not advance. When the server lists its cells in stretches, that is
      all cells merged one by one, however they were cut. */
  method LoadAll<K(==), M, C>(server: nat -> Response<K, M, C>, ghost total: nat)
    returns (r: Option<seq<Group<K, M, C>>>)
    requires forall o :: server(o).next.Some? ==> server(o).next.value <= total
    ensures match Read(server, 0, total) case None => r == None case Some(pages) => r == Some(MergePages([], pages))
    ensures forall all :: Pages(server, all) && |all| <= total ==> r == Some(AddAll([], all))
  {
    var result: seq<Group<K, M, C>> := [];
    var offset := 0;
    var page := server(offset);
    ghost var seen: seq<seq<Group<K, M, C>>> := [];
    JoinedNone(Read(server, 0, total));
    while true
      invariant offset <= total && page == server(offset) && result == MergePages([], seen)
      invariant Read(server, 0, total) == Joined(seen, Read(server, offset, total))
      decreases total - offset
    {
      MergeNext(seen, page.page);
      result := Merge(result, page.page);
      if page.next.None? {
        r := Some(result);
        seen := seen + [page.page];
        break;
      }
      var next := page.next.value;
      if next <= offset {
        r := None;
        break;
      }
      JoinedNext(seen, page.page, Read(server, next, total));
      seen := seen + [page.page];
      offset := next;
      page := server(offset);
    }
    forall all | Pages(server, all) && |all| <= total ensures r == Some(AddAll([], all)) {
      ReadAllMerged(server, all, 0, total);
      assert all[..0] == [] && AddAll<K, M, C>([], []) == [];
    }
  }

  ghost function Joined<K, M, C>(seen: seq<seq<Group<K, M, C>>>, rest: Option<seq<seq<Group<K, M, C>>>>)
    : Option<seq<seq<Group<K, M, C>>>>
  {
    match rest case None => None case Some(pages) => Some(seen + pages)
  }

  lemma {:induction false} JoinedNone<K, M, C>(rest: Option<seq<seq<Group<K, M, C>>>>)
    ensures Joined([], rest) == rest
  {
    if rest.Some? { assert [] + rest.value == rest.value; }
  }

  lemma {:induction false} JoinedNext<K, M, C>(seen: seq<seq<Group<K, M, C>>>, page: seq<Group<K, M, C>>,
                                               rest: Option<seq<seq<Group<K, M, C>>>>)
    ensures Joined(seen, Joined([page], rest)) == Joined(seen + [page], rest)
  {
    if rest.Some? { assert seen + ([page] + rest.value) == seen + [page] + rest.value; }
  }

  lemma {:induction false} MergeNext<K, M, C>(seen: seq<seq<Group<K, M, C>>>, page: seq<Group<K, M, C>>)
    ensures MergePages([], seen + [page]) == MergePage(MergePages([], seen), page)
  {
    assert (seen + [page])[..|seen|] == seen;
  }

  lemma {:induction false} MergePagesFirst<K, M, C>(target: seq<Group<K, M, C>>, page: seq<Group<K, M, C>>,
                                                    pages: seq<seq<Group<K, M, C>>>)
    ensures MergePages(target, [page] + pages) == MergePages(MergePage(target, page), pages)
  {
    var all := [page] + pages;
    if pages == [] {
      assert all[..0] == [] && all[0] == page;
    } else {
      var n := |pages| - 1;
      MergePagesFirst(target, page, pages[..n]);
      assert all[..|all| - 1] == [page] + pages[..n];
    }
  }

  /** Reading on from offset `o` merges exactly the cells from there on. */
  lemma {:induction false} ReadAllMerged<K, M, C>(server: nat -> Response<K, M, C>, all: seq<Entry<K, M, C>>, o: nat,
                                                  total: nat)
    requires Pages(server, all) && o <= |all| <= total
    ensures var pages := Read(server, o, total);
            pages.Some? && MergePages(AddAll([], all[..o]), pages.value) == AddAll([], all)
    decreases total - o
  {
    var r := server(o);
    assert Stretch(r, all, o);
    var end := match r.next case None => |all| case Some(n) => n;
    StretchMerged(r.page, all, o, end);
    assert all[..|all|] == all;
    if r.next.None? {
      MergePagesFirst(AddAll([], all[..o]), r.page, []);
      assert [r.page] + [] == [r.page];
    } else {
      ReadAllMerged(server, all, end, total);
      MergePagesFirst(AddAll([], all[..o]), r.page, Read(server, end, total).value);
    }
  }
}
