/** What merged evidence holds, said of the cells as they came: one bundle for every
    key in the order the keys first came, with what came with the key first, and in
    it the first cell of every id, in order. */
module EvidenceMeaning {
  import opened Common
  import opened Evidence

  /** The keys, each where it first came. */
  ghost function KeysIn<K, M, C>(es: seq<Entry<K, M, C>>): seq<K> {
    if es == [] then []
    else
      var front, key := KeysIn(es[..|es| - 1]), es[|es| - 1].key;
      if key in front then front else front + [key]
  }

  /** What came with the key first. */
  ghost function InfoOf<K, M, C>(es: seq<Entry<K, M, C>>, key: K): M
    requires exists i :: 0 <= i < |es| && es[i].key == key
  {
    if es[0].key == key then es[0].info
    else assert forall i :: 0 < i < |es| ==> es[i] == es[1..][i - 1]; InfoOf(es[1..], key)
  }

  /** An earlier entry has the same key and cell id. */
  ghost predicate Repeats<K, M, C>(es: seq<Entry<K, M, C>>, i: nat)
    requires i < |es|
  {
    exists j :: 0 <= j < i && es[j].key == es[i].key && es[j].cell.id == es[i].cell.id
  }

  /** The cells of a key that repeat no earlier one. */
  ghost function CellsIn<K, M, C>(es: seq<Entry<K, M, C>>, n: nat, key: K): seq<Cell<C>>
    requires n <= |es|
  {
    if n == 0 then []
    else CellsIn(es, n - 1, key) + (if es[n - 1].key == key && !Repeats(es, n - 1) then [es[n - 1].cell] else [])
  }

  // ----- merging one cell -----

  lemma {:induction false} KeyHeld<K, M, C>(es: seq<Entry<K, M, C>>, key: K)
    ensures key in KeysIn(es) <==> exists i :: 0 <= i < |es| && es[i].key == key
  {
    if es != [] {
      var n := |es| - 1;
      KeyHeld(es[..n], key);
      assert forall i :: 0 <= i < n ==> es[..n][i] == es[i];
      if i :| 0 <= i < n && es[i].key == key { assert es[..n][i].key == key; }
    }
  }

  lemma {:induction false} CellHeld<K, M, C>(es: seq<Entry<K, M, C>>, n: nat, key: K, id: string)
    requires n <= |es|
    ensures HasCell(CellsIn(es, n, key), id) <==> exists j :: 0 <= j < n && es[j].key == key && es[j].cell.id == id
  {
    if n > 0 {
      CellHeld(es, n - 1, key, id);
      var front, e := CellsIn(es, n - 1, key), es[n - 1];
      if e.key == key && !Repeats(es, n - 1) {
        HasCellAppend(front, e.cell, id);
      } else {
        assert front + [] == front;
      }
    }
  }

  lemma {:induction false} InfoLonger<K, M, C>(es: seq<Entry<K, M, C>>, e: Entry<K, M, C>, key: K)
    requires exists i :: 0 <= i < |es| && es[i].key == key
    ensures exists i :: 0 <= i < |es + [e]| && (es + [e])[i].key == key
    ensures InfoOf(es + [e], key) == InfoOf(es, key)
  {
    var i :| 0 <= i < |es| && es[i].key == key;
    assert (es + [e])[i].key == key;
    if es[0].key != key {
      assert es[1..][i - 1].key == key && (es + [e])[1..] == es[1..] + [e];
      InfoLonger(es[1..], e, key);
    }
  }

  lemma {:induction false} InfoNew<K, M, C>(es: seq<Entry<K, M, C>>, e: Entry<K, M, C>)
    requires forall i :: 0 <= i < |es| ==> es[i].key != e.key
    ensures (es + [e])[|es|].key == e.key && InfoOf(es + [e], e.key) == e.info
  {
    assert (es + [e])[|es|] == e;
    if es != [] {
      assert (es + [e])[1..] == es[1..] + [e];
      InfoNew(es[1..], e);
    }
  }

  lemma {:induction false} CellsSame<K, M, C>(es: seq<Entry<K, M, C>>, e: Entry<K, M, C>, n: nat, key: K)
    requires n <= |es|
    ensures CellsIn(es + [e], n, key) == CellsIn(es, n, key)
  {
    if n > 0 {
      CellsSame(es, e, n - 1, key);
      assert forall j :: 0 <= j < n ==> (es + [e])[j] == es[j];
    }
  }

  /** Number `j` of the bundles is right. */
  ghost predicate BundleMeans<K, M, C>(es: seq<Entry<K, M, C>>, g: Group<K, M, C>, key: K) {
    && g.key == key && g.cells == CellsIn(es, |es|, key)
    && (exists i :: 0 <= i < |es| && es[i].key == key) && g.info == InfoOf(es, key)
  }

  ghost predicate Means<K, M, C>(es: seq<Entry<K, M, C>>, r: seq<Group<K, M, C>>) {
    |r| == |KeysIn(es)| && forall j :: 0 <= j < |r| ==> BundleMeans(es, r[j], KeysIn(es)[j])
  }

  lemma {:induction false} OtherBundle<K, M, C>(es: seq<Entry<K, M, C>>, e: Entry<K, M, C>, g: Group<K, M, C>, key: K)
    requires BundleMeans(es, g, key) && e.key != key
    ensures BundleMeans(es + [e], g, key)
  {
    var more := es + [e];
    CellsSame(es, e, |es|, key);
    InfoLonger(es, e, key);
    assert more[|es|] == e && CellsIn(es, |es|, key) + [] == CellsIn(es, |es|, key);
  }

  lemma {:induction false} RepeatsIs<K, M, C>(es: seq<Entry<K, M, C>>, e: Entry<K, M, C>)
    ensures (es + [e])[|es|] == e && (Repeats(es + [e], |es|) <==> HasCell(CellsIn(es, |es|, e.key), e.cell.id))
  {
    CellHeld(es, |es|, e.key, e.cell.id);
    assert forall j :: 0 <= j < |es| ==> (es + [e])[j] == es[j];
    if j :| 0 <= j < |es| && es[j].key == e.key && es[j].cell.id == e.cell.id { assert (es + [e])[j] == es[j]; }
  }

  lemma {:induction false} SameBundle<K, M, C>(es: seq<Entry<K, M, C>>, e: Entry<K, M, C>, g: Group<K, M, C>)
    requires BundleMeans(es, g, e.key)
    ensures BundleMeans(es + [e], g.(cells := AddCells(g.cells, [e.cell])), e.key)
  {
    CellsSame(es, e, |es|, e.key);
    InfoLonger(es, e, e.key);
    RepeatsIs(es, e);
    AddOne(g.cells, e.cell);
    assert g.cells + [] == g.cells;
  }

  lemma {:induction false} NewBundle<K, M, C>(es: seq<Entry<K, M, C>>, e: Entry<K, M, C>)
    requires forall i :: 0 <= i < |es| ==> es[i].key != e.key
    ensures BundleMeans(es + [e], Single(e), e.key)
  {
    CellsSame(es, e, |es|, e.key);
    NoCells(es, |es|, e.key);
    InfoNew(es, e);
    RepeatsIs(es, e);
  }

  lemma {:induction false} NoCells<K, M, C>(es: seq<Entry<K, M, C>>, n: nat, key: K)
    requires n <= |es| && forall i :: 0 <= i < n ==> es[i].key != key
    ensures CellsIn(es, n, key) == []
  {
    if n > 0 { NoCells(es, n - 1, key); }
  }

  lemma {:induction false} FindKey<K, M, C>(es: seq<Entry<K, M, C>>, r: seq<Group<K, M, C>>, key: K)
    requires Means(es, r)
    ensures Find(r, key) < |r| <==> key in KeysIn(es)
  {
    var i := Find(r, key);
    if i < |r| { assert BundleMeans(es, r[i], KeysIn(es)[i]); }
    if key in KeysIn(es) {
      var j :| 0 <= j < |KeysIn(es)| && KeysIn(es)[j] == key;
      assert BundleMeans(es, r[j], key);
    }
  }

  lemma {:induction false} KeysDistinct<K, M, C>(es: seq<Entry<K, M, C>>)
    ensures forall i, j :: 0 <= i < j < |KeysIn(es)| ==> KeysIn(es)[i] != KeysIn(es)[j]
  {
    if es != [] { KeysDistinct(es[..|es| - 1]); }
  }

  lemma {:induction false} KeysNext<K, M, C>(es: seq<Entry<K, M, C>>, e: Entry<K, M, C>)
    ensures KeysIn(es + [e]) == if e.key in KeysIn(es) then KeysIn(es) else KeysIn(es) + [e.key]
  {
    assert (es + [e])[..|es|] == es && (es + [e])[|es|] == e;
  }

  lemma {:induction false} MergeMeans<K, M, C>(es: seq<Entry<K, M, C>>, e: Entry<K, M, C>, r: seq<Group<K, M, C>>,
                                              after: seq<Group<K, M, C>>)
    requires Means(es, r) && after == MergeGroup(r, Single(e))
    ensures Means(es + [e], after)
  {
    var i, keys := Find(r, e.key), KeysIn(es);
    KeysNext(es, e);
    KeysDistinct(es);
    FindKey(es, r, e.key);
    forall j | 0 <= j < |after| ensures BundleMeans(es + [e], after[j], KeysIn(es + [e])[j]) {
      if j < |r| {
        assert BundleMeans(es, r[j], keys[j]);
        if j == i { SameBundle(es, e, r[j]); } else { OtherBundle(es, e, r[j], keys[j]); }
      } else {
        KeyHeld(es, e.key);
        NewBundle(es, e);
      }
    }
  }

  /** The evidence merged one cell at a time, and so every way of cutting it into pages, is exactly this. */
  lemma {:induction false} AddAllMeans<K, M, C>(es: seq<Entry<K, M, C>>, r: seq<Group<K, M, C>>)
    requires r == AddAll([], es)
    ensures Means(es, r)
  {
    if es != [] {
      var front, e := es[..|es| - 1], es[|es| - 1];
      AddAllMeans(front, AddAll([], front));
      MergeMeans(front, e, AddAll([], front), r);
      assert front + [e] == es;
    }
  }
}
