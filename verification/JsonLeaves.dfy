/** What a preview shows: the scalars of the value, all of them and in order. */
module JsonLeaves {
  import opened Common
  import opened JsonTree
  import D = Decimals

  /** The leaves of a node, left to right. */
  ghost function Leaves(n: Node): seq<Node>
    decreases n
  {
    match n
    case Leaf(_, _, _) => [n]
    case Group(_, children, _) => LeavesAll(children)
  }

  ghost function LeavesAll(ns: seq<Node>): seq<Node>
    decreases ns
  {
    if ns == [] then [] else Leaves(ns[0]) + LeavesAll(ns[1..])
  }

  /** The leaves of what is present, in order. */
  ghost function Present(values: seq<Option<Node>>): seq<Node> {
    if values == [] then [] else LeavesOf(values[0]) + Present(values[1..])
  }

  ghost function LeavesOf(value: Option<Node>): seq<Node> {
    match value case None => [] case Some(n) => Leaves(n)
  }

  lemma {:induction false} LeavesJoin(a: seq<Node>, b: seq<Node>)
    ensures LeavesAll(a + b) == LeavesAll(a) + LeavesAll(b)
  {
    if a == [] {
      assert a + b == b;
    } else {
      LeavesJoin(a[1..], b);
      assert (a + b)[1..] == a[1..] + b;
      Associative(Leaves(a[0]), LeavesAll(a[1..]), LeavesAll(b));
    }
  }

  lemma {:induction false} LeavesOne(n: Node)
    ensures LeavesAll([n]) == Leaves(n)
  {
    assert [n][1..] == [] && Leaves(n) + [] == Leaves(n);
  }

  lemma {:induction false} FlattenedFirst(values: seq<Option<Node>>, first: seq<Node>)
    requires values != []
    requires first == match values[0]
                      case None => []
                      case Some(n) => if n.Group? && n.name == "" then n.children else [n]
    ensures Flattened(values) == first + Flattened(values[1..]) && LeavesAll(first) == LeavesOf(values[0])
  {
    if values[0].Some? { LeavesOne(values[0].value); }
  }

  /** Whatever is flattened, no leaf is lost, added or moved. */
  lemma {:induction false} FlattenedLeaves(values: seq<Option<Node>>)
    ensures LeavesAll(Flattened(values)) == Present(values)
  {
    if values != [] {
      var first := match values[0]
                   case None => []
                   case Some(n) => if n.Group? && n.name == "" then n.children else [n];
      FlattenedFirst(values, first);
      FlattenedLeaves(values[1..]);
      LeavesJoin(first, Flattened(values[1..]));
    }
  }

  // ----- a style that suppresses and rewrites nothing -----

  ghost predicate Quiet(st: Style) {
    && (forall n :: !st.internal(n)) && (forall t :: !st.scratch(t)) && (forall t :: st.clean(t) == t)
    && (forall n :: !st.nanometres(n))
  }

  predicate Worth(st: Style, text: string) {
    text != "" && !st.blank(text)
  }

  /** A scalar as it is shown. */
  datatype Scalar = Scalar(text: string, kind: Kind)

  /** The scalars of a value that are worth showing, in order. */
  ghost function Scalars(st: Style, v: Json): seq<Scalar>
    decreases v
  {
    match v
    case Text(value) => if Worth(st, value) then [Scalar(value, StringKind)] else []
    case Literal(text, number) =>
      if Worth(st, text) then [Scalar(text, if number then NumberKind else KeywordKind)] else []
    case Container(_, members) => ScalarsAll(st, members)
  }

  ghost function ScalarsAll(st: Style, ms: seq<Member>): seq<Scalar>
    decreases ms
  {
    if ms == [] then [] else Scalars(st, ms[0].value) + ScalarsAll(st, ms[1..])
  }

  /** The nodes are leaves that show these scalars. */
  ghost predicate Show(st: Style, ns: seq<Node>, scalars: seq<Scalar>) {
    |ns| == |scalars| && forall i :: 0 <= i < |ns| ==> Shows(st, ns[i], scalars[i])
  }

  ghost predicate Shows(st: Style, n: Node, c: Scalar) {
    n.Leaf? && n.text == c.text && n.kind == c.kind && Worth(st, c.text)
  }

  lemma {:induction false} ShowJoin(st: Style, a: seq<Node>, x: seq<Scalar>, b: seq<Node>, y: seq<Scalar>)
    requires Show(st, a, x) && Show(st, b, y)
    ensures Show(st, a + b, x + y)
  {
  }

  lemma {:induction false} LeafShows(st: Style, name: string, value: string, kind: Kind)
    requires Quiet(st)
    ensures var r := MakeLeaf(st, name, value, kind);
            if Worth(st, value) then r.Some? && Shows(st, r.value, Scalar(value, kind)) else r == None
  {
  }

  lemma {:induction false} OneLeaf(st: Style, children: seq<Node>, scalars: seq<Scalar>)
    requires |children| == 1 && children[0].Leaf? && Show(st, LeavesAll(children), scalars)
    ensures scalars == [Scalar(children[0].text, children[0].kind)] && Worth(st, children[0].text)
  {
    assert children == [children[0]];
    LeavesOne(children[0]);
    assert Shows(st, LeavesAll(children)[0], scalars[0]);
  }

  lemma {:induction false} GroupShows(st: Style, name: string, values: seq<Option<Node>>, isList: bool,
                                      scalars: seq<Scalar>)
    requires Quiet(st) && Show(st, Present(values), scalars)
    ensures Show(st, LeavesOf(MakeGroup(st, name, values, isList)), scalars)
  {
    var children := Flattened(values);
    FlattenedLeaves(values);
    if |children| == 1 && children[0].Leaf? {
      OneLeaf(st, children, scalars);
      LeafShows(st, name, children[0].text, children[0].kind);
    }
  }

  /** For every value: the leaves of its tree are exactly its scalars worth showing, with their kinds, in order. */
  lemma {:induction false} TreeShows(st: Style, v: Json, name: string)
    requires Quiet(st)
    ensures Show(st, LeavesOf(Tree(st, v, name)), Scalars(st, v))
    decreases v
  {
    match v
    case Text(value) => LeafShows(st, name, value, StringKind);
    case Literal(text, number) => LeafShows(st, name, text, LiteralKind(number));
    case Container(isList, members) =>
      TreesShow(st, isList, members, 0);
      GroupShows(st, name, Trees(st, isList, members, 0), isList, ScalarsAll(st, members));
  }

  lemma {:induction false} TreesShow(st: Style, isList: bool, ms: seq<Member>, index: nat)
    requires Quiet(st)
    ensures Show(st, Present(Trees(st, isList, ms, index)), ScalarsAll(st, ms))
    decreases ms
  {
    if ms != [] {
      var first, rest := Tree(st, ms[0].value, MemberName(isList, ms[0], index)), Trees(st, isList, ms[1..], index + 1);
      TreeShows(st, ms[0].value, MemberName(isList, ms[0], index));
      TreesShow(st, isList, ms[1..], index + 1);
      assert ([first] + rest)[1..] == rest;
      ShowJoin(st, LeavesOf(first), Scalars(st, ms[0].value), Present(rest), ScalarsAll(st, ms[1..]));
    }
  }

  // ----- names -----

  /** The leaves with the names they are shown under: an object's keys, and the numbered items of a list. */
  ghost function Entries(st: Style, v: Json, name: string): seq<Node>
    decreases v
  {
    match v
    case Text(value) => if Worth(st, value) then [Leaf(st.caption(st.shown(name)), value, StringKind)] else []
    case Literal(text, number) =>
      if Worth(st, text) then [Leaf(st.caption(st.shown(name)), text, if number then NumberKind else KeywordKind)]
      else []
    case Container(isList, members) => EntriesAll(st, isList, members, 1)
  }

  ghost function EntriesAll(st: Style, isList: bool, ms: seq<Member>, number: nat): seq<Node>
    decreases ms
  {
    if ms == [] then []
    else Entries(st, ms[0].value, if isList then "Item " + Digits(number) else ms[0].key)
         + EntriesAll(st, isList, ms[1..], number + 1)
  }

  lemma {:induction false} GroupNames(st: Style, name: string, values: seq<Option<Node>>, isList: bool)
    requires Quiet(st) && forall n :: !st.plain(n)
    ensures LeavesOf(MakeGroup(st, name, values, isList)) == Present(values)
  {
    FlattenedLeaves(values);
  }

  /** When no name is plain enough to stand for its group, every leaf keeps the name of its own member. */
  lemma {:induction false} TreeNames(st: Style, v: Json, name: string)
    requires Quiet(st) && forall n :: !st.plain(n)
    ensures LeavesOf(Tree(st, v, name)) == Entries(st, v, name)
    decreases v
  {
    match v
    case Text(value) =>
    case Literal(text, number) =>
    case Container(isList, members) =>
      TreesNames(st, isList, members, 0);
      GroupNames(st, name, Trees(st, isList, members, 0), isList);
  }

  lemma {:induction false} TreesNames(st: Style, isList: bool, ms: seq<Member>, index: nat)
    requires Quiet(st) && forall n :: !st.plain(n)
    ensures Present(Trees(st, isList, ms, index)) == EntriesAll(st, isList, ms, index + 1)
    decreases ms
  {
    if ms != [] {
      var first, rest := Tree(st, ms[0].value, MemberName(isList, ms[0], index)), Trees(st, isList, ms[1..], index + 1);
      TreeNames(st, ms[0].value, MemberName(isList, ms[0], index));
      TreesNames(st, isList, ms[1..], index + 1);
      assert ([first] + rest)[1..] == rest;
    }
  }

  // ----- where each leaf stands, in any style -----

  /** A heading over a leaf. */
  datatype Heading = Heading(name: string, isList: bool)

  /** A leaf and the headings over it, outermost first. */
  datatype Place = Place(above: seq<Heading>, leaf: Node)

  ghost function Under(name: string, isList: bool, ps: seq<Place>): seq<Place> {
    if name == "" then ps
    else seq(|ps|, i requires 0 <= i < |ps| => Place([Heading(name, isList)] + ps[i].above, ps[i].leaf))
  }

  ghost function Places(n: Node): seq<Place>
    decreases n
  {
    match n
    case Leaf(_, _, _) => [Place([], n)]
    case Group(name, children, isList) => Under(name, isList, PlacesAll(children))
  }

  ghost function PlacesAll(ns: seq<Node>): seq<Place>
    decreases ns
  {
    if ns == [] then [] else Places(ns[0]) + PlacesAll(ns[1..])
  }

  ghost function PlacesOf(value: Option<Node>): seq<Place> {
    match value case None => [] case Some(n) => Places(n)
  }

  ghost function PlacesPresent(values: seq<Option<Node>>): seq<Place> {
    if values == [] then [] else PlacesOf(values[0]) + PlacesPresent(values[1..])
  }

  /** The places under a container. A lone leaf with a plain name stands for its container, nameless in a wrapper.
      Otherwise the container's caption is one more heading, except that a wrapper gives none. */
  ghost function Gathered(st: Style, name: string, isList: bool, inner: seq<Place>): seq<Place> {
    if st.internal(name) then []
    else if |inner| == 1 && inner[0].above == [] && inner[0].leaf.Leaf? && st.plain(inner[0].leaf.name) then
      if st.wrapper(name) then [Place([], Leaf("", inner[0].leaf.text, inner[0].leaf.kind))]
      else PlacesOf(MakeLeaf(st, name, inner[0].leaf.text, inner[0].leaf.kind))
    else if st.wrapper(name) then inner
    else Under(st.caption(name), isList, inner)
  }

  /** The leaves of a value with their headings, without any tree. */
  ghost function Outline(st: Style, v: Json, name: string): seq<Place>
    decreases v
  {
    match v
    case Text(value) => PlacesOf(MakeLeaf(st, name, value, StringKind))
    case Literal(text, number) => PlacesOf(MakeLeaf(st, name, text, if number then NumberKind else KeywordKind))
    case Container(isList, members) => Gathered(st, name, isList, OutlineAll(st, isList, members, 1))
  }

  ghost function OutlineAll(st: Style, isList: bool, ms: seq<Member>, number: nat): seq<Place>
    decreases ms
  {
    if ms == [] then []
    else Outline(st, ms[0].value, if isList then "Item " + Digits(number) else ms[0].key)
         + OutlineAll(st, isList, ms[1..], number + 1)
  }

  lemma {:induction false} PlacesJoin(a: seq<Node>, b: seq<Node>)
    ensures PlacesAll(a + b) == PlacesAll(a) + PlacesAll(b)
  {
    if a == [] {
      assert a + b == b;
    } else {
      PlacesJoin(a[1..], b);
      assert (a + b)[1..] == a[1..] + b;
      Associative(Places(a[0]), PlacesAll(a[1..]), PlacesAll(b));
    }
  }

  lemma {:induction false} PlacesOne(n: Node)
    ensures PlacesAll([n]) == Places(n)
  {
    assert [n][1..] == [] && Places(n) + [] == Places(n);
  }

  /** Flattening moves no leaf to another heading. */
  lemma {:induction false} FlattenedPlaces(values: seq<Option<Node>>)
    ensures PlacesAll(Flattened(values)) == PlacesPresent(values)
  {
    if values != [] {
      var first := match values[0]
                   case None => []
                   case Some(n) => if n.Group? && n.name == "" then n.children else [n];
      if values[0].Some? { PlacesOne(values[0].value); }
      FlattenedPlaces(values[1..]);
      PlacesJoin(first, Flattened(values[1..]));
    }
  }

  lemma {:induction false} NodeHasPlaces(st: Style, n: Node)
    requires Normal(st, n) && Proper(n)
    ensures Places(n) != []
    ensures n.Group? ==> forall i :: 0 <= i < |Places(n)| ==> Places(n)[i].above != []
    decreases n
  {
    if n.Group? { NodeHasPlaces(st, n.children[0]); }
  }

  lemma {:induction false} LonePlace(st: Style, children: seq<Node>)
    requires NormalList(st, children)
    ensures |PlacesAll(children)| == 1 && PlacesAll(children)[0].above == [] <==> |children| == 1 && children[0].Leaf?
  {
    if children != [] {
      NodeHasPlaces(st, children[0]);
      if |children| > 1 {
        NodeHasPlaces(st, children[1]);
        assert children[1..][0] == children[1];
      } else {
        assert children == [children[0]];
        PlacesOne(children[0]);
      }
    }
  }

  lemma {:induction false} LonePlaced(st: Style, children: seq<Node>, inner: seq<Place>)
    requires NormalList(st, children) && inner == PlacesAll(children)
    ensures |inner| == 1 && inner[0].above == [] <==> |children| == 1 && children[0].Leaf?
    ensures |children| == 1 && children[0].Leaf? ==> inner[0].leaf == children[0]
  {
    LonePlace(st, children);
    if |children| == 1 {
      assert children == [children[0]];
      PlacesOne(children[0]);
    }
  }

  lemma {:induction false} GroupPlaces(st: Style, name: string, values: seq<Option<Node>>, isList: bool)
    requires NormalOptions(st, values)
    ensures PlacesOf(MakeGroup(st, name, values, isList)) == Gathered(st, name, isList, PlacesPresent(values))
  {
    FlattenedPlaces(values);
    FlattenedNormal(st, values);
    LonePlaced(st, Flattened(values), PlacesPresent(values));
  }

  /** For every value in every style: each leaf of the tree stands under the headings its containers give it, and the
      leaves are those of the value, in order. */
  lemma {:induction false} TreeOutline(st: Style, v: Json, name: string)
    ensures PlacesOf(Tree(st, v, name)) == Outline(st, v, name)
    decreases v
  {
    match v
    case Text(value) =>
    case Literal(text, number) =>
    case Container(isList, members) =>
      TreesOutline(st, isList, members, 0);
      TreesNormal(st, isList, members, 0);
      GroupPlaces(st, name, Trees(st, isList, members, 0), isList);
  }

  lemma {:induction false} TreesOutline(st: Style, isList: bool, ms: seq<Member>, index: nat)
    ensures PlacesPresent(Trees(st, isList, ms, index)) == OutlineAll(st, isList, ms, index + 1)
    decreases ms
  {
    if ms != [] {
      var first, rest := Tree(st, ms[0].value, MemberName(isList, ms[0], index)), Trees(st, isList, ms[1..], index + 1);
      TreeOutline(st, ms[0].value, MemberName(isList, ms[0], index));
      TreesOutline(st, isList, ms[1..], index + 1);
      assert ([first] + rest)[1..] == rest;
    }
  }

  lemma {:induction false} NumAppend(s: string, c: char)
    requires D.Digits(s) && '0' <= c <= '9'
    ensures D.Digits(s + [c]) && D.Num(s + [c]) == 10 * D.Num(s) + (c as int - '0' as int)
  {
    var t := s + [c];
    assert t[..|t| - 1] == s && t[|t| - 1] == c;
  }

  lemma {:induction false} DigitChar(k: nat)
    requires k < 10
    ensures var c := k as char + '0'; '0' <= c <= '9' && c as int - '0' as int == k
  {
  }

  /** Items are numbered in decimal. */
  lemma {:induction false} DigitsMeans(n: nat)
    ensures D.Digits(Digits(n)) && Digits(n) != "" && D.Num(Digits(n)) == n
    ensures n > 0 ==> Digits(n)[0] != '0'
  {
    var front, c := if n < 10 then "" else Digits(n / 10), (n % 10) as char + '0';
    DigitChar(n % 10);
    assert Digits(n) == front + [c];
    if n >= 10 { DigitsMeans(n / 10); }
    NumAppend(front, c);
  }

  // ----- one leaf, in any style -----

  /** The shown number is exactly a millionth of the integer. */
  ghost predicate Millionths(text: string, shown: string) {
    var d, n := D.Parse(shown), D.Parse(text);
    && D.Valid(d) && |d.fraction| <= 6 && D.Valid(n) && |n.fraction| <= 0 && D.Value(d, 6) == D.Value(n, 0)
  }

  lemma {:induction false} MillimetresShown(text: string)
    requires D.IsInteger(text)
    ensures Millionths(text, D.Millimetres(text))
  {
    D.MillimetresExact(text, D.Parse(D.Millimetres(text)));
  }

  /** What is kept of a scalar, and what it shows: a number of nanometres as exactly that many millionths. */
  lemma {:induction false} LeafMeans(st: Style, name: string, value: string, kind: Kind)
    ensures var r := MakeLeaf(st, name, value, kind);
            var text := if kind == NumberKind then value else st.clean(value);
            && (r.Some? <==> !st.internal(name) && !st.scratch(value) && Worth(st, text))
            && (r.Some? ==> r.value.Leaf? && r.value.kind == kind)
            && (r.Some? && kind == NumberKind && st.nanometres(name) && D.IsInteger(text) ==>
                  Millionths(text, r.value.text) && r.value.name == st.caption(st.rescaled(name)))
            && (r.Some? && !(kind == NumberKind && st.nanometres(name) && D.IsInteger(text)) ==>
                  r.value.text == text && r.value.name == st.caption(st.shown(name)))
  {
    var text := if kind == NumberKind then value else st.clean(value);
    if D.IsInteger(text) { MillimetresShown(text); }
  }
}
