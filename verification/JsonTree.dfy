/** The preview tree of a JSON artifact: how values become named leaves and
    groups, and the normal form of every tree. The value grammar is that of
    sections 3 to 6 of RFC 8259. */
module JsonTree {
  import opened Common
  import D = Decimals

  datatype Kind = NumberKind | KeywordKind | StringKind

  datatype Node = Leaf(name: string, text: string, kind: Kind) | Group(name: string, children: seq<Node>, isList: bool)

  /** The pattern matching and text cleaning the preview relies on. */
  datatype Style = Style(internal: string -> bool, scratch: string -> bool, clean: string -> string,
                         blank: string -> bool,
                         nanometres: string -> bool, rescaled: string -> string,
                         shown: string -> string, caption: string -> string,
                         wrapper: string -> bool, plain: string -> bool)

  function MakeLeaf(st: Style, name: string, value: string, kind: Kind): Option<Node> {
    if st.internal(name) || st.scratch(value) then None
    else
      var text := if kind == NumberKind then value else st.clean(value);
      if text == "" || st.blank(text) then None
      else if kind == NumberKind && st.nanometres(name) && D.IsInteger(text) then
        Some(Leaf(st.caption(st.rescaled(name)), D.Millimetres(text), kind))
      else Some(Leaf(st.caption(st.shown(name)), text, kind))
  }

  /** What is present, with the children of unnamed groups in their place. */
  function Flattened(values: seq<Option<Node>>): seq<Node> {
    if values == [] then []
    else
      (match values[0]
       case None => []
       case Some(n) => if n.Group? && n.name == "" then n.children else [n]) + Flattened(values[1..])
  }

  function MakeGroup(st: Style, name: string, values: seq<Option<Node>>, isList: bool): Option<Node> {
    var children := Flattened(values);
    if st.internal(name) || children == [] then None
    else if |children| == 1 && children[0].Leaf? && st.plain(children[0].name) then
      if st.wrapper(name) then Some(Leaf("", children[0].text, children[0].kind))
      else MakeLeaf(st, name, children[0].text, children[0].kind)
    else Some(Group(if st.wrapper(name) then "" else st.caption(name), children, isList))
  }

  // ----- values -----

  datatype Json = Text(value: string) | Literal(text: string, number: bool)
    | Container(isList: bool, members: seq<Member>)

  /** A member of an object, or an item of an array, where the key plays no part. */
  datatype Member = Member(key: string, value: Json)

  function Digits(n: nat): string {
    (if n < 10 then "" else Digits(n / 10)) + [(n % 10) as char + '0']
  }

  function MemberName(isList: bool, m: Member, index: nat): string {
    if isList then "Item " + Digits(index + 1) else m.key
  }

  function LiteralKind(number: bool): Kind {
    if number then NumberKind else KeywordKind
  }

  /** The tree by structural recursion. */
  function Tree(st: Style, v: Json, name: string): Option<Node>
    decreases v
  {
    match v
    case Text(value) => MakeLeaf(st, name, value, StringKind)
    case Literal(text, number) => MakeLeaf(st, name, text, LiteralKind(number))
    case Container(isList, members) => MakeGroup(st, name, Trees(st, isList, members, 0), isList)
  }

  function Trees(st: Style, isList: bool, ms: seq<Member>, index: nat): seq<Option<Node>>
    decreases ms
  {
    if ms == [] then []
    else [Tree(st, ms[0].value, MemberName(isList, ms[0], index))] + Trees(st, isList, ms[1..], index + 1)
  }

  function Nodes(v: Json): (n: nat)
    ensures n >= 1
    decreases v
  {
    if v.Container? then 1 + NodesAll(v.members) else 1
  }

  function NodesAll(ms: seq<Member>): nat
    decreases ms
  {
    if ms == [] then 0 else Nodes(ms[0].value) + NodesAll(ms[1..])
  }

  function Height(v: Json): nat
    decreases v
  {
    if v.Container? then HeightAll(v.members) else 0
  }

  function HeightAll(ms: seq<Member>): nat
    decreases ms
  {
    if ms == [] then 0
    else
      var first, rest := 1 + Height(ms[0].value), HeightAll(ms[1..]);
      if first > rest then first else rest
  }

  // ----- the shape of every tree -----

  /** No empty group, no unnamed group inside a group, no group around one plainly named leaf, no empty leaf. */
  ghost predicate Normal(st: Style, n: Node)
    decreases n
  {
    match n
    case Leaf(_, text, _) => text != ""
    case Group(_, children, _) =>
      && children != [] && !(|children| == 1 && children[0].Leaf? && st.plain(children[0].name))
      && (forall i :: 0 <= i < |children| ==> Proper(children[i]) && Normal(st, children[i]))
  }

  predicate Proper(n: Node) {
    n.Leaf? || n.name != ""
  }

  lemma {:induction false} LeafNormal(st: Style, name: string, value: string, kind: Kind)
    ensures var r := MakeLeaf(st, name, value, kind); r.Some? ==> r.value.Leaf? && Normal(st, r.value)
  {
    var text := if kind == NumberKind then value else st.clean(value);
    if D.IsInteger(text) {
      D.MillimetresExact(text, D.Parse(D.Millimetres(text)));
    }
  }

  ghost predicate NormalList(st: Style, ns: seq<Node>) {
    forall i :: 0 <= i < |ns| ==> Proper(ns[i]) && Normal(st, ns[i])
  }

  ghost predicate NormalOptions(st: Style, values: seq<Option<Node>>) {
    forall i :: 0 <= i < |values| ==> values[i].Some? ==> Normal(st, values[i].value)
  }

  lemma {:induction false} FlattenedNormal(st: Style, values: seq<Option<Node>>)
    requires NormalOptions(st, values)
    ensures NormalList(st, Flattened(values))
  {
    if values != [] {
      FlattenedNormal(st, values[1..]);
    }
  }

  lemma {:induction false} GroupNormal(st: Style, name: string, values: seq<Option<Node>>, isList: bool)
    requires NormalOptions(st, values)
    ensures var r := MakeGroup(st, name, values, isList); r.Some? ==> Normal(st, r.value)
  {
    var children := Flattened(values);
    FlattenedNormal(st, values);
    if children != [] && children[0].Leaf? {
      LeafNormal(st, name, children[0].text, children[0].kind);
    }
  }

  /** Whatever the value, its tree is in normal form. */
  lemma {:induction false} TreeNormal(st: Style, v: Json, name: string)
    ensures var r := Tree(st, v, name); r.Some? ==> Normal(st, r.value)
    decreases v
  {
    match v
    case Text(value) => LeafNormal(st, name, value, StringKind);
    case Literal(text, number) => LeafNormal(st, name, text, LiteralKind(number));
    case Container(isList, members) =>
      TreesNormal(st, isList, members, 0);
      GroupNormal(st, name, Trees(st, isList, members, 0), isList);
  }

  lemma {:induction false} TreesNormal(st: Style, isList: bool, ms: seq<Member>, index: nat)
    ensures NormalOptions(st, Trees(st, isList, ms, index))
    decreases ms
  {
    if ms != [] {
      TreeNormal(st, ms[0].value, MemberName(isList, ms[0], index));
      TreesNormal(st, isList, ms[1..], index + 1);
    }
  }
}
